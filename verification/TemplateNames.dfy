/** Which references the Teams destination replaces, with any text around them. */
module TemplateNames {
  import opened Sequences
  import opened TemplateSubstitution

  predicate BeginsName(c: char)
  {
    c == '_' || 'a' <= c <= 'z' || 'A' <= c <= 'Z'
  }

  /** A letter or an underscore, and then letters, digits and underscores. */
  predicate IsName(s: string)
  {
    s != "" && BeginsName(s[0]) && forall i :: 0 <= i < |s| ==> BeginsName(s[i]) || '0' <= s[i] <= '9'
  }

  /** Text, and behind it a pair of braces with text inside. */
  datatype Piece = Piece(before: string, inside: string)

  function Template(pieces: seq<Piece>, end: string): string
  {
    if pieces == [] then end else
    pieces[0].before + ("{" + pieces[0].inside + "}" + Template(pieces[1..], end))
  }

  /** What a known name in braces is replaced by; anything else in braces stays. */
  function Braces(inside: string, values: Values): string
  {
    if IsName(inside) && inside in values then values[inside] else "{" + inside + "}"
  }

  /** The known names in braces replaced, and nothing else changed. */
  function Filled(pieces: seq<Piece>, end: string, values: Values): string
  {
    if pieces == [] then end else
    pieces[0].before + Braces(pieces[0].inside, values) + Filled(pieces[1..], end, values)
  }

  /** No dollar sign, and no opening brace right before a letter or an underscore. */
  ghost predicate Outside(s: string)
  {
    forall i :: 0 <= i < |s| ==>
      s[i] != '$' && (s[i] == '{' && i + 1 < |s| ==> !BeginsName(s[i + 1]))
  }

  ghost predicate Inside(s: string)
  {
    forall i :: 0 <= i < |s| ==> s[i] != '$' && s[i] != '{' && s[i] != '}'
  }

  ghost predicate WellFormed(pieces: seq<Piece>, end: string)
  {
    Outside(end) && forall i :: 0 <= i < |pieces| ==> Outside(pieces[i].before) && Inside(pieces[i].inside)
  }

  lemma {:induction false} NameRun(s: string, rest: string)
    requires forall i :: 0 <= i < |s| ==> BeginsName(s[i]) || '0' <= s[i] <= '9'
    ensures IdentRun(s + ("}" + rest)) == |s|
  {
    var t := s + ("}" + rest);
    if s != "" {
      assert t[1..] == s[1..] + ("}" + rest);
      NameRun(s[1..], rest);
    }
  }

  /** The grammar of the template finds a name in the braces exactly if there is one. */
  lemma NameLength(inside: string, rest: string)
    requires Inside(inside)
    ensures BracedLength(inside + ("}" + rest)) == if IsName(inside) then |inside| else 0
  {
    var t := inside + ("}" + rest);
    var n := BracedLength(t);
    assert t[|inside|] == '}' && forall i :: 0 <= i < |inside| ==> t[i] == inside[i];
    if n > 0 {
      assert t[n] == '}' && forall i :: 0 <= i < n ==> IdentChar(t[i]);
      assert n == |inside| && IsName(inside);
    }
    if IsName(inside) {
      NameRun(inside, rest);
    }
  }

  lemma ScanSteps(t: string, values: Values)
    requires t != "" && (t[0] == '{' ==> BracedLength(t[1..]) == 0)
    ensures Scan(t, values) == [t[0]] + Scan(t[1..], values)
  {
    hide BracedLength;
  }

  lemma OpensNothing(t: string)
    requires t != "" && (t[0] == '{' && |t| > 1 ==> !BeginsName(t[1]))
    ensures t[0] == '{' ==> BracedLength(t[1..]) == 0
  {
  }

  /** Text outside the braces is copied. */
  lemma {:induction false} CopiesOutside(s: string, rest: string, values: Values)
    requires Outside(s) && (rest == "" || !BeginsName(rest[0]))
    ensures Scan(s + rest, values) == s + Scan(rest, values)
  {
    if s == "" {
      assert s + rest == rest;
    } else {
      var t := s + rest;
      assert t[0] == '{' && |t| > 1 ==> !BeginsName(t[1]);
      assert Outside(s[1..]);
      hide *;
      OpensNothing(t);
      ScanSteps(t, values);
      assert t[1..] == s[1..] + rest && [s[0]] + s[1..] == s && t[0] == s[0];
      CopiesOutside(s[1..], rest, values);
      Associative([s[0]], s[1..], Scan(rest, values));
    }
  }

  /** A pair of braces is replaced if it holds a known name, and else copied. */
  lemma FillsBraces(inside: string, rest: string, values: Values)
    requires Inside(inside)
    ensures Scan("{" + inside + "}" + rest, values) == Braces(inside, values) + Scan(rest, values)
  {
    var t := inside + ("}" + rest);
    NameLength(inside, rest);
    assert "{" + inside + "}" + rest == "{" + t && ("{" + t)[1..] == t && t == inside + "}" + rest;
    hide BracedLength, IsName, Scan;
    if BracedLength(t) > 0 {
      ScanAtBraced(inside, rest, values);
    } else {
      ScanSteps("{" + t, values);
      Associative(inside, "}", rest);
      ScanCopies(inside + "}", rest, values);
      Associative("{", inside + "}", Scan(rest, values));
      Associative("{", inside, "}");
    }
  }

  lemma ScanPiece(p: Piece, rest: string, values: Values)
    requires Outside(p.before) && Inside(p.inside)
    ensures Scan(p.before + ("{" + p.inside + "}" + rest), values) ==
            p.before + Braces(p.inside, values) + Scan(rest, values)
  {
    var t := "{" + p.inside + "}" + rest;
    CopiesOutside(p.before, t, values);
    FillsBraces(p.inside, rest, values);
    hide *;
    Associative(p.before, Braces(p.inside, values), Scan(rest, values));
  }

  lemma {:induction false} ScanFills(pieces: seq<Piece>, end: string, values: Values)
    requires WellFormed(pieces, end)
    ensures Scan(Template(pieces, end), values) == Filled(pieces, end, values)
  {
    assert Scan("", values) == "";
    hide Scan, Braces, Outside, Inside;
    if pieces == [] {
      CopiesOutside(end, "", values);
      assert end + "" == end;
    } else {
      ScanPiece(pieces[0], Template(pieces[1..], end), values);
      ScanFills(pieces[1..], end, values);
    }
  }

  lemma {:induction false} NoDollarSign(pieces: seq<Piece>, end: string)
    requires WellFormed(pieces, end)
    ensures DollarFree(Template(pieces, end))
  {
    if pieces != [] {
      NoDollarSign(pieces[1..], end);
    }
  }

  /** In a template without dollar signs exactly the known names in braces are replaced. A name is a letter or an
      underscore followed by letters, digits and underscores, and the braces of JSON around it are no references. */
  lemma FillsTemplate(pieces: seq<Piece>, end: string, values: Values)
    requires WellFormed(pieces, end) && DollarFreeValues(values)
    ensures JsonStringSubstitute(Template(pieces, end), values) == Filled(pieces, end, values)
  {
    NoDollarSign(pieces, end);
    ScanFills(pieces, end, values);
    DollarFreeTemplate(Template(pieces, end), values);
  }
}
