/** json_string_substitute: three passes over a template, and the single scan they amount to. */
module TemplateSubstitution {

  type Values = map<string, string>

  // ---- string.Template ----

  predicate IdentStart(c: char)
  {
    c == '_' || 'a' <= c <= 'z' || 'A' <= c <= 'Z'
  }

  predicate IdentChar(c: char)
  {
    IdentStart(c) || '0' <= c <= '9'
  }

  function IdentRun(s: string): (n: nat)
    ensures n <= |s|
    ensures forall i :: 0 <= i < n ==> IdentChar(s[i])
    ensures n < |s| ==> !IdentChar(s[n])
  {
    if s != "" && IdentChar(s[0]) then 1 + IdentRun(s[1..]) else 0
  }

  /** The length of the longest identifier the text begins with; 0 when there is none. */
  function IdentLength(s: string): (n: nat)
    ensures n <= |s|
    ensures forall i :: 0 <= i < n ==> IdentChar(s[i])
  {
    if s != "" && IdentStart(s[0]) then IdentRun(s) else 0
  }

  /** The length of the identifier in a text of the form name}..., else 0. */
  function BracedLength(s: string): (n: nat)
    ensures n > 0 ==> n < |s| && s[n] == '}' && n == IdentLength(s)
  {
    var n := IdentLength(s);
    if n < |s| && s[n] == '}' then n else 0
  }

  function Known(values: Values, name: string, otherwise: string): string
  {
    if name in values then values[name] else otherwise
  }

  /** Template(t).safe_substitute(values): $$, $name, ${name} and any other $, left to right. */
  function SafeSubstitute(t: string, values: Values): string
    decreases |t|
  {
    if t == "" then "" else
    if t[0] != '$' then [t[0]] + SafeSubstitute(t[1..], values) else
    if |t| > 1 && t[1] == '$' then "$" + SafeSubstitute(t[2..], values) else
    var n := IdentLength(t[1..]);
    if n > 0 then Known(values, t[1..1 + n], t[..1 + n]) + SafeSubstitute(t[1 + n..], values) else
    var m := if |t| > 1 && t[1] == '{' then BracedLength(t[2..]) else 0;
    if m > 0 then Known(values, t[2..2 + m], t[..3 + m]) + SafeSubstitute(t[3 + m..], values) else
    "$" + SafeSubstitute(t[1..], values)
  }

  /** str.replace("{", "${") */
  function Escape(s: string): string
  {
    if s == "" then "" else (if s[0] == '{' then "${" else [s[0]]) + Escape(s[1..])
  }

  /** str.replace("${", "{") */
  function Unescape(s: string): string
    decreases |s|
  {
    if s == "" then "" else
    if s[0] == '$' && |s| > 1 && s[1] == '{' then "{" + Unescape(s[2..]) else [s[0]] + Unescape(s[1..])
  }

  function JsonStringSubstitute(j: string, values: Values): string
  {
    if values != map[] then Unescape(SafeSubstitute(Escape(j), values)) else j
  }

  // ---- what it is meant to be ----

  /** Replaces {name} for the known names and copies everything else. */
  function Scan(j: string, values: Values): string
    decreases |j|
  {
    if j == "" then "" else
    var n := if j[0] == '{' then BracedLength(j[1..]) else 0;
    if n > 0 && j[1..1 + n] in values then values[j[1..1 + n]] + Scan(j[2 + n..], values)
    else [j[0]] + Scan(j[1..], values)
  }

  // ---- what it is, for every template ----

  /** The substituted text begins with a brace that comes from a value. */
  predicate BeginsWithValueBrace(j: string, values: Values)
    decreases |j|
  {
    if j == "" then false else
    var n := if j[0] == '{' then BracedLength(j[1..]) else if j[0] == '$' then IdentLength(j[1..]) else 0;
    if n > 0 && j[1..1 + n] in values then
      var v, rest := values[j[1..1 + n]], if j[0] == '{' then j[2 + n..] else j[1 + n..];
      if v == "" then BeginsWithValueBrace(rest, values) else v[0] == '{'
    else false
  }

  /** The single scan with the rules for $: $$ becomes $ (lost before a value that begins with a brace), ${
      becomes {, and $name is replaced like {name}. */
  function DollarScan(j: string, values: Values): string
    decreases |j|
  {
    if j == "" then "" else
    if j[0] == '{' then
      var n := BracedLength(j[1..]);
      if n > 0 then Known(values, j[1..1 + n], j[..2 + n]) + DollarScan(j[2 + n..], values)
      else "{" + DollarScan(j[1..], values)
    else if j[0] == '$' then
      var n := IdentLength(j[1..]);
      if |j| > 1 && j[1] == '$' then
        (if BeginsWithValueBrace(j[2..], values) then "" else "$") + DollarScan(j[2..], values)
      else if |j| > 1 && j[1] == '{' then "{" + DollarScan(j[2..], values)
      else if n > 0 then Known(values, j[1..1 + n], j[..1 + n]) + DollarScan(j[1 + n..], values)
      else "$" + DollarScan(j[1..], values)
    else [j[0]] + DollarScan(j[1..], values)
  }

  ghost predicate DollarFree(s: string)
  {
    forall i :: 0 <= i < |s| ==> s[i] != '$'
  }

  ghost predicate DollarFreeValues(values: Values)
  {
    forall name :: name in values ==> DollarFree(values[name])
  }

  // ---- the passes, piece by piece ----

  lemma {:induction false} EscapeText(s: string, rest: string)
    requires forall i :: 0 <= i < |s| ==> s[i] != '{'
    ensures Escape(s + rest) == s + Escape(rest)
  {
    if s == "" {
      assert s + rest == rest;
    } else {
      assert (s + rest)[1..] == s[1..] + rest;
      EscapeText(s[1..], rest);
    }
  }

  lemma {:induction false} UnescapeText(s: string, rest: string)
    requires DollarFree(s)
    ensures Unescape(s + rest) == s + Unescape(rest)
  {
    if s == "" {
      assert s + rest == rest;
    } else {
      assert (s + rest)[1..] == s[1..] + rest;
      UnescapeText(s[1..], rest);
    }
  }

  lemma EscapeFirst(s: string)
    ensures Escape(s) == "" <==> s == ""
    ensures s != "" ==> Escape(s)[0] == if s[0] == '{' then '$' else s[0]
  {
  }

  /** Escaping does not touch identifiers or what ends them. */
  lemma EscapeKeepsRun(s: string)
    ensures IdentRun(Escape(s)) == IdentRun(s)
    ensures Escape(s)[..IdentRun(s)] == s[..IdentRun(s)]
    ensures Escape(s)[IdentRun(s)..] == Escape(s[IdentRun(s)..])
  {
    hide Escape, IdentRun;
    var n := IdentRun(s);
    assert s == s[..n] + s[n..];
    EscapeText(s[..n], s[n..]);
    EscapeFirst(s[n..]);
    var e, m := Escape(s), IdentRun(Escape(s));
    assert forall i :: 0 <= i < n ==> e[i] == s[i];
    assert n < |e| ==> e[n] == Escape(s[n..])[0];
  }

  lemma EscapeKeepsIdent(s: string)
    ensures IdentLength(Escape(s)) == IdentLength(s)
    ensures Escape(s)[..IdentLength(s)] == s[..IdentLength(s)]
    ensures Escape(s)[IdentLength(s)..] == Escape(s[IdentLength(s)..])
  {
    EscapeKeepsRun(s);
    EscapeFirst(s);
  }

  lemma EscapeKeepsBraced(s: string)
    ensures BracedLength(Escape(s)) == BracedLength(s)
    ensures var n := BracedLength(s); n > 0 ==> Escape(s)[..n] == s[..n] && Escape(s)[n + 1..] == Escape(s[n + 1..])
  {
    var n := IdentLength(s);
    EscapeKeepsIdent(s);
    EscapeFirst(s[n..]);
    if n < |s| {
      assert Escape(s)[n] == Escape(s[n..])[0];
      assert s[n..][1..] == s[n + 1..];
      if s[n] == '}' {
        assert Escape(s[n..]) == "}" + Escape(s[n + 1..]);
        assert Escape(s)[n + 1..] == Escape(s)[n..][1..];
      }
    } else {
      assert s[n..] == "";
      assert Escape(s)[n..] == "";
    }
  }

  // ---- the refinement ----

  /** The three passes give what the scan gives, and the substituted text begins with a brace when the scan says so. */
  ghost predicate Refines(j: string, values: Values)
  {
    Unescape(SafeSubstitute(Escape(j), values)) == DollarScan(j, values) &&
    (BeginsWithValueBrace(j, values) <==>
       SafeSubstitute(Escape(j), values) != "" && SafeSubstitute(Escape(j), values)[0] == '{')
  }

  lemma UnescapeBrace(rest: string)
    ensures Unescape("${" + rest) == "{" + Unescape(rest)
  {
    assert ("${" + rest)[2..] == rest;
  }

  lemma UnescapeDollar(rest: string)
    requires rest == "" || rest[0] != '{'
    ensures Unescape("$" + rest) == "$" + Unescape(rest)
  {
    assert ("$" + rest)[1..] == rest;
  }

  lemma DollarSwallowed(rest: string)
    requires rest != "" && rest[0] == '{'
    ensures Unescape("$" + rest) == Unescape(rest)
  {
    assert rest == "{" + rest[1..];
    assert "$" + rest == "${" + rest[1..];
    UnescapeBrace(rest[1..]);
    UnescapeText("{", rest[1..]);
  }

  /** A plain character. */
  lemma RefinesPlain(j: string, values: Values)
    requires j != "" && j[0] != '$' && j[0] != '{' && Refines(j[1..], values)
    ensures Refines(j, values)
  {
    var rest := SafeSubstitute(Escape(j[1..]), values);
    assert Escape(j) == [j[0]] + Escape(j[1..]);
    assert Escape(j)[1..] == Escape(j[1..]);
    assert SafeSubstitute(Escape(j), values) == [j[0]] + rest;
    UnescapeText([j[0]], rest);
  }

  lemma EscapedBraced(name: string, after: string)
    requires BracedLength(name + "}" + after) == |name| > 0
    ensures Escape("{" + name + "}" + after) == "${" + (name + "}" + Escape(after))
    ensures BracedLength(name + "}" + Escape(after)) == |name|
  {
    var s, n := name + "}" + after, |name|;
    var e := Escape(s);
    EscapeKeepsBraced(s);
    EscapeBrace(s);
    assert n < |e| && e[n] == '}';
    hide *;
    assert s[..n] == name && s[n + 1..] == after;
    assert "{" + name + "}" + after == "{" + s;
    AroundBrace(e, name, Escape(after));
  }

  lemma AroundBrace(e: string, name: string, rest: string)
    requires |name| < |e| && e[..|name|] == name && e[|name|] == '}' && e[|name| + 1..] == rest
    ensures e == name + "}" + rest
  {
  }

  lemma EscapeBrace(s: string)
    requires BracedLength(s) > 0
    ensures Escape("{" + s) == "${" + Escape(s)
  {
    assert ("{" + s)[1..] == s;
  }

  lemma BracedSlices(name: string, after: string)
    ensures var t, m := "${" + (name + "}" + after), |name|;
            t[0] == '$' && t[1] == '{' && t[2..] == name + "}" + after && t[2..2 + m] == name &&
            t[..3 + m] == "${" + name + "}" && t[3 + m..] == after
  {
  }

  lemma SubstituteBraced(name: string, after: string, values: Values)
    requires BracedLength(name + "}" + after) == |name| > 0
    ensures SafeSubstitute("${" + (name + "}" + after), values) ==
            Known(values, name, "${" + name + "}") + SafeSubstitute(after, values)
  {
    var t := "${" + (name + "}" + after);
    BracedSlices(name, after);
    hide SafeSubstitute, BracedLength, Known;
    SubstituteAtBraced(t, |name|, values);
  }

  lemma SubstituteAtBraced(t: string, m: nat, values: Values)
    requires |t| > 1 && t[0] == '$' && t[1] == '{' && BracedLength(t[2..]) == m > 0
    ensures SafeSubstitute(t, values) == Known(values, t[2..2 + m], t[..3 + m]) + SafeSubstitute(t[3 + m..], values)
  {
    assert IdentLength(t[1..]) == 0;
    hide IdentLength, BracedLength, Known;
  }

  lemma ScanBraced(name: string, after: string, values: Values)
    requires BracedLength(name + "}" + after) == |name| > 0
    ensures DollarScan("{" + name + "}" + after, values) ==
            Known(values, name, "{" + name + "}") + DollarScan(after, values)
  {
    var j, n := "{" + name + "}" + after, |name|;
    assert j[0] == '{' && j[1..] == name + "}" + after;
    assert j[1..1 + n] == name && j[..2 + n] == "{" + name + "}" && j[2 + n..] == after;
    hide BracedLength, IdentLength, Known;
  }

  lemma BeginsBraced(name: string, after: string, values: Values)
    requires BracedLength(name + "}" + after) == |name| > 0
    ensures BeginsWithValueBrace("{" + name + "}" + after, values) ==
            (name in values &&
             if values[name] == "" then BeginsWithValueBrace(after, values) else values[name][0] == '{')
  {
    var j, n := "{" + name + "}" + after, |name|;
    assert j[0] == '{' && j[1..] == name + "}" + after;
    assert j[1..1 + n] == name && j[2 + n..] == after;
    hide BracedLength, IdentLength;
  }

  /** The text emitted for a reference begins with a brace. */
  ghost predicate EmitsBrace(name: string, rest: string, values: Values)
  {
    name in values && if values[name] == "" then rest != "" && rest[0] == '{' else values[name][0] == '{'
  }

  lemma BracedText(name: string, after: string)
    requires BracedLength(name + "}" + after) == |name| > 0
    ensures DollarFree("{" + name + "}")
    ensures forall i :: 0 <= i < |name + "}"| ==> (name + "}")[i] != '{'
  {
    assert forall i :: 0 <= i < |name| ==> IdentChar((name + "}" + after)[i]);
    assert forall i :: 0 <= i < |name| ==> name[i] == (name + "}" + after)[i];
  }

  lemma KnownBraced(name: string, after: string, rest: string, values: Values)
    requires BracedLength(name + "}" + after) == |name| > 0 && DollarFreeValues(values)
    ensures var out := Known(values, name, "${" + name + "}") + rest;
            Unescape(out) == Known(values, name, "{" + name + "}") + Unescape(rest) &&
            (out != "" && out[0] == '{' <==> EmitsBrace(name, rest, values))
  {
    hide Unescape, BracedLength;
    BracedText(name, after);
    assert DollarFree(name + "}") by {
      assert "{" + name + "}" == "{" + (name + "}");
      assert forall i :: 0 <= i < |name + "}"| ==> (name + "}")[i] == ("{" + (name + "}"))[i + 1];
    }
    if name in values {
      UnescapeText(values[name], rest);
    } else {
      assert "${" + name + "}" + rest == "${" + (name + "}" + rest);
      UnescapeBrace(name + "}" + rest);
      UnescapeText(name + "}", rest);
    }
  }

  lemma UnknownText(name: string, after: string)
    requires IdentLength(name + after) == |name| > 0
    ensures DollarFree(name) && IdentChar(name[0])
    ensures forall i :: 0 <= i < |name| ==> name[i] != '{'
  {
    assert forall i :: 0 <= i < |name| ==> IdentChar((name + after)[i]);
    assert forall i :: 0 <= i < |name| ==> name[i] == (name + after)[i];
  }

  lemma KnownNamed(name: string, after: string, rest: string, values: Values)
    requires IdentLength(name + after) == |name| > 0 && DollarFreeValues(values)
    ensures var out := Known(values, name, "$" + name) + rest;
            Unescape(out) == Known(values, name, "$" + name) + Unescape(rest) &&
            (out != "" && out[0] == '{' <==> EmitsBrace(name, rest, values))
  {
    hide Unescape, IdentLength;
    UnknownText(name, after);
    if name in values {
      UnescapeText(values[name], rest);
    } else {
      hide IdentChar;
      assert "$" + name + rest == "$" + (name + rest) && (name + rest)[0] == name[0];
      UnescapeDollar(name + rest);
      UnescapeText(name, rest);
    }
  }

  /** {name}, known or not. */
  lemma RefinesBraced(name: string, after: string, values: Values)
    requires BracedLength(name + "}" + after) == |name| > 0
    requires DollarFreeValues(values) && Refines(after, values)
    ensures Refines("{" + name + "}" + after, values)
  {
    var rest := SafeSubstitute(Escape(after), values);
    EscapedBraced(name, after);
    SubstituteBraced(name, Escape(after), values);
    ScanBraced(name, after, values);
    BeginsBraced(name, after, values);
    KnownBraced(name, after, rest, values);
    hide SafeSubstitute, Escape, Unescape, BracedLength, DollarScan, BeginsWithValueBrace, Known;
  }

  /** A brace that does not begin a reference. */
  lemma RefinesBrace(j: string, values: Values)
    requires j != "" && j[0] == '{' && BracedLength(j[1..]) == 0 && Refines(j[1..], values)
    ensures Refines(j, values)
  {
    var e, rest := Escape(j), SafeSubstitute(Escape(j[1..]), values);
    EscapeKeepsBraced(j[1..]);
    assert e == "${" + Escape(j[1..]);
    assert e[2..] == Escape(j[1..]) && e[1..] == "{" + e[2..] && e[1..][1..] == e[2..];
    assert IdentLength(e[1..]) == 0;
    assert SafeSubstitute(e[1..], values) == "{" + rest;
    assert SafeSubstitute(e, values) == "$" + ("{" + rest);
    assert "$" + ("{" + rest) == "${" + rest;
    UnescapeBrace(rest);
  }

  /** $$ */
  lemma RefinesDoubleDollar(j: string, values: Values)
    requires |j| > 1 && j[0] == '$' && j[1] == '$' && Refines(j[2..], values)
    ensures Refines(j, values)
  {
    var e, rest := Escape(j), SafeSubstitute(Escape(j[2..]), values);
    EscapeText("$$", j[2..]);
    assert j == "$$" + j[2..];
    assert e[2..] == Escape(j[2..]);
    assert SafeSubstitute(e, values) == "$" + rest;
    if rest != "" && rest[0] == '{' {
      DollarSwallowed(rest);
    } else {
      UnescapeDollar(rest);
    }
  }

  lemma EscapedDollarBrace(after: string)
    ensures Escape("${" + after) == "$${" + Escape(after)
  {
    var j := "${" + after;
    assert j[1..] == "{" + after && ("{" + after)[1..] == after;
    assert Escape("{" + after) == "${" + Escape(after);
    assert Escape(j) == "$" + Escape("{" + after);
    hide Escape;
    assert "$" + ("${" + Escape(after)) == "$${" + Escape(after);
  }

  lemma SubstituteDollarBrace(t: string, values: Values)
    ensures SafeSubstitute("$${" + t, values) == "${" + SafeSubstitute(t, values)
  {
    var e := "$${" + t;
    hide IdentLength, BracedLength, Known;
    assert e[2..] == "{" + t && ("{" + t)[1..] == t;
    assert SafeSubstitute(e, values) == "$" + SafeSubstitute("{" + t, values);
    assert SafeSubstitute("{" + t, values) == "{" + SafeSubstitute(t, values);
  }

  lemma ScanDollarBrace(after: string, values: Values)
    ensures DollarScan("${" + after, values) == "{" + DollarScan(after, values)
    ensures !BeginsWithValueBrace("${" + after, values)
  {
    var j := "${" + after;
    assert j[0] == '$' && j[1] == '{' && j[2..] == after;
    assert IdentLength(j[1..]) == 0;
    hide IdentLength, BracedLength, Known;
  }

  /** ${, which escaping turns into $${. */
  lemma RefinesDollarBrace(after: string, values: Values)
    requires Refines(after, values)
    ensures Refines("${" + after, values)
  {
    EscapedDollarBrace(after);
    SubstituteDollarBrace(Escape(after), values);
    ScanDollarBrace(after, values);
    hide Escape, SafeSubstitute, Unescape, DollarScan, BeginsWithValueBrace;
    UnescapeBrace(SafeSubstitute(Escape(after), values));
  }

  lemma EscapedNamed(name: string, after: string)
    requires IdentLength(name + after) == |name| > 0
    ensures Escape("$" + name + after) == "$" + name + Escape(after)
    ensures IdentLength(name + Escape(after)) == |name|
  {
    var s := name + after;
    EscapeKeepsIdent(s);
    assert forall i :: 0 <= i < |name| ==> IdentChar(name[i]) by {
      assert forall i :: 0 <= i < |name| ==> name[i] == s[i];
    }
    assert "$" + name + after == ("$" + name) + after;
    hide Escape, IdentLength;
    EscapeText("$" + name, after);
    EscapeText(name, after);
  }

  lemma SubstituteNamed(name: string, after: string, values: Values)
    requires IdentLength(name + after) == |name| > 0
    ensures SafeSubstitute("$" + name + after, values) ==
            Known(values, name, "$" + name) + SafeSubstitute(after, values)
  {
    var t, n := "$" + name + after, |name|;
    assert t[1..] == name + after;
    assert t[1..1 + n] == name && t[..1 + n] == "$" + name && t[1 + n..] == after;
    assert t[1] == (name + after)[0];
    hide IdentLength, BracedLength, Known;
    assert t[0] == '$';
  }

  lemma ScanNamed(name: string, after: string, values: Values)
    requires IdentLength(name + after) == |name| > 0
    ensures var j := "$" + name + after;
            DollarScan(j, values) == Known(values, name, "$" + name) + DollarScan(after, values) &&
            BeginsWithValueBrace(j, values) ==
            (name in values &&
             if values[name] == "" then BeginsWithValueBrace(after, values) else values[name][0] == '{')
  {
    var j, n := "$" + name + after, |name|;
    assert j[1..] == name + after;
    assert IdentChar(name[0]) by {
      assert (name + after)[0] == name[0];
    }
    hide IdentLength, BracedLength, Known;
    assert j[1] == name[0];
    assert j[1..1 + n] == name && j[..1 + n] == "$" + name && j[1 + n..] == after;
  }

  /** $name, known or not. */
  lemma RefinesNamed(name: string, after: string, values: Values)
    requires IdentLength(name + after) == |name| > 0
    requires DollarFreeValues(values) && Refines(after, values)
    ensures Refines("$" + name + after, values)
  {
    var rest := SafeSubstitute(Escape(after), values);
    EscapedNamed(name, after);
    SubstituteNamed(name, Escape(after), values);
    ScanNamed(name, after, values);
    KnownNamed(name, after, rest, values);
    hide SafeSubstitute, Escape, Unescape, IdentLength, DollarScan, BeginsWithValueBrace, Known;
  }

  /** Any other $. */
  lemma RefinesDollar(j: string, values: Values)
    requires j != "" && j[0] == '$' && IdentLength(j[1..]) == 0 && (|j| > 1 ==> j[1] != '$' && j[1] != '{')
    requires Refines(j[1..], values)
    ensures Refines(j, values)
  {
    var e, rest := Escape(j), SafeSubstitute(Escape(j[1..]), values);
    EscapeKeepsIdent(j[1..]);
    EscapeFirst(j[1..]);
    assert e == "$" + Escape(j[1..]);
    assert e[1..] == Escape(j[1..]);
    assert SafeSubstitute(e, values) == "$" + rest;
    if |j| > 1 {
      assert rest[0] == j[1];
    }
    UnescapeDollar(rest);
  }

  lemma SplitBraced(j: string) returns (name: string, after: string)
    requires j != "" && j[0] == '{' && BracedLength(j[1..]) > 0
    ensures j == "{" + name + "}" + after && BracedLength(name + "}" + after) == |name| > 0
    ensures name == j[1..1 + BracedLength(j[1..])] && after == j[2 + BracedLength(j[1..])..]
  {
    var n := BracedLength(j[1..]);
    name, after := j[1..1 + n], j[2 + n..];
    assert j[1 + n] == '}';
    hide BracedLength;
    assert j[1..] == name + "}" + after;
  }

  lemma SplitNamed(j: string) returns (name: string, after: string)
    requires j != "" && j[0] == '$' && IdentLength(j[1..]) > 0
    ensures j == "$" + name + after && IdentLength(name + after) == |name| > 0
    ensures name == j[1..1 + IdentLength(j[1..])] && after == j[1 + IdentLength(j[1..])..]
  {
    var n := IdentLength(j[1..]);
    name, after := j[1..1 + n], j[1 + n..];
    hide IdentLength;
    assert j[1..] == name + after;
  }

  /** For every template and all values without a $, escaping, safe_substitute and unescaping together are
      one left-to-right scan. */
  lemma {:induction false} PipelineIsDollarScan(j: string, values: Values)
    requires DollarFreeValues(values)
    ensures Refines(j, values)
    decreases |j|
  {
    if j == "" {
    } else if j[0] == '{' {
      if BracedLength(j[1..]) > 0 {
        var name, after := SplitBraced(j);
        PipelineIsDollarScan(after, values);
        RefinesBraced(name, after, values);
      } else {
        PipelineIsDollarScan(j[1..], values);
        RefinesBrace(j, values);
      }
    } else if j[0] != '$' {
      PipelineIsDollarScan(j[1..], values);
      RefinesPlain(j, values);
    } else if |j| > 1 && j[1] == '$' {
      PipelineIsDollarScan(j[2..], values);
      RefinesDoubleDollar(j, values);
    } else if |j| > 1 && j[1] == '{' {
      PipelineIsDollarScan(j[2..], values);
      RefinesDollarBrace(j[2..], values);
      assert j == "${" + j[2..];
    } else if IdentLength(j[1..]) > 0 {
      var name, after := SplitNamed(j);
      PipelineIsDollarScan(after, values);
      RefinesNamed(name, after, values);
    } else {
      PipelineIsDollarScan(j[1..], values);
      RefinesDollar(j, values);
    }
  }

  /** json_string_substitute, for every template and all values without a $. */
  lemma SubstituteIsDollarScan(j: string, values: Values)
    requires DollarFreeValues(values)
    ensures JsonStringSubstitute(j, values) == if values == map[] then j else DollarScan(j, values)
  {
    PipelineIsDollarScan(j, values);
  }

  // ---- when it is the intended scan ----

  /** The text begins with $$, ${ or a $name that is known. */
  predicate DollarToken(j: string, values: Values)
  {
    |j| > 1 && j[0] == '$' &&
    (j[1] == '$' || j[1] == '{' ||
     var n := IdentLength(j[1..]); n > 0 && j[1..1 + n] in values)
  }

  predicate HasDollarToken(j: string, values: Values)
  {
    j != "" && (DollarToken(j, values) || HasDollarToken(j[1..], values))
  }

  function Dollars(s: string): nat
  {
    if s == "" then 0 else (if s[0] == '$' then 1 else 0) + Dollars(s[1..])
  }

  lemma {:induction false} DollarsAdd(s: string, rest: string)
    ensures Dollars(s + rest) == Dollars(s) + Dollars(rest)
  {
    if s == "" {
      assert s + rest == rest;
    } else {
      assert (s + rest)[1..] == s[1..] + rest;
      DollarsAdd(s[1..], rest);
    }
  }

  lemma {:induction false} NoDollars(s: string)
    requires DollarFree(s)
    ensures Dollars(s) == 0
  {
    if s != "" {
      NoDollars(s[1..]);
    }
  }

  lemma {:induction false} TokensAfter(s: string, rest: string, values: Values)
    requires DollarFree(s)
    ensures HasDollarToken(s + rest, values) == HasDollarToken(rest, values)
  {
    if s == "" {
      assert s + rest == rest;
    } else {
      assert (s + rest)[1..] == s[1..] + rest;
      TokensAfter(s[1..], rest, values);
    }
  }

  lemma {:induction false} ScanCopies(s: string, rest: string, values: Values)
    requires forall i :: 0 <= i < |s| ==> s[i] != '{'
    ensures Scan(s + rest, values) == s + Scan(rest, values)
  {
    if s == "" {
      assert s + rest == rest;
    } else {
      assert (s + rest)[1..] == s[1..] + rest;
      ScanCopies(s[1..], rest, values);
    }
  }

  lemma ScanAtKnown(name: string, after: string, values: Values)
    requires BracedLength(name + "}" + after) == |name| > 0 && name in values
    ensures Scan("{" + name + "}" + after, values) == values[name] + Scan(after, values)
  {
    var j := "{" + name + "}" + after;
    assert j[0] == '{' && j[1..] == name + "}" + after;
    hide BracedLength, Scan;
    assert j[1..1 + |name|] == name && j[2 + |name|..] == after;
    ScanReplaces(j, |name|, values);
  }

  lemma ScanReplaces(j: string, n: nat, values: Values)
    requires j != "" && j[0] == '{' && BracedLength(j[1..]) == n > 0 && j[1..1 + n] in values
    ensures Scan(j, values) == values[j[1..1 + n]] + Scan(j[2 + n..], values)
  {
    hide BracedLength;
  }

  lemma ScanAtBraced(name: string, after: string, values: Values)
    requires BracedLength(name + "}" + after) == |name| > 0
    ensures Scan("{" + name + "}" + after, values) == Known(values, name, "{" + name + "}") + Scan(after, values)
  {
    if name in values {
      ScanAtKnown(name, after, values);
    } else {
      var j := "{" + name + "}" + after;
      assert j[0] == '{' && j[1..] == (name + "}") + after;
      BracedText(name, after);
      hide BracedLength, IdentLength;
      assert Scan(j, values) == "{" + Scan((name + "}") + after, values) by {
        assert j[1..1 + |name|] == name;
      }
      hide Scan;
      ScanCopies(name + "}", after, values);
      assert "{" + ((name + "}") + Scan(after, values)) == "{" + name + "}" + Scan(after, values);
    }
  }

  /** What a {name} is to the $ count and to the tokens. */
  lemma TokensAtBraced(name: string, after: string, values: Values)
    requires BracedLength(name + "}" + after) == |name| > 0 && DollarFreeValues(values)
    ensures Dollars(Known(values, name, "{" + name + "}")) == 0
    ensures var j := "{" + name + "}" + after;
            Dollars(j) == Dollars(after) && HasDollarToken(j, values) == HasDollarToken(after, values)
  {
    var piece := "{" + name + "}";
    BracedText(name, after);
    hide Dollars, HasDollarToken, BracedLength;
    NoDollars(Known(values, name, piece));
    NoDollars(piece);
    DollarsAdd(piece, after);
    TokensAfter(piece, after, values);
  }

  lemma ScanAtUnknown(name: string, after: string, values: Values)
    requires IdentLength(name + after) == |name| > 0
    ensures Scan("$" + name + after, values) == "$" + name + Scan(after, values)
  {
    var piece := "$" + name;
    UnknownText(name, after);
    hide Scan, IdentLength;
    assert forall i :: 0 <= i < |piece| ==> piece[i] != '{';
    ScanCopies(piece, after, values);
  }

  /** What an unknown $name is to the $ count and to the tokens. */
  lemma TokensAtUnknown(name: string, after: string, values: Values)
    requires IdentLength(name + after) == |name| > 0 && name !in values
    ensures Dollars("$" + name) == 1
    ensures var j := "$" + name + after;
            Dollars(j) == 1 + Dollars(after) && HasDollarToken(j, values) == HasDollarToken(after, values)
  {
    var j, piece := "$" + name + after, "$" + name;
    UnknownText(name, after);
    assert j[1..] == name + after && j[1..1 + |name|] == name && piece[1..] == name && j[1] == name[0];
    assert !DollarToken(j, values);
    hide DollarToken, IdentLength;
    NoDollars(name);
    assert Dollars(piece) == 1;
    assert HasDollarToken(j, values) == HasDollarToken(name + after, values);
    hide Dollars, HasDollarToken;
    DollarsAdd(piece, after);
    TokensAfter(name, after, values);
  }

  /** The intended scan neither adds nor drops a $. */
  lemma {:induction false} ScanKeepsDollars(j: string, values: Values)
    requires DollarFreeValues(values)
    ensures Dollars(Scan(j, values)) == Dollars(j)
    decreases |j|
  {
    if j == "" {
    } else if j[0] == '{' && BracedLength(j[1..]) > 0 {
      var name, after := SplitBraced(j);
      ScanKeepsDollars(after, values);
      ScanAtBraced(name, after, values);
      TokensAtBraced(name, after, values);
      hide Scan, BracedLength;
      DollarsAdd(Known(values, name, "{" + name + "}"), Scan(after, values));
    } else {
      ScanKeepsDollars(j[1..], values);
      DollarsAdd([j[0]], Scan(j[1..], values));
    }
  }

  /** Each of $$, ${ and a known $name loses a $; everything else is treated alike by the two scans. */
  lemma {:induction false} ScansCompared(j: string, values: Values)
    requires DollarFreeValues(values)
    ensures !HasDollarToken(j, values) ==> DollarScan(j, values) == Scan(j, values)
    ensures Dollars(DollarScan(j, values)) + (if HasDollarToken(j, values) then 1 else 0) <= Dollars(j)
    decreases |j|
  {
    if j == "" {
    } else if j[0] == '{' && BracedLength(j[1..]) > 0 {
      var name, after := SplitBraced(j);
      ScansCompared(after, values);
      ScanBraced(name, after, values);
      ScanAtBraced(name, after, values);
      TokensAtBraced(name, after, values);
      DollarsAdd(Known(values, name, "{" + name + "}"), DollarScan(after, values));
    } else if DollarToken(j, values) {
      TokenLosesDollar(j, values);
    } else if j[0] == '$' && IdentLength(j[1..]) > 0 {
      var name, after := SplitNamed(j);
      ScansCompared(after, values);
      ScanNamed(name, after, values);
      ScanAtUnknown(name, after, values);
      TokensAtUnknown(name, after, values);
      DollarsAdd("$" + name, DollarScan(after, values));
    } else {
      ScansCompared(j[1..], values);
      assert DollarScan(j, values) == [j[0]] + DollarScan(j[1..], values);
      DollarsAdd([j[0]], DollarScan(j[1..], values));
    }
  }

  lemma {:induction false} TokenLosesDollar(j: string, values: Values)
    requires DollarFreeValues(values) && DollarToken(j, values)
    ensures Dollars(DollarScan(j, values)) < Dollars(j)
    decreases |j|, 0
  {
    assert j[2..] == j[1..][1..];
    if j[1] == '$' || j[1] == '{' {
      ScansCompared(j[2..], values);
      var out := if j[1] == '{' then "{" else if BeginsWithValueBrace(j[2..], values) then "" else "$";
      assert DollarScan(j, values) == out + DollarScan(j[2..], values);
      DollarsAdd(out, DollarScan(j[2..], values));
    } else {
      var name, after := SplitNamed(j);
      ScansCompared(after, values);
      ScanNamed(name, after, values);
      hide DollarScan, DollarToken;
      NoDollars(values[name]);
      DollarsAdd(values[name], DollarScan(after, values));
      DollarsAdd("$" + name, after);
    }
  }

  lemma {:induction false} ScanWithoutNames(j: string)
    ensures Scan(j, map[]) == j
  {
    if j != "" {
      ScanWithoutNames(j[1..]);
    }
  }

  /** The pipeline is the intended scan exactly for the templates without $$, ${ and known $names; the guard for
      an empty context returns the template, which is then what the scan gives. */
  lemma IntendedScanIffNoDollarToken(j: string, values: Values)
    requires DollarFreeValues(values)
    ensures JsonStringSubstitute(j, values) == Scan(j, values) <==> values == map[] || !HasDollarToken(j, values)
  {
    SubstituteIsDollarScan(j, values);
    ScansCompared(j, values);
    ScanKeepsDollars(j, values);
    ScanWithoutNames(j);
  }

  /** In particular for every template without a $. */
  lemma {:induction false} DollarFreeTemplate(j: string, values: Values)
    requires DollarFree(j) && DollarFreeValues(values)
    ensures JsonStringSubstitute(j, values) == Scan(j, values)
  {
    TokensAfter(j, "", values);
    assert j + "" == j;
    IntendedScanIffNoDollarToken(j, values);
  }

  /** A $ in front of a reference swallows it: ${a} becomes {a}, whatever a is. */
  lemma DollarSwallowsReference(value: string)
    requires DollarFree(value)
    ensures JsonStringSubstitute("${a}", map["a" := value]) == "{a}"
    ensures Scan("${a}", map["a" := value]) == "$" + value
  {
    var values := map["a" := value];
    assert "a" in values;
    SubstituteIsDollarScan("${a}", values);
    hide JsonStringSubstitute, DollarFree;
    assert DollarScan("${a}", values) == "{a}" by {
      ScanDollarBrace("a}", values);
      PlainText("a}", values);
    }
    hide DollarScan;
    ScanOfReference(value);
  }

  lemma ScanOfReference(value: string)
    ensures Scan("${a}", map["a" := value]) == "$" + value
  {
    var values := map["a" := value];
    assert BracedLength("a}") == 1 by {
      assert "a}"[1..] == "}";
      assert IdentRun("a}") == 1 + IdentRun("}");
    }
    hide BracedLength;
    assert "a" + "}" + "" == "a}" && "{" + "a" + "}" + "" == "{a}";
    ScanAtKnown("a", "", values);
    assert "${a}" == "$" + "{a}";
    ScanCopies("$", "{a}", values);
  }

  lemma {:induction false} PlainText(s: string, values: Values)
    requires forall i :: 0 <= i < |s| ==> s[i] != '{' && s[i] != '$'
    ensures DollarScan(s, values) == s
  {
    if s != "" {
      PlainText(s[1..], values);
    }
  }
}
