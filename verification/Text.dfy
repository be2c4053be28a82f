/** Python's str.strip and str.join with a line break between the pieces. A stripped text neither begins nor ends
    with white space, a text that does neither is left alone, and a text is stripped to nothing exactly when all
    of it is blank; joined pieces are blank exactly when every piece is. */
module Text {

  /** str.isspace for one character. */
  predicate IsSpace(c: char)
  {
    '\t' <= c <= '\r' || '\U{1C}' <= c <= ' ' || c == '\U{85}' || c == '\U{A0}' || c == '\U{1680}' ||
    '\U{2000}' <= c <= '\U{200A}' || c == '\U{2028}' || c == '\U{2029}' || c == '\U{202F}' ||
    c == '\U{205F}' || c == '\U{3000}'
  }

  /** Blank, tab and the line and page breaks are white space; letters, digits and other visible ASCII are not. */
  lemma AsciiSpaces(c: char)
    requires c < '\U{7F}'
    ensures IsSpace(c) <==> c == ' ' || '\t' <= c <= '\r' || '\U{1C}' <= c <= '\U{1F}'
  {
  }

  predicate Blank(s: string)
  {
    forall i :: 0 <= i < |s| ==> IsSpace(s[i])
  }

  function StripLeft(s: string): string
  {
    if s != "" && IsSpace(s[0]) then StripLeft(s[1..]) else s
  }

  function StripRight(s: string): string
  {
    if s != "" && IsSpace(s[|s| - 1]) then StripRight(s[..|s| - 1]) else s
  }

  function Strip(s: string): string
  {
    StripRight(StripLeft(s))
  }

  lemma {:induction false} StripLeftBlank(s: string)
    ensures StripLeft(s) == "" <==> Blank(s)
    ensures Blank(StripLeft(s)) <==> Blank(s)
    ensures StripLeft(s) != "" ==> !IsSpace(StripLeft(s)[0])
  {
    if s != "" && IsSpace(s[0]) {
      StripLeftBlank(s[1..]);
      assert Blank(s) <==> Blank(s[1..]) by {
        assert s == [s[0]] + s[1..];
      }
    }
  }

  lemma {:induction false} StripRightBlank(s: string)
    ensures StripRight(s) == "" <==> Blank(s)
    ensures StripRight(s) <= s
    ensures StripRight(s) != "" ==> !IsSpace(StripRight(s)[|StripRight(s)| - 1])
  {
    if s != "" && IsSpace(s[|s| - 1]) {
      StripRightBlank(s[..|s| - 1]);
      assert Blank(s) <==> Blank(s[..|s| - 1]) by {
        assert s == s[..|s| - 1] + [s[|s| - 1]];
      }
    }
  }

  /** What strip leaves is empty only for blank text, and otherwise has no space at either end. */
  lemma StripEnds(s: string)
    ensures Strip(s) == "" <==> Blank(s)
    ensures Strip(s) != "" ==> !IsSpace(Strip(s)[0]) && !IsSpace(Strip(s)[|Strip(s)| - 1])
  {
    StripLeftBlank(s);
    StripRightBlank(StripLeft(s));
  }

  /** `kept` is s without blank text at its ends. */
  ghost predicate Trimmed(s: string, kept: string)
  {
    (exists a, b :: Around(s, a, kept, b)) && (kept != "" ==> !IsSpace(kept[0]) && !IsSpace(kept[|kept| - 1]))
  }

  ghost predicate Around(s: string, a: string, kept: string, b: string)
  {
    s == a + kept + b && Blank(a) && Blank(b)
  }

  lemma {:induction false} StripLeftCuts(s: string) returns (a: string)
    ensures s == a + StripLeft(s) && Blank(a)
  {
    a := "";
    if s != "" && IsSpace(s[0]) {
      var rest := StripLeftCuts(s[1..]);
      a := [s[0]] + rest;
      assert s == [s[0]] + s[1..];
    }
  }

  lemma {:induction false} StripRightCuts(s: string) returns (b: string)
    ensures s == StripRight(s) + b && Blank(b)
  {
    b := "";
    if s != "" && IsSpace(s[|s| - 1]) {
      var front := StripRightCuts(s[..|s| - 1]);
      b := front + [s[|s| - 1]];
      assert s == s[..|s| - 1] + [s[|s| - 1]];
    }
  }

  lemma StripTrims(s: string)
    ensures Trimmed(s, Strip(s))
  {
    StripEnds(s);
    var a := StripLeftCuts(s);
    var b := StripRightCuts(StripLeft(s));
    hide StripLeft, StripRight, Blank, IsSpace;
    assert s == a + Strip(s) + b;
    assert Around(s, a, Strip(s), b);
  }

  /** Text without a space at either end is left alone. */
  lemma StripFixed(s: string)
    requires s != "" ==> !IsSpace(s[0]) && !IsSpace(s[|s| - 1])
    ensures Strip(s) == s
  {
  }

  /** "\n".join */
  function Lines(pieces: seq<string>): string
  {
    if pieces == [] then "" else
    if |pieces| == 1 then pieces[0] else Lines(pieces[..|pieces| - 1]) + "\n" + pieces[|pieces| - 1]
  }

  lemma {:induction false} LinesBlank(pieces: seq<string>)
    ensures Blank(Lines(pieces)) <==> forall t :: t in pieces ==> Blank(t)
  {
    if |pieces| > 1 {
      var front, last := pieces[..|pieces| - 1], pieces[|pieces| - 1];
      LinesBlank(front);
      assert pieces == front + [last];
      BlankConcat(Lines(front), "\n");
      BlankConcat(Lines(front) + "\n", last);
    }
  }

  lemma BlankConcat(a: string, b: string)
    ensures Blank(a + b) <==> Blank(a) && Blank(b)
  {
    assert forall i :: 0 <= i < |a| ==> (a + b)[i] == a[i];
    assert forall i :: 0 <= i < |b| ==> (a + b)[|a| + i] == b[i];
  }
}
