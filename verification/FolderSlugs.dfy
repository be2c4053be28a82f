/** The id derived from a name: its words, in lower case and joined by dashes. */
module FolderSlugs {
  import opened Sequences
  import opened FolderFields

  /** A run of letters and digits, and what stands between it and the next one, or behind the last. */
  datatype Word = Word(letters: string, gap: string)

  ghost predicate Letters(s: string)
  {
    s != "" && forall i :: 0 <= i < |s| ==> 'a' <= s[i] <= 'z' || '0' <= s[i] <= '9'
  }

  ghost predicate Gap(s: string)
  {
    forall i :: 0 <= i < |s| ==> !('a' <= s[i] <= 'z' || '0' <= s[i] <= '9')
  }

  /** Every word but the last is followed by something. */
  ghost predicate Spaced(words: seq<Word>)
  {
    forall i :: 0 <= i < |words| ==>
      Letters(words[i].letters) && Gap(words[i].gap) && (i < |words| - 1 ==> words[i].gap != "")
  }

  function Text(words: seq<Word>): string
  {
    if words == [] then "" else words[0].letters + (words[0].gap + Text(words[1..]))
  }

  /** The words with one dash between each two. */
  function Joined(words: seq<Word>): string
  {
    if words == [] then "" else
    if |words| == 1 then words[0].letters else words[0].letters + ("-" + Joined(words[1..]))
  }

  // ---- the replaced runs ----

  lemma {:induction false} DashedLetters(s: string, rest: string, run: bool)
    requires Letters(s)
    ensures Dashed(s + rest, run) == s + Dashed(rest, false)
  {
    var t := s + rest;
    assert Dashed(t, run) == [t[0]] + Dashed(t[1..], false);
    hide Dashed;
    assert t[1..] == s[1..] + rest && [t[0]] + s[1..] == s;
    if |s| == 1 {
      assert s[1..] + rest == rest && s == [t[0]];
    } else {
      DashedLetters(s[1..], rest, false);
      Associative([t[0]], s[1..], Dashed(rest, false));
    }
  }

  lemma {:induction false} DashedGap(s: string, rest: string, run: bool)
    requires Gap(s)
    ensures Dashed(s + rest, run) == (if s != "" && !run then "-" else "") + Dashed(rest, run || s != "")
  {
    var t := s + rest;
    if s == "" {
      assert t == rest && "" + Dashed(rest, run) == Dashed(rest, run);
    } else {
      assert Dashed(t, run) == (if run then "" else "-") + Dashed(t[1..], true);
      hide Dashed;
      assert t[1..] == s[1..] + rest;
      DashedGap(s[1..], rest, true);
      assert "" + Dashed(rest, true) == Dashed(rest, true);
    }
  }

  /** The dashed text of words is the words joined, with a dash behind if something stands behind the last. */
  lemma {:induction false} DashedWords(words: seq<Word>, run: bool)
    requires words != [] && Spaced(words)
    ensures Dashed(Text(words), run) == Joined(words) + (if words[|words| - 1].gap != "" then "-" else "")
  {
    var w, rest := words[0], words[1..];
    var end := if words[|words| - 1].gap != "" then "-" else "";
    DashedLetters(w.letters, w.gap + Text(rest), run);
    DashedGap(w.gap, Text(rest), false);
    if rest == [] {
      assert Dashed(Text(rest), w.gap != "") == "";
      hide Dashed;
      assert Text(words) == w.letters + (w.gap + Text(rest));
      assert end + "" == end;
    } else {
      assert Spaced(rest);
      DashedWords(rest, true);
      hide Dashed, Text, Spaced;
      assert Text(words) == w.letters + (w.gap + Text(rest)) by {
        assert words != [];
      }
      Associative("-", Joined(rest), end);
      Associative(w.letters, "-" + Joined(rest), end);
    }
  }

  // ---- the dashes at the ends ----

  lemma {:induction false} JoinedEnds(words: seq<Word>)
    requires words != [] && Spaced(words)
    ensures var j := Joined(words); j != "" && AlphaNumeric(j[0]) && AlphaNumeric(j[|j| - 1])
  {
    if |words| > 1 {
      assert Spaced(words[1..]);
      JoinedEnds(words[1..]);
    }
  }

  lemma LeadingCut(t: string)
    requires t != "" && AlphaNumeric(t[0])
    ensures DashLeft(t) == t && DashLeft("-" + t) == t
  {
    assert DashLeft(t) == t;
    assert ("-" + t)[1..] == t;
  }

  lemma TrailingCut(s: string)
    requires s != "" && AlphaNumeric(s[|s| - 1])
    ensures DashRight(s) == s && DashRight(s + "-") == s
  {
    assert DashRight(s) == s;
    assert (s + "-")[..|s|] == s;
  }

  lemma CutsDashes(s: string, lead: bool, trail: bool)
    requires s != "" && AlphaNumeric(s[0]) && AlphaNumeric(s[|s| - 1])
    ensures DashRight(DashLeft((if lead then "-" else "") + (s + (if trail then "-" else "")))) == s
  {
    hide *;
    assert s + "" == s && "" + (s + "-") == s + "-" && "" + s == s;
    assert (s + "-")[0] == s[0];
    LeadingCut(s);
    LeadingCut(s + "-");
    TrailingCut(s);
  }

  /** The id of a name whose lower-case form is words with other characters between and around them: the words joined
      by single dashes, cut to 63 characters. */
  lemma DerivedIdJoinsWords(name: string, gap: string, words: seq<Word>)
    requires words != [] && Spaced(words) && Gap(gap) && Lower(name) == gap + Text(words)
    ensures var id := Joined(words); DerivedId(name) == if |id| > 63 then id[..63] else id
  {
    DashedGap(gap, Text(words), false);
    DashedWords(words, gap != "");
    JoinedEnds(words);
    CutsDashes(Joined(words), gap != "", words[|words| - 1].gap != "");
    hide Dashed, DashLeft, DashRight, Joined, Text, Lower;
  }
}
