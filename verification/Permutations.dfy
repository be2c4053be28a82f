/** Sequences with the same elements. Two such sequences have the same length and the same members, and taking an
    element out of both leaves sequences with the same elements again: the step of every induction over a
    reordering. How often a value occurs is told from the positions it has. */
module Permutations {

  lemma RemoveOne<T>(s: seq<T>, k: nat)
    requires k < |s|
    ensures multiset(s) == multiset(s[..k] + s[k + 1..]) + multiset{s[k]}
  {
    assert s == s[..k] + [s[k]] + s[k + 1..];
  }

  /** Taking the same element out of two permutations of each other leaves permutations. */
  lemma RemoveSame<T>(s: seq<T>, j: nat, t: seq<T>, k: nat)
    requires j < |s| && k < |t| && s[j] == t[k] && multiset(s) == multiset(t)
    ensures multiset(s[..j] + s[j + 1..]) == multiset(t[..k] + t[k + 1..])
  {
    RemoveOne(s, j);
    RemoveOne(t, k);
    var a, b, one := multiset(s[..j] + s[j + 1..]), multiset(t[..k] + t[k + 1..]), multiset{s[j]};
    assert a == (a + one) - one && b == (b + one) - one;
  }

  lemma RemoveFirst<T>(s: seq<T>, t: seq<T>)
    requires s != [] && t != [] && s[0] == t[0] && multiset(s) == multiset(t)
    ensures multiset(s[1..]) == multiset(t[1..])
  {
    RemoveSame(s, 0, t, 0);
    assert s[..0] + s[1..] == s[1..] && t[..0] + t[1..] == t[1..];
  }

  lemma SameLength<T>(s: seq<T>, t: seq<T>)
    requires multiset(s) == multiset(t)
    ensures |s| == |t|
  {
    assert |s| == |multiset(s)| && |t| == |multiset(t)|;
  }

  lemma SameElements<T>(s: seq<T>, t: seq<T>)
    requires multiset(s) == multiset(t)
    ensures forall x :: x in s <==> x in t
  {
    assert forall x :: x in s <==> x in multiset(s);
    assert forall x :: x in t <==> x in multiset(t);
  }

  lemma FindIn<T>(s: seq<T>, t: seq<T>, j: nat) returns (k: nat)
    requires j < |s| && multiset(s) == multiset(t)
    ensures k < |t| && t[k] == s[j]
  {
    assert s[j] in multiset(t);
    k :| 0 <= k < |t| && t[k] == s[j];
  }

  lemma OccursTwice<T>(s: seq<T>, i: nat, j: nat)
    requires i < j < |s| && s[i] == s[j]
    ensures multiset(s)[s[i]] >= 2
  {
    assert s == s[..j] + [s[j]] + s[j + 1..];
    assert s[..j][i] == s[j];
  }

  lemma OccursOnce<T>(s: seq<T>, i: nat)
    requires i < |s| && forall j :: 0 <= j < |s| && j != i ==> s[j] != s[i]
    ensures multiset(s)[s[i]] == 1
  {
    assert s == s[..i] + [s[i]] + s[i + 1..];
    assert s[i] !in s[..i] && s[i] !in s[i + 1..];
  }
}
