/** Linear search, sequences without repetitions, and the places of a property. */
module Sequences {

  /** The index of the first element with the property; the length when there is none. */
  function FirstIndex<T>(s: seq<T>, p: T -> bool): (k: nat)
    ensures k <= |s| && (k < |s| ==> p(s[k]))
    ensures forall i :: 0 <= i < k ==> !p(s[i])
  {
    if s == [] || p(s[0]) then 0 else 1 + FirstIndex(s[1..], p)
  }

  ghost predicate Distinct<T>(s: seq<T>)
  {
    forall i, j :: 0 <= i < j < |s| ==> s[i] != s[j]
  }

  lemma Associative<T>(a: seq<T>, b: seq<T>, c: seq<T>)
    ensures (a + b) + c == a + (b + c)
  {
  }

  /** The numbers below n with a property, in order. */
  ghost function Where(n: nat, p: nat -> bool): seq<nat>
  {
    if n == 0 then [] else Where(n - 1, p) + (if p(n - 1) then [n - 1] else [])
  }

  lemma {:induction false} WhereIs(n: nat, p: nat -> bool)
    ensures var w := Where(n, p);
            (forall a, b :: 0 <= a < b < |w| ==> w[a] < w[b]) && (forall a :: 0 <= a < |w| ==> w[a] < n && p(w[a])) &&
            forall i: nat :: i < n && p(i) ==> i in w
  {
    if n > 0 {
      WhereIs(n - 1, p);
      var w, front := Where(n, p), Where(n - 1, p);
      forall i: nat | i < n && p(i)
        ensures i in w
      {
        if i == n - 1 {
          assert w[|front|] == i;
        } else {
          assert i in front;
        }
      }
    }
  }
}
