/** The classes of the ABC analysis: revenues in descending order, classed by their cumulative share. */
module AbcAnalysis {
  import opened Options
  import opened Statistics

  const A_LIMIT := 80.0
  const B_LIMIT := 95.0

  datatype Class = A | B | C

  // ---- ranking and classes ----

  /** ORDER BY total_revenue DESC; how equal revenues are ordered is left open. */
  ghost predicate Ranked(revenues: seq<real>)
  {
    forall i, j :: 0 <= i < j < |revenues| ==> revenues[i] >= revenues[j]
  }

  /** SQL's ROUND(x, 2): half away from zero. */
  function Round2(x: real): real
  {
    if x >= 0.0 then (x * 100.0 + 0.5).Floor as real / 100.0 else -((-x * 100.0 + 0.5).Floor as real / 100.0)
  }

  /** The revenue of the first n ranks in percent of all revenue. */
  function Percent(revenues: seq<real>, n: nat): real
    requires n <= |revenues| && Sum(revenues) != 0.0
  {
    100.0 * Sum(revenues[..n]) / Sum(revenues)
  }

  /** NULL when there is no revenue to divide by. */
  function Share(revenues: seq<real>, n: nat): Option<real>
    requires n <= |revenues|
  {
    if Sum(revenues) == 0.0 then None else Some(Percent(revenues, n))
  }

  /** The CASE on the rounded share; a NULL share satisfies neither comparison. */
  function ClassOf(share: Option<real>): Class
  {
    if share.None? then C else
    if Round2(share.value) <= A_LIMIT then A else if Round2(share.value) <= B_LIMIT then B else C
  }

  function ClassAt(revenues: seq<real>, i: nat): Class
    requires i < |revenues|
  {
    ClassOf(Share(revenues, i + 1))
  }

  // ---- the rounding ----

  /** A rounded value is at most a whole number exactly when the value is less than half a cent above it. */
  lemma RoundedAtMost(x: real, limit: int)
    requires limit > 0
    ensures Round2(x) <= limit as real <==> x < limit as real + 0.005
  {
    if x >= 0.0 {
      var f := (x * 100.0 + 0.5).Floor;
      assert f as real / 100.0 <= limit as real <==> f <= limit * 100;
    } else {
      assert (-x * 100.0 + 0.5).Floor >= 0;
    }
  }

  // ---- the classes are contiguous ----

  /** The share has reached t percent, without dividing. */
  ghost predicate Reached(sum: real, total: real, t: real)
  {
    if total > 0.0 then 100.0 * sum >= t * total else 100.0 * sum <= t * total
  }

  lemma ReachedIs(sum: real, total: real, t: real)
    requires total != 0.0
    ensures Reached(sum, total, t) <==> 100.0 * sum / total >= t
  {
    var q := 100.0 * sum / total;
    assert total * q == 100.0 * sum;
    if total > 0.0 {
      ScaledOrder(total, t, q);
    } else {
      ScaledOrder(-total, t, q);
    }
  }

  lemma {:induction false} SumOfNegatives(v: seq<real>, k: nat)
    requires k <= |v| && forall i :: k <= i < |v| ==> v[i] <= 0.0
    ensures Sum(v) <= Sum(v[..k])
  {
    if k < |v| {
      var n := |v| - 1;
      SumOfNegatives(v[..n], k);
      assert v[..n][..k] == v[..k];
    } else {
      assert v[..k] == v;
    }
  }

  lemma {:induction false} SumOfPositives(v: seq<real>)
    requires forall i :: 0 <= i < |v| ==> v[i] >= 0.0
    ensures Sum(v) >= 0.0
  {
    if v != [] {
      SumOfPositives(v[..|v| - 1]);
    }
  }

  lemma SumNext(v: seq<real>, n: nat)
    requires n < |v|
    ensures Sum(v[..n + 1]) == Sum(v[..n]) + v[n]
  {
    assert v[..n + 1][..n] == v[..n];
  }

  lemma PercentOf(total: real, t: real)
    requires 0.0 < t <= 100.0
    ensures total > 0.0 ==> 0.0 < t * total <= 100.0 * total
    ensures total < 0.0 ==> 100.0 * total <= t * total < 0.0
  {
    if total > 0.0 {
      ScaledOrder(total, t, 100.0);
      ScaledOrder(total, 0.0, t);
    }
    if total < 0.0 {
      ScaledOrder(-total, t, 100.0);
      ScaledOrder(-total, 0.0, t);
    }
  }

  /** The next sum moves towards the total, or is already beyond it. */
  lemma StaysReachedBy(sum: real, next: real, total: real, t: real)
    requires Reached(sum, total, t) && 0.0 < t <= 100.0 && total != 0.0
    requires total > 0.0 ==> next >= sum || next >= total
    requires total < 0.0 ==> next <= sum || sum >= 0.0
    ensures Reached(next, total, t)
  {
    PercentOf(total, t);
    var p := t * total;
    assert Reached(sum, total, t) <==> if total > 0.0 then 100.0 * sum >= p else 100.0 * sum <= p;
    assert Reached(next, total, t) <==> if total > 0.0 then 100.0 * next >= p else 100.0 * next <= p;
    hide Reached;
  }

  /** Once t percent (0 < t <= 100) is reached it stays reached, whatever the signs of the revenues and of their
      total. */
  lemma StaysReached(revenues: seq<real>, n: nat, t: real)
    requires Ranked(revenues) && 0 < n < |revenues| && 0.0 < t <= 100.0 && Sum(revenues) != 0.0
    requires Reached(Sum(revenues[..n]), Sum(revenues), t)
    ensures Reached(Sum(revenues[..n + 1]), Sum(revenues), t)
  {
    var total, sum, next := Sum(revenues), Sum(revenues[..n]), Sum(revenues[..n + 1]);
    SumNext(revenues, n);
    if total > 0.0 && revenues[n] < 0.0 {
      SumOfNegatives(revenues, n + 1);
    }
    if total < 0.0 && revenues[n] > 0.0 {
      SumOfPositives(revenues[..n]);
    }
    hide Sum, Ranked, Reached;
    StaysReachedBy(sum, next, total, t);
  }

  lemma {:induction false} StaysReachedLater(revenues: seq<real>, n: nat, m: nat, t: real)
    requires Ranked(revenues) && 0 < n <= m <= |revenues| && 0.0 < t <= 100.0 && Sum(revenues) != 0.0
    requires Reached(Sum(revenues[..n]), Sum(revenues), t)
    ensures Reached(Sum(revenues[..m]), Sum(revenues), t)
    decreases m - n
  {
    if n < m {
      StaysReached(revenues, n, t);
      StaysReachedLater(revenues, n + 1, m, t);
    }
  }

  function Place(c: Class): nat
  {
    match c case A => 0 case B => 1 case C => 2
  }

  lemma ClassOfPercent(revenues: seq<real>, i: nat)
    requires i < |revenues| && Sum(revenues) != 0.0
    ensures ClassAt(revenues, i) == if Percent(revenues, i + 1) < 80.005 then A
                                    else if Percent(revenues, i + 1) < 95.005 then B else C
  {
    RoundedAtMost(Percent(revenues, i + 1), 80);
    RoundedAtMost(Percent(revenues, i + 1), 95);
    hide Percent, Round2, Sum;
  }

  /** The limits, seen through the rounding. */
  lemma ClassByPercent(revenues: seq<real>, i: nat)
    requires i < |revenues| && Sum(revenues) != 0.0
    ensures var percent := 100.0 * Sum(revenues[..i + 1]) / Sum(revenues);
            ClassAt(revenues, i) == if percent < 80.005 then A else if percent < 95.005 then B else C
  {
    ClassOfPercent(revenues, i);
    hide ClassAt, Sum;
  }

  /** In rank order come the As, then the Bs, then the Cs. */
  lemma ContiguousClasses(revenues: seq<real>, i: nat, j: nat)
    requires Ranked(revenues) && i < j < |revenues|
    ensures Place(ClassAt(revenues, i)) <= Place(ClassAt(revenues, j))
  {
    if Sum(revenues) != 0.0 {
      ClassOfPercent(revenues, i);
      ClassOfPercent(revenues, j);
      ReachedFrom(revenues, i + 1, j + 1, 80.005);
      ReachedFrom(revenues, i + 1, j + 1, 95.005);
      hide Percent, ClassAt;
    }
  }

  lemma ReachedFrom(revenues: seq<real>, n: nat, m: nat, t: real)
    requires Ranked(revenues) && 0 < n <= m <= |revenues| && 0.0 < t <= 100.0 && Sum(revenues) != 0.0
    ensures Percent(revenues, n) >= t ==> Percent(revenues, m) >= t
  {
    ReachedIs(Sum(revenues[..n]), Sum(revenues), t);
    ReachedIs(Sum(revenues[..m]), Sum(revenues), t);
    if Reached(Sum(revenues[..n]), Sum(revenues), t) {
      StaysReachedLater(revenues, n, m, t);
    }
  }
}
