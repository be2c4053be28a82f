/** The sort is stable, reported indices are right, and the order of the input rows does not matter when
    no two measured rows sort alike. */
module AnomalyOrder {
  import opened Options
  import opened Statistics
  import opened Anomalies
  import opened Permutations

  // ---- the sort ----

  /** Sorted, and samples that sort alike keep the order of their rows. */
  ghost predicate SortedStably(s: seq<Sample>)
  {
    forall i, j :: 0 <= i < j < |s| ==>
      KeyLess(s[i].x.key, s[j].x.key) || (s[i].x.key == s[j].x.key && s[i].index < s[j].index)
  }

  lemma {:induction false} InsertPermutes(sorted: seq<Sample>, s: Sample)
    ensures multiset(Insert(sorted, s)) == multiset(sorted) + multiset{s}
  {
    if sorted != [] && KeyLess(s.x.key, sorted[|sorted| - 1].x.key) {
      InsertPermutes(sorted[..|sorted| - 1], s);
      assert sorted == sorted[..|sorted| - 1] + [sorted[|sorted| - 1]];
    }
  }

  lemma {:induction false} InsertKeepsStable(sorted: seq<Sample>, s: Sample)
    requires SortedStably(sorted) && forall i :: 0 <= i < |sorted| ==> sorted[i].index < s.index
    ensures SortedStably(Insert(sorted, s))
  {
    if sorted != [] && KeyLess(s.x.key, sorted[|sorted| - 1].x.key) {
      var front, last := sorted[..|sorted| - 1], sorted[|sorted| - 1];
      InsertKeepsStable(front, s);
      InsertPermutes(front, s);
      var inserted := Insert(front, s);
      forall i | 0 <= i < |inserted|
        ensures KeyLess(inserted[i].x.key, last.x.key) ||
                (inserted[i].x.key == last.x.key && inserted[i].index < last.index)
      {
        assert inserted[i] in multiset(inserted);
        assert inserted[i] == s || inserted[i] in front;
      }
    } else if sorted != [] {
      var last := sorted[|sorted| - 1];
      forall i | 0 <= i < |sorted|
        ensures KeyLess(sorted[i].x.key, s.x.key) || (sorted[i].x.key == s.x.key && sorted[i].index < s.index)
      {
        assert i < |sorted| - 1 ==> KeyLess(sorted[i].x.key, last.x.key) || sorted[i].x.key == last.x.key;
      }
    }
  }

  ghost predicate Ascending(series: seq<Sample>)
  {
    forall i, j :: 0 <= i < j < |series| ==> series[i].index < series[j].index
  }

  lemma {:induction false} SortIsStable(series: seq<Sample>)
    requires Ascending(series)
    ensures SortedStably(StableSort(series))
    ensures multiset(StableSort(series)) == multiset(series)
  {
    if series != [] {
      var front, last := series[..|series| - 1], series[|series| - 1];
      SortIsStable(front);
      assert series == front + [last];
      InsertPermutes(StableSort(front), last);
      forall i | 0 <= i < |StableSort(front)| ensures StableSort(front)[i].index < last.index {
        assert StableSort(front)[i] in multiset(StableSort(front));
        assert StableSort(front)[i] in front;
      }
      InsertKeepsStable(StableSort(front), last);
    }
  }

  // ---- indices ----

  ghost predicate FromRow(s: Sample, rows: seq<Row>)
  {
    s.index < |rows| && rows[s.index].x == s.x && CoerceFloat(rows[s.index].y) == Some(s.y)
  }

  lemma {:induction false} SeriesFromRows(rows: seq<Row>)
    ensures Ascending(Series(rows))
    ensures forall i :: 0 <= i < |Series(rows)| ==> FromRow(Series(rows)[i], rows)
  {
    if rows != [] {
      var front, last := rows[..|rows| - 1], rows[|rows| - 1];
      SeriesFromRows(front);
      hide CoerceFloat;
      var series := Series(front);
      forall i | 0 <= i < |series| ensures FromRow(series[i], rows) {
        assert FromRow(series[i], front);
      }
      match CoerceFloat(last.y) {
        case None => assert Series(rows) == series;
        case Some(y) => assert Series(rows) == series + [Sample(last.x, y, |rows| - 1)];
      }
    }
  }

  lemma {:induction false} PointsFromSamples(series: seq<Sample>, k: nat, cfg: Settings)
    requires k <= |series|
    ensures forall p :: p in Points(series, k, cfg) ==> exists i :: 0 <= i < k && FlagAt(series, i, cfg) == Some(p)
  {
    hide FlagAt;
    if k > 0 {
      PointsFromSamples(series, k - 1, cfg);
      forall p | p in Points(series, k, cfg) ensures exists i :: 0 <= i < k && FlagAt(series, i, cfg) == Some(p) {
        if p !in Points(series, k - 1, cfg) {
          assert FlagAt(series, k - 1, cfg) == Some(p);
        }
      }
    }
  }

  lemma SortedFromRows(rows: seq<Row>, i: nat)
    requires i < |StableSort(Series(rows))|
    ensures FromRow(StableSort(Series(rows))[i], rows)
  {
    SeriesFromRows(rows);
    SortIsStable(Series(rows));
    assert StableSort(Series(rows))[i] in multiset(StableSort(Series(rows)));
    assert StableSort(Series(rows))[i] in Series(rows);
  }

  lemma FlagCopiesSample(s: Sample, h: seq<real>, cfg: Settings)
    ensures Flag(s, h, cfg).Some? ==>
              var p := Flag(s, h, cfg).value; p.index == s.index && p.x == s.x && p.y == s.y
  {
  }

  /** Every reported index is that of an input row with the reported x and y. */
  lemma IndexPointsToItsRow(rows: seq<Row>, cfg: Settings, p: Point)
    requires p in Detect(rows, cfg).points
    ensures p.index < |rows| && rows[p.index].x == p.x && CoerceFloat(rows[p.index].y) == Some(p.y)
  {
    var series := StableSort(Series(rows));
    hide StableSort, Series, CoerceFloat, Flag, Points;
    PointsFromSamples(series, |series|, cfg);
    var i :| 0 <= i < |series| && FlagAt(series, i, cfg) == Some(p);
    FlagCopiesSample(series[i], History(series, i, cfg.window), cfg);
    SortedFromRows(rows, i);
  }

  // ---- rows without their positions ----

  datatype Measure = Measure(x: XValue, y: real)

  function MeasureOf(row: Row): seq<Measure>
  {
    match CoerceFloat(row.y) case None => [] case Some(y) => [Measure(row.x, y)]
  }

  function Measured(rows: seq<Row>): seq<Measure>
  {
    if rows == [] then [] else Measured(rows[..|rows| - 1]) + MeasureOf(rows[|rows| - 1])
  }

  function MeasuresOf(series: seq<Sample>): (m: seq<Measure>)
    ensures |m| == |series|
  {
    seq(|series|, i requires 0 <= i < |series| => Measure(series[i].x, series[i].y))
  }

  ghost predicate DistinctKeys(m: seq<Measure>)
  {
    forall i, j :: 0 <= i < j < |m| ==> m[i].x.key != m[j].x.key
  }

  ghost predicate StrictlyIncreasing(m: seq<Measure>)
  {
    forall i, j :: 0 <= i < j < |m| ==> KeyLess(m[i].x.key, m[j].x.key)
  }

  lemma StripLast(series: seq<Sample>, s: Sample)
    ensures MeasuresOf(series + [s]) == MeasuresOf(series) + [Measure(s.x, s.y)]
  {
  }

  lemma {:induction false} SeriesMeasured(rows: seq<Row>)
    ensures MeasuresOf(Series(rows)) == Measured(rows)
  {
    if rows != [] {
      SeriesMeasured(rows[..|rows| - 1]);
      StripLast(Series(rows[..|rows| - 1]), Sample(rows[|rows| - 1].x, 0.0, 0));
    }
  }

  lemma {:induction false} MeasuredConcat(a: seq<Row>, b: seq<Row>)
    ensures Measured(a + b) == Measured(a) + Measured(b)
  {
    if b == [] {
      assert a + b == a;
    } else {
      assert (a + b)[..|a + b| - 1] == a + b[..|b| - 1];
      MeasuredConcat(a, b[..|b| - 1]);
    }
  }

  /** Permuting the rows permutes what is measured. */
  lemma {:induction false} MeasuredPermutes(rows: seq<Row>, other: seq<Row>)
    requires multiset(rows) == multiset(other)
    ensures multiset(Measured(rows)) == multiset(Measured(other))
  {
    if rows == [] {
      SameLength(rows, other);
    } else {
      var n := |rows| - 1;
      var front, last := rows[..n], rows[n];
      var k := FindIn(rows, other, n);
      var a, b := other[..k], other[k + 1..];
      assert other == a + [last] + b;
      RemoveSame(rows, n, other, k);
      assert rows[..n] + rows[n + 1..] == front;
      MeasuredPermutes(front, a + b);
      MeasuredConcat(a, b);
      MeasuredConcat(a + [last], b);
      MeasuredConcat(a, [last]);
      assert [last][..0] == [];
    }
  }

  lemma {:induction false} InsertStripped(sorted: seq<Sample>, s: Sample)
    ensures multiset(MeasuresOf(Insert(sorted, s))) == multiset(MeasuresOf(sorted)) + multiset{Measure(s.x, s.y)}
  {
    if sorted == [] || !KeyLess(s.x.key, sorted[|sorted| - 1].x.key) {
      StripLast(sorted, s);
    } else {
      var front, last := sorted[..|sorted| - 1], sorted[|sorted| - 1];
      InsertStripped(front, s);
      assert sorted == front + [last];
      StripLast(front, last);
      StripLast(Insert(front, s), last);
    }
  }

  lemma {:induction false} SortStripped(series: seq<Sample>)
    ensures multiset(MeasuresOf(StableSort(series))) == multiset(MeasuresOf(series))
  {
    if series != [] {
      var front, last := series[..|series| - 1], series[|series| - 1];
      SortStripped(front);
      assert series == front + [last];
      StripLast(front, last);
      InsertStripped(StableSort(front), last);
    }
  }

  // ---- uniqueness of a strictly sorted arrangement ----

  lemma DistinctKeysPermute(m: seq<Measure>, other: seq<Measure>)
    requires multiset(m) == multiset(other) && DistinctKeys(m)
    ensures DistinctKeys(other)
  {
    forall i, j | 0 <= i < j < |other| ensures other[i].x.key != other[j].x.key {
      if other[i].x.key == other[j].x.key {
        assert other[i] in multiset(m) && other[j] in multiset(m);
        var a :| 0 <= a < |m| && m[a] == other[i];
        var b :| 0 <= b < |m| && m[b] == other[j];
        assert a == b;
        OccursTwice(other, i, j);
        OccursOnce(m, a);
      }
    }
  }

  lemma SameFirst(p: seq<Measure>, q: seq<Measure>)
    requires p != [] && StrictlyIncreasing(p) && StrictlyIncreasing(q) && multiset(p) == multiset(q)
    ensures q != [] && p[0] == q[0]
  {
    SameLength(p, q);
    var k := FindIn(p, q, 0);
    var m := FindIn(q, p, 0);
    assert k > 0 ==> KeyLess(q[0].x.key, p[0].x.key);
    assert m > 0 ==> KeyLess(p[0].x.key, q[0].x.key);
  }

  lemma {:induction false} IncreasingUnique(p: seq<Measure>, q: seq<Measure>)
    requires StrictlyIncreasing(p) && StrictlyIncreasing(q) && multiset(p) == multiset(q)
    ensures p == q
  {
    hide KeyLess, StrictlyIncreasing;
    if p == [] {
      SameLength(p, q);
    } else {
      SameFirst(p, q);
      RemoveFirst(p, q);
      TailIncreasing(p);
      TailIncreasing(q);
      IncreasingUnique(p[1..], q[1..]);
      assert p == [p[0]] + p[1..] && q == [q[0]] + q[1..];
    }
  }

  lemma TailIncreasing(m: seq<Measure>)
    requires m != [] && StrictlyIncreasing(m)
    ensures StrictlyIncreasing(m[1..])
  {
  }

  /** The x and y of the scanned series, in order, depend on the collection of rows only. */
  lemma SortedSeriesUnique(rows: seq<Row>, other: seq<Row>)
    requires multiset(rows) == multiset(other) && DistinctKeys(Measured(rows))
    ensures MeasuresOf(StableSort(Series(rows))) == MeasuresOf(StableSort(Series(other)))
  {
    MeasuredPermutes(rows, other);
    DistinctKeysPermute(Measured(rows), Measured(other));
    SortedIncreasing(rows);
    SortedIncreasing(other);
    IncreasingUnique(MeasuresOf(StableSort(Series(rows))), MeasuresOf(StableSort(Series(other))));
  }

  lemma SortedIncreasing(rows: seq<Row>)
    requires DistinctKeys(Measured(rows))
    ensures StrictlyIncreasing(MeasuresOf(StableSort(Series(rows))))
    ensures multiset(MeasuresOf(StableSort(Series(rows)))) == multiset(Measured(rows))
  {
    SeriesMeasured(rows);
    SeriesFromRows(rows);
    SortIsStable(Series(rows));
    SortStripped(Series(rows));
    DistinctKeysPermute(Measured(rows), MeasuresOf(StableSort(Series(rows))));
  }

  // ---- the report ----

  function Unindexed(points: seq<Point>): (r: seq<Point>)
    ensures |r| == |points|
  {
    seq(|points|, i requires 0 <= i < |points| => points[i].(index := 0))
  }

  lemma SameHistory(series: seq<Sample>, other: seq<Sample>, i: nat, window: int)
    requires MeasuresOf(series) == MeasuresOf(other) && i <= |series| && |series| == |other|
    ensures History(series, i, window) == History(other, i, window)
    ensures i < |series| ==> series[i].x == other[i].x && series[i].y == other[i].y
  {
    forall k | 0 <= k < |series| ensures series[k].x == other[k].x && series[k].y == other[k].y {
      assert MeasuresOf(series)[k] == MeasuresOf(other)[k];
    }
  }

  lemma {:induction false} SamePoints(series: seq<Sample>, other: seq<Sample>, k: nat, cfg: Settings)
    requires MeasuresOf(series) == MeasuresOf(other) && k <= |series| && |series| == |other|
    ensures Unindexed(Points(series, k, cfg)) == Unindexed(Points(other, k, cfg))
  {
    hide History, MeasuresOf, Mean, Variance, ScoreOf, Abs;
    if k > 0 {
      SamePoints(series, other, k - 1, cfg);
      SameHistory(series, other, k - 1, cfg.window);
      UnindexedConcat(Points(series, k - 1, cfg), Points(series, k, cfg)[|Points(series, k - 1, cfg)|..]);
      UnindexedConcat(Points(other, k - 1, cfg), Points(other, k, cfg)[|Points(other, k - 1, cfg)|..]);
    }
  }

  lemma UnindexedConcat(a: seq<Point>, b: seq<Point>)
    ensures Unindexed(a + b) == Unindexed(a) + Unindexed(b)
  {
  }

  lemma SameBounds(series: seq<Sample>, other: seq<Sample>, cfg: Settings)
    requires MeasuresOf(series) == MeasuresOf(other) && |series| == |other|
    ensures Bounds(series, cfg) == Bounds(other, cfg)
  {
    forall i | 0 <= i < |series| ensures BoundAt(series, i, cfg) == BoundAt(other, i, cfg) {
      SameHistory(series, other, i, cfg.window);
    }
  }

  /** When no two measured rows sort alike, permuting the rows changes neither the bounds nor the flagged
      points, apart from the row indices the points carry. */
  lemma OrderIndependent(rows: seq<Row>, other: seq<Row>, cfg: Settings)
    requires multiset(rows) == multiset(other) && DistinctKeys(Measured(rows))
    ensures Detect(rows, cfg).bounds == Detect(other, cfg).bounds
    ensures Unindexed(Detect(rows, cfg).points) == Unindexed(Detect(other, cfg).points)
    ensures Detect(rows, cfg).total == Detect(other, cfg).total
  {
    var series, series' := StableSort(Series(rows)), StableSort(Series(other));
    SortedSeriesUnique(rows, other);
    assert |series| == |MeasuresOf(series)| == |series'|;
    SameBounds(series, series', cfg);
    SamePoints(series, series', |series|, cfg);
  }
}
