/** The anomaly report told from the rows: which are measured, what the window of each is, and which points are
    flagged with which figures. */
module AnomalyWindow {
  import opened Options
  import opened Statistics
  import opened Sequences
  import opened Anomalies
  import opened AnomalyOrder

  // ---- what is measured ----

  /** The y cell is a number, or a text that reads as one. */
  predicate Numeric(c: Cell)
  {
    c.Number? || (c.Text? && c.parsed.Some?)
  }

  ghost predicate SampleOf(s: Sample, row: Row, i: nat)
  {
    s.x == row.x && s.index == i && (row.y == Number(s.y) || (row.y.Text? && row.y.parsed == Some(s.y)))
  }

  function NumericAt(rows: seq<Row>): nat -> bool
  {
    (i: nat) => i < |rows| && Numeric(rows[i].y)
  }

  /** The samples are those of the rows at these places. */
  ghost predicate SamplesAt(series: seq<Sample>, rows: seq<Row>, at: seq<nat>)
  {
    |series| == |at| && forall j :: 0 <= j < |at| ==> at[j] < |rows| && SampleOf(series[j], rows[at[j]], at[j])
  }

  lemma NextRow(rows: seq<Row>, k: nat)
    requires k < |rows|
    ensures var before, after := Series(rows[..k]), Series(rows[..k + 1]);
            var at, at' := Where(k, NumericAt(rows)), Where(k + 1, NumericAt(rows));
            (after == before && at' == at) ||
            (at' == at + [k] && |after| == |before| + 1 && after == before + [after[|before|]] &&
             SampleOf(after[|before|], rows[k], k))
  {
    assert rows[..k + 1][..k] == rows[..k];
  }

  lemma {:induction false} FirstRows(rows: seq<Row>, k: nat)
    requires k <= |rows|
    ensures SamplesAt(Series(rows[..k]), rows, Where(k, NumericAt(rows)))
  {
    if k > 0 {
      NextRow(rows, k - 1);
      hide Series, Where, SampleOf, NumericAt;
      FirstRows(rows, k - 1);
    }
  }

  /** The rows with a number are measured, once each and in order. */
  lemma SeriesIs(rows: seq<Row>)
    ensures SamplesAt(Series(rows), rows, Where(|rows|, NumericAt(rows)))
  {
    FirstRows(rows, |rows|);
    assert rows[..|rows|] == rows;
  }

  // ---- the window of a point ----

  function Least(a: int, b: int): int
  {
    if a < b then a else b
  }

  /** The last `window` values before sample i, or all of them while there are fewer. */
  function WindowOf(series: seq<Sample>, i: nat, window: nat): (w: seq<real>)
    requires i <= |series|
    ensures |w| == Least(i, window) && forall k :: 0 <= k < |w| ==> w[k] == series[i - |w| + k].y
  {
    var n := Least(i, window);
    seq(n, k requires 0 <= k < n => series[i - n + k].y)
  }

  lemma HistoryIsWindow(series: seq<Sample>, i: nat, window: nat)
    requires i <= |series| && window >= 1
    ensures History(series, i, window) == WindowOf(series, i, window)
  {
  }

  /** The mean and the population standard deviation of some values. */
  ghost predicate Describes(w: seq<real>, mean: real, stddev: real)
  {
    |w| as real * mean == Sum(w) && stddev >= 0.0 && |w| as real * Square(stddev) == SumSquares(w, mean)
  }

  lemma FiguresDescribe(w: seq<real>, sqrt: real -> real)
    requires w != [] && IsSqrt(sqrt)
    ensures Describes(w, Mean(w), sqrt(Variance(w)))
  {
    MomentsOf(w);
    VarianceNonNegative(w);
    hide Mean, Variance, Sum, SumSquares;
  }

  /** No other figures describe the values. */
  lemma DescribedOnce(w: seq<real>, m: real, s: real, sqrt: real -> real)
    requires w != [] && IsSqrt(sqrt) && Describes(w, m, s)
    ensures m == Mean(w) && s == sqrt(Variance(w))
  {
    QuotientUnique(|w| as real, Sum(w), m);
    QuotientUnique(|w| as real, SumSquares(w, m), Square(s));
    VarianceNonNegative(w);
    SquareMonotone(s, sqrt(Variance(w)));
  }

  // ---- the report ----

  /** A sample's bound: nothing for fewer than three values, and else the threshold times the standard deviation of
      its window on both sides of the mean. */
  ghost predicate BoundIs(b: Bound, series: seq<Sample>, i: nat, window: nat, threshold: real)
    requires i < |series|
  {
    var w := WindowOf(series, i, window);
    b.x == series[i].x && if |w| < 3 then b.band.None? else b.band.Some? && BandIs(b.band.value, w, threshold)
  }

  ghost predicate BandIs(b: Band, w: seq<real>, threshold: real)
  {
    exists stddev :: Describes(w, b.mean, stddev) && b.upper == b.mean + threshold * stddev &&
                     b.lower == b.mean - threshold * stddev
  }

  /** The sample has three values before it, they differ, and it lies at least the threshold times their standard
      deviation from their mean. */
  ghost predicate Deviates(series: seq<Sample>, i: nat, window: nat, threshold: real)
  {
    i < |series| && |WindowOf(series, i, window)| >= 3 &&
    exists m, s :: Describes(WindowOf(series, i, window), m, s) && s > 0.0 &&
                   (series[i].y - m >= threshold * s || m - series[i].y >= threshold * s)
  }

  /** The flagged point of a sample, with the figures of its window. */
  ghost predicate PointIs(p: Point, series: seq<Sample>, i: nat, window: nat)
    requires i < |series|
  {
    p.index == series[i].index && p.x == series[i].x && p.y == series[i].y &&
    Describes(WindowOf(series, i, window), p.mean, p.stddev) && p.z * p.stddev == p.y - p.mean &&
    (p.direction.Above? <==> p.y > p.mean)
  }

  lemma BoundAtIs(series: seq<Sample>, i: nat, cfg: Settings)
    requires i < |series| && cfg.window >= 1 && IsSqrt(cfg.sqrt)
    ensures BoundIs(BoundAt(series, i, cfg), series, i, cfg.window, cfg.threshold)
  {
    HistoryIsWindow(series, i, cfg.window);
    hide History, Mean, Variance, Describes;
    var w := WindowOf(series, i, cfg.window);
    if |w| >= 3 {
      FiguresDescribe(w, cfg.sqrt);
    }
  }

  lemma FlagAtIs(series: seq<Sample>, i: nat, cfg: Settings)
    requires i < |series| && cfg.window >= 1 && IsSqrt(cfg.sqrt) && cfg.threshold > 0.0
    ensures FlagAt(series, i, cfg).Some? <==> Deviates(series, i, cfg.window, cfg.threshold)
    ensures FlagAt(series, i, cfg).Some? ==> PointIs(FlagAt(series, i, cfg).value, series, i, cfg.window)
  {
    HistoryIsWindow(series, i, cfg.window);
    hide History;
    var w := WindowOf(series, i, cfg.window);
    if |w| >= 3 {
      var y, m, s := series[i].y, Mean(w), cfg.sqrt(Variance(w));
      FiguresDescribe(w, cfg.sqrt);
      assert Describes(w, m, s);
      forall m', s' | Describes(w, m', s')
        ensures m' == m && s' == s
      {
        DescribedOnce(w, m', s', cfg.sqrt);
      }
      hide Describes, Mean, Variance;
      if s > 0.0 {
        ScoreAgainstBand(y, m, s, cfg.threshold);
        QuotientProduct(s, y - m);
      }
    }
  }

  ghost function DeviatesAt(series: seq<Sample>, cfg: Settings): nat -> bool
    requires cfg.window >= 1
  {
    (i: nat) => Deviates(series, i, cfg.window, cfg.threshold)
  }

  lemma NextPoint(series: seq<Sample>, k: nat, cfg: Settings)
    requires k < |series| && cfg.window >= 1 && IsSqrt(cfg.sqrt) && cfg.threshold > 0.0
    ensures var flag := FlagAt(series, k, cfg);
            (flag.Some? ==> PointIs(flag.value, series, k, cfg.window)) &&
            Points(series, k + 1, cfg) == Points(series, k, cfg) + (if flag.Some? then [flag.value] else []) &&
            Where(k + 1, DeviatesAt(series, cfg)) ==
            Where(k, DeviatesAt(series, cfg)) + (if flag.Some? then [k] else [])
  {
    FlagAtIs(series, k, cfg);
    hide FlagAt, Deviates, PointIs;
  }

  /** The points are those of the samples at these places. */
  ghost predicate PointsAt(points: seq<Point>, series: seq<Sample>, at: seq<nat>, window: nat)
  {
    |points| == |at| && forall j :: 0 <= j < |at| ==> at[j] < |series| && PointIs(points[j], series, at[j], window)
  }

  lemma OneMorePoint(points: seq<Point>, series: seq<Sample>, at: seq<nat>, window: nat, flag: Option<Point>, k: nat)
    requires PointsAt(points, series, at, window) && k < |series|
    requires flag.Some? ==> PointIs(flag.value, series, k, window)
    ensures PointsAt(points + (if flag.Some? then [flag.value] else []), series,
                     at + (if flag.Some? then [k] else []), window)
  {
    hide PointIs;
  }

  /** The flagged points are those of the deviating samples, in order. */
  lemma {:induction false} PointsAre(series: seq<Sample>, k: nat, cfg: Settings)
    requires k <= |series| && cfg.window >= 1 && IsSqrt(cfg.sqrt) && cfg.threshold > 0.0
    ensures PointsAt(Points(series, k, cfg), series, Where(k, DeviatesAt(series, cfg)), cfg.window)
  {
    if k > 0 {
      NextPoint(series, k - 1, cfg);
      hide FlagAt, PointIs, Points, Where, DeviatesAt, IsSqrt, PointsAt;
      PointsAre(series, k - 1, cfg);
      OneMorePoint(Points(series, k - 1, cfg), series, Where(k - 1, DeviatesAt(series, cfg)), cfg.window,
                   FlagAt(series, k - 1, cfg), k - 1);
    }
  }

  /** By rank, within a rank by place, and else by row. */
  predicate ComesBefore(s: Sample, t: Sample)
  {
    s.x.key.rank < t.x.key.rank ||
    (s.x.key.rank == t.x.key.rank &&
     (s.x.key.at < t.x.key.at || (s.x.key.at == t.x.key.at && s.index < t.index)))
  }

  lemma StablyIsBefore(series: seq<Sample>)
    requires SortedStably(series)
    ensures forall i, j :: 0 <= i < j < |series| ==> ComesBefore(series[i], series[j])
  {
  }

  /** The whole report of the rows: over the measured rows, stably sorted, the bound of each from its window, and the
      points of those that deviate. */
  lemma ReportIs(rows: seq<Row>, cfg: Settings)
    requires cfg.window >= 1 && IsSqrt(cfg.sqrt) && cfg.threshold > 0.0
    ensures var series, report := StableSort(Series(rows)), Detect(rows, cfg);
            var at := Where(|series|, DeviatesAt(series, cfg));
            (forall i, j :: 0 <= i < j < |series| ==> ComesBefore(series[i], series[j])) &&
            multiset(series) == multiset(Series(rows)) &&
            PointsAt(report.points, series, at, cfg.window) && report.total == |report.bounds| == |series| &&
            forall i :: 0 <= i < |series| ==> BoundIs(report.bounds[i], series, i, cfg.window, cfg.threshold)
  {
    var series := StableSort(Series(rows));
    SeriesFromRows(rows);
    SortIsStable(Series(rows));
    StablyIsBefore(series);
    PointsAre(series, |series|, cfg);
    hide StableSort, Series, Points, BoundIs, PointsAt, Deviates, SortedStably, ComesBefore;
    forall i | 0 <= i < |series|
      ensures BoundIs(Detect(rows, cfg).bounds[i], series, i, cfg.window, cfg.threshold)
    {
      BoundAtIs(series, i, cfg);
    }
  }
}
