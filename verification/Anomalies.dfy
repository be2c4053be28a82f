/** Rolling-window anomaly detection: _compute_anomalies and what it guarantees point by point. */
module Anomalies {
  import opened Options
  import opened Statistics

  /** A cell of the y column. `parsed` is the finite float a string reads as, if it does. */
  datatype Cell =
    | Missing
    | Boolean(b: bool)
    | Number(v: real)
    | NonFinite
    | Text(s: string, parsed: Option<real>)
    | OtherCell

  /** What _sort_key_for_x makes of an x value: a rank (values that cannot be placed sort last) and a place
      in the order of the comparable values of that rank. */
  datatype SortKey = SortKey(rank: int, at: real)

  datatype XValue = XValue(shown: string, key: SortKey)

  datatype Row = Row(x: XValue, y: Cell)

  datatype Sample = Sample(x: XValue, y: real, index: nat)

  datatype Band = Band(upper: real, lower: real, mean: real)

  datatype Bound = Bound(x: XValue, band: Option<Band>)

  datatype Direction = Above | Below

  datatype Point = Point(index: nat, x: XValue, y: real, z: real, mean: real, stddev: real, direction: Direction)

  datatype Report = Report(points: seq<Point>, bounds: seq<Bound>, total: nat)

  /** The z-score, which is infinite for a value off a window without spread. */
  datatype Score = Finite(z: real) | Infinite

  datatype Settings = Settings(window: int, threshold: real, sqrt: real -> real)

  const MIN_HISTORY := 3

  predicate KeyLess(a: SortKey, b: SortKey)
  {
    a.rank < b.rank || (a.rank == b.rank && a.at < b.at)
  }

  function CoerceFloat(cell: Cell): Option<real>
  {
    match cell
    case Number(v) => Some(v)
    case Text(_, parsed) => parsed
    case _ => None
  }

  function Series(rows: seq<Row>): seq<Sample>
  {
    if rows == [] then [] else
    var front, row := Series(rows[..|rows| - 1]), rows[|rows| - 1];
    match CoerceFloat(row.y)
    case None => front
    case Some(y) => front + [Sample(row.x, y, |rows| - 1)]
  }

  // ---- list.sort(key=...) ----

  /** After every sample that does not sort behind it. */
  function Insert(sorted: seq<Sample>, s: Sample): seq<Sample>
  {
    if sorted == [] || !KeyLess(s.x.key, sorted[|sorted| - 1].x.key) then sorted + [s]
    else Insert(sorted[..|sorted| - 1], s) + [sorted[|sorted| - 1]]
  }

  function StableSort(series: seq<Sample>): seq<Sample>
  {
    if series == [] then [] else Insert(StableSort(series[..|series| - 1]), series[|series| - 1])
  }

  // ---- one point ----

  function Values(series: seq<Sample>): (v: seq<real>)
    ensures |v| == |series|
  {
    seq(|series|, i requires 0 <= i < |series| => series[i].y)
  }

  /** The `window` samples before sample i, or as many as there are. */
  function Before(series: seq<Sample>, i: nat, window: int): seq<Sample>
    requires i <= |series|
  {
    var start := if i - window > 0 then i - window else 0;
    if start <= i then series[start..i] else []
  }

  function History(series: seq<Sample>, i: nat, window: int): seq<real>
    requires i <= |series|
  {
    Values(Before(series, i, window))
  }

  function ScoreOf(y: real, mean: real, stddev: real): Score
  {
    if stddev > 0.0 then Finite((y - mean) / stddev) else
    if y == mean then Finite(0.0) else Infinite
  }

  function BandAround(mean: real, stddev: real, threshold: real): Band
  {
    Band(mean + threshold * stddev, mean - threshold * stddev, mean)
  }

  function BandOf(h: seq<real>, cfg: Settings): Option<Band>
  {
    if |h| < MIN_HISTORY then None else
    Some(BandAround(Mean(h), cfg.sqrt(Variance(h)), cfg.threshold))
  }

  function Flag(s: Sample, h: seq<real>, cfg: Settings): Option<Point>
  {
    if |h| < MIN_HISTORY then None else
    var mean, stddev := Mean(h), cfg.sqrt(Variance(h));
    match ScoreOf(s.y, mean, stddev)
    case Infinite => None
    case Finite(z) =>
      if Abs(z) >= cfg.threshold then Some(Point(s.index, s.x, s.y, z, mean, stddev, if z > 0.0 then Above else Below))
      else None
  }

  function FlagAt(series: seq<Sample>, i: nat, cfg: Settings): Option<Point>
    requires i < |series|
  {
    Flag(series[i], History(series, i, cfg.window), cfg)
  }

  function BoundAt(series: seq<Sample>, i: nat, cfg: Settings): Bound
    requires i < |series|
  {
    Bound(series[i].x, BandOf(History(series, i, cfg.window), cfg))
  }

  // ---- the whole report ----

  function Bounds(series: seq<Sample>, cfg: Settings): (b: seq<Bound>)
    ensures |b| == |series|
  {
    seq(|series|, i requires 0 <= i < |series| => BoundAt(series, i, cfg))
  }

  /** The flagged points among the first k samples. */
  function Points(series: seq<Sample>, k: nat, cfg: Settings): seq<Point>
    requires k <= |series|
  {
    if k == 0 then [] else
    Points(series, k - 1, cfg) + (match FlagAt(series, k - 1, cfg) case None => [] case Some(p) => [p])
  }

  function ReportOf(series: seq<Sample>, cfg: Settings): Report
  {
    Report(Points(series, |series|, cfg), Bounds(series, cfg), |series|)
  }

  function Detect(rows: seq<Row>, cfg: Settings): Report
  {
    ReportOf(StableSort(Series(rows)), cfg)
  }

  /** The clamps of the handler, which keep the threshold positive. */
  function Clamped(window: int, threshold: real, sqrt: real -> real): (cfg: Settings)
    ensures 3 <= cfg.window <= 1000 && 0.5 <= cfg.threshold <= 10.0
    ensures 3 <= window <= 1000 ==> cfg.window == window
    ensures window < 3 ==> cfg.window == 3
    ensures window > 1000 ==> cfg.window == 1000
    ensures 0.5 <= threshold <= 10.0 ==> cfg.threshold == threshold
    ensures threshold < 0.5 ==> cfg.threshold == 0.5
    ensures threshold > 10.0 ==> cfg.threshold == 10.0
  {
    Settings(
      if window > 1000 then 1000 else if window < 3 then 3 else window,
      if threshold > 10.0 then 10.0 else if threshold < 0.5 then 0.5 else threshold,
      sqrt)
  }

  method ComputeAnomalies(rows: seq<Row>, cfg: Settings) returns (report: Report)
    ensures report == Detect(rows, cfg)
  {
    var series: seq<Sample> := [];
    for i := 0 to |rows|
      invariant series == Series(rows[..i])
    {
      assert rows[..i + 1][..i] == rows[..i];
      match CoerceFloat(rows[i].y) {
        case None =>
        case Some(y) => series := series + [Sample(rows[i].x, y, i)];
      }
    }
    assert rows[..|rows|] == rows;
    report := Scan(StableSort(series), cfg);
  }

  /** The second loop: bounds and anomalies over the sorted series. */
  method Scan(series: seq<Sample>, cfg: Settings) returns (report: Report)
    ensures report == ReportOf(series, cfg)
  {
    hide History, Mean, Variance, BandAround, ScoreOf, Abs;
    var bounds: seq<Bound> := [];
    var anomalies: seq<Point> := [];
    for i := 0 to |series|
      invariant |bounds| == i && forall j :: 0 <= j < i ==> bounds[j] == BoundAt(series, j, cfg)
      invariant anomalies == Points(series, i, cfg)
    {
      var values := History(series, i, cfg.window);
      if |values| < MIN_HISTORY {
        bounds := bounds + [Bound(series[i].x, None)];
        continue;
      }
      var mean := Mean(values);
      var stddev := cfg.sqrt(Variance(values));
      bounds := bounds + [Bound(series[i].x, Some(BandAround(mean, stddev, cfg.threshold)))];
      var score := ScoreOf(series[i].y, mean, stddev);
      if score.Finite? && Abs(score.z) >= cfg.threshold {
        anomalies := anomalies + [Point(series[i].index, series[i].x, series[i].y, score.z, mean, stddev,
                                        if score.z > 0.0 then Above else Below)];
      }
    }
    assert bounds == Bounds(series, cfg);
    report := Report(anomalies, bounds, |series|);
  }

  // ---- when a point is flagged ----

  lemma ScoreAgainstBand(y: real, m: real, s: real, t: real)
    requires s > 0.0
    ensures Abs((y - m) / s) >= t <==> y - m >= t * s || m - y >= t * s
    ensures (y - m) / s > 0.0 <==> y > m
  {
    var z := (y - m) / s;
    QuotientProduct(s, y - m);
    ScaledOrder(s, t, z);
    ScaledOrder(s, t, -z);
    ScaledOrder(s, z, 0.0);
  }

  /** With a positive threshold a point is flagged exactly when it has history, the history has spread, and
      it lies on or beyond one of its reported bounds; its direction is the bound it passed. */
  lemma FlaggedExactly(series: seq<Sample>, i: nat, cfg: Settings)
    requires i < |series| && IsSqrt(cfg.sqrt) && cfg.threshold > 0.0
    ensures var h, band, y := History(series, i, cfg.window), BoundAt(series, i, cfg).band, series[i].y;
            (FlagAt(series, i, cfg).Some? <==>
               |h| >= MIN_HISTORY && Variance(h) > 0.0 && (y >= band.value.upper || y <= band.value.lower)) &&
            (FlagAt(series, i, cfg).Some? ==>
               (FlagAt(series, i, cfg).value.direction.Above? <==> y >= band.value.upper))
  {
    var h, y := History(series, i, cfg.window), series[i].y;
    if |h| >= MIN_HISTORY {
      VarianceNonNegative(h);
      var m, s := Mean(h), cfg.sqrt(Variance(h));
      RootPositive(Variance(h), cfg.sqrt);
      if s > 0.0 {
        ScoreAgainstBand(y, m, s, cfg.threshold);
        PositiveProduct(cfg.threshold, s);
      }
    }
  }

  lemma RootPositive(v: real, sqrt: real -> real)
    requires v >= 0.0 && IsSqrt(sqrt)
    ensures sqrt(v) > 0.0 <==> v > 0.0
  {
    SquareNonNegative(sqrt(v));
  }

  /** The description flags |z| >= threshold; off a window without spread z is infinite, and the point is not
      flagged, however far out it lies. */
  lemma FlatWindowFlagsNothing(x: XValue, y: real, cfg: Settings)
    requires cfg.window >= 3 && IsSqrt(cfg.sqrt) && y != 1.0
    ensures var one := Row(x, Number(1.0));
            Detect([one, one, one, Row(x, Number(y))], cfg).points == []
    ensures ScoreOf(y, Mean([1.0, 1.0, 1.0]), cfg.sqrt(Variance([1.0, 1.0, 1.0]))) == Infinite
  {
    FlatSeries(x, y);
    FlatScore(y, cfg);
    hide Mean, Variance, StableSort, Series;
    var series := [Sample(x, 1.0, 0), Sample(x, 1.0, 1), Sample(x, 1.0, 2), Sample(x, y, 3)];
    assert History(series, 3, cfg.window) == [1.0, 1.0, 1.0];
    assert forall i :: 0 <= i < 3 ==> |History(series, i, cfg.window)| < MIN_HISTORY;
    hide History;
    assert forall i :: 0 <= i < 4 ==> FlagAt(series, i, cfg).None?;
    hide FlagAt;
    NoPoints(series, 4, cfg);
  }

  lemma {:induction false} NoPoints(series: seq<Sample>, k: nat, cfg: Settings)
    requires k <= |series| && forall i :: 0 <= i < k ==> FlagAt(series, i, cfg).None?
    ensures Points(series, k, cfg) == []
  {
    hide FlagAt;
    if k > 0 {
      NoPoints(series, k - 1, cfg);
    }
  }

  lemma FlatSeries(x: XValue, y: real)
    ensures var one := Row(x, Number(1.0));
            StableSort(Series([one, one, one, Row(x, Number(y))])) ==
            [Sample(x, 1.0, 0), Sample(x, 1.0, 1), Sample(x, 1.0, 2), Sample(x, y, 3)]
  {
    var one := Row(x, Number(1.0));
    var rows := [one, one, one, Row(x, Number(y))];
    SeriesOfNumbers(rows);
    hide Series, StableSort;
    var series := [Sample(x, 1.0, 0), Sample(x, 1.0, 1), Sample(x, 1.0, 2), Sample(x, y, 3)];
    assert Series(rows) == series;
    SortAlike(series);
  }

  lemma {:induction false} SeriesOfNumbers(rows: seq<Row>)
    requires forall i :: 0 <= i < |rows| ==> rows[i].y.Number?
    ensures |Series(rows)| == |rows|
    ensures forall i :: 0 <= i < |rows| ==> Series(rows)[i] == Sample(rows[i].x, rows[i].y.v, i)
  {
    if rows != [] {
      SeriesOfNumbers(rows[..|rows| - 1]);
    }
  }

  /** Samples that sort alike are left in their order. */
  lemma {:induction false} SortAlike(series: seq<Sample>)
    requires forall i :: 0 <= i < |series| ==> series[i].x.key == series[0].x.key
    ensures StableSort(series) == series
  {
    if series != [] {
      var n := |series| - 1;
      SortAlike(series[..n]);
      assert series == series[..n] + [series[n]];
    }
  }

  lemma FlatScore(y: real, cfg: Settings)
    requires IsSqrt(cfg.sqrt) && y != 1.0
    ensures ScoreOf(y, Mean([1.0, 1.0, 1.0]), cfg.sqrt(Variance([1.0, 1.0, 1.0]))) == Infinite
  {
    var h := [1.0, 1.0, 1.0];
    assert Mean(h) == 1.0 && Variance(h) == 0.0 by {
      assert h[..2] == [1.0, 1.0] && [1.0, 1.0][..1] == [1.0] && [1.0][..0] == [];
      assert Sum([1.0]) == 1.0 && Sum([1.0, 1.0]) == Sum([1.0]) + 1.0 && Sum(h) == Sum([1.0, 1.0]) + 1.0;
      assert SumSquares([1.0], 1.0) == SumSquares([], 1.0) && SumSquares([1.0, 1.0], 1.0) == SumSquares([1.0], 1.0);
      assert SumSquares(h, 1.0) == SumSquares([1.0, 1.0], 1.0);
    }
    RootPositive(0.0, cfg.sqrt);
  }

  // ---- values inside the range of their window ----

  /** Samuelson: a value between two values of its window, and so within its range, is never flagged when
      the squared threshold is more than the window's length less one. */
  lemma WithinRangeNeverFlagged(series: seq<Sample>, i: nat, cfg: Settings, lo: nat, hi: nat)
    requires i < |series| && IsSqrt(cfg.sqrt) && cfg.threshold > 0.0
    requires var h := History(series, i, cfg.window);
             lo < |h| && hi < |h| && h[lo] <= series[i].y <= h[hi] && Square(cfg.threshold) > |h| as real - 1.0
    ensures FlagAt(series, i, cfg).None?
  {
    var h, y := History(series, i, cfg.window), series[i].y;
    if |h| >= MIN_HISTORY {
      var m, v := Mean(h), Variance(h);
      Samuelson(h, lo);
      Samuelson(h, hi);
      BetweenIsCloser(h[lo], y, h[hi], m);
      VarianceNonNegative(h);
      RootPositive(v, cfg.sqrt);
      if v > 0.0 {
        CloserThanThreshold(y, m, v, cfg.sqrt(v), cfg.threshold, |h| as real - 1.0);
      } else {
        SquareNonNegative(y - m);
      }
    }
  }

  lemma CloserThanThreshold(y: real, m: real, v: real, s: real, t: real, n: real)
    requires v > 0.0 && s > 0.0 && Square(s) == v && t > 0.0
    requires Square(y - m) <= n * v && n < Square(t)
    ensures Abs((y - m) / s) < t
  {
    var z := (y - m) / s;
    QuotientProduct(s, y - m);
    SquareProduct(s, z);
    assert Square(y - m) == v * Square(z);
    assert v * Square(z) <= v * n;
    ScaledOrder(v, Square(z), n);
    SquareAbs(z);
    SquareMonotone(t, Abs(z));
  }

  /** The samples 0, ..., 0, 1 and then another 1. */
  function SpikeSeries(n: nat): seq<Sample>
    requires n > 0
  {
    seq(n + 1, i requires 0 <= i <= n =>
                 Sample(XValue("", SortKey(0, i as real)), if i < n then Spike(n)[i] else 1.0, i))
  }

  /** The bound is sharp: whenever the squared threshold is not more than n - 1, some window of n values has
      its own largest value flagged when it comes again. */
  lemma RangeBoundIsSharp(n: nat, cfg: Settings)
    requires n >= MIN_HISTORY && cfg.window == n && IsSqrt(cfg.sqrt)
    requires cfg.threshold > 0.0 && Square(cfg.threshold) <= n as real - 1.0
    ensures var s := SpikeSeries(n);
            History(s, n, cfg.window) == Spike(n) && s[n].y == Spike(n)[n - 1] && FlagAt(s, n, cfg).Some?
  {
    var s := SpikeSeries(n);
    assert History(s, n, cfg.window) == Spike(n);
    SpikeIsExtreme(n);
    var m, v := Mean(Spike(n)), Variance(Spike(n));
    RootPositive(v, cfg.sqrt);
    FartherThanThreshold(1.0, m, v, cfg.sqrt(v), cfg.threshold, n as real - 1.0);
  }

  lemma FartherThanThreshold(y: real, m: real, v: real, s: real, t: real, n: real)
    requires v > 0.0 && s > 0.0 && Square(s) == v && t > 0.0
    requires Square(y - m) == n * v && n >= Square(t)
    ensures Abs((y - m) / s) >= t
  {
    var z := (y - m) / s;
    QuotientProduct(s, y - m);
    SquareProduct(s, z);
    assert v * Square(z) >= v * n;
    ScaledOrder(v, n, Square(z));
    SquareAbs(z);
    SquareMonotone(t, Abs(z));
  }
}
