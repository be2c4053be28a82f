/** Changing the unit of the measured column changes the unit of the report and nothing else. */
module AnomalyScale {
  import opened Options
  import opened Statistics
  import opened Anomalies

  /** The same rows with every numeric y replaced by a * y + b. */
  ghost predicate Rescaled(rows: seq<Row>, scaled: seq<Row>, a: real, b: real)
  {
    |rows| == |scaled| && forall i :: 0 <= i < |rows| ==> RescaledRow(rows[i], scaled[i], a, b)
  }

  ghost predicate RescaledRow(row: Row, scaled: Row, a: real, b: real)
  {
    scaled.x == row.x &&
    CoerceFloat(scaled.y) == match CoerceFloat(row.y) case None => None case Some(y) => Some(Rescale(y, a, b))
  }

  function ScaleSample(s: Sample, a: real, b: real): Sample
  {
    s.(y := Rescale(s.y, a, b))
  }

  function ScaleSeries(series: seq<Sample>, a: real, b: real): (r: seq<Sample>)
    ensures |r| == |series|
  {
    seq(|series|, i requires 0 <= i < |series| => ScaleSample(series[i], a, b))
  }

  function Flipped(d: Direction): Direction
  {
    if d.Above? then Below else Above
  }

  function ScalePoint(p: Point, a: real, b: real): Point
  {
    Point(p.index, p.x, Rescale(p.y, a, b), if a > 0.0 then p.z else -p.z, Rescale(p.mean, a, b), Respread(p.stddev, a),
          if a > 0.0 then p.direction else Flipped(p.direction))
  }

  function ScalePoints(points: seq<Point>, a: real, b: real): seq<Point>
  {
    seq(|points|, i requires 0 <= i < |points| => ScalePoint(points[i], a, b))
  }

  /** Upper and lower change places when a is negative. */
  function ScaleBand(band: Band, a: real, b: real): Band
  {
    if a > 0.0 then Band(Rescale(band.upper, a, b), Rescale(band.lower, a, b), Rescale(band.mean, a, b))
    else Band(Rescale(band.lower, a, b), Rescale(band.upper, a, b), Rescale(band.mean, a, b))
  }

  function ScaleBound(bound: Bound, a: real, b: real): Bound
  {
    if bound.band.None? then bound else bound.(band := Some(ScaleBand(bound.band.value, a, b)))
  }

  function ScaleReport(r: Report, a: real, b: real): Report
  {
    Report(ScalePoints(r.points, a, b),
           seq(|r.bounds|, i requires 0 <= i < |r.bounds| => ScaleBound(r.bounds[i], a, b)),
           r.total)
  }

  // ---- the series and its order ----

  lemma ScaleSeriesLast(series: seq<Sample>, s: Sample, a: real, b: real)
    ensures ScaleSeries(series + [s], a, b) == ScaleSeries(series, a, b) + [ScaleSample(s, a, b)]
  {
    forall i | 0 <= i <= |series|
      ensures ScaleSeries(series + [s], a, b)[i] == (ScaleSeries(series, a, b) + [ScaleSample(s, a, b)])[i]
    {
      assert (series + [s])[i] == if i < |series| then series[i] else s;
    }
  }

  lemma {:induction false} SeriesScales(rows: seq<Row>, scaled: seq<Row>, a: real, b: real)
    requires Rescaled(rows, scaled, a, b)
    ensures Series(scaled) == ScaleSeries(Series(rows), a, b)
  {
    if rows != [] {
      var last := |rows| - 1;
      SeriesScales(rows[..last], scaled[..last], a, b);
      assert RescaledRow(rows[last], scaled[last], a, b);
      match CoerceFloat(rows[last].y) {
        case None =>
        case Some(y) => ScaleSeriesLast(Series(rows[..last]), Sample(rows[last].x, y, last), a, b);
      }
    }
  }

  lemma {:induction false} InsertScales(sorted: seq<Sample>, s: Sample, a: real, b: real)
    ensures Insert(ScaleSeries(sorted, a, b), ScaleSample(s, a, b)) == ScaleSeries(Insert(sorted, s), a, b)
  {
    if sorted == [] || !KeyLess(s.x.key, sorted[|sorted| - 1].x.key) {
      ScaleSeriesLast(sorted, s, a, b);
    } else {
      var front, last := sorted[..|sorted| - 1], sorted[|sorted| - 1];
      assert sorted == front + [last];
      ScaleSeriesLast(front, last, a, b);
      InsertScales(front, s, a, b);
      ScaleSeriesLast(Insert(front, s), last, a, b);
    }
  }

  lemma {:induction false} SortScales(series: seq<Sample>, a: real, b: real)
    ensures StableSort(ScaleSeries(series, a, b)) == ScaleSeries(StableSort(series), a, b)
  {
    if series != [] {
      var front, last := series[..|series| - 1], series[|series| - 1];
      assert series == front + [last];
      ScaleSeriesLast(front, last, a, b);
      SortScales(front, a, b);
      InsertScales(StableSort(front), last, a, b);
    }
  }

  lemma HistoryScales(series: seq<Sample>, i: nat, window: int, a: real, b: real)
    requires i <= |series|
    ensures History(ScaleSeries(series, a, b), i, window) == Affine(History(series, i, window), a, b)
  {
    var h := Before(series, i, window);
    assert Before(ScaleSeries(series, a, b), i, window) == ScaleSeries(h, a, b);
    forall k | 0 <= k < |h| ensures Values(ScaleSeries(h, a, b))[k] == Affine(Values(h), a, b)[k] {
      assert ScaleSeries(h, a, b)[k] == ScaleSample(h[k], a, b);
    }
  }

  // ---- one point ----

  lemma BandScales(m: real, s: real, t: real, a: real, b: real)
    requires a != 0.0
    ensures BandAround(Rescale(m, a, b), Respread(s, a), t) == ScaleBand(BandAround(m, s, t), a, b)
  {
    if a > 0.0 {
      assert t * (a * s) == a * (t * s);
    } else {
      assert t * (-a * s) == -(a * (t * s));
    }
  }

  lemma ScoreScales(y: real, m: real, s: real, a: real, b: real)
    requires a != 0.0 && s >= 0.0
    ensures ScoreOf(Rescale(y, a, b), Rescale(m, a, b), Respread(s, a)) ==
            match ScoreOf(y, m, s) case Infinite => Infinite case Finite(z) => Finite(if a > 0.0 then z else -z)
  {
    if s > 0.0 {
      var z := (y - m) / s;
      QuotientProduct(s, y - m);
      PositiveProduct(Abs(a), s);
      var n, q := Respread(s, a), if a > 0.0 then z else -z;
      calc {
        n * q;
        Abs(a) * (s * q);
        a * (s * z);
        a * (y - m);
        Rescale(y, a, b) - Rescale(m, a, b);
      }
      QuotientUnique(n, Rescale(y, a, b) - Rescale(m, a, b), q);
    } else {
      assert Rescale(y, a, b) - Rescale(m, a, b) == a * (y - m);
      if y != m {
        SquarePositive(a);
        SquarePositive(y - m);
        NonZeroProduct(a, y - m);
      }
    }
  }

  lemma NonZeroProduct(x: real, y: real)
    requires x != 0.0 && y != 0.0
    ensures x * y != 0.0
  {
    PositiveProduct(Abs(x), Abs(y));
  }

  lemma FlagScales(s: Sample, h: seq<real>, cfg: Settings, a: real, b: real)
    requires a != 0.0 && IsSqrt(cfg.sqrt) && cfg.threshold > 0.0
    ensures Flag(ScaleSample(s, a, b), Affine(h, a, b), cfg) ==
            match Flag(s, h, cfg) case None => None case Some(p) => Some(ScalePoint(p, a, b))
    ensures BandOf(Affine(h, a, b), cfg) ==
            match BandOf(h, cfg) case None => None case Some(band) => Some(ScaleBand(band, a, b))
  {
    hide Mean, Variance, Affine, Rescale, Respread, ScoreOf, BandAround, ScaleBand;
    if |h| >= MIN_HISTORY {
      var m, v := Mean(h), Variance(h);
      VarianceNonNegative(h);
      AffineMoments(h, a, b);
      AffineDeviation(h, a, b, cfg.sqrt);
      ScoreScales(s.y, m, cfg.sqrt(v), a, b);
      BandScales(m, cfg.sqrt(v), cfg.threshold, a, b);
    }
  }

  // ---- the report ----

  lemma ScalePointsLast(points: seq<Point>, p: Point, a: real, b: real)
    ensures ScalePoints(points + [p], a, b) == ScalePoints(points, a, b) + [ScalePoint(p, a, b)]
  {
    forall i | 0 <= i <= |points|
      ensures ScalePoints(points + [p], a, b)[i] == (ScalePoints(points, a, b) + [ScalePoint(p, a, b)])[i]
    {
      assert (points + [p])[i] == if i < |points| then points[i] else p;
    }
  }

  lemma {:induction false} PointsScale(series: seq<Sample>, k: nat, cfg: Settings, a: real, b: real)
    requires k <= |series| && a != 0.0 && IsSqrt(cfg.sqrt) && cfg.threshold > 0.0
    ensures Points(ScaleSeries(series, a, b), k, cfg) == ScalePoints(Points(series, k, cfg), a, b)
  {
    hide Flag, History, ScalePoint, ScaleSample;
    if k > 0 {
      PointsScale(series, k - 1, cfg, a, b);
      HistoryScales(series, k - 1, cfg.window, a, b);
      FlagScales(series[k - 1], History(series, k - 1, cfg.window), cfg, a, b);
      match FlagAt(series, k - 1, cfg) {
        case None => assert Points(series, k, cfg) == Points(series, k - 1, cfg);
        case Some(p) => ScalePointsLast(Points(series, k - 1, cfg), p, a, b);
      }
    }
  }

  lemma BoundsScale(series: seq<Sample>, cfg: Settings, a: real, b: real)
    requires a != 0.0 && IsSqrt(cfg.sqrt) && cfg.threshold > 0.0
    ensures forall i :: 0 <= i < |series| ==>
              Bounds(ScaleSeries(series, a, b), cfg)[i] == ScaleBound(Bounds(series, cfg)[i], a, b)
  {
    forall i | 0 <= i < |series|
      ensures Bounds(ScaleSeries(series, a, b), cfg)[i] == ScaleBound(Bounds(series, cfg)[i], a, b)
    {
      hide BandOf, History, ScaleBand;
      HistoryScales(series, i, cfg.window, a, b);
      FlagScales(series[i], History(series, i, cfg.window), cfg, a, b);
    }
  }

  /** Replacing every y by a * y + b, a not 0, flags the same rows; means and bounds follow the change of
      scale, with upper and lower exchanged for a negative a, and directions flip exactly then. */
  lemma DetectScales(rows: seq<Row>, scaled: seq<Row>, cfg: Settings, a: real, b: real)
    requires Rescaled(rows, scaled, a, b)
    requires a != 0.0 && IsSqrt(cfg.sqrt) && cfg.threshold > 0.0
    ensures Detect(scaled, cfg) == ScaleReport(Detect(rows, cfg), a, b)
  {
    SeriesScales(rows, scaled, a, b);
    SortScales(Series(rows), a, b);
    var series := StableSort(Series(rows));
    PointsScale(series, |series|, cfg, a, b);
    BoundsScale(series, cfg, a, b);
  }
}
