/** Mean, population variance and standard deviation over the reals, and what bounds a single value: Samuelson's
    inequality, with a window that shows it is sharp. Proofs are about sums and squares; `Moments` names mean and
    variance by their products with the length, without division. */
module Statistics {

  function Sum(v: seq<real>): real
  {
    if v == [] then 0.0 else Sum(v[..|v| - 1]) + v[|v| - 1]
  }

  function Square(x: real): real
  {
    x * x
  }

  /** The sum of the squared distances of the values from m. */
  function SumSquares(v: seq<real>, m: real): real
  {
    if v == [] then 0.0 else SumSquares(v[..|v| - 1], m) + Square(v[|v| - 1] - m)
  }

  function Mean(v: seq<real>): real
    requires v != []
  {
    Sum(v) / |v| as real
  }

  function Variance(v: seq<real>): real
    requires v != []
  {
    SumSquares(v, Mean(v)) / |v| as real
  }

  /** math.sqrt over the reals. */
  ghost predicate IsSqrt(sqrt: real -> real)
  {
    forall v :: v >= 0.0 ==> sqrt(v) >= 0.0 && Square(sqrt(v)) == v
  }

  function Abs(x: real): real
  {
    if x >= 0.0 then x else -x
  }

  // ---- arithmetic ----

  lemma PositiveProduct(x: real, y: real)
    requires x > 0.0 && y > 0.0
    ensures x * y > 0.0
  {
  }

  lemma ScaledOrder(n: real, x: real, y: real)
    requires n > 0.0
    ensures n * x <= n * y <==> x <= y
  {
    if x < y { PositiveProduct(n, y - x); }
    if y < x { PositiveProduct(n, x - y); }
  }

  lemma SquarePositive(x: real)
    requires x != 0.0
    ensures Square(x) > 0.0
  {
    calc {
      Square(x);
      Abs(x) * Abs(x);
    >  { PositiveProduct(Abs(x), Abs(x)); }
      0.0;
    }
  }

  lemma SquareNonNegative(x: real)
    ensures Square(x) >= 0.0
    ensures Square(x) == 0.0 <==> x == 0.0
  {
    if x != 0.0 { SquarePositive(x); }
  }

  lemma SquareStrict(x: real, y: real)
    requires 0.0 <= x < y
    ensures Square(x) < Square(y)
  {
    calc {
      Square(x);
      x * x;
    <= { if x > 0.0 { ScaledOrder(x, x, y); } }
      x * y;
      y * x;
    <  { ScaledOrder(y, y, x); }
      y * y;
      Square(y);
    }
  }

  lemma SquareMonotone(x: real, y: real)
    requires x >= 0.0 && y >= 0.0
    ensures x <= y <==> Square(x) <= Square(y)
    ensures x == y <==> Square(x) == Square(y)
  {
    if x < y { SquareStrict(x, y); }
    if y < x { SquareStrict(y, x); }
  }

  lemma SquareProduct(x: real, y: real)
    ensures Square(x * y) == Square(x) * Square(y)
  {
    assert (x * y) * (x * y) == (x * x) * (y * y);
  }

  lemma RootOfProduct(x: real, y: real, p: real, product: real)
    requires x >= 0.0 && y >= 0.0 && p >= 0.0
    requires product == Square(x) * Square(y) && Square(p) == product
    ensures p == x * y
  {
    hide Square;
    SquareProduct(x, y);
    assert x * y >= 0.0;
    SquareMonotone(p, x * y);
  }

  /** A value between two others is no further from m than one of them. */
  lemma BetweenIsCloser(lo: real, y: real, hi: real, m: real)
    requires lo <= y <= hi
    ensures Square(y - m) <= Square(lo - m) || Square(y - m) <= Square(hi - m)
  {
    if y >= m {
      SquareMonotone(y - m, hi - m);
    } else {
      SquareMonotone(m - y, m - lo);
      assert Square(y - m) == Square(m - y) && Square(lo - m) == Square(m - lo);
    }
  }

  // ---- Samuelson's inequality ----

  lemma {:induction false} SumSquaresNonNegative(v: seq<real>, m: real)
    ensures SumSquares(v, m) >= 0.0
  {
    if v != [] {
      SumSquaresNonNegative(v[..|v| - 1], m);
      SquareNonNegative(v[|v| - 1] - m);
    }
  }

  lemma CauchyStep(n: real, d: real, s: real, x: real)
    requires n > 0.0 && Square(d) <= n * s
    ensures Square(d + x) <= (n + 1.0) * (s + Square(x))
  {
    SquareNonNegative(d - n * x);
    assert Square(d - n * x) == Square(d) - n * (2.0 * (d * x)) + n * (n * Square(x));
    assert n * (s + n * Square(x)) == n * s + n * (n * Square(x));
    ScaledOrder(n, 2.0 * (d * x), s + n * Square(x));
    assert Square(d + x) == Square(d) + 2.0 * (d * x) + Square(x);
    assert (n + 1.0) * (s + Square(x)) == n * s + n * Square(x) + s + Square(x);
  }

  /** The sum of the distances of the values from m. */
  function SumDistances(v: seq<real>, m: real): real
  {
    if v == [] then 0.0 else SumDistances(v[..|v| - 1], m) + (v[|v| - 1] - m)
  }

  lemma {:induction false} DistancesFromSum(v: seq<real>, m: real)
    ensures SumDistances(v, m) == Sum(v) - |v| as real * m
  {
    if v != [] {
      DistancesFromSum(v[..|v| - 1], m);
    }
  }

  /** The square of a sum of distances is at most their number times the sum of their squares. */
  lemma {:induction false} Cauchy(v: seq<real>, m: real)
    ensures Square(SumDistances(v, m)) <= |v| as real * SumSquares(v, m)
  {
    if |v| == 1 {
      assert v[..0] == [];
    } else if v != [] {
      var front, x := v[..|v| - 1], v[|v| - 1];
      Cauchy(front, m);
      CauchyStep(|front| as real, SumDistances(front, m), SumSquares(front, m), x - m);
    }
  }

  lemma {:induction false} SumWithout(v: seq<real>, k: nat, m: real)
    requires k < |v|
    ensures SumDistances(v, m) == SumDistances(v[..k] + v[k + 1..], m) + (v[k] - m)
    ensures SumSquares(v, m) == SumSquares(v[..k] + v[k + 1..], m) + Square(v[k] - m)
  {
    var last := |v| - 1;
    if k == last {
      assert v[..k] + v[k + 1..] == v[..last];
    } else {
      var rest := v[..k] + v[k + 1..];
      assert rest[..|rest| - 1] == v[..last][..k] + v[..last][k + 1..];
      SumWithout(v[..last], k, m);
    }
  }

  lemma SamuelsonStep(n: real, d: real, s: real, variance: real, restSum: real, restSquares: real)
    requires n > 0.0 && n * variance == s
    requires restSum + d == 0.0 && restSquares + Square(d) == s
    requires Square(restSum) <= (n - 1.0) * restSquares
    ensures Square(d) <= (n - 1.0) * variance
  {
    assert Square(restSum) == Square(d) by { assert restSum == -d; }
    assert (n - 1.0) * restSquares == (n - 1.0) * s - n * Square(d) + Square(d);
    assert n * ((n - 1.0) * variance) == (n - 1.0) * (n * variance);
    ScaledOrder(n, Square(d), (n - 1.0) * variance);
  }

  /** What makes m the mean and `variance` the population variance, without division. */
  ghost predicate Moments(v: seq<real>, m: real, variance: real)
  {
    |v| as real * m == Sum(v) && |v| as real * variance == SumSquares(v, m)
  }

  lemma QuotientProduct(n: real, x: real)
    requires n > 0.0
    ensures n * (x / n) == x
  {
  }

  /** A quotient is determined by the product it undoes. */
  lemma QuotientUnique(n: real, x: real, q: real)
    requires n > 0.0 && n * q == x
    ensures x / n == q
  {
  }

  lemma MomentsOf(v: seq<real>)
    requires v != []
    ensures Moments(v, Mean(v), Variance(v))
  {
    QuotientProduct(|v| as real, Sum(v));
    QuotientProduct(|v| as real, SumSquares(v, Mean(v)));
  }

  lemma MomentsBoundValues(v: seq<real>, m: real, variance: real, k: nat)
    requires k < |v| && Moments(v, m, variance)
    ensures Square(v[k] - m) <= (|v| as real - 1.0) * variance
  {
    hide Square, Sum, SumSquares, SumDistances;
    var rest := v[..k] + v[k + 1..];
    DistancesFromSum(v, m);
    SumWithout(v, k, m);
    Cauchy(rest, m);
    assert |rest| as real == |v| as real - 1.0;
    SamuelsonStep(|v| as real, v[k] - m, SumSquares(v, m), variance, SumDistances(rest, m), SumSquares(rest, m));
  }

  /** No value is more than sqrt(n - 1) population standard deviations from the mean. */
  lemma Samuelson(v: seq<real>, k: nat)
    requires k < |v|
    ensures Square(v[k] - Mean(v)) <= (|v| as real - 1.0) * Variance(v)
  {
    MomentsOf(v);
    MomentsBoundValues(v, Mean(v), Variance(v), k);
  }

  // ---- affine change of scale ----

  /** A value in the new unit, and a spread in the new unit. */
  function Rescale(x: real, a: real, b: real): real
  {
    a * x + b
  }

  function Respread(s: real, a: real): real
  {
    Abs(a) * s
  }

  function Affine(v: seq<real>, a: real, b: real): (r: seq<real>)
    ensures |r| == |v|
  {
    seq(|v|, i requires 0 <= i < |v| => Rescale(v[i], a, b))
  }

  lemma Distribute(x: real, y: real, z: real)
    ensures x * (y + z) == x * y + x * z
  {
  }

  lemma ScaledSquare(a: real, b: real, x: real, m: real)
    ensures Square(Rescale(x, a, b) - Rescale(m, a, b)) == Square(a) * Square(x - m)
  {
    assert (a * x + b) - (a * m + b) == a * (x - m);
    SquareProduct(a, x - m);
  }

  lemma SumSquaresLast(v: seq<real>, x: real, m: real)
    ensures SumSquares(v + [x], m) == SumSquares(v, m) + Square(x - m)
    ensures Sum(v + [x]) == Sum(v) + x
  {
    assert (v + [x])[..|v|] == v;
  }

  lemma AffineLast(v: seq<real>, x: real, a: real, b: real)
    ensures Affine(v + [x], a, b) == Affine(v, a, b) + [Rescale(x, a, b)]
  {
    forall i | 0 <= i <= |v| ensures Affine(v + [x], a, b)[i] == (Affine(v, a, b) + [Rescale(x, a, b)])[i] {
      assert (v + [x])[i] == if i < |v| then v[i] else x;
    }
  }

  lemma {:induction false} AffineSquares(v: seq<real>, a: real, b: real, m: real)
    ensures SumSquares(Affine(v, a, b), Rescale(m, a, b)) == Square(a) * SumSquares(v, m)
  {
    hide Square, Affine, Rescale;
    if v != [] {
      var front, x := v[..|v| - 1], v[|v| - 1];
      AffineLast(front, x, a, b);
      assert v == front + [x];
      AffineSquares(front, a, b, m);
      SumSquaresLast(Affine(front, a, b), Rescale(x, a, b), Rescale(m, a, b));
      SumSquaresLast(front, x, m);
      ScaledSquare(a, b, x, m);
      Distribute(Square(a), SumSquares(front, m), Square(x - m));
    }
  }

  lemma {:induction false} AffineSum(v: seq<real>, a: real, b: real)
    ensures Sum(Affine(v, a, b)) == a * Sum(v) + |v| as real * b
  {
    if v != [] {
      var front, x := v[..|v| - 1], v[|v| - 1];
      AffineLast(front, x, a, b);
      assert v == front + [x];
      AffineSum(front, a, b);
      SumSquaresLast(Affine(front, a, b), Rescale(x, a, b), 0.0);
      Distribute(a, Sum(front), x);
      Distribute(b, |front| as real, 1.0);
    }
  }

  lemma AffineMean(n: real, a: real, b: real, sum: real, scaled: real)
    requires n > 0.0 && scaled == a * sum + n * b
    ensures scaled / n == a * (sum / n) + b
  {
    QuotientProduct(n, sum);
    var mean := sum / n;
    assert a * (n * mean) + n * b == n * (a * mean + b);
    QuotientUnique(n, scaled, a * mean + b);
  }

  lemma AffineVariance(n: real, aa: real, squares: real, scaled: real)
    requires n > 0.0 && scaled == aa * squares
    ensures scaled / n == aa * (squares / n)
  {
    QuotientProduct(n, squares);
    var variance := squares / n;
    assert aa * (n * variance) == n * (aa * variance);
    QuotientUnique(n, scaled, aa * variance);
  }

  lemma AffineMoments(v: seq<real>, a: real, b: real)
    requires v != []
    ensures Mean(Affine(v, a, b)) == Rescale(Mean(v), a, b)
    ensures Variance(Affine(v, a, b)) == Square(a) * Variance(v)
  {
    hide Square, Sum, SumSquares, Affine;
    AffineSum(v, a, b);
    AffineMean(|v| as real, a, b, Sum(v), Sum(Affine(v, a, b)));
    AffineSquares(v, a, b, Mean(v));
    AffineVariance(|v| as real, Square(a), SumSquares(v, Mean(v)), SumSquares(Affine(v, a, b), Rescale(Mean(v), a, b)));
  }

  lemma SquareAbs(x: real)
    ensures Square(Abs(x)) == Square(x)
  {
  }

  lemma VarianceNonNegative(v: seq<real>)
    requires v != []
    ensures Variance(v) >= 0.0
  {
    SumSquaresNonNegative(v, Mean(v));
  }

  lemma AffineDeviation(v: seq<real>, a: real, b: real, sqrt: real -> real)
    requires v != [] && IsSqrt(sqrt)
    ensures sqrt(Variance(Affine(v, a, b))) == Respread(sqrt(Variance(v)), a)
  {
    hide Square, Affine, Mean, Variance;
    VarianceNonNegative(v);
    VarianceNonNegative(Affine(v, a, b));
    AffineMoments(v, a, b);
    SquareAbs(a);
    RootOfProduct(Abs(a), sqrt(Variance(v)), sqrt(Variance(Affine(v, a, b))), Variance(Affine(v, a, b)));
  }

  // ---- the extreme sample ----

  /** n - 1 zeros and a one: the sample whose largest value is as far out as Samuelson allows. */
  function Spike(n: nat): seq<real>
    requires n > 0
  {
    seq(n - 1, i => 0.0) + [1.0]
  }

  lemma {:induction false} ZeroSums(n: nat, m: real)
    ensures Sum(seq(n, i => 0.0)) == 0.0
    ensures SumSquares(seq(n, i => 0.0), m) == n as real * Square(m)
  {
    if n > 0 {
      ZeroSums(n - 1, m);
      assert seq(n, i => 0.0)[..n - 1] == seq(n - 1, i => 0.0);
    }
  }

  lemma SpikeIsExtreme(n: nat)
    requires n > 1
    ensures Mean(Spike(n)) == 1.0 / n as real
    ensures Variance(Spike(n)) > 0.0
    ensures Square(1.0 - Mean(Spike(n))) == (n - 1) as real * Variance(Spike(n))
  {
    var v, r := Spike(n), n as real;
    var m := 1.0 / r;
    assert v[..n - 1] == seq(n - 1, i => 0.0);
    ZeroSums(n - 1, m);
    assert Sum(v) == 1.0;
    assert SumSquares(v, m) == (r - 1.0) * Square(m) + Square(1.0 - m);
    assert r * m == 1.0;
    assert 1.0 - m == (r - 1.0) * m;
    SquareProduct(r - 1.0, m);
    assert SumSquares(v, m) == (r - 1.0) * Square(m) + Square(r - 1.0) * Square(m);
    assert SumSquares(v, m) == r * ((r - 1.0) * Square(m));
    assert Variance(v) == (r - 1.0) * Square(m);
  }
}
