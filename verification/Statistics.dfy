/**
 Uncertainty recomputed from raw benchmark records: the Wilson score interval of a binomial rate and the percentile
 bootstrap of a median. Arithmetic is exact; `round` stands for any monotone rounding.
*/
module Statistics {
  import opened Prelude

  datatype Interval = Interval(point: real, low: real, high: real)

  datatype StatisticsError = NonPositiveShots | ErrorsOutOfRange | NoRepetitions

  ghost predicate Monotone(round: real -> real) {
    forall x, y :: x <= y ==> round(x) <= round(y)
  }

  // ----------------------------------------------------------- Wilson score

  const Z := 1.959963984540054

  function Max(x: real, y: real): real {
    if x < y then y else x
  }

  function Min(x: real, y: real): real {
    if y < x then y else x
  }

  function Rate(errors: nat, shots: nat): real
    requires shots > 0
  {
    errors as real / shots as real
  }

  /** The squared deviate, per shot. */
  function Spread(shots: nat): real
    requires shots > 0
  {
    Z * Z / shots as real
  }

  /** What the margin takes the square root of. */
  function Radicand(errors: nat, shots: nat): real
    requires shots > 0
  {
    var n, p := shots as real, Rate(errors, shots);
    (p * (1.0 - p) + Z * Z / (4.0 * n)) / n
  }

  function Margin(root: real): real {
    Z * root
  }

  /** The bounds before clamping, given the square root of the radicand. */
  function WilsonBound(errors: nat, shots: nat, root: real, upper: bool): real
    requires shots > 0
  {
    var n := shots as real;
    var centre := Rate(errors, shots) + Z * Z / (2.0 * n);
    (if upper then centre + Margin(root) else centre - Margin(root)) / (1.0 + Spread(shots))
  }

  /** `wilson_interval` */
  function WilsonInterval(errors: int, shots: int, root: real, round: real -> real): Result<Interval, StatisticsError> {
    if shots <= 0 then Err(NonPositiveShots)
    else if errors < 0 || errors > shots then Err(ErrorsOutOfRange)
    else Ok(Interval(round(Rate(errors, shots)),
                     round(Max(0.0, WilsonBound(errors, shots, root, false))),
                     round(Min(1.0, WilsonBound(errors, shots, root, true)))))
  }

  ghost predicate IsSquareRoot(root: real, x: real) {
    root >= 0.0 && root * root == x
  }

  /** The score equation: the rates whose distance from the estimate is `Z` standard errors. */
  ghost predicate ScoreEquation(errors: nat, shots: nat, p: real)
    requires shots > 0
  {
    var d := Rate(errors, shots) - p;
    d * d == Z * Z * p * (1.0 - p) / shots as real
  }

  /**
   The two roots of `(1+c)x^2 - (2p+c)x + p^2`, where `c` is the squared deviate over the number of shots and `m`
   the margin: their sum, their product, and the product of their distances from 1.
  */
  lemma {:induction false} RootsOfScore(p: real, c: real, m: real, low: real, high: real)
    requires c > 0.0 && m * m == c * (p * (1.0 - p)) + c * c / 4.0
    requires low * (1.0 + c) == p + c / 2.0 - m && high * (1.0 + c) == p + c / 2.0 + m
    ensures (low + high) * (1.0 + c) == 2.0 * p + c
    ensures low * high * (1.0 + c) == p * p
    ensures (1.0 - low) * (1.0 - high) * (1.0 + c) == (1.0 - p) * (1.0 - p)
  {
    var d := 1.0 + c;
    var h := p + c / 2.0;
    assert (low * d) * (high * d) == (h - m) * (h + m) == h * h - m * m;
    assert h * h == p * p + p * c + c * c / 4.0;
    assert c * (p * (1.0 - p)) == c * p - c * (p * p);
    assert h * h - m * m == p * p * d;
    assert (low * high * d) * d == (low * d) * (high * d);
    CancelFactor(low * high * d, p * p, d);
    assert (1.0 - low) * (1.0 - high) == 1.0 - (low + high) + low * high;
    assert (1.0 - low) * (1.0 - high) * d == d - (low + high) * d + low * high * d;
  }

  lemma {:induction false} CancelFactor(x: real, y: real, d: real)
    requires d > 0.0 && x * d == y * d
    ensures x == y
  {
    assert (x - y) * d == 0.0;
  }

  /** The score equation at `x` measures the distances of `x` from the two roots. */
  lemma {:induction false} ScoreFactors(p: real, c: real, low: real, high: real, x: real)
    requires (low + high) * (1.0 + c) == 2.0 * p + c && low * high * (1.0 + c) == p * p
    ensures (p - x) * (p - x) - c * (x * (1.0 - x)) == (1.0 + c) * ((x - low) * (x - high))
  {
    var d := 1.0 + c;
    assert (x - low) * (x - high) == x * x - (low + high) * x + low * high;
    assert d * ((x - low) * (x - high)) == d * (x * x) - (low + high) * d * x + low * high * d;
    assert (p - x) * (p - x) == p * p - 2.0 * p * x + x * x;
    assert c * (x * (1.0 - x)) == c * x - c * (x * x);
    assert (2.0 * p + c) * x == 2.0 * p * x + c * x;
  }

  lemma {:induction false} ProductSign(x: real, y: real)
    ensures x * y == 0.0 <==> x == 0.0 || y == 0.0
    ensures x * y < 0.0 <==> (x < 0.0 < y || y < 0.0 < x)
  {
  }

  lemma {:induction false} LowIsNonNegative(p: real, c: real, low: real, high: real)
    requires p >= 0.0 && c > 0.0 && low <= high
    requires (low + high) * (1.0 + c) == 2.0 * p + c && low * high * (1.0 + c) == p * p
    ensures low >= 0.0 && high > 0.0 && (p == 0.0 ==> low == 0.0)
  {
    ProductSign(low + high, 1.0 + c);
    ProductSign(p, p);
    ProductSign(low * high, 1.0 + c);
    ProductSign(low, high);
  }

  lemma {:induction false} EstimateIsBetween(p: real, c: real, low: real, high: real)
    requires 0.0 <= p <= 1.0 && c > 0.0 && low <= high
    requires (low + high) * (1.0 + c) == 2.0 * p + c && low * high * (1.0 + c) == p * p
    ensures low <= p <= high
  {
    ScoreFactors(p, c, low, high, p);
    ProductSign(p, 1.0 - p);
    ProductSign(c, p * (1.0 - p));
    ProductSign(1.0 + c, (p - low) * (p - high));
    ProductSign(p - low, p - high);
  }

  /** Where the roots lie. */
  lemma {:induction false} RootsAreInside(p: real, c: real, low: real, high: real)
    requires 0.0 <= p <= 1.0 && c > 0.0 && low <= high
    requires (low + high) * (1.0 + c) == 2.0 * p + c && low * high * (1.0 + c) == p * p
    requires (1.0 - low) * (1.0 - high) * (1.0 + c) == (1.0 - p) * (1.0 - p)
    ensures 0.0 <= low <= p <= high <= 1.0
    ensures p == 0.0 ==> low == 0.0
    ensures p == 1.0 ==> high == 1.0
  {
    LowIsNonNegative(p, c, low, high);
    EstimateIsBetween(p, c, low, high);
    assert (1.0 - high + (1.0 - low)) * (1.0 + c) == 2.0 * (1.0 - p) + c;
    assert (1.0 - high) * (1.0 - low) == (1.0 - low) * (1.0 - high);
    LowIsNonNegative(1.0 - p, c, 1.0 - high, 1.0 - low);
  }

  lemma {:induction false} Quotient(x: real, d: real)
    requires d > 0.0
    ensures x / d * d == x
  {
  }

  /** The rate is the one number of which `shots` make up the errors. */
  lemma {:induction false} RateOfShots(errors: nat, shots: nat)
    requires shots > 0
    ensures Rate(errors, shots) * shots as real == errors as real
  {
    Quotient(errors as real, shots as real);
  }

  lemma {:induction false} LessFactor(x: real, y: real, d: real)
    requires d > 0.0 && x * d <= y * d
    ensures x <= y
  {
    ProductSign(y - x, d);
    assert (y - x) * d == y * d - x * d;
  }

  lemma {:induction false} RateIsFraction(errors: nat, shots: nat)
    requires 0 < shots && errors <= shots
    ensures var p := Rate(errors, shots);
            0.0 <= p <= 1.0 && (p == 0.0 <==> errors == 0) && (p == 1.0 <==> errors == shots)
  {
    var n, p := shots as real, Rate(errors, shots);
    Quotient(errors as real, n);
    LessFactor(0.0, p, n);
    LessFactor(p, 1.0, n);
    if errors == shots {
      CancelFactor(p, 1.0, n);
    }
  }

  lemma {:induction false} SpreadTimes(shots: nat)
    requires 0 < shots
    ensures var n, c := shots as real, Spread(shots);
            c > 0.0 && c * n == Z * Z && Z * Z / (2.0 * n) == c / 2.0 && Z * Z / (4.0 * n) == c / 4.0
  {
  }

  lemma {:induction false} MarginSquared(n: real, q: real, c: real, root: real)
    requires n > 0.0 && c * n == Z * Z && root * root == (q + c / 4.0) / n
    ensures Margin(root) * Margin(root) == c * q + c * c / 4.0
  {
    var s := root * root;
    assert s * n == q + c / 4.0;
    assert Margin(root) * Margin(root) == (Z * Z) * s == (c * n) * s == c * (n * s) == c * (q + c / 4.0);
  }

  /** The margin in the form the lemmas about the roots use. */
  lemma {:induction false} MarginOfRoot(errors: nat, shots: nat, root: real)
    requires 0 < shots && errors <= shots && IsSquareRoot(root, Radicand(errors, shots))
    ensures var p, c, m := Rate(errors, shots), Spread(shots), Margin(root);
            c > 0.0 && m * m == c * (p * (1.0 - p)) + c * c / 4.0
  {
    hide Rate, Spread, Margin, Radicand;
    var p, c := Rate(errors, shots), Spread(shots);
    SpreadTimes(shots);
    RadicandInSpread(errors, shots);
    MarginSquared(shots as real, p * (1.0 - p), c, root);
  }

  lemma {:induction false} BoundsAreOrdered(errors: nat, shots: nat, root: real)
    requires 0 < shots && root >= 0.0
    ensures WilsonBound(errors, shots, root, false) <= WilsonBound(errors, shots, root, true)
  {
    hide Rate, Spread, Margin, WilsonBound;
    SpreadTimes(shots);
    MarginIsNonNegative(root);
    BoundTimes(errors, shots, root);
    LessFactor(WilsonBound(errors, shots, root, false), WilsonBound(errors, shots, root, true), 1.0 + Spread(shots));
  }

  lemma {:induction false} RadicandInSpread(errors: nat, shots: nat)
    requires 0 < shots
    ensures var p := Rate(errors, shots);
            Radicand(errors, shots) == (p * (1.0 - p) + Spread(shots) / 4.0) / shots as real
  {
    hide Rate, Spread;
    SpreadTimes(shots);
  }

  lemma {:induction false} BoundTimes(errors: nat, shots: nat, root: real)
    requires 0 < shots
    ensures var p, c, m := Rate(errors, shots), Spread(shots), Margin(root);
            && WilsonBound(errors, shots, root, false) * (1.0 + c) == p + c / 2.0 - m
            && WilsonBound(errors, shots, root, true) * (1.0 + c) == p + c / 2.0 + m
  {
    hide Rate, Spread, Margin;
    var p, c, m := Rate(errors, shots), Spread(shots), Margin(root);
    SpreadTimes(shots);
    Quotient(p + c / 2.0 - m, 1.0 + c);
    Quotient(p + c / 2.0 + m, 1.0 + c);
  }

  lemma {:induction false} MarginIsNonNegative(root: real)
    requires root >= 0.0
    ensures Margin(root) >= 0.0
  {
  }

  /**
   The bounds are exactly the two solutions of the score equation; they enclose the estimate inside the unit
   interval, so that neither clamp ever acts.
  */
  lemma {:induction false} WilsonIsExact(errors: nat, shots: nat, root: real)
    requires 0 < shots && errors <= shots && IsSquareRoot(root, Radicand(errors, shots))
    ensures var low, high := WilsonBound(errors, shots, root, false), WilsonBound(errors, shots, root, true);
            && (forall p :: ScoreEquation(errors, shots, p) <==> p == low || p == high)
            && 0.0 <= low <= Rate(errors, shots) <= high <= 1.0
            && (errors == 0 ==> low == 0.0)
            && (errors == shots ==> high == 1.0)
  {
    hide WilsonBound, Radicand, ScoreEquation, Rate, Spread, Margin;
    var p, c := Rate(errors, shots), Spread(shots);
    var low, high := WilsonBound(errors, shots, root, false), WilsonBound(errors, shots, root, true);
    MarginOfRoot(errors, shots, root);
    BoundTimes(errors, shots, root);
    BoundsAreOrdered(errors, shots, root);
    RateIsFraction(errors, shots);
    RootsOfScore(p, c, Margin(root), low, high);
    RootsAreInside(p, c, low, high);
    forall x
      ensures ScoreEquation(errors, shots, x) <==> x == low || x == high
    {
      RootsSolveScore(errors, shots, low, high, x);
    }
  }

  lemma {:induction false} RootsSolveScore(errors: nat, shots: nat, low: real, high: real, x: real)
    requires shots > 0
    requires var p, c := Rate(errors, shots), Spread(shots);
             (low + high) * (1.0 + c) == 2.0 * p + c && low * high * (1.0 + c) == p * p
    ensures ScoreEquation(errors, shots, x) <==> x == low || x == high
  {
    hide Rate, Spread, ScoreEquation;
    var p, c := Rate(errors, shots), Spread(shots);
    SpreadTimes(shots);
    ScoreInSpread(errors, shots, x);
    ScoreFactors(p, c, low, high, x);
    ProductSign(1.0 + c, (x - low) * (x - high));
    ProductSign(x - low, x - high);
  }

  lemma {:induction false} ScoreInSpread(errors: nat, shots: nat, x: real)
    requires shots > 0
    ensures var p, c := Rate(errors, shots), Spread(shots);
            ScoreEquation(errors, shots, x) <==> (p - x) * (p - x) - c * (x * (1.0 - x)) == 0.0
  {
    hide Rate, Spread;
    SpreadTimes(shots);
    var n, c, y := shots as real, Spread(shots), x * (1.0 - x);
    assert Z * Z * x * (1.0 - x) == (Z * Z) * y == (c * n) * y == (c * y) * n;
    CancelFactor((c * y) * n / n, c * y, n);
  }

  /** Counting successes instead of errors mirrors the interval. */
  lemma {:induction false} WilsonMirrors(errors: nat, shots: nat, root: real)
    requires 0 < shots && errors <= shots && IsSquareRoot(root, Radicand(errors, shots))
    ensures IsSquareRoot(root, Radicand(shots - errors, shots))
    ensures WilsonBound(shots - errors, shots, root, false) == 1.0 - WilsonBound(errors, shots, root, true)
    ensures WilsonBound(shots - errors, shots, root, true) == 1.0 - WilsonBound(errors, shots, root, false)
  {
    hide WilsonBound, Rate, Spread, Margin, Radicand;
    RateOfSuccesses(errors, shots);
    RadicandMirrors(errors, shots);
    var p := Rate(errors, shots);
    MarginOfRoot(errors, shots, root);
    BoundTimes(errors, shots, root);
    BoundTimes(shots - errors, shots, root);
    Mirror(p, Spread(shots), Margin(root),
           WilsonBound(errors, shots, root, false), WilsonBound(errors, shots, root, true),
           WilsonBound(shots - errors, shots, root, false), WilsonBound(shots - errors, shots, root, true));
  }

  lemma {:induction false} RadicandMirrors(errors: nat, shots: nat)
    requires 0 < shots && errors <= shots
    ensures Radicand(shots - errors, shots) == Radicand(errors, shots)
  {
    hide Rate;
    RateOfSuccesses(errors, shots);
    var p, q := Rate(errors, shots), Rate(shots - errors, shots);
    assert q * (1.0 - q) == p * (1.0 - p);
  }

  lemma {:induction false} RateOfSuccesses(errors: nat, shots: nat)
    requires 0 < shots && errors <= shots
    ensures Rate(shots - errors, shots) == 1.0 - Rate(errors, shots)
  {
    var n := shots as real;
    var p, q := Rate(errors, shots), Rate(shots - errors, shots);
    var e := errors as real;
    assert (shots - errors) as real == n - e;
    Quotient(e, n);
    Quotient(n - e, n);
    assert p == e / n && q == (n - e) / n;
    Complement(p, q, e, n);
  }

  lemma {:induction false} Complement(p: real, q: real, e: real, n: real)
    requires n > 0.0 && p * n == e && q * n == n - e
    ensures q == 1.0 - p
  {
    assert (1.0 - p) * n == n - p * n;
    CancelFactor(q, 1.0 - p, n);
  }

  lemma {:induction false} Mirror(p: real, c: real, m: real, low: real, high: real, low': real, high': real)
    requires c > 0.0
    requires low * (1.0 + c) == p + c / 2.0 - m && high * (1.0 + c) == p + c / 2.0 + m
    requires low' * (1.0 + c) == (1.0 - p) + c / 2.0 - m && high' * (1.0 + c) == (1.0 - p) + c / 2.0 + m
    ensures low' == 1.0 - high && high' == 1.0 - low
  {
    CancelFactor(low', 1.0 - high, 1.0 + c);
    CancelFactor(high', 1.0 - low, 1.0 + c);
  }

  /** The reported interval: refused on exactly the impossible counts, otherwise ordered around the estimate. */
  lemma {:induction false} WilsonIsOrdered(errors: int, shots: int, root: real, round: real -> real)
    requires Monotone(round)
    requires 0 <= errors <= shots && shots > 0 ==> IsSquareRoot(root, Radicand(errors, shots))
    ensures var r := WilsonInterval(errors, shots, root, round);
            && (r.Ok? <==> 0 <= errors <= shots && shots > 0)
            && (r.Ok? ==>
                  && r.value.point == round(Rate(errors, shots))
                  && r.value.low == round(WilsonBound(errors, shots, root, false))
                  && r.value.high == round(WilsonBound(errors, shots, root, true))
                  && round(0.0) <= r.value.low <= r.value.point <= r.value.high <= round(1.0))
  {
    hide WilsonBound, Radicand, Rate, ScoreEquation;
    if 0 <= errors <= shots && shots > 0 {
      WilsonIsExact(errors, shots, root);
    }
  }
}
