/** The Bollinger sampler of internal/application/signal/bollinger_sampler.go, over exact prices. */
module Bollinger {
  import opened Wrappers
  import opened Products

  const PERIOD := 20
  const K := 2.0

  /** The value of a signal is %B, which places the price between the bands; the rest is its metadata. */
  datatype Signal = Signal(pctB: real, sma: real, upper: real, lower: real, bandwidth: real)

  function Sum(xs: seq<real>): real {
    if xs == [] then 0.0 else Sum(xs[..|xs| - 1]) + xs[|xs| - 1]
  }

  /** The sum of the squared deviations from a value. */
  function SquaredDeviations(xs: seq<real>, mean: real): real {
    if xs == [] then 0.0
    else
      var diff := xs[|xs| - 1] - mean;
      SquaredDeviations(xs[..|xs| - 1], mean) + diff * diff
  }

  function Mean(xs: seq<real>): real
    requires xs != []
  {
    Sum(xs) / |xs| as real
  }

  function Variance(xs: seq<real>): real
    requires xs != []
  {
    SquaredDeviations(xs, Mean(xs)) / |xs| as real
  }

  /** The last n prices, or all of them while there are fewer. */
  function LastN(prices: seq<real>, n: nat): seq<real> {
    if |prices| <= n then prices else prices[|prices| - n..]
  }

  lemma LastNGrows(prices: seq<real>, price: real, n: nat)
    requires n >= 1
    ensures LastN(prices + [price], n) == LastN(LastN(prices, n) + [price], n)
    ensures |LastN(prices, n)| == if |prices| < n then |prices| else n
    ensures LastN(prices + [price], n)[|LastN(prices + [price], n)| - 1] == price
  {
  }

  lemma WhichN(prices: seq<real>, n: nat)
    ensures |prices| <= n ==> LastN(prices, n) == prices
    ensures |prices| > n ==> LastN(prices, n) == prices[|prices| - n..]
  {
  }

  /** What is asked of the square root: it is only used on sums of squares. */
  ghost predicate IsSquareRoot(sqrt: real -> real) {
    forall v: real | v >= 0.0 :: sqrt(v) >= 0.0 && sqrt(v) * sqrt(v) == v
  }

  // ---------------------------------------------------------------- Samuelson's inequality

  function Deviations(xs: seq<real>, mean: real): real {
    if xs == [] then 0.0 else Deviations(xs[..|xs| - 1], mean) + (xs[|xs| - 1] - mean)
  }

  lemma {:induction false} DeviationsFromSum(xs: seq<real>, mean: real)
    ensures Deviations(xs, mean) == Sum(xs) - |xs| as real * mean
  {
    if xs != [] {
      DeviationsFromSum(xs[..|xs| - 1], mean);
      assert |xs| as real == (|xs| - 1) as real + 1.0;
      assert ((|xs| - 1) as real + 1.0) * mean == (|xs| - 1) as real * mean + mean;
    }
  }

  /** The step of the Cauchy-Schwarz inequality: one more term. */
  lemma OneMoreTerm(n: real, s: real, q: real, x: real, n': real, s': real, q': real)
    requires n >= 0.0 && q >= 0.0 && s * s <= n * q && (n == 0.0 ==> s == 0.0)
    requires n' == n + 1.0 && s' == s + x && q' == q + x * x
    ensures s' * s' <= n' * q'
  {
    SquareIsNonNegative(n * x - s);
    SquareIsNonNegative(x);
    Expand(n, s, q, x);
    if n > 0.0 {
      PositiveFactor(n, n * (x * x) + q - 2.0 * (s * x));
    }
  }

  lemma Expand(n: real, s: real, q: real, x: real)
    ensures (n * x - s) * (n * x - s) == n * (n * (x * x)) - n * (2.0 * (s * x)) + s * s
    ensures n * (n * (x * x) + q - 2.0 * (s * x)) == n * (n * (x * x)) + n * q - n * (2.0 * (s * x))
    ensures (s + x) * (s + x) == s * s + 2.0 * (s * x) + x * x
    ensures (n + 1.0) * (q + x * x) == n * q + n * (x * x) + q + x * x
  {
  }

  /** The square of a sum of deviations is at most their number times the sum of their squares. */
  lemma {:induction false} CauchySchwarz(xs: seq<real>, mean: real)
    ensures SquaredDeviations(xs, mean) >= 0.0
    ensures Deviations(xs, mean) * Deviations(xs, mean) <= |xs| as real * SquaredDeviations(xs, mean)
  {
    hide Deviations, SquaredDeviations;
    NoDeviations(mean);
    if xs != [] {
      var init, x := xs[..|xs| - 1], xs[|xs| - 1] - mean;
      CauchySchwarz(init, mean);
      SquareIsNonNegative(x);
      DeviationsUnfold(xs, mean);
      OneMoreTerm(|init| as real, Deviations(init, mean), SquaredDeviations(init, mean), x,
        |xs| as real, Deviations(xs, mean), SquaredDeviations(xs, mean));
    }
  }

  /**
   Samuelson's inequality for the last price of a window: it is within sqrt(n - 1) standard deviations of
   the mean.
   */
  lemma Samuelson(xs: seq<real>)
    requires xs != []
    ensures Variance(xs) >= 0.0
    ensures var d := xs[|xs| - 1] - Mean(xs);
            d * d <= (|xs| - 1) as real * Variance(xs)
  {
    hide *;
    var n, mean, v := |xs| as real, Mean(xs), Variance(xs);
    var init, d := xs[..|xs| - 1], xs[|xs| - 1] - mean;
    var q, dd, rest := SquaredDeviations(init, mean), d * d, Deviations(init, mean);
    LastDeviation(xs, mean, n * v, dd);
    CauchySchwarz(init, mean);
    CauchySchwarz(xs, mean);
    SameSquare(d, rest);
    WholeFromRest(n, dd, q, v, (n - 1.0) * q, n * v);
    Cancel(0.0, v, n, 0.0, n * v);
  }

  /**
   The last deviation is the others' sum with its sign changed, and the variance is made of the others'
   squares and its own.
   */
  lemma LastDeviation(xs: seq<real>, mean: real, nv: real, dd: real)
    requires xs != [] && mean == Mean(xs) && nv == |xs| as real * Variance(xs)
    requires dd == (xs[|xs| - 1] - mean) * (xs[|xs| - 1] - mean)
    ensures nv == SquaredDeviations(xs, mean) == SquaredDeviations(xs[..|xs| - 1], mean) + dd
    ensures Deviations(xs[..|xs| - 1], mean) == -(xs[|xs| - 1] - mean)
  {
    hide *;
    DeviationsCancel(xs);
    VarianceIsShare(xs);
    DeviationsUnfold(xs, mean);
  }

  lemma DeviationsCancel(xs: seq<real>)
    requires xs != []
    ensures Deviations(xs, Mean(xs)) == 0.0
  {
    hide Deviations, Sum;
    DeviationsFromSum(xs, Mean(xs));
    Quotient(Sum(xs), |xs| as real);
  }

  lemma VarianceIsShare(xs: seq<real>)
    requires xs != []
    ensures |xs| as real * Variance(xs) == SquaredDeviations(xs, Mean(xs))
  {
    hide SquaredDeviations, Mean;
    Quotient(SquaredDeviations(xs, Mean(xs)), |xs| as real);
  }

  lemma NoDeviations(mean: real)
    ensures Deviations([], mean) == 0.0 && SquaredDeviations([], mean) == 0.0
  {
  }

  lemma DeviationsUnfold(xs: seq<real>, mean: real)
    requires xs != []
    ensures var init, last := xs[..|xs| - 1], xs[|xs| - 1] - mean;
            && Deviations(xs, mean) == Deviations(init, mean) + last
            && SquaredDeviations(xs, mean) == SquaredDeviations(init, mean) + last * last
  {
  }

  lemma Quotient(x: real, n: real)
    requires n > 0.0
    ensures n * (x / n) == x
  {
  }

  lemma SameSquare(x: real, y: real)
    requires y == -x
    ensures y * y == x * x
  {
  }

  lemma WholeFromRest(n: real, dd: real, q: real, v: real, mq: real, nv: real)
    requires n >= 1.0 && mq == (n - 1.0) * q && nv == n * v && dd <= mq && nv == q + dd
    ensures dd <= (n - 1.0) * v
  {
    var m := n - 1.0;
    var md, mv := m * dd, m * v;
    Associate(n, m, v);
    Associate(m, n, v);
    Distribute(m, q, dd);
    assert n * m == m * n;
    assert n * mv == mq + md;
    assert n * dd == md + dd;
    Cancel(dd, mv, n, n * dd, n * mv);
  }

  /** The bound is attained: all prices equal but the last. */
  lemma SamuelsonIsTight(xs: seq<real>, a: real, b: real)
    requires xs != [] && xs[|xs| - 1] == b && forall i | 0 <= i < |xs| - 1 :: xs[i] == a
    ensures var d := b - Mean(xs);
            d * d == (|xs| - 1) as real * Variance(xs)
  {
    var n, mean := |xs| as real, Mean(xs);
    var init := xs[..|xs| - 1];
    FlatSums(init, a, mean);
    assert n * mean == Sum(xs);
    var m, e, d := n - 1.0, a - mean, b - mean;
    assert n * mean == m * mean + mean;
    assert m * a - m * mean == m * e;
    assert d == -(m * e);
    assert n * Variance(xs) == m * (e * e) + d * d;
    assert d * d == m * (m * (e * e));
    assert n * Variance(xs) == m * (e * e) + m * (m * (e * e)) == n * (m * (e * e));
    EqualFactor(n, Variance(xs), m * (e * e));
  }

  lemma {:induction false} FlatSums(xs: seq<real>, a: real, mean: real)
    requires forall i | 0 <= i < |xs| :: xs[i] == a
    ensures Sum(xs) == |xs| as real * a
    ensures SquaredDeviations(xs, mean) == |xs| as real * ((a - mean) * (a - mean))
  {
    if xs != [] {
      FlatSums(xs[..|xs| - 1], a, mean);
      OneTimesMore((|xs| - 1) as real, a);
      OneTimesMore((|xs| - 1) as real, (a - mean) * (a - mean));
    }
  }

  lemma OneTimesMore(n: real, x: real)
    ensures (n + 1.0) * x == n * x + x
  {
  }

  /** The variance of a window is zero exactly when all its prices are the same. */
  lemma ZeroVarianceIffFlat(xs: seq<real>)
    requires xs != []
    ensures Variance(xs) == 0.0 <==> forall i | 0 <= i < |xs| :: xs[i] == xs[0]
  {
    var n, mean := |xs| as real, Mean(xs);
    assert n * mean == Sum(xs) && n * Variance(xs) == SquaredDeviations(xs, mean);
    if Variance(xs) == 0.0 {
      NoDeviation(xs, mean);
    }
    if forall i | 0 <= i < |xs| :: xs[i] == xs[0] {
      FlatSums(xs, xs[0], mean);
      EqualFactor(n, mean, xs[0]);
      EqualFactor(n, Variance(xs), 0.0);
    }
  }

  lemma {:induction false} NoDeviation(xs: seq<real>, mean: real)
    requires SquaredDeviations(xs, mean) == 0.0
    ensures forall i | 0 <= i < |xs| :: xs[i] == mean
  {
    if xs != [] {
      var init, x := xs[..|xs| - 1], xs[|xs| - 1] - mean;
      CauchySchwarz(init, mean);
      SquareIsNonNegative(x);
      ZeroSquare(x);
      NoDeviation(init, mean);
      assert forall i | 0 <= i < |init| :: xs[i] == init[i];
    }
  }

  // ---------------------------------------------------------------- %B

  /**
   However wild the prices, %B stays within a fixed distance of one half: with 4 k^2 times its square
   at most n - 1. `d` is the distance of the price from the mean, `sigma` the standard deviation.
   */
  lemma PercentBBound(n: real, k: real, d: real, sigma: real, pctB: real)
    requires k > 0.0 && sigma > 0.0 && d * d <= (n - 1.0) * (sigma * sigma)
    requires pctB * (2.0 * (k * sigma)) == d + k * sigma
    ensures 4.0 * (k * k) * ((pctB - 0.5) * (pctB - 0.5)) <= n - 1.0
    ensures d * d == (n - 1.0) * (sigma * sigma) ==> 4.0 * (k * k) * ((pctB - 0.5) * (pctB - 0.5)) == n - 1.0
  {
    var y := pctB - 0.5;
    var f := 2.0 * (k * y);
    assert f * sigma == d by {
      assert y * (2.0 * (k * sigma)) == pctB * (2.0 * (k * sigma)) - k * sigma;
      Rearrange(k, y, sigma);
    }
    var s2 := sigma * sigma;
    NonZeroSquare(sigma, s2);
    SquareOfProduct(f, sigma);
    assert s2 * (n - 1.0 - f * f) >= 0.0 by {
      assert s2 * (n - 1.0 - f * f) == (n - 1.0) * s2 - (f * f) * s2;
    }
    PositiveFactor(s2, n - 1.0 - f * f);
    if d * d == (n - 1.0) * s2 {
      EqualFactor(s2, f * f, n - 1.0);
    }
    SquareOfProduct(k, y);
  }

  lemma Rearrange(k: real, y: real, sigma: real)
    ensures y * (2.0 * (k * sigma)) == (2.0 * (k * y)) * sigma
  {
  }

  lemma SquareOfProduct(x: real, y: real)
    ensures (x * y) * (x * y) == (x * x) * (y * y)
  {
  }

  /** What a signal says about the window it was computed from. */
  ghost predicate Describes(s: Signal, window: seq<real>, k: real, sqrt: real -> real)
    requires window != []
  {
    && s.sma == Mean(window)
    && s.upper == s.sma + k * sqrt(Variance(window))
    && s.lower == s.sma - k * sqrt(Variance(window))
    && s.bandwidth == s.upper - s.lower
    && if s.bandwidth > 0.0 then s.pctB * s.bandwidth == window[|window| - 1] - s.lower else s.pctB == 0.5
  }

  /**
   The bands collapse exactly when all prices of the window are the same, and then the price is where the
   bands are.
   */
  lemma CollapsedIffFlat(s: Signal, window: seq<real>, k: real, sqrt: real -> real)
    requires window != [] && k > 0.0 && IsSquareRoot(sqrt) && Describes(s, window, k, sqrt)
    ensures s.bandwidth >= 0.0
    ensures s.bandwidth == 0.0 <==> forall i | 0 <= i < |window| :: window[i] == window[0]
    ensures s.bandwidth == 0.0 ==> window[|window| - 1] == s.lower == s.upper
  {
    hide Variance, Mean;
    Samuelson(window);
    ZeroVarianceIffFlat(window);
    var sigma, d := sqrt(Variance(window)), window[|window| - 1] - Mean(window);
    assert sigma * sigma == Variance(window);
    assert k * sigma >= 0.0 && (sigma > 0.0 ==> k * sigma > 0.0);
    assert sigma > 0.0 || sigma == 0.0;
    assert sigma == 0.0 <==> Variance(window) == 0.0 by {
      if Variance(window) == 0.0 {
        ZeroSquare(sigma);
      }
    }
    if Variance(window) == 0.0 {
      ZeroSquare(d);
    }
  }

  /**
   Where %B places the newest price: above 1 above the upper band, below 0 below the lower one, one half
   at the mean.
   */
  lemma PercentBPlaces(s: Signal, window: seq<real>, k: real, sqrt: real -> real)
    requires window != [] && k > 0.0 && IsSquareRoot(sqrt) && Describes(s, window, k, sqrt) && s.bandwidth > 0.0
    ensures var price := window[|window| - 1];
            && (s.pctB > 1.0 <==> price > s.upper) && (s.pctB == 1.0 <==> price == s.upper)
            && (s.pctB < 0.0 <==> price < s.lower) && (s.pctB == 0.0 <==> price == s.lower)
            && (s.pctB == 0.5 <==> price == s.sma)
  {
    hide Variance, Mean;
    var price, w := window[|window| - 1], s.bandwidth;
    Places(s.pctB, 1.0, w, price - s.lower, w);
    Places(s.pctB, 0.0, w, price - s.lower, 0.0);
    Places(s.pctB, 0.5, w, price - s.lower, 0.5 * w);
  }

  lemma Places(x: real, y: real, w: real, xw: real, yw: real)
    requires w > 0.0 && xw == x * w && yw == y * w
    ensures (x < y <==> xw < yw) && (x == y <==> xw == yw)
  {
    if x < y {
      TimesMonotone(x, y, w, xw, yw);
    } else if y < x {
      TimesMonotone(y, x, w, yw, xw);
    }
  }

  /** The %B bound for every emission. */
  lemma PercentBIsBounded(s: Signal, window: seq<real>, k: real, sqrt: real -> real)
    requires window != [] && k > 0.0 && IsSquareRoot(sqrt) && Describes(s, window, k, sqrt)
    ensures 4.0 * (k * k) * ((s.pctB - 0.5) * (s.pctB - 0.5)) <= (|window| - 1) as real
  {
    hide Variance, Mean;
    CollapsedIffFlat(s, window, k, sqrt);
    Samuelson(window);
    var sigma, d := sqrt(Variance(window)), window[|window| - 1] - Mean(window);
    if s.bandwidth > 0.0 {
      assert sigma != 0.0;
      assert s.bandwidth == 2.0 * (k * sigma);
      PercentBBound(|window| as real, k, d, sigma, s.pctB);
    } else {
      assert s.pctB - 0.5 == 0.0;
    }
  }

  /** The bound cannot be improved: a window that is flat but for its last price attains it. */
  lemma PercentBBoundIsAttained(s: Signal, window: seq<real>, k: real, sqrt: real -> real)
    requires |window| >= 2 && k > 0.0 && IsSquareRoot(sqrt) && Describes(s, window, k, sqrt)
    requires forall i | 0 <= i < |window| - 1 :: window[i] == window[0]
    requires window[|window| - 1] != window[0]
    ensures 4.0 * (k * k) * ((s.pctB - 0.5) * (s.pctB - 0.5)) == (|window| - 1) as real
  {
    hide Variance, Mean;
    CollapsedIffFlat(s, window, k, sqrt);
    Samuelson(window);
    SamuelsonIsTight(window, window[0], window[|window| - 1]);
    var sigma, d := sqrt(Variance(window)), window[|window| - 1] - Mean(window);
    assert sigma != 0.0;
    assert s.bandwidth == 2.0 * (k * sigma);
    PercentBBound(|window| as real, k, d, sigma, s.pctB);
  }

  class BollingerSampler {
    const period: nat
    const k: real
    const sqrt: real -> real
    var prices: seq<real>

    /** Every price that could be parsed. */
    ghost var closes: seq<real>

    ghost predicate Valid()
      reads this
    {
      && period >= 1 && k > 0.0 && IsSquareRoot(sqrt)
      && prices == LastN(closes, period)
    }

    constructor (sqrt: real -> real)
      requires IsSquareRoot(sqrt)
      ensures Valid() && closes == [] && period == 20 && k == 2.0 && this.sqrt == sqrt
    {
      period, k, this.sqrt := PERIOD, K, sqrt;
      prices, closes := [], [];
    }

    /** `None` is a close price that is no number. */
    method AddClose(closePrice: Option<real>) returns (signal: Option<Signal>)
      requires Valid()
      modifies this
      ensures Valid()
      ensures closes == old(closes) + if closePrice.Some? then [closePrice.value] else []
      ensures signal.Some? <==> closePrice.Some? && |closes| >= period
      ensures signal.Some? ==> Describes(signal.value, LastN(closes, period), k, sqrt)
    {
      hide IsSquareRoot, Mean, Variance, Describes, LastN;
      if closePrice.None? {
        assert closes + [] == closes;
        return None;
      }
      var price := closePrice.value;
      LastNGrows(closes, price, period);
      closes := closes + [price];
      prices := prices + [price];
      WhichN(prices, period);
      WhichN(closes, period);
      if |prices| < period {
        return None;
      }
      if |prices| > period {
        prices := prices[|prices| - period..];
      }
      var sma := ComputeSMA();
      var stddev := ComputeStdDev(sma);
      var s := Bands(price, sma, stddev);
      signal := Some(s);
    }

    /** The signal for the prices of the window, given their mean and standard deviation. */
    method Bands(price: real, sma: real, stddev: real) returns (s: Signal)
      requires prices != [] && price == prices[|prices| - 1]
      requires sma == Mean(prices) && stddev == sqrt(Variance(prices))
      ensures Describes(s, prices, k, sqrt)
    {
      hide Mean, Variance;
      var upper := sma + k * stddev;
      var lower := sma - k * stddev;
      var pctB;
      var bandwidth := upper - lower;
      if bandwidth > 0.0 {
        pctB := (price - lower) / bandwidth;
      } else {
        pctB := 0.5;
      }
      s := Signal(pctB, sma, upper, lower, bandwidth);
    }

    method ComputeSMA() returns (sma: real)
      requires prices != []
      ensures sma == Mean(prices)
    {
      var sum := 0.0;
      for i := 0 to |prices|
        invariant sum == Sum(prices[..i])
      {
        assert prices[..i + 1][..i] == prices[..i];
        sum := sum + prices[i];
      }
      assert prices[..|prices|] == prices;
      sma := sum / |prices| as real;
    }

    method ComputeStdDev(mean: real) returns (sigma: real)
      requires prices != [] && mean == Mean(prices)
      ensures sigma == sqrt(Variance(prices))
    {
      hide Mean;
      var sumSq := 0.0;
      for i := 0 to |prices|
        invariant sumSq == SquaredDeviations(prices[..i], mean)
      {
        assert prices[..i + 1][..i] == prices[..i];
        var diff := prices[i] - mean;
        sumSq := sumSq + diff * diff;
      }
      assert prices[..|prices|] == prices;
      sigma := sqrt(sumSq / |prices| as real);
    }
  }

  /** After any stream, a signal of the shipped sampler is never further than sqrt(19/16) from one half. */
  lemma ShippedBound(s: Signal, closes: seq<real>, sqrt: real -> real)
    requires |closes| >= PERIOD && IsSquareRoot(sqrt) && Describes(s, LastN(closes, PERIOD), K, sqrt)
    ensures (s.pctB - 0.5) * (s.pctB - 0.5) <= 19.0 / 16.0
  {
    PercentBIsBounded(s, LastN(closes, PERIOD), K, sqrt);
  }
}
