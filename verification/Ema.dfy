/**
 Exponential moving averages over exact prices: internal/application/signal/ema_crossover_sampler.go
 and the averages that internal/application/signal/macd_sampler.go shares with it.
 */
module Ema {
  import opened Wrappers
  import opened Products
  import opened Bollinger

  const FAST_PERIOD := 9
  const SLOW_PERIOD := 21
  const TOLERANCE := 0.00000001

  datatype Direction = Bullish | Bearish | Neutral

  datatype Crossover = Crossover(value: Direction, fastEMA: real, slowEMA: real, spread: real)

  /** How much a new price counts. */
  function Weight(period: nat): real {
    2.0 / (period as real + 1.0)
  }

  function Step(price: real, previous: real, period: nat): real {
    price * Weight(period) + previous * (1.0 - Weight(period))
  }

  /** The average of a stream: seeded by the last `period` of its first `warmup` prices, then updated by each price. */
  function EmaOf(prices: seq<real>, warmup: nat, period: nat): real
    requires 1 <= period <= warmup <= |prices|
    decreases |prices|
  {
    if |prices| == warmup then Mean(LastN(prices, period))
    else Step(prices[|prices| - 1], EmaOf(prices[..|prices| - 1], warmup, period), period)
  }

  /** Equal within a tolerance is neutral. */
  function CrossoverDirection(spread: real): Direction {
    if (if spread < 0.0 then -spread else spread) < TOLERANCE then Neutral
    else if spread > 0.0 then Bullish
    else Bearish
  }

  method Sma(values: seq<real>) returns (avg: real)
    ensures avg == if values == [] then 0.0 else Mean(values)
  {
    if values == [] {
      return 0.0;
    }
    var sum := 0.0;
    for i := 0 to |values|
      invariant sum == Sum(values[..i])
    {
      assert values[..i + 1][..i] == values[..i];
      sum := sum + values[i];
    }
    assert values[..|values|] == values;
    avg := sum / |values| as real;
  }

  // ---------------------------------------------------------------- the hull

  predicate Within(prices: seq<real>, lo: real, hi: real) {
    forall i | 0 <= i < |prices| :: lo <= prices[i] <= hi
  }

  lemma WeightRange(period: nat)
    requires period >= 1
    ensures 0.0 < Weight(period) <= 1.0
  {
    var w := Weight(period);
    assert w * (period as real + 1.0) == 2.0;
    assert w <= 0.0 ==> w * (period as real + 1.0) <= 0.0;
    assert w > 1.0 ==> (w - 1.0) * (period as real + 1.0) > 0.0;
  }

  lemma StepWithin(price: real, previous: real, period: nat, lo: real, hi: real)
    requires period >= 1 && lo <= price <= hi && lo <= previous <= hi
    ensures lo <= Step(price, previous, period) <= hi
  {
    WeightRange(period);
    MixWithin(price, previous, Weight(period), 1.0 - Weight(period), lo, hi);
  }

  /** A weighted average is between the bounds of what it averages. */
  lemma MixWithin(x: real, y: real, w: real, v: real, lo: real, hi: real)
    requires w >= 0.0 && v >= 0.0 && w + v == 1.0 && lo <= x <= hi && lo <= y <= hi
    ensures lo <= x * w + y * v <= hi
  {
    var a, b, c, d, e, f := lo * w, lo * v, x * w, y * v, hi * w, hi * v;
    TimesMonotone(lo, x, w, a, c);
    TimesMonotone(x, hi, w, c, e);
    TimesMonotone(lo, y, v, b, d);
    TimesMonotone(y, hi, v, d, f);
    Split(lo, w, v, a, b);
    Split(hi, w, v, e, f);
  }

  lemma Split(x: real, w: real, v: real, xw: real, xv: real)
    requires w + v == 1.0 && xw == x * w && xv == x * v
    ensures xw + xv == x
  {
    assert xw + xv == x * (w + v);
  }

  lemma {:induction false} SumWithin(values: seq<real>, lo: real, hi: real)
    requires Within(values, lo, hi)
    ensures lo * |values| as real <= Sum(values) <= hi * |values| as real
  {
    if values != [] {
      var init := values[..|values| - 1];
      SumWithin(init, lo, hi);
      var m := |init| as real;
      assert |values| as real == m + 1.0;
      OneMoreTime(lo, m, lo * m);
      OneMoreTime(hi, m, hi * m);
    }
  }

  lemma OneMoreTime(x: real, n: real, xn: real)
    requires xn == x * n
    ensures x * (n + 1.0) == xn + x
  {
  }

  lemma MeanWithin(values: seq<real>, lo: real, hi: real)
    requires values != [] && Within(values, lo, hi)
    ensures lo <= Mean(values) <= hi
  {
    SumWithin(values, lo, hi);
    var n, sum := |values| as real, Sum(values);
    MeanTimesCount(values);
    hide Mean, Sum;
    Cancel(lo, Mean(values), n, lo * n, sum);
    Cancel(Mean(values), hi, n, sum, hi * n);
  }

  lemma MeanTimesCount(values: seq<real>)
    requires values != []
    ensures Mean(values) * |values| as real == Sum(values)
  {
  }

  /** The hull: an average of a stream stays between the bounds of all its prices. */
  lemma {:induction false} EmaWithin(prices: seq<real>, warmup: nat, period: nat, lo: real, hi: real)
    requires 1 <= period <= warmup <= |prices| && Within(prices, lo, hi)
    ensures lo <= EmaOf(prices, warmup, period) <= hi
    decreases |prices|
  {
    hide Step, Mean;
    if |prices| == warmup {
      MeanWithin(LastN(prices, period), lo, hi);
    } else {
      var init := prices[..|prices| - 1];
      EmaWithin(init, warmup, period, lo, hi);
      StepWithin(prices[|prices| - 1], EmaOf(init, warmup, period), period, lo, hi);
    }
  }

  /** So two averages of one stream are no further apart than its prices. */
  lemma SpreadWithin(prices: seq<real>, warmup: nat, fast: nat, slow: nat, lo: real, hi: real)
    requires 1 <= fast <= warmup && 1 <= slow <= warmup <= |prices| && Within(prices, lo, hi)
    ensures -(hi - lo) <= EmaOf(prices, warmup, fast) - EmaOf(prices, warmup, slow) <= hi - lo
  {
    EmaWithin(prices, warmup, fast, lo, hi);
    EmaWithin(prices, warmup, slow, lo, hi);
  }

  // ---------------------------------------------------------------- linearity

  /** `q` is `p` with its unit and its origin changed; a negative factor turns the stream upside down. */
  predicate Affine(p: seq<real>, q: seq<real>, a: real, b: real) {
    |q| == |p| && forall i | 0 <= i < |p| :: q[i] == a * p[i] + b
  }

  lemma StepAffine(price: real, previous: real, next: real, price': real, previous': real, next': real, period: nat,
      a: real, b: real)
    requires price' == a * price + b && previous' == a * previous + b
    requires next == Step(price, previous, period) && next' == Step(price', previous', period)
    ensures next' == a * next + b
  {
    var w, v := Weight(period), 1.0 - Weight(period);
    hide Weight;
    var x, y, bw, bv := price * w, previous * v, b * w, b * v;
    Pull(price, w, a, b, x, bw);
    Pull(previous, v, a, b, y, bv);
    Split(b, w, v, bw, bv);
    Distribute(a, x, y);
  }

  lemma Pull(x: real, w: real, a: real, b: real, xw: real, bw: real)
    requires xw == x * w && bw == b * w
    ensures (a * x + b) * w == a * xw + bw
  {
    Associate(a, x, w);
  }

  lemma {:induction false} SumAffine(p: seq<real>, q: seq<real>, a: real, b: real)
    requires Affine(p, q, a, b)
    ensures Sum(q) == a * Sum(p) + b * |p| as real
  {
    if p != [] {
      var last := |p| - 1;
      SumAffine(p[..last], q[..last], a, b);
      var m := last as real;
      assert |p| as real == m + 1.0;
      OneMoreTime(b, m, b * m);
      Distribute(a, Sum(p[..last]), p[last]);
    }
  }

  lemma QuotientAffine(n: real, sum: real, sum': real, m: real, m': real, a: real, b: real)
    requires n > 0.0 && m * n == sum && m' * n == sum' && sum' == a * sum + b * n
    ensures m' == a * m + b
  {
    Pull(m, n, a, b, sum, b * n);
    Cancel(m', a * m + b, n, sum', (a * m + b) * n);
  }

  lemma MeanAffine(p: seq<real>, q: seq<real>, a: real, b: real)
    requires p != [] && Affine(p, q, a, b)
    ensures Mean(q) == a * Mean(p) + b
  {
    SumAffine(p, q, a, b);
    SameLength(p, q, a, b);
    MeanTimesCount(p);
    MeanTimesCount(q);
    hide Sum, Affine, Mean;
    QuotientAffine(|p| as real, Sum(p), Sum(q), Mean(p), Mean(q), a, b);
  }

  lemma SameLength(p: seq<real>, q: seq<real>, a: real, b: real)
    requires Affine(p, q, a, b)
    ensures |q| == |p|
  {
  }

  /** An average follows every change of unit and origin of the prices, and every reflection. */
  lemma {:induction false} EmaAffine(p: seq<real>, q: seq<real>, warmup: nat, period: nat, a: real, b: real)
    requires 1 <= period <= warmup <= |p| && Affine(p, q, a, b)
    ensures EmaOf(q, warmup, period) == a * EmaOf(p, warmup, period) + b
    decreases |p|
  {
    hide Step, Mean;
    if |p| == warmup {
      MeanAffine(LastN(p, period), LastN(q, period), a, b);
    } else {
      var last := |p| - 1;
      EmaAffine(p[..last], q[..last], warmup, period, a, b);
      StepAffine(p[last], EmaOf(p[..last], warmup, period), EmaOf(p, warmup, period),
        q[last], EmaOf(q[..last], warmup, period), EmaOf(q, warmup, period), period, a, b);
    }
  }

  function Mirrored(d: Direction): Direction {
    match d
    case Bullish => Bearish
    case Bearish => Bullish
    case Neutral => Neutral
  }

  /** The direction after a stream. */
  function DirectionOf(prices: seq<real>): Direction
    requires |prices| >= SLOW_PERIOD
  {
    CrossoverDirection(EmaOf(prices, SLOW_PERIOD, FAST_PERIOD) - EmaOf(prices, SLOW_PERIOD, SLOW_PERIOD))
  }

  /** Reflected prices cross over the other way; a constant added to them does not matter. */
  lemma CrossoverMirrors(p: seq<real>, q: seq<real>, c: real)
    requires |p| >= SLOW_PERIOD
    ensures Affine(p, q, -1.0, c) ==> DirectionOf(q) == Mirrored(DirectionOf(p))
    ensures Affine(p, q, 1.0, c) ==> DirectionOf(q) == DirectionOf(p)
  {
    hide EmaOf;
    if Affine(p, q, -1.0, c) {
      EmaAffine(p, q, SLOW_PERIOD, FAST_PERIOD, -1.0, c);
      EmaAffine(p, q, SLOW_PERIOD, SLOW_PERIOD, -1.0, c);
    }
    if Affine(p, q, 1.0, c) {
      EmaAffine(p, q, SLOW_PERIOD, FAST_PERIOD, 1.0, c);
      EmaAffine(p, q, SLOW_PERIOD, SLOW_PERIOD, 1.0, c);
    }
  }

  // ---------------------------------------------------------------- the crossover sampler

  class EmaCrossoverSampler {
    const fastPeriod: nat
    const slowPeriod: nat
    var prices: seq<real>
    var fastEMA: real
    var slowEMA: real
    var warmedUp: bool

    /** Every price that could be parsed. */
    ghost var closes: seq<real>

    ghost predicate Valid()
      reads this
    {
      && 1 <= fastPeriod <= slowPeriod
      && warmedUp == (|closes| >= slowPeriod)
      && (!warmedUp ==> prices == closes)
      && (warmedUp ==>
            && prices == []
            && fastEMA == EmaOf(closes, slowPeriod, fastPeriod)
            && slowEMA == EmaOf(closes, slowPeriod, slowPeriod))
    }

    constructor ()
      ensures Valid() && closes == [] && fastPeriod == 9 && slowPeriod == 21
    {
      fastPeriod, slowPeriod := FAST_PERIOD, SLOW_PERIOD;
      prices, closes, fastEMA, slowEMA, warmedUp := [], [], 0.0, 0.0, false;
    }

    /**
     `None` is a close price that is no number. The first signal comes with price number `slowPeriod`,
     then one with every price.
     */
    method AddClose(closePrice: Option<real>) returns (signal: Option<Crossover>)
      requires Valid()
      modifies this
      ensures Valid()
      ensures closes == old(closes) + if closePrice.Some? then [closePrice.value] else []
      ensures signal.Some? <==> closePrice.Some? && |closes| >= slowPeriod
      ensures signal.Some? ==>
                var s := signal.value;
                && s.fastEMA == EmaOf(closes, slowPeriod, fastPeriod)
                && s.slowEMA == EmaOf(closes, slowPeriod, slowPeriod)
                && s.spread == s.fastEMA - s.slowEMA
                && s.value == CrossoverDirection(s.spread)
    {
      hide Step, Mean, CrossoverDirection;
      if closePrice.None? {
        assert closes + [] == closes;
        return None;
      }
      var price := closePrice.value;
      ghost var before := closes;
      closes := closes + [price];
      assert closes[..|before|] == before;
      if !warmedUp {
        prices := prices + [price];
        if |prices| < slowPeriod {
          return None;
        }
        assert LastN(prices, slowPeriod) == prices;
        fastEMA := Sma(prices[|prices| - fastPeriod..]);
        slowEMA := Sma(prices);
        warmedUp := true;
        prices := [];
        var s := BuildSignal();
        return Some(s);
      }
      fastEMA := Update(price, fastEMA, fastPeriod);
      slowEMA := Update(price, slowEMA, slowPeriod);
      var s := BuildSignal();
      return Some(s);
    }

    method BuildSignal() returns (s: Crossover)
      ensures s == Crossover(CrossoverDirection(fastEMA - slowEMA), fastEMA, slowEMA, fastEMA - slowEMA)
    {
      var spread := fastEMA - slowEMA;
      s := Crossover(CrossoverDirection(spread), fastEMA, slowEMA, spread);
    }
  }

  method Update(price: real, previous: real, period: nat) returns (ema: real)
    ensures ema == Step(price, previous, period)
  {
    var k := 2.0 / (period + 1) as real;
    ema := price * k + previous * (1.0 - k);
  }
}
