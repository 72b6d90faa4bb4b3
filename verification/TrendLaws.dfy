/** What the crossover and the MACD say of trends: of streams that never fall or never rise, and of a single jump. */
module TrendLaws {
  import opened Products
  import opened Bollinger
  import opened Ema
  import opened Macd

  /** Prices that never fall, and prices that never rise. */
  predicate Rising(prices: seq<real>) {
    forall i, j | 0 <= i < j < |prices| :: prices[i] <= prices[j]
  }

  predicate Falling(prices: seq<real>) {
    forall i, j | 0 <= i < j < |prices| :: prices[i] >= prices[j]
  }

  function UpsideDown(prices: seq<real>): seq<real> {
    seq(|prices|, i requires 0 <= i < |prices| => -prices[i])
  }

  lemma UpsideDownIsAffine(prices: seq<real>)
    ensures Affine(prices, UpsideDown(prices), -1.0, 0.0)
    ensures Falling(prices) ==> Rising(UpsideDown(prices))
  {
  }

  // ---------------------------------------------------------------- means

  lemma {:induction false} SumOfParts(a: seq<real>, b: seq<real>)
    ensures Sum(a + b) == Sum(a) + Sum(b)
  {
    if b == [] {
      assert a + b == a;
    } else {
      var init := b[..|b| - 1];
      assert (a + b)[..|a + b| - 1] == a + init;
      SumOfParts(a, init);
    }
  }

  /** The newest of rising prices have the greater mean. */
  lemma NewestMean(prices: seq<real>, k: nat)
    requires Rising(prices) && 1 <= k <= |prices|
    ensures Mean(prices) <= Mean(LastN(prices, k)) <= prices[|prices| - 1]
  {
    hide *;
    var old', new' := prices[..|prices| - k], prices[|prices| - k..];
    var last, pivot, m := prices[|prices| - 1], new'[0], Mean(new');
    RisingParts(prices, k);
    SumOfParts(old', new');
    MeanWithin(new', pivot, last);
    SumWithin(old', prices[0], pivot);
    MeanTimesCount(prices);
    MeanTimesCount(new');
    WholeBelowPart(Mean(prices), |prices| as real, Sum(prices), |old'| as real, Sum(old'), m, k as real, Sum(new'),
      pivot);
  }

  lemma RisingParts(prices: seq<real>, k: nat)
    requires Rising(prices) && 1 <= k <= |prices|
    ensures var old', new' := prices[..|prices| - k], prices[|prices| - k..];
            && prices == old' + new' && LastN(prices, k) == new'
            && Within(old', prices[0], new'[0]) && Within(new', new'[0], prices[|prices| - 1])
  {
    var n := |prices| - k;
    forall i | 0 <= i < n
      ensures prices[0] <= prices[..n][i] <= prices[n..][0]
    {
      assert prices[..n][i] == prices[i] && prices[n..][0] == prices[n];
    }
    forall i | 0 <= i < k
      ensures prices[n..][0] <= prices[n..][i] <= prices[|prices| - 1]
    {
      assert prices[n..][i] == prices[n + i] && prices[n..][0] == prices[n];
    }
  }

  lemma WholeBelowPart(mean: real, n: real, sum: real, a: real, older: real, m: real, c: real, newer: real, pivot: real)
    requires n == a + c && a >= 0.0 && n > 0.0 && sum == older + newer
    requires mean * n == sum && m * c == newer && pivot <= m && older <= pivot * a
    ensures mean <= m
  {
    TimesMonotone(pivot, m, a, pivot * a, m * a);
    Distribute(m, a, c);
    Cancel(mean, m, n, sum, m * n);
  }

  // ---------------------------------------------------------------- averages of rising prices

  lemma WeightsInOrder(fast: nat, slow: nat)
    requires 1 <= fast <= slow
    ensures Weight(slow) <= Weight(fast)
  {
    var f, s := fast as real + 1.0, slow as real + 1.0;
    var u, v := Weight(slow), Weight(fast);
    WeightRange(slow);
    assert u * s == 2.0 == v * f;
    TimesMonotone(f, s, u, f * u, s * u);
    Cancel(u, v, f, u * f, v * f);
  }

  /** A price at or above both averages keeps the fast one between the slow one and itself. */
  lemma StepKeepsOrder(price: real, fast: real, slow: real, f: nat, s: nat)
    requires 1 <= f <= s && slow <= fast <= price
    ensures Step(price, slow, s) <= Step(price, fast, f) <= price
  {
    WeightRange(f);
    WeightRange(s);
    WeightsInOrder(f, s);
    StepWithin(price, fast, f, fast, price);
    MixInOrder(price, fast, slow, Weight(f), Weight(s));
  }

  lemma MixInOrder(price: real, fast: real, slow: real, w: real, u: real)
    requires slow <= fast <= price && 0.0 <= u <= w <= 1.0
    ensures price * u + slow * (1.0 - u) <= price * w + fast * (1.0 - w)
  {
    NonNegativeProduct(w - u, price - fast);
    NonNegativeProduct(1.0 - u, fast - slow);
    MixDifference(price, fast, slow, w, u);
  }

  lemma MixDifference(price: real, fast: real, slow: real, w: real, u: real)
    ensures price * w + fast * (1.0 - w) - (price * u + slow * (1.0 - u)) ==
              (w - u) * (price - fast) + (1.0 - u) * (fast - slow)
  {
  }

  /** After prices that never fall, the faster average is not below the slower one, and not above the last price. */
  lemma {:induction false} RisingAverages(prices: seq<real>, warmup: nat, fast: nat, slow: nat)
    requires 1 <= fast <= slow <= warmup <= |prices| && Rising(prices)
    ensures EmaOf(prices, warmup, slow) <= EmaOf(prices, warmup, fast) <= prices[|prices| - 1]
    decreases |prices|
  {
    hide Step, Mean;
    var init, last := prices[..|prices| - 1], prices[|prices| - 1];
    if |prices| == warmup {
      assert LastN(LastN(prices, slow), fast) == LastN(prices, fast);
      NewestMean(LastN(prices, slow), fast);
    } else {
      RisingAverages(init, warmup, fast, slow);
      StepKeepsOrder(last, EmaOf(init, warmup, fast), EmaOf(init, warmup, slow), fast, slow);
    }
  }

  /** Prices that never fall are never called bearish, and prices that never rise are never called bullish. */
  lemma TrendsAreNotReversed(prices: seq<real>)
    requires |prices| >= 21
    ensures Rising(prices) ==> DirectionOf(prices) != Bearish
    ensures Falling(prices) ==> DirectionOf(prices) != Bullish
  {
    hide EmaOf;
    if Rising(prices) {
      RisingAverages(prices, 21, 9, 21);
    }
    if Falling(prices) {
      var up := UpsideDown(prices);
      UpsideDownIsAffine(prices);
      RisingAverages(up, 21, 9, 21);
      CrossoverMirrors(prices, up, 0.0);
    }
  }

  /** And so for the MACD line. */
  lemma MacdFollowsTrend(prices: seq<real>)
    requires |prices| >= 26
    ensures Rising(prices) ==> MacdLine(prices, 12, 26) >= 0.0
    ensures Falling(prices) ==> MacdLine(prices, 12, 26) <= 0.0
  {
    hide EmaOf;
    if Rising(prices) {
      RisingAverages(prices, 26, 12, 26);
    }
    if Falling(prices) {
      var up := UpsideDown(prices);
      UpsideDownIsAffine(prices);
      RisingAverages(up, 26, 12, 26);
      EmaAffine(prices, up, 26, 12, -1.0, 0.0);
      EmaAffine(prices, up, 26, 26, -1.0, 0.0);
    }
  }

  // ---------------------------------------------------------------- one jump

  /** All the same but the last, which is `d` higher. */
  predicate Jumps(prices: seq<real>, c: real, d: real) {
    prices != [] && prices[|prices| - 1] == c + d && forall i | 0 <= i < |prices| - 1 :: prices[i] == c
  }

  /** An average of equal prices is that price; after a jump it has moved by its weight. */
  lemma JumpedAverage(prices: seq<real>, c: real, d: real, warmup: nat, period: nat)
    requires 1 <= period <= warmup < |prices| && Jumps(prices, c, d)
    ensures EmaOf(prices, warmup, period) == c + d * Weight(period)
  {
    hide Weight, Mean;
    var init := prices[..|prices| - 1];
    EmaWithin(init, warmup, period, c, c);
    StepFrom(c, d, Weight(period));
  }

  lemma StepFrom(c: real, d: real, w: real)
    ensures (c + d) * w + c * (1.0 - w) == c + d * w
  {
  }

  /**
   One jump after prices that were all the same, enough of them to warm up: the fast average moves by
   a fifth of it, the slow one by an eleventh, and the crossover is bullish or bearish exactly when
   their distance reaches the tolerance.
   */
  lemma JumpCrosses(prices: seq<real>, c: real, d: real)
    requires |prices| >= 22 && Jumps(prices, c, d)
    ensures EmaOf(prices, 21, 9) == c + d / 5.0 && EmaOf(prices, 21, 21) == c + d / 11.0
    ensures DirectionOf(prices) == Bullish <==> d * (2.0 / 10.0 - 2.0 / 22.0) >= 0.00000001
    ensures DirectionOf(prices) == Bearish <==> -d * (2.0 / 10.0 - 2.0 / 22.0) >= 0.00000001
  {
    hide EmaOf;
    JumpedAverage(prices, c, d, 21, 9);
    JumpedAverage(prices, c, d, 21, 21);
    assert EmaOf(prices, 21, 9) - EmaOf(prices, 21, 21) == d * (2.0 / 10.0 - 2.0 / 22.0);
  }

  lemma {:induction false} FlatLines(prices: seq<real>, c: real)
    requires forall i | 0 <= i < |prices| :: prices[i] == c
    ensures forall i | 0 <= i < |Lines(prices, 12, 26)| :: Lines(prices, 12, 26)[i] == 0.0
  {
    hide EmaOf;
    if |prices| >= 26 {
      FlatLines(prices[..|prices| - 1], c);
      EmaWithin(prices, 26, 12, c, c);
      EmaWithin(prices, 26, 26, c, c);
    }
  }

  /**
   The same jump after at least 34 equal prices: the MACD line is its part by which the faster average
   moves further, the signal line a fifth of that, and the histogram the rest.
   */
  lemma JumpMovesMacd(prices: seq<real>, c: real, d: real)
    requires |prices| >= 35 && Jumps(prices, c, d)
    ensures var line := d * (2.0 / 13.0 - 2.0 / 27.0);
            && MacdLine(prices, 12, 26) == line
            && SignalLine(prices, 12, 26, 9) == line / 5.0
            && MacdLine(prices, 12, 26) - SignalLine(prices, 12, 26, 9) == line * 4.0 / 5.0
  {
    hide EmaOf;
    JumpedAverage(prices, c, d, 26, 12);
    JumpedAverage(prices, c, d, 26, 26);
    var line, init, lines := d * (2.0 / 13.0 - 2.0 / 27.0), prices[..|prices| - 1], Lines(prices, 12, 26);
    assert MacdLine(prices, 12, 26) == line;
    FlatLines(init, c);
    assert lines == Lines(init, 12, 26) + [line];
    assert Jumps(lines, 0.0, line);
    JumpedAverage(lines, 0.0, line, 9, 9);
  }
}
