/** The MACD sampler of internal/application/signal/macd_sampler.go over exact prices. */
module Macd {
  import opened Wrappers
  import opened Bollinger
  import opened Ema

  const FAST := 12
  const SLOW := 26
  const SIGNAL := 9

  /** The value of the signal is the histogram; the rest is its metadata. */
  datatype MacdSignal = MacdSignal(histogram: real, macdLine: real, signalLine: real, fastEMA: real, slowEMA: real)

  function MacdLine(prices: seq<real>, fast: nat, slow: nat): real
    requires 1 <= fast <= slow <= |prices|
  {
    EmaOf(prices, slow, fast) - EmaOf(prices, slow, slow)
  }

  /** The MACD line at every price from number `slow` on. */
  function Lines(prices: seq<real>, fast: nat, slow: nat): (lines: seq<real>)
    requires 1 <= fast <= slow
    ensures |lines| == if |prices| < slow then 0 else |prices| - slow + 1
  {
    if |prices| < slow then [] else Lines(prices[..|prices| - 1], fast, slow) + [MacdLine(prices, fast, slow)]
  }

  /** The signal line is the average of the MACD line. */
  function SignalLine(prices: seq<real>, fast: nat, slow: nat, signal: nat): real
    requires 1 <= fast <= slow && 1 <= signal && |prices| >= slow + signal - 1
  {
    EmaOf(Lines(prices, fast, slow), signal, signal)
  }

  lemma {:induction false} LinesWithin(prices: seq<real>, fast: nat, slow: nat, lo: real, hi: real)
    requires 1 <= fast <= slow && Within(prices, lo, hi)
    ensures Within(Lines(prices, fast, slow), -(hi - lo), hi - lo)
  {
    hide EmaOf;
    if |prices| >= slow {
      LinesWithin(prices[..|prices| - 1], fast, slow, lo, hi);
      SpreadWithin(prices, slow, fast, slow, lo, hi);
    }
  }

  /** Neither line leaves the range of the prices, and the histogram at most doubles it. */
  lemma MacdWithin(prices: seq<real>, fast: nat, slow: nat, signal: nat, lo: real, hi: real)
    requires 1 <= fast <= slow && 1 <= signal && |prices| >= slow + signal - 1 && Within(prices, lo, hi)
    ensures var line, smoothed := MacdLine(prices, fast, slow), SignalLine(prices, fast, slow, signal);
            && -(hi - lo) <= line <= hi - lo
            && -(hi - lo) <= smoothed <= hi - lo
            && -2.0 * (hi - lo) <= line - smoothed <= 2.0 * (hi - lo)
  {
    hide EmaOf;
    SpreadWithin(prices, slow, fast, slow, lo, hi);
    LinesWithin(prices, fast, slow, lo, hi);
    EmaWithin(Lines(prices, fast, slow), signal, signal, -(hi - lo), hi - lo);
  }

  lemma {:induction false} LinesAffine(p: seq<real>, q: seq<real>, fast: nat, slow: nat, a: real, b: real)
    requires 1 <= fast <= slow && Affine(p, q, a, b)
    ensures Affine(Lines(p, fast, slow), Lines(q, fast, slow), a, 0.0)
  {
    hide EmaOf;
    if |p| >= slow {
      var last := |p| - 1;
      LinesAffine(p[..last], q[..last], fast, slow, a, b);
      EmaAffine(p, q, slow, fast, a, b);
      EmaAffine(p, q, slow, slow, a, b);
      assert a * (EmaOf(p, slow, fast) - EmaOf(p, slow, slow)) == a * EmaOf(p, slow, fast) - a * EmaOf(p, slow, slow);
    }
  }

  /** The histogram scales with the unit of the prices, ignores their origin, and changes sign with a reflection. */
  lemma HistogramIsLinear(p: seq<real>, q: seq<real>, fast: nat, slow: nat, signal: nat, a: real, b: real)
    requires 1 <= fast <= slow && 1 <= signal && |p| >= slow + signal - 1 && Affine(p, q, a, b)
    ensures MacdLine(q, fast, slow) - SignalLine(q, fast, slow, signal) ==
              a * (MacdLine(p, fast, slow) - SignalLine(p, fast, slow, signal))
  {
    hide EmaOf;
    LinesAffine(p, q, fast, slow, a, b);
    var lines, lines' := Lines(p, fast, slow), Lines(q, fast, slow);
    EmaAffine(lines, lines', signal, signal, a, 0.0);
    var last := |lines| - 1;
    assert lines'[last] == a * lines[last] + 0.0;
    assert lines[last] == MacdLine(p, fast, slow) && lines'[last] == MacdLine(q, fast, slow);
    assert a * (lines[last] - EmaOf(lines, signal, signal)) == a * lines[last] - a * EmaOf(lines, signal, signal);
  }

  class MacdSampler {
    const fastPeriod: nat
    const slowPeriod: nat
    const signalPeriod: nat
    var prices: seq<real>
    var fastEMA: real
    var slowEMA: real
    var emaSeeded: bool
    var macdValues: seq<real>
    var signalEMA: real
    var signalReady: bool

    /** Every price that could be parsed. */
    ghost var closes: seq<real>

    ghost predicate Valid()
      reads this
    {
      && 1 <= fastPeriod <= slowPeriod && 1 <= signalPeriod
      && emaSeeded == (|closes| >= slowPeriod)
      && signalReady == (|closes| >= slowPeriod + signalPeriod - 1)
      && prices == (if emaSeeded then [] else closes)
      && (emaSeeded ==> AveragesRight())
      && macdValues == (if signalReady then [] else Lines(closes, fastPeriod, slowPeriod))
      && (signalReady ==> signalEMA == SignalLine(closes, fastPeriod, slowPeriod, signalPeriod))
    }

    ghost predicate AveragesRight()
      reads this
      requires 1 <= fastPeriod <= slowPeriod <= |closes|
    {
      fastEMA == EmaOf(closes, slowPeriod, fastPeriod) && slowEMA == EmaOf(closes, slowPeriod, slowPeriod)
    }

    constructor ()
      ensures Valid() && closes == [] && fastPeriod == 12 && slowPeriod == 26 && signalPeriod == 9
    {
      fastPeriod, slowPeriod, signalPeriod := FAST, SLOW, SIGNAL;
      prices, closes, fastEMA, slowEMA, emaSeeded := [], [], 0.0, 0.0, false;
      macdValues, signalEMA, signalReady := [], 0.0, false;
    }

    /** What a signal says after the prices so far. */
    ghost predicate Describes(s: MacdSignal)
      reads this
      requires 1 <= fastPeriod <= slowPeriod && 1 <= signalPeriod && |closes| >= slowPeriod + signalPeriod - 1
    {
      && s.fastEMA == EmaOf(closes, slowPeriod, fastPeriod) && s.slowEMA == EmaOf(closes, slowPeriod, slowPeriod)
      && s.macdLine == MacdLine(closes, fastPeriod, slowPeriod)
      && s.signalLine == SignalLine(closes, fastPeriod, slowPeriod, signalPeriod)
      && s.histogram == s.macdLine - s.signalLine
    }

    /**
     `None` is a close price that is no number. The first signal comes with price number
     `slowPeriod + signalPeriod - 1`, then one with every price.
     */
    method AddClose(closePrice: Option<real>) returns (signal: Option<MacdSignal>)
      requires Valid()
      modifies this
      ensures Valid()
      ensures closes == old(closes) + if closePrice.Some? then [closePrice.value] else []
      ensures signal.Some? <==> closePrice.Some? && |closes| >= slowPeriod + signalPeriod - 1
      ensures signal.Some? ==> Describes(signal.value)
      ensures signal.Some? ==>
                signal.value.histogram == MacdLine(closes, fastPeriod, slowPeriod)
                  - SignalLine(closes, fastPeriod, slowPeriod, signalPeriod)
    {
      hide Ema.Step, Mean, EmaOf;
      if closePrice.None? {
        assert closes + [] == closes;
        return None;
      }
      var price := closePrice.value;
      ghost var before := closes;
      closes := closes + [price];
      assert closes[..|before|] == before;
      if |closes| >= slowPeriod {
        EmaGrows(before, price, slowPeriod, fastPeriod);
        EmaGrows(before, price, slowPeriod, slowPeriod);
      }
      if !emaSeeded {
        prices := prices + [price];
        if |prices| < slowPeriod {
          return None;
        }
        fastEMA := Sma(prices[|prices| - fastPeriod..]);
        slowEMA := Sma(prices);
        emaSeeded := true;
        prices := [];
        signal := AccumulateSignalEMA(fastEMA - slowEMA);
        return;
      }
      fastEMA := Update(price, fastEMA, fastPeriod);
      slowEMA := Update(price, slowEMA, slowPeriod);
      var macdLine := fastEMA - slowEMA;
      if !signalReady {
        signal := AccumulateSignalEMA(macdLine);
        return;
      }
      EmaGrows(Lines(before, fastPeriod, slowPeriod), macdLine, signalPeriod, signalPeriod);
      signalEMA := Update(macdLine, signalEMA, signalPeriod);
      signal := Some(MacdSignal(macdLine - signalEMA, macdLine, signalEMA, fastEMA, slowEMA));
    }

    /** Collects MACD lines until there are enough to seed the signal line. */
    method AccumulateSignalEMA(macdLine: real) returns (signal: Option<MacdSignal>)
      requires 1 <= fastPeriod <= slowPeriod && 1 <= signalPeriod && emaSeeded && prices == []
      requires !signalReady && slowPeriod <= |closes| <= slowPeriod + signalPeriod - 1 && AveragesRight()
      requires macdLine == MacdLine(closes, fastPeriod, slowPeriod)
      requires macdValues == Lines(closes[..|closes| - 1], fastPeriod, slowPeriod)
      modifies this`macdValues, this`signalEMA, this`signalReady
      ensures Valid()
      ensures signal.Some? <==> |closes| >= slowPeriod + signalPeriod - 1
      ensures signal.Some? ==> Describes(signal.value)
    {
      hide Mean;
      macdValues := macdValues + [macdLine];
      if |macdValues| < signalPeriod {
        return None;
      }
      assert LastN(macdValues, signalPeriod) == macdValues;
      signalEMA := Sma(macdValues);
      signalReady := true;
      macdValues := [];
      signal := Some(MacdSignal(macdLine - signalEMA, macdLine, signalEMA, fastEMA, slowEMA));
    }
  }

  lemma EmaGrows(prices: seq<real>, price: real, warmup: nat, period: nat)
    requires 1 <= period <= warmup <= |prices| + 1
    ensures EmaOf(prices + [price], warmup, period) ==
              if |prices| + 1 == warmup then Mean((prices + [price])[|prices| + 1 - period..])
              else Ema.Step(price, EmaOf(prices, warmup, period), period)
  {
    assert (prices + [price])[..|prices|] == prices;
    assert |prices| + 1 == warmup ==> LastN(prices + [price], period) == (prices + [price])[|prices| + 1 - period..];
  }
}
