/**
 Candles and volume records by the clock: in a stream from 1970 on whose timestamps never go back,
 each finalized record is made of exactly the trades between its opening and its closing.
 */
module IntervalLaws {
  import opened Windows
  import opened Candle
  import Volume

  /** The trades with a timestamp from `from` up to `to`. */
  function Between(trades: seq<Trade>, from: int, to: int): seq<Trade> {
    if trades == [] then []
    else
      var t := trades[0];
      (if from <= t.timestamp < to then [t] else []) + Between(trades[1..], from, to)
  }

  lemma {:induction false} BetweenSum(a: seq<Trade>, b: seq<Trade>, from: int, to: int)
    ensures Between(a + b, from, to) == Between(a, from, to) + Between(b, from, to)
  {
    if a == [] {
      assert a + b == b;
    } else {
      assert (a + b)[1..] == a[1..] + b;
      BetweenSum(a[1..], b, from, to);
      var first := if from <= a[0].timestamp < to then [a[0]] else [];
      assert first + (Between(a[1..], from, to) + Between(b, from, to)) ==
             (first + Between(a[1..], from, to)) + Between(b, from, to);
    }
  }

  lemma {:induction false} AllBetween(trades: seq<Trade>, from: int, to: int)
    requires forall i | 0 <= i < |trades| :: from <= trades[i].timestamp < to
    ensures Between(trades, from, to) == trades
  {
    if trades != [] {
      AllBetween(trades[1..], from, to);
    }
  }

  lemma {:induction false} NoneBetween(trades: seq<Trade>, from: int, to: int)
    requires forall i | 0 <= i < |trades| :: !(from <= trades[i].timestamp < to)
    ensures Between(trades, from, to) == []
  {
    if trades != [] {
      NoneBetween(trades[1..], from, to);
    }
  }

  // ---------------------------------------------------------------- runs are intervals

  lemma {:induction false} NoRunBetween(runs: seq<seq<Trade>>, from: int, to: int)
    requires forall j, k | 0 <= j < |runs| && 0 <= k < |runs[j]| :: !(from <= runs[j][k].timestamp < to)
    ensures Between(Flatten(runs), from, to) == []
  {
    if runs != [] {
      NoneBetween(runs[0], from, to);
      NoRunBetween(runs[1..], from, to);
      BetweenSum(runs[0], Flatten(runs[1..]), from, to);
    }
  }

  lemma {:induction false} OneRunBetween(runs: seq<seq<Trade>>, i: nat, from: int, to: int)
    requires i < |runs|
    requires forall j, k | 0 <= j < |runs| && 0 <= k < |runs[j]| :: from <= runs[j][k].timestamp < to <==> j == i
    ensures Between(Flatten(runs), from, to) == runs[i]
  {
    BetweenSum(runs[0], Flatten(runs[1..]), from, to);
    if i == 0 {
      AllBetween(runs[0], from, to);
      NoRunBetween(runs[1..], from, to);
      assert runs[0] + [] == runs[0];
    } else {
      NoneBetween(runs[0], from, to);
      OneRunBetween(runs[1..], i - 1, from, to);
    }
  }

  lemma {:induction false} FromTheStream(runs: seq<seq<Trade>>, i: nat, k: nat)
    requires i < |runs| && k < |runs[i]|
    ensures runs[i][k] in Flatten(runs)
  {
    if i > 0 {
      FromTheStream(runs[1..], i - 1, k);
    }
  }

  /** Each maximal run of an ordered stream is made of the trades of its interval, no more and no fewer. */
  lemma RunsAreIntervals(timeframe: int, runs: seq<seq<Trade>>, trades: seq<Trade>, i: nat)
    requires timeframe >= SECOND && MaximalRuns(timeframe, runs, trades) && InOrder(trades) && i < |runs|
    ensures runs[i] != []
    ensures var ts := runs[i][0].timestamp;
            Between(trades, OpenTime(timeframe, ts), CloseTime(timeframe, ts) - timeframe % SECOND) == runs[i]
  {
    hide OpenTime, CloseTime, Seconds;
    assert OneWindow(timeframe, runs[i]);
    var ts := runs[i][0].timestamp;
    var from, to := OpenTime(timeframe, ts), CloseTime(timeframe, ts) - timeframe % SECOND;
    OrderedRunsAreWindows(timeframe, runs, trades);
    FromTheStream(runs, i, 0);
    forall j, k | 0 <= j < |runs| && 0 <= k < |runs[j]|
      ensures from <= runs[j][k].timestamp < to <==> j == i
    {
      assert OneWindow(timeframe, runs[j]);
      FromTheStream(runs, j, k);
      SameWindowIffBetween(timeframe, ts, runs[j][k].timestamp);
      assert SameWindow(timeframe, runs[j][0], runs[j][k]);
      assert Seconds(timeframe) * SECOND > 0;
    }
    OneRunBetween(runs, i, from, to);
  }

  /** The same for what a stream has closed. */
  lemma ClosedAreIntervals(timeframe: int, trades: seq<Trade>, i: nat)
    requires timeframe >= SECOND && InOrder(trades) && i < |Closed(timeframe, trades)|
    ensures var run := Closed(timeframe, trades)[i];
            && run != []
            && Between(trades, OpenTime(timeframe, run[0].timestamp),
                 CloseTime(timeframe, run[0].timestamp) - timeframe % SECOND) == run
  {
    hide OpenTime, CloseTime, Between, MaximalRuns, InOrder;
    StreamFindsRuns(timeframe, trades);
    var closed := Closed(timeframe, trades);
    RunsAreIntervals(timeframe, closed + [Current(timeframe, trades)], trades, i);
  }

  // ---------------------------------------------------------------- candles

  lemma {:induction false} CandleOfRun(timeframe: int, runs: seq<seq<Trade>>, i: nat)
    requires timeframe >= SECOND && i < |runs| && forall j | 0 <= j < |runs| :: runs[j] != []
    ensures |Candles(timeframe, runs)| == |runs|
    ensures Candles(timeframe, runs)[i] == CandleOf(timeframe, runs[i], true)
    decreases |runs|
  {
    hide CandleOf;
    var init := runs[..|runs| - 1];
    if init == [] {
      assert Candles(timeframe, init) == [];
    } else {
      CandleOfRun(timeframe, init, if i < |init| then i else 0);
    }
  }

  /** The candle that the trades of an interval make, field by field. */
  ghost predicate Summarises(c: EvidenceCandle, trades: seq<Trade>) {
    && trades != []
    && c.instrument == trades[0].instrument
    && c.open == trades[0].price && c.close == trades[|trades| - 1].price
    && (forall i | 0 <= i < |trades| :: c.low <= trades[i].price <= c.high)
    && (exists i | 0 <= i < |trades| :: trades[i].price == c.high)
    && (exists i | 0 <= i < |trades| :: trades[i].price == c.low)
    && c.volume == Notional(trades) && c.tradeCount == |trades|
  }

  /**
   Candles by the clock: each finalized candle of an ordered stream is as long as the timeframe and
   sums up exactly the trades of the stream from its opening to its closing; for a timeframe with a
   fraction of a second, to that much before its closing.
   */
  lemma CandlesAreOfTheirIntervals(timeframe: int, trades: seq<Trade>, i: nat)
    requires timeframe >= SECOND && InOrder(trades) && i < |Candles(timeframe, Closed(timeframe, trades))|
    ensures var c := Candles(timeframe, Closed(timeframe, trades))[i];
            && c.final && c.closeTime == c.openTime + timeframe
            && Summarises(c, Between(trades, c.openTime, c.closeTime - timeframe % SECOND))
  {
    hide OpenTime, High, Low, Notional, Between;
    var closed := Closed(timeframe, trades);
    CountsConserved(timeframe, trades);
    AsManyCandles(timeframe, closed);
    CandleOfRun(timeframe, closed, i);
    ClosedAreIntervals(timeframe, trades, i);
    HighAndLow(closed[i]);
  }

  lemma AsManyCandles(timeframe: int, runs: seq<seq<Trade>>)
    requires timeframe >= SECOND && forall j | 0 <= j < |runs| :: runs[j] != []
    ensures |Candles(timeframe, runs)| == |runs|
  {
    if runs != [] {
      CandleOfRun(timeframe, runs, 0);
    }
  }

  /**
   Of two finalized candles of an ordered stream the earlier closes by the time the later opens, but
   for the fraction of a second of the timeframe; that late exactly when their windows are neighbours.
   */
  lemma CandlesDoNotOverlap(timeframe: int, trades: seq<Trade>, i: nat, j: nat)
    requires timeframe >= SECOND && InOrder(trades) && i < j < |Candles(timeframe, Closed(timeframe, trades))|
    ensures var candles, fraction := Candles(timeframe, Closed(timeframe, trades)), timeframe % SECOND;
            && candles[i].closeTime - fraction <= candles[j].openTime
            && (candles[i].closeTime - fraction == candles[j].openTime <==>
                  candles[j].openTime - candles[i].openTime == timeframe - fraction)
  {
    hide OpenTime, CloseTime, High, Low, Notional, Seconds;
    var closed := Closed(timeframe, trades);
    StreamFindsRuns(timeframe, trades);
    CountsConserved(timeframe, trades);
    AsManyCandles(timeframe, closed);
    var runs := closed + [Current(timeframe, trades)];
    OrderedRunsAreWindows(timeframe, runs, trades);
    assert runs[i] == closed[i] && runs[j] == closed[j];
    CandleOfRun(timeframe, closed, i);
    CandleOfRun(timeframe, closed, j);
    WholeSeconds(timeframe);
    NeighboursOverlap(timeframe, closed[i][0].timestamp, closed[j][0].timestamp);
  }

  // ---------------------------------------------------------------- volume records

  lemma {:induction false} RecordOfRun(timeframe: int, runs: seq<seq<Trade>>, i: nat)
    requires timeframe >= SECOND && i < |runs| && forall j | 0 <= j < |runs| :: runs[j] != []
    ensures |Volume.Records(timeframe, runs)| == |runs|
    ensures Volume.Records(timeframe, runs)[i] == Volume.VolumeOf(timeframe, runs[i], true)
    decreases |runs|
  {
    hide Volume.VolumeOf;
    var init := runs[..|runs| - 1];
    if init == [] {
      assert Volume.Records(timeframe, init) == [];
    } else {
      RecordOfRun(timeframe, init, if i < |init| then i else 0);
    }
  }

  /** The volume record that the trades of an interval make: the buyer's as maker are the buy volume. */
  predicate Totals(v: Volume.EvidenceVolume, trades: seq<Trade>) {
    && trades != []
    && v.instrument == trades[0].instrument && v.tradeCount == |trades|
    && v.buyVolume == Notional(Volume.OfSide(trades, true)) && v.sellVolume == Notional(Volume.OfSide(trades, false))
    && v.totalVolume == Notional(trades)
    && (Volume.Quantity(trades) > 0.0 ==> v.vwap * Volume.Quantity(trades) == v.totalVolume)
    && (Volume.Quantity(trades) <= 0.0 ==> v.vwap == 0.0)
  }

  /** Volume records by the clock, in the same way. */
  lemma RecordsAreOfTheirIntervals(timeframe: int, trades: seq<Trade>, i: nat)
    requires timeframe >= SECOND && InOrder(trades)
    requires i < |Volume.Records(timeframe, Closed(timeframe, trades))|
    ensures var v := Volume.Records(timeframe, Closed(timeframe, trades))[i];
            && v.final && v.closeTime == v.openTime + timeframe
            && Totals(v, Between(trades, v.openTime, v.closeTime - timeframe % SECOND))
  {
    hide OpenTime, Notional, Volume.Quantity, Volume.SideNotional, Volume.OfSide, Between;
    var closed := Closed(timeframe, trades);
    CountsConserved(timeframe, trades);
    if closed != [] {
      RecordOfRun(timeframe, closed, 0);
    }
    RecordOfRun(timeframe, closed, i);
    ClosedAreIntervals(timeframe, trades, i);
    Volume.SideIsNotional(closed[i], true);
    Volume.SideIsNotional(closed[i], false);
  }
}
