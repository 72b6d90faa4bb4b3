/** The trade burst sampler of internal/application/derive/trade_burst_sampler.go. */
module TradeBurst {
  import opened Wrappers
  import opened Windows
  import Candle
  import Volume

  datatype EvidenceTradeBurst = EvidenceTradeBurst(
    instrument: string, tradeCount: nat, buyVolume: real, sellVolume: real,
    openTime: int, closeTime: int, burst: bool, final: bool)

  /** More than double the count of the window before, when there is one. */
  predicate IsBurst(count: nat, previous: nat) {
    previous > 0 && count > 2 * previous
  }

  function BurstOf(timeframe: int, run: seq<Trade>, previous: nat, final: bool): EvidenceTradeBurst
    requires timeframe >= SECOND && run != []
  {
    EvidenceTradeBurst(run[0].instrument, |run|, Volume.SideNotional(run, true), Volume.SideNotional(run, false),
      OpenTime(timeframe, run[0].timestamp), CloseTime(timeframe, run[0].timestamp), IsBurst(|run|, previous), final)
  }

  /** The count of the last window closed; 0 before the first. */
  function Baseline(runs: seq<seq<Trade>>): nat {
    if runs == [] then 0 else |runs[|runs| - 1]|
  }

  function Bursts(timeframe: int, runs: seq<seq<Trade>>): seq<EvidenceTradeBurst>
    requires timeframe >= SECOND
  {
    if runs == [] then []
    else
      var init, last := runs[..|runs| - 1], runs[|runs| - 1];
      Bursts(timeframe, init) + if last == [] then [] else [BurstOf(timeframe, last, Baseline(init), true)]
  }

  lemma BurstsGrow(timeframe: int, runs: seq<seq<Trade>>, run: seq<Trade>)
    requires timeframe >= SECOND && run != []
    ensures Bursts(timeframe, runs + [run]) == Bursts(timeframe, runs) + [BurstOf(timeframe, run, Baseline(runs), true)]
    ensures Baseline(runs + [run]) == |run|
  {
    assert (runs + [run])[..|runs|] == runs;
  }

  /**
   A window is flagged exactly when it has more than twice the trades of the window emitted before it; the
   first never is.
   */
  lemma {:induction false} FlaggedIffDoubled(timeframe: int, runs: seq<seq<Trade>>, i: nat)
    requires timeframe >= SECOND && i < |runs| && forall j | 0 <= j < |runs| :: runs[j] != []
    ensures |Bursts(timeframe, runs)| == |runs|
    ensures Bursts(timeframe, runs)[i].tradeCount == |runs[i]|
    ensures Bursts(timeframe, runs)[i].burst <==> i > 0 && |runs[i]| > 2 * |runs[i - 1]|
    ensures Bursts(timeframe, runs)[i].buyVolume == Candle.Notional(Volume.OfSide(runs[i], true))
    ensures Bursts(timeframe, runs)[i].sellVolume == Candle.Notional(Volume.OfSide(runs[i], false))
    ensures Bursts(timeframe, runs)[i].closeTime == Bursts(timeframe, runs)[i].openTime + timeframe
    decreases |runs|
  {
    hide *;
    BurstOfRun(timeframe, runs, i);
    BurstTells(timeframe, runs[i], Baseline(runs[..i]));
    BaselineOfPrefix(runs, i);
  }

  lemma {:induction false} BurstOfRun(timeframe: int, runs: seq<seq<Trade>>, i: nat)
    requires timeframe >= SECOND && i < |runs| && forall j | 0 <= j < |runs| :: runs[j] != []
    ensures |Bursts(timeframe, runs)| == |runs|
    ensures Bursts(timeframe, runs)[i] == BurstOf(timeframe, runs[i], Baseline(runs[..i]), true)
    decreases |runs|
  {
    hide BurstOf, Baseline;
    var init := runs[..|runs| - 1];
    assert runs[..i] == if i < |init| then init[..i] else init;
    if init == [] {
      assert Bursts(timeframe, init) == [];
    } else {
      BurstOfRun(timeframe, init, if i < |init| then i else 0);
    }
  }

  lemma BaselineOfPrefix(runs: seq<seq<Trade>>, i: nat)
    requires i < |runs|
    ensures Baseline(runs[..i]) == if i == 0 then 0 else |runs[i - 1]|
    ensures i > 0 && runs[i - 1] != [] ==> Baseline(runs[..i]) > 0
  {
  }

  lemma BurstTells(timeframe: int, run: seq<Trade>, previous: nat)
    requires timeframe >= SECOND && run != []
    ensures var b := BurstOf(timeframe, run, previous, true);
            && b.tradeCount == |run| && (b.burst <==> previous > 0 && |run| > 2 * previous)
            && b.buyVolume == Candle.Notional(Volume.OfSide(run, true))
            && b.sellVolume == Candle.Notional(Volume.OfSide(run, false))
            && b.closeTime == b.openTime + timeframe
  {
    hide OpenTime, Candle.Notional, Volume.OfSide, Volume.SideNotional;
    Volume.SideIsNotional(run, true);
    Volume.SideIsNotional(run, false);
  }

  class TradeBurstSampler {
    const timeframe: int
    var instrument: string
    var tradeCount: nat
    var buyVolume: real
    var sellVolume: real
    var openTime: int
    var closeTime: int
    var active: bool
    var prevTradeCount: nat

    /** All trades so far, and the records that have been finalized. */
    ghost var trades: seq<Trade>
    ghost var records: seq<EvidenceTradeBurst>

    ghost predicate Valid()
      reads this
    {
      && timeframe >= SECOND
      && var run := Current(timeframe, trades);
      && active == (run != [])
      && (active ==>
            && instrument == run[0].instrument && tradeCount == |run|
            && openTime == OpenTime(timeframe, run[0].timestamp) && closeTime == CloseTime(timeframe, run[0].timestamp)
            && buyVolume == Volume.SideNotional(run, true) && sellVolume == Volume.SideNotional(run, false))
      && prevTradeCount == Baseline(Closed(timeframe, trades))
      && records == Bursts(timeframe, Closed(timeframe, trades))
    }

    constructor (timeframe: int)
      requires timeframe >= SECOND
      ensures Valid() && this.timeframe == timeframe && trades == [] && records == []
    {
      this.timeframe := timeframe;
      active, instrument, openTime, closeTime, tradeCount := false, "", 0, 0, 0;
      buyVolume, sellVolume, prevTradeCount := 0.0, 0.0, 0;
      trades, records := [], [];
    }

    method AddTrade(trade: Trade) returns (finalized: Option<EvidenceTradeBurst>)
      requires Valid() && trade.priced
      modifies this
      ensures Valid() && trades == old(trades) + [trade]
      ensures finalized.Some? <==> Closes(timeframe, Current(timeframe, old(trades)), trade)
      ensures finalized.Some? ==>
                finalized.value == BurstOf(timeframe, Current(timeframe, old(trades)),
                    Baseline(Closed(timeframe, old(trades))), true)
      ensures records == old(records) + if finalized.Some? then [finalized.value] else []
    {
      hide OpenTime, CloseTime, Current, Closed, Bursts, Baseline, Volume.SideNotional, Volume.Quantity,
        Candle.Value, IsBurst;
      OneMore(timeframe, trades, trade);
      ghost var run := Current(timeframe, trades);
      ghost var closed := Closed(timeframe, trades);
      ghost var next := Next(timeframe, run, trade);
      ghost var base := if Closes(timeframe, run, trade) then [] else run;
      assert next == base + [trade];
      trades := trades + [trade];
      var vol := Candle.Value(trade);
      Volume.SumsOfNone();
      Volume.SumsGrow(base, trade, vol);
      var openTime', closeTime' := OpenTime(timeframe, trade.timestamp), CloseTime(timeframe, trade.timestamp);
      finalized := None;
      if active && openTime' != openTime {
        finalized := Some(Snapshot(true));
        records := records + [finalized.value];
        BurstsGrow(timeframe, closed, run);
        prevTradeCount := tradeCount;
        Reset();
      } else {
        assert closed + [] == closed && records + [] == records;
      }
      assert records == Bursts(timeframe, Closed(timeframe, trades));
      if !active {
        openTime := openTime';
        closeTime := closeTime';
        instrument := trade.instrument;
        buyVolume, sellVolume, tradeCount := 0.0, 0.0, 0;
        active := true;
      }
      assert closeTime == CloseTime(timeframe, next[0].timestamp) && instrument == next[0].instrument;
      assert tradeCount == |base|;
      assert buyVolume == Volume.SideNotional(base, true) && sellVolume == Volume.SideNotional(base, false);
      Accumulate(trade, vol);
    }

    /** Adds a trade to the accumulators of the open window. */
    method Accumulate(trade: Trade, vol: real)
      modifies this`tradeCount, this`buyVolume, this`sellVolume
      ensures tradeCount == old(tradeCount) + 1
      ensures buyVolume == old(buyVolume) + if trade.buyerMaker then vol else 0.0
      ensures sellVolume == old(sellVolume) + if trade.buyerMaker then 0.0 else vol
    {
      tradeCount := tradeCount + 1;
      if trade.buyerMaker {
        buyVolume := buyVolume + vol;
      } else {
        sellVolume := sellVolume + vol;
      }
    }

    function Snapshot(final: bool): EvidenceTradeBurst
      reads this
    {
      EvidenceTradeBurst(instrument, tradeCount, buyVolume, sellVolume, openTime, closeTime,
        IsBurst(tradeCount, prevTradeCount), final)
    }

    method Reset()
      modifies this
      ensures !active && unchanged(this`trades) && unchanged(this`records) && unchanged(this`prevTradeCount)
    {
      active, instrument, tradeCount, openTime, closeTime := false, "", 0, 0, 0;
      buyVolume, sellVolume := 0.0, 0.0;
    }
  }
}
