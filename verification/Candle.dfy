/** The candle sampler of internal/application/derive/sampler.go. */
module Candle {
  import opened Wrappers
  import opened Windows

  datatype EvidenceCandle = EvidenceCandle(
    instrument: string, open: real, high: real, low: real, close: real,
    volume: real, tradeCount: nat, openTime: int, closeTime: int, final: bool)

  function High(run: seq<Trade>): real
    requires run != []
  {
    if |run| == 1 then run[0].price
    else
      var h, p := High(run[..|run| - 1]), run[|run| - 1].price;
      if p > h then p else h
  }

  function Low(run: seq<Trade>): real
    requires run != []
  {
    if |run| == 1 then run[0].price
    else
      var l, p := Low(run[..|run| - 1]), run[|run| - 1].price;
      if p < l then p else l
  }

  /** The notional of one trade. */
  function Value(t: Trade): real {
    t.price * t.quantity
  }

  function Notional(run: seq<Trade>): real {
    if run == [] then 0.0 else Notional(run[..|run| - 1]) + Value(run[|run| - 1])
  }

  /** The candle of the trades of one window. */
  function CandleOf(timeframe: int, run: seq<Trade>, final: bool): EvidenceCandle
    requires timeframe >= SECOND && run != []
  {
    EvidenceCandle(run[0].instrument, run[0].price, High(run), Low(run), run[|run| - 1].price,
      Notional(run), |run|, OpenTime(timeframe, run[0].timestamp), CloseTime(timeframe, run[0].timestamp), final)
  }

  /** High and low are the greatest and the least price of the window. */
  lemma {:induction false} HighAndLow(run: seq<Trade>)
    requires run != []
    ensures forall i | 0 <= i < |run| :: Low(run) <= run[i].price <= High(run)
    ensures exists i | 0 <= i < |run| :: run[i].price == High(run)
    ensures exists i | 0 <= i < |run| :: run[i].price == Low(run)
  {
    if |run| > 1 {
      var init := run[..|run| - 1];
      HighAndLow(init);
      var h :| 0 <= h < |init| && init[h].price == High(init);
      var l :| 0 <= l < |init| && init[l].price == Low(init);
      assert run[h] == init[h] && run[l] == init[l];
      assert forall i | 0 <= i < |init| :: run[i] == init[i];
      var last := |run| - 1;
      assert run[h].price == High(run) || run[last].price == High(run);
      assert run[l].price == Low(run) || run[last].price == Low(run);
    } else {
      assert run[0].price == High(run) == Low(run);
    }
  }

  class CandleSampler {
    const timeframe: int
    var instrument: string
    var open: real
    var high: real
    var low: real
    var close: real
    var volume: real
    var tradeCount: nat
    var openTime: int
    var closeTime: int
    var active: bool

    /** All trades so far, and the candles that have been finalized. */
    ghost var trades: seq<Trade>
    ghost var candles: seq<EvidenceCandle>

    /** Streaming equals batch: the finalized candles are those of the closed runs, the fields that of the open one. */
    ghost predicate Valid()
      reads this
    {
      && timeframe >= SECOND
      && var run := Current(timeframe, trades);
      && active == (run != [])
      && (active ==> Snapshot(false) == CandleOf(timeframe, run, false))
      && candles == Candles(timeframe, Closed(timeframe, trades))
    }

    constructor (timeframe: int)
      requires timeframe >= SECOND
      ensures Valid() && this.timeframe == timeframe && trades == [] && candles == []
    {
      this.timeframe := timeframe;
      active, instrument, openTime, closeTime, tradeCount := false, "", 0, 0, 0;
      open, high, low, close, volume := 0.0, 0.0, 0.0, 0.0, 0.0;
      trades, candles := [], [];
    }

    method AddTrade(trade: Trade) returns (finalized: Option<EvidenceCandle>)
      requires Valid() && trade.priced
      modifies this
      ensures Valid() && trades == old(trades) + [trade]
      ensures finalized.Some? <==> Closes(timeframe, Current(timeframe, old(trades)), trade)
      ensures finalized.Some? ==> finalized.value == CandleOf(timeframe, Current(timeframe, old(trades)), true)
      ensures candles == old(candles) + if finalized.Some? then [finalized.value] else []
    {
      hide CandleOf, OpenTime, CloseTime, Current, Closed, Candles, Value, First, Updated;
      OneMore(timeframe, trades, trade);
      ghost var run := Current(timeframe, trades);
      CandleGrows(timeframe, run, trade);
      ghost var closed := Closed(timeframe, trades);
      ghost var next := Next(timeframe, run, trade);
      trades := trades + [trade];
      var openTime', closeTime' := OpenTime(timeframe, trade.timestamp), CloseTime(timeframe, trade.timestamp);
      finalized := None;
      if active && openTime' != openTime {
        finalized := Some(Snapshot(true));
        candles := candles + [finalized.value];
        CandlesGrow(timeframe, closed, run);
        Reset();
      } else {
        assert closed + [] == closed && candles + [] == candles;
      }
      if !active {
        assert next == [trade];
        Open(trade, openTime', closeTime');
        return;
      }
      Update(trade);
    }

    /** Starts the window of a trade. */
    method Open(trade: Trade, openTime': int, closeTime': int)
      modifies this
      ensures active && unchanged(this`trades) && unchanged(this`candles)
      ensures Snapshot(false) == First(trade, openTime', closeTime')
    {
      var price := trade.price;
      openTime := openTime';
      closeTime := closeTime';
      instrument := trade.instrument;
      open := price;
      high := price;
      low := price;
      close := price;
      volume := Value(trade);
      tradeCount := 1;
      active := true;
    }

    /** Takes one more trade into the candle of the open window. */
    method Update(trade: Trade)
      modifies this`high, this`low, this`close, this`volume, this`tradeCount
      ensures Snapshot(false) == Updated(old(Snapshot(false)), trade)
    {
      var price := trade.price;
      if price > high {
        high := price;
      }
      if price < low {
        low := price;
      }
      close := price;
      volume := volume + Value(trade);
      tradeCount := tradeCount + 1;
    }

    function Snapshot(final: bool): EvidenceCandle
      reads this
    {
      EvidenceCandle(instrument, open, high, low, close, volume, tradeCount, openTime, closeTime, final)
    }

    method Reset()
      modifies this
      ensures !active && unchanged(this`trades) && unchanged(this`candles)
    {
      active, instrument, tradeCount, openTime, closeTime := false, "", 0, 0, 0;
      open, high, low, close, volume := 0.0, 0.0, 0.0, 0.0, 0.0;
    }
  }

  function Candles(timeframe: int, runs: seq<seq<Trade>>): seq<EvidenceCandle>
    requires timeframe >= SECOND
  {
    if runs == [] then []
    else
      var last := runs[|runs| - 1];
      Candles(timeframe, runs[..|runs| - 1]) + if last == [] then [] else [CandleOf(timeframe, last, true)]
  }

  lemma CandlesGrow(timeframe: int, runs: seq<seq<Trade>>, run: seq<Trade>)
    requires timeframe >= SECOND && run != []
    ensures Candles(timeframe, runs + [run]) == Candles(timeframe, runs) + [CandleOf(timeframe, run, true)]
  {
    assert (runs + [run])[..|runs|] == runs;
  }

  function TotalTrades(candles: seq<EvidenceCandle>): nat {
    if candles == [] then 0 else TotalTrades(candles[..|candles| - 1]) + candles[|candles| - 1].tradeCount
  }

  function TotalVolume(candles: seq<EvidenceCandle>): real {
    if candles == [] then 0.0 else TotalVolume(candles[..|candles| - 1]) + candles[|candles| - 1].volume
  }

  /** Over a whole stream the finalized candles and the open run account for every trade and for all the notional. */
  lemma {:induction false} NothingLost(timeframe: int, trades: seq<Trade>)
    requires timeframe >= SECOND
    ensures var candles, run := Candles(timeframe, Closed(timeframe, trades)), Current(timeframe, trades);
            && TotalTrades(candles) + |run| == |trades|
            && TotalVolume(candles) + Notional(run) == Notional(trades)
  {
    if trades == [] {
      assert Candles(timeframe, []) == [];
    } else {
      hide *;
      var before, t := trades[..|trades| - 1], trades[|trades| - 1];
      assert trades == before + [t];
      NothingLost(timeframe, before);
      StepCases(timeframe, before, t);
      NotionalGrows(before, t);
      var closed, run := Closed(timeframe, before), Current(timeframe, before);
      if Closes(timeframe, run, t) {
        NotionalGrows([], t);
        assert [] + [t] == [t];
        TotalsGrow(timeframe, closed, run);
      } else {
        NotionalGrows(run, t);
      }
    }
  }

  /** What a trade does to the closed windows and to the open one. */
  lemma StepCases(timeframe: int, trades: seq<Trade>, t: Trade)
    requires timeframe >= SECOND
    ensures var run, closed := Current(timeframe, trades), Closed(timeframe, trades);
            if Closes(timeframe, run, t) then
              run != [] && Current(timeframe, trades + [t]) == [t] && Closed(timeframe, trades + [t]) == closed + [run]
            else
              Current(timeframe, trades + [t]) == run + [t] && Closed(timeframe, trades + [t]) == closed
  {
    hide SameWindow;
    OneMore(timeframe, trades, t);
    var closed := Closed(timeframe, trades);
    assert closed + [] == closed;
  }

  lemma TotalsGrow(timeframe: int, runs: seq<seq<Trade>>, run: seq<Trade>)
    requires timeframe >= SECOND && run != []
    ensures TotalTrades(Candles(timeframe, runs + [run])) == TotalTrades(Candles(timeframe, runs)) + |run|
    ensures TotalVolume(Candles(timeframe, runs + [run])) == TotalVolume(Candles(timeframe, runs)) + Notional(run)
  {
    hide Notional, High, Low, OpenTime, CloseTime, Candles;
    CandlesGrow(timeframe, runs, run);
    var candles, last := Candles(timeframe, runs), CandleOf(timeframe, run, true);
    assert (candles + [last])[..|candles|] == candles;
  }

  lemma NotionalGrows(run: seq<Trade>, t: Trade)
    ensures Notional(run + [t]) == Notional(run) + Value(t)
    ensures Notional([]) == 0.0
  {
    assert (run + [t])[..|run|] == run;
  }

  /** The candle of one trade. */
  function First(t: Trade, openTime: int, closeTime: int): EvidenceCandle {
    EvidenceCandle(t.instrument, t.price, t.price, t.price, t.price, Value(t), 1, openTime, closeTime, false)
  }

  /** A candle after one more trade of its window. */
  function Updated(c: EvidenceCandle, t: Trade): EvidenceCandle {
    c.(high := if t.price > c.high then t.price else c.high,
       low := if t.price < c.low then t.price else c.low,
       close := t.price,
       volume := c.volume + Value(t),
       tradeCount := c.tradeCount + 1)
  }

  /** How a candle changes with a trade: the first one, another window's, or one more of the same window. */
  lemma CandleGrows(timeframe: int, run: seq<Trade>, t: Trade)
    requires timeframe >= SECOND
    ensures CandleOf(timeframe, [t], false) ==
              First(t, OpenTime(timeframe, t.timestamp), CloseTime(timeframe, t.timestamp))
    ensures run != [] ==>
              var c := CandleOf(timeframe, run, false);
              && c.openTime == OpenTime(timeframe, run[0].timestamp)
              && CandleOf(timeframe, run, true) == c.(final := true)
              && CandleOf(timeframe, run + [t], false) == Updated(c, t)
  {
    hide Value;
    assert Notional([t]) == Value(t) by {
      assert [t][..0] == [];
    }
    if run != [] {
      assert (run + [t])[..|run|] == run;
    }
  }
}
