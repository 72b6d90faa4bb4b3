/** The volume and VWAP sampler of internal/application/derive/volume_sampler.go. */
module Volume {
  import opened Wrappers
  import opened Windows
  import Candle
  import Products

  datatype EvidenceVolume = EvidenceVolume(
    instrument: string, buyVolume: real, sellVolume: real, totalVolume: real, vwap: real,
    tradeCount: nat, openTime: int, closeTime: int, final: bool)

  /** The notional of the trades with a given side as maker. */
  function SideNotional(run: seq<Trade>, buyerMaker: bool): real {
    if run == [] then 0.0
    else
      var t := run[|run| - 1];
      SideNotional(run[..|run| - 1], buyerMaker) + if t.buyerMaker == buyerMaker then Candle.Value(t) else 0.0
  }

  function Quantity(run: seq<Trade>): real {
    if run == [] then 0.0 else Quantity(run[..|run| - 1]) + run[|run| - 1].quantity
  }

  /** The volume record of the trades of one window: total notional over total quantity is the VWAP. */
  function VolumeOf(timeframe: int, run: seq<Trade>, final: bool): EvidenceVolume
    requires timeframe >= SECOND && run != []
  {
    var total := Candle.Notional(run);
    EvidenceVolume(run[0].instrument, SideNotional(run, true), SideNotional(run, false), total,
      if Quantity(run) > 0.0 then total / Quantity(run) else 0.0,
      |run|, OpenTime(timeframe, run[0].timestamp), CloseTime(timeframe, run[0].timestamp), final)
  }

  lemma {:induction false} SidesAddUp(run: seq<Trade>)
    ensures SideNotional(run, true) + SideNotional(run, false) == Candle.Notional(run)
  {
    if run != [] {
      SidesAddUp(run[..|run| - 1]);
    }
  }

  /** The trades with a given side as maker. */
  function OfSide(trades: seq<Trade>, buyerMaker: bool): seq<Trade> {
    if trades == [] then []
    else
      var t := trades[|trades| - 1];
      OfSide(trades[..|trades| - 1], buyerMaker) + if t.buyerMaker == buyerMaker then [t] else []
  }

  lemma {:induction false} SideIsNotional(trades: seq<Trade>, buyerMaker: bool)
    ensures SideNotional(trades, buyerMaker) == Candle.Notional(OfSide(trades, buyerMaker))
  {
    hide Candle.Value;
    if trades != [] {
      var init, t := trades[..|trades| - 1], trades[|trades| - 1];
      SideIsNotional(init, buyerMaker);
      Candle.NotionalGrows(OfSide(init, buyerMaker), t);
      assert OfSide(init, buyerMaker) + [] == OfSide(init, buyerMaker);
    }
  }

  /** A bound on prices, times the quantity, stays a bound on the notional with one more trade. */
  lemma BoundGrows(bound: real, price: real, q: real, dq: real, q': real, n: real, n': real, value: real)
    requires dq >= 0.0 && q' == q + dq && n' == n + value && value == price * dq
    ensures bound <= price && bound * q <= n ==> bound * q' <= n'
    ensures price <= bound && n <= bound * q ==> n' <= bound * q'
  {
    var bq, bd, pd := bound * q, bound * dq, price * dq;
    Products.Distribute(bound, q, dq);
    if bound <= price {
      Products.TimesMonotone(bound, price, dq, bd, pd);
    }
    if price <= bound {
      Products.TimesMonotone(price, bound, dq, pd, bd);
    }
  }

  lemma {:induction false} NotionalBetween(run: seq<Trade>, lo: real, hi: real)
    requires forall i | 0 <= i < |run| :: lo <= run[i].price <= hi && run[i].quantity >= 0.0
    ensures lo * Quantity(run) <= Candle.Notional(run) <= hi * Quantity(run)
  {
    hide Quantity, SideNotional, Candle.Notional;
    if run == [] {
      SumsOfNone();
    } else {
      var init, t := run[..|run| - 1], run[|run| - 1];
      NotionalBetween(init, lo, hi);
      assert run == init + [t];
      Candle.NotionalGrows(init, t);
      SumsGrow(init, t, Candle.Value(t));
      var q, q', n, n' := Quantity(init), Quantity(run), Candle.Notional(init), Candle.Notional(run);
      BoundGrows(lo, t.price, q, t.quantity, q', n, n', Candle.Value(t));
      BoundGrows(hi, t.price, q, t.quantity, q', n, n', Candle.Value(t));
    }
  }

  /** The VWAP of a window lies between the low and the high of its candle. */
  lemma VwapBetweenLowAndHigh(timeframe: int, run: seq<Trade>)
    requires timeframe >= SECOND && run != []
    requires Quantity(run) > 0.0 && forall i | 0 <= i < |run| :: run[i].quantity >= 0.0
    ensures var c, v := Candle.CandleOf(timeframe, run, true), VolumeOf(timeframe, run, true);
            c.low <= v.vwap <= c.high
  {
    hide Quantity, Candle.Low, Candle.High, Candle.Notional, OpenTime, CloseTime;
    var lo, hi, q, n := Candle.Low(run), Candle.High(run), Quantity(run), Candle.Notional(run);
    Candle.HighAndLow(run);
    NotionalBetween(run, lo, hi);
    DivideBetween(lo, n, hi, q);
    assert VolumeOf(timeframe, run, true).vwap == n / q;
  }

  lemma DivideBetween(lo: real, n: real, hi: real, q: real)
    requires q > 0.0 && lo * q <= n <= hi * q
    ensures lo <= n / q <= hi
  {
    var v := n / q;
    assert v * q == n;
    assert v < lo ==> (lo - v) * q > 0.0;
    assert v > hi ==> (v - hi) * q > 0.0;
  }

  /** The record that the accumulators give. */
  function Record(instrument: string, buy: real, sell: real, quantity: real, count: nat,
      openTime: int, closeTime: int, final: bool): EvidenceVolume
  {
    var total := buy + sell;
    EvidenceVolume(instrument, buy, sell, total, if quantity > 0.0 then total / quantity else 0.0,
      count, openTime, closeTime, final)
  }

  lemma VolumeIsRecord(timeframe: int, run: seq<Trade>, final: bool)
    requires timeframe >= SECOND && run != []
    ensures VolumeOf(timeframe, run, final) ==
              Record(run[0].instrument, SideNotional(run, true), SideNotional(run, false), Quantity(run), |run|,
                OpenTime(timeframe, run[0].timestamp), CloseTime(timeframe, run[0].timestamp), final)
  {
    SidesAddUp(run);
  }

  class VolumeSampler {
    const timeframe: int
    var instrument: string
    var buyVolume: real
    var sellVolume: real
    var totalQty: real
    var tradeCount: nat
    var openTime: int
    var closeTime: int
    var active: bool

    /** All trades so far, and the records that have been finalized. */
    ghost var trades: seq<Trade>
    ghost var records: seq<EvidenceVolume>

    ghost predicate Valid()
      reads this
    {
      && timeframe >= SECOND
      && var run := Current(timeframe, trades);
      && active == (run != [])
      && (active ==>
            && instrument == run[0].instrument && tradeCount == |run|
            && openTime == OpenTime(timeframe, run[0].timestamp) && closeTime == CloseTime(timeframe, run[0].timestamp)
            && buyVolume == SideNotional(run, true) && sellVolume == SideNotional(run, false)
            && totalQty == Quantity(run))
      && records == Records(timeframe, Closed(timeframe, trades))
    }

    constructor (timeframe: int)
      requires timeframe >= SECOND
      ensures Valid() && this.timeframe == timeframe && trades == [] && records == []
    {
      this.timeframe := timeframe;
      active, instrument, openTime, closeTime, tradeCount := false, "", 0, 0, 0;
      buyVolume, sellVolume, totalQty := 0.0, 0.0, 0.0;
      trades, records := [], [];
    }

    method AddTrade(trade: Trade) returns (finalized: Option<EvidenceVolume>)
      requires Valid() && trade.priced
      modifies this
      ensures Valid() && trades == old(trades) + [trade]
      ensures finalized.Some? <==> Closes(timeframe, Current(timeframe, old(trades)), trade)
      ensures finalized.Some? ==> finalized.value == VolumeOf(timeframe, Current(timeframe, old(trades)), true)
      ensures records == old(records) + if finalized.Some? then [finalized.value] else []
    {
      hide OpenTime, CloseTime, Current, Closed, Records, VolumeOf, Record, Quantity, SideNotional, Candle.Value;
      OneMore(timeframe, trades, trade);
      ghost var run := Current(timeframe, trades);
      ghost var closed := Closed(timeframe, trades);
      ghost var next := Next(timeframe, run, trade);
      trades := trades + [trade];
      ghost var base := if Closes(timeframe, run, trade) then [] else run;
      assert next == base + [trade];
      var quantity, notional := trade.quantity, Candle.Value(trade);
      SumsOfNone();
      SumsGrow(base, trade, notional);
      var openTime', closeTime' := OpenTime(timeframe, trade.timestamp), CloseTime(timeframe, trade.timestamp);
      finalized := None;
      if active && openTime' != openTime {
        VolumeIsRecord(timeframe, run, true);
        finalized := Some(Snapshot(true));
        records := records + [finalized.value];
        RecordsGrow(timeframe, closed, run);
        Reset();
      } else {
        assert closed + [] == closed && records + [] == records;
      }
      assert records == Records(timeframe, Closed(timeframe, trades));
      if !active {
        openTime := openTime';
        closeTime := closeTime';
        instrument := trade.instrument;
        buyVolume, sellVolume, totalQty, tradeCount := 0.0, 0.0, 0.0, 0;
        active := true;
      }
      assert closeTime == CloseTime(timeframe, next[0].timestamp) && instrument == next[0].instrument;
      assert tradeCount == |base| && totalQty == Quantity(base);
      assert buyVolume == SideNotional(base, true) && sellVolume == SideNotional(base, false);
      Accumulate(trade, quantity, notional);
    }

    /** Adds a trade to the accumulators of the open window. */
    method Accumulate(trade: Trade, quantity: real, notional: real)
      modifies this`tradeCount, this`totalQty, this`buyVolume, this`sellVolume
      ensures tradeCount == old(tradeCount) + 1 && totalQty == old(totalQty) + quantity
      ensures buyVolume == old(buyVolume) + if trade.buyerMaker then notional else 0.0
      ensures sellVolume == old(sellVolume) + if trade.buyerMaker then 0.0 else notional
    {
      tradeCount := tradeCount + 1;
      totalQty := totalQty + quantity;
      if trade.buyerMaker {
        buyVolume := buyVolume + notional;
      } else {
        sellVolume := sellVolume + notional;
      }
    }

    function Snapshot(final: bool): EvidenceVolume
      reads this
    {
      Record(instrument, buyVolume, sellVolume, totalQty, tradeCount, openTime, closeTime, final)
    }

    method Reset()
      modifies this
      ensures !active && unchanged(this`trades) && unchanged(this`records)
    {
      active, instrument, tradeCount, openTime, closeTime := false, "", 0, 0, 0;
      buyVolume, sellVolume, totalQty := 0.0, 0.0, 0.0;
    }
  }

  function Records(timeframe: int, runs: seq<seq<Trade>>): seq<EvidenceVolume>
    requires timeframe >= SECOND
  {
    if runs == [] then []
    else
      var last := runs[|runs| - 1];
      Records(timeframe, runs[..|runs| - 1]) + if last == [] then [] else [VolumeOf(timeframe, last, true)]
  }

  lemma RecordsGrow(timeframe: int, runs: seq<seq<Trade>>, run: seq<Trade>)
    requires timeframe >= SECOND && run != []
    ensures Records(timeframe, runs + [run]) == Records(timeframe, runs) + [VolumeOf(timeframe, run, true)]
  {
    assert (runs + [run])[..|runs|] == runs;
  }

  lemma SumsOfNone()
    ensures Quantity([]) == 0.0 && Candle.Notional([]) == 0.0
    ensures SideNotional([], true) == 0.0 && SideNotional([], false) == 0.0
  {
  }

  lemma SumsGrow(run: seq<Trade>, t: Trade, notional: real)
    requires notional == Candle.Value(t)
    ensures SideNotional(run + [t], true) == SideNotional(run, true) + if t.buyerMaker then notional else 0.0
    ensures SideNotional(run + [t], false) == SideNotional(run, false) + if t.buyerMaker then 0.0 else notional
    ensures Quantity(run + [t]) == Quantity(run) + t.quantity
  {
    hide Candle.Value;
    assert (run + [t])[..|run|] == run;
  }
}
