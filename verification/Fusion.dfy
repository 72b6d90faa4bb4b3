/**
 The cross-venue fusion of internal/application/derive/cross_venue_fusion.go: one object that holds
 the open windows of all instruments and, in each window, an accumulator for every venue.
 */
module Fusion {
  import opened Wrappers
  import opened Windows
  import Candle

  /** What is kept of the trades of one venue; the prices are absent until the first trade. */
  datatype Venue = Venue(tradeCount: nat, notional: real, last: Option<real>, high: Option<real>, low: Option<real>)

  datatype Window = Window(
    instrument: string, openTime: int, closeTime: int, venues: map<string, Venue>, tradeCount: nat)

  datatype Snapshot = Snapshot(
    instrument: string, venues: map<string, Venue>, tradeCount: nat, openTime: int, closeTime: int, final: bool)

  function SnapshotOf(w: Window, final: bool): Snapshot {
    Snapshot(w.instrument, w.venues, w.tradeCount, w.openTime, w.closeTime, final)
  }

  // ---------------------------------------------------------------- substreams

  function OfInstrument(trades: seq<Trade>, key: string): seq<Trade> {
    if trades == [] then []
    else
      var t := trades[|trades| - 1];
      OfInstrument(trades[..|trades| - 1], key) + if t.instrument == key then [t] else []
  }

  function OfVenue(trades: seq<Trade>, venue: string): seq<Trade> {
    if trades == [] then []
    else
      var t := trades[|trades| - 1];
      OfVenue(trades[..|trades| - 1], venue) + if t.source == venue then [t] else []
  }

  function Venues(trades: seq<Trade>): set<string> {
    set i | 0 <= i < |trades| :: trades[i].source
  }

  // ---------------------------------------------------------------- the batch specification

  /** The row of a venue, from its own trades. */
  function VenueOf(trades: seq<Trade>): Venue {
    if trades == [] then Venue(0, 0.0, None, None, None)
    else
      Venue(|trades|, Candle.Notional(trades), Some(trades[|trades| - 1].price),
        Some(Candle.High(trades)), Some(Candle.Low(trades)))
  }

  /** The rows of the venues that have trades. */
  function Rows(run: seq<Trade>): map<string, Venue> {
    map venue | venue in Venues(run) :: VenueOf(OfVenue(run, venue))
  }

  function WindowOf(timeframe: int, run: seq<Trade>): Window
    requires timeframe >= SECOND && run != []
  {
    Window(run[0].instrument, OpenTime(timeframe, run[0].timestamp), CloseTime(timeframe, run[0].timestamp),
      Rows(run), |run|)
  }

  /** All that a stream of trades of many instruments makes the fusion emit, in order. */
  function Emissions(timeframe: int, trades: seq<Trade>): seq<Snapshot>
    requires timeframe >= SECOND
  {
    if trades == [] then []
    else
      var init, t := trades[..|trades| - 1], trades[|trades| - 1];
      var run := Current(timeframe, OfInstrument(init, t.instrument));
      Emissions(timeframe, init) +
      if Closes(timeframe, run, t) then [SnapshotOf(WindowOf(timeframe, run), true)] else []
  }

  function Snapshots(timeframe: int, runs: seq<seq<Trade>>): seq<Snapshot>
    requires timeframe >= SECOND
  {
    if runs == [] then []
    else
      var last := runs[|runs| - 1];
      Snapshots(timeframe, runs[..|runs| - 1]) +
      if last == [] then [] else [SnapshotOf(WindowOf(timeframe, last), true)]
  }

  function EmittedFor(emitted: seq<Snapshot>, key: string): seq<Snapshot> {
    if emitted == [] then []
    else
      var s := emitted[|emitted| - 1];
      EmittedFor(emitted[..|emitted| - 1], key) + if s.instrument == key then [s] else []
  }

  // ---------------------------------------------------------------- non-interference

  lemma SubstreamGrows(trades: seq<Trade>, t: Trade, key: string)
    ensures OfInstrument(trades + [t], key) ==
              if t.instrument == key then OfInstrument(trades, key) + [t] else OfInstrument(trades, key)
  {
    assert (trades + [t])[..|trades|] == trades;
    assert OfInstrument(trades, key) + [] == OfInstrument(trades, key);
  }

  lemma {:induction false} SubstreamIsPure(trades: seq<Trade>, key: string)
    ensures forall i | 0 <= i < |OfInstrument(trades, key)| :: OfInstrument(trades, key)[i].instrument == key
    ensures OfInstrument(OfInstrument(trades, key), key) == OfInstrument(trades, key)
  {
    if trades != [] {
      var init, t := trades[..|trades| - 1], trades[|trades| - 1];
      SubstreamIsPure(init, key);
      var sub := OfInstrument(init, key);
      assert sub + [] == sub;
      assert (sub + [t])[..|sub|] == sub;
    }
  }

  /** Every trade of the open run comes from the stream. */
  lemma {:induction false} CurrentIsFrom(timeframe: int, trades: seq<Trade>, key: string)
    requires timeframe >= SECOND && forall i | 0 <= i < |trades| :: trades[i].instrument == key
    ensures forall i | 0 <= i < |Current(timeframe, trades)| :: Current(timeframe, trades)[i].instrument == key
  {
    if trades != [] {
      CurrentIsFrom(timeframe, trades[..|trades| - 1], key);
    }
  }

  lemma EmittedForGrows(emitted: seq<Snapshot>, s: Snapshot, key: string)
    ensures EmittedFor(emitted + [s], key) ==
              if s.instrument == key then EmittedFor(emitted, key) + [s] else EmittedFor(emitted, key)
  {
    assert (emitted + [s])[..|emitted|] == emitted;
    assert EmittedFor(emitted, key) + [] == EmittedFor(emitted, key);
  }

  lemma EmissionsGrow(timeframe: int, trades: seq<Trade>, t: Trade)
    requires timeframe >= SECOND
    ensures var run := Current(timeframe, OfInstrument(trades, t.instrument));
            Emissions(timeframe, trades + [t]) ==
              if Closes(timeframe, run, t) then
                  Emissions(timeframe, trades) + [SnapshotOf(WindowOf(timeframe, run), true)]
              else Emissions(timeframe, trades)
  {
    assert (trades + [t])[..|trades|] == trades;
    assert Emissions(timeframe, trades) + [] == Emissions(timeframe, trades);
  }

  lemma OpenRunOf(timeframe: int, trades: seq<Trade>, key: string)
    requires timeframe >= SECOND
    ensures var run := Current(timeframe, OfInstrument(trades, key));
            run != [] ==> SnapshotOf(WindowOf(timeframe, run), true).instrument == key
  {
    SubstreamIsPure(trades, key);
    CurrentIsFrom(timeframe, OfInstrument(trades, key), key);
  }

  /**
   Non-interference: of all that an interleaved stream makes the fusion emit, the part about one
   instrument is exactly what the trades of that instrument alone would have made it emit.
   */
  lemma {:induction false} NonInterference(timeframe: int, trades: seq<Trade>, key: string)
    requires timeframe >= SECOND
    ensures EmittedFor(Emissions(timeframe, trades), key) == Emissions(timeframe, OfInstrument(trades, key))
  {
    hide WindowOf, SnapshotOf, Current, Closes;
    if trades != [] {
      var init, t := trades[..|trades| - 1], trades[|trades| - 1];
      assert trades == init + [t];
      NonInterference(timeframe, init, key);
      SubstreamGrows(init, t, key);
      EmissionsGrow(timeframe, init, t);
      var run := Current(timeframe, OfInstrument(init, t.instrument));
      OpenRunOf(timeframe, init, t.instrument);
      NothingCloses(timeframe, run, t);
      if Closes(timeframe, run, t) {
        EmittedForGrows(Emissions(timeframe, init), SnapshotOf(WindowOf(timeframe, run), true), key);
      }
      if t.instrument == key {
        SubstreamIsPure(init, key);
        EmissionsGrow(timeframe, OfInstrument(init, key), t);
      }
    }
  }

  lemma NothingCloses(timeframe: int, run: seq<Trade>, t: Trade)
    requires timeframe >= SECOND
    ensures Closes(timeframe, run, t) ==> run != []
  {
  }

  /** For one instrument, the emissions are the snapshots of its closed runs: streaming equals batch. */
  lemma {:induction false} EmissionsAreBatch(timeframe: int, trades: seq<Trade>, key: string)
    requires timeframe >= SECOND && OfInstrument(trades, key) == trades
    ensures Emissions(timeframe, trades) == Snapshots(timeframe, Closed(timeframe, trades))
  {
    hide WindowOf, SnapshotOf, Current, Closes;
    if trades != [] {
      var init, t := trades[..|trades| - 1], trades[|trades| - 1];
      assert trades == init + [t];
      SubstreamIsPure(trades, key);
      AllOfInstrument(init, key);
      EmissionsAreBatch(timeframe, init, key);
      EmissionsGrow(timeframe, init, t);
      OneMore(timeframe, init, t);
      var run, closed := Current(timeframe, init), Closed(timeframe, init);
      NothingCloses(timeframe, run, t);
      assert (closed + [run])[..|closed|] == closed;
      assert closed + [] == closed;
      assert trades[|trades| - 1].instrument == key;
    }
  }

  lemma {:induction false} AllOfInstrument(trades: seq<Trade>, key: string)
    requires forall i | 0 <= i < |trades| :: trades[i].instrument == key
    ensures OfInstrument(trades, key) == trades
  {
    if trades != [] {
      AllOfInstrument(trades[..|trades| - 1], key);
    }
  }

  // ---------------------------------------------------------------- venues within a window

  /**
   Within a window only each venue's own substream matters, not how the venues interleave: two runs
   with the same substreams give the same rows and the same count.
   */
  lemma InterleavingIsIrrelevant(timeframe: int, a: seq<Trade>, b: seq<Trade>)
    requires timeframe >= SECOND && a != [] && b != []
    requires forall venue :: OfVenue(a, venue) == OfVenue(b, venue)
    requires a[0].instrument == b[0].instrument && SameWindow(timeframe, a[0], b[0])
    ensures SnapshotOf(WindowOf(timeframe, a), true) == SnapshotOf(WindowOf(timeframe, b), true)
  {
    hide VenueOf, OfVenue, OpenTime, Rows, Venues, Listing;
    SameRows(a, b);
    var listing := Listing(Rows(a).Keys);
    CountsAddUp(timeframe, a, listing);
    CountsAddUp(timeframe, b, listing);
    SameCounts(a, b, listing);
  }

  lemma SameRows(a: seq<Trade>, b: seq<Trade>)
    requires forall venue :: OfVenue(a, venue) == OfVenue(b, venue)
    ensures Rows(a) == Rows(b) && Venues(a) == Venues(b)
  {
    hide VenueOf, OfVenue, Venues;
    forall venue
      ensures venue in Venues(a) <==> venue in Venues(b)
    {
      VenuePresent(a, venue);
      VenuePresent(b, venue);
    }
  }

  lemma {:induction false} VenuePresent(trades: seq<Trade>, venue: string)
    ensures venue in Venues(trades) <==> OfVenue(trades, venue) != []
  {
    if trades != [] {
      var init := trades[..|trades| - 1];
      VenuePresent(init, venue);
      VenuesGrow(init, trades[|trades| - 1]);
      assert trades == init + [trades[|trades| - 1]];
    }
  }

  lemma VenuesGrow(trades: seq<Trade>, t: Trade)
    ensures Venues(trades + [t]) == Venues(trades) + {t.source}
  {
    var all := trades + [t];
    assert forall i | 0 <= i < |trades| :: all[i] == trades[i];
    forall v | v in Venues(trades)
      ensures v in Venues(all)
    {
      var i :| 0 <= i < |trades| && trades[i].source == v;
      assert all[i].source == v;
    }
    assert all[|trades|].source == t.source;
  }

  predicate Lists(listing: seq<string>, keys: set<string>) {
    && (forall i, j | 0 <= i < j < |listing| :: listing[i] != listing[j])
    && (forall i | 0 <= i < |listing| :: listing[i] in keys)
    && (forall k | k in keys :: k in listing)
  }

  ghost function Listing(keys: set<string>): (listing: seq<string>)
    ensures Lists(listing, keys)
  {
    if keys == {} then []
    else
      var k :| k in keys;
      [k] + Listing(keys - {k})
  }

  /** The trade counts of the venues of a listing. */
  function CountOver(trades: seq<Trade>, listing: seq<string>): nat {
    if listing == [] then 0
    else CountOver(trades, listing[..|listing| - 1]) + VenueOf(OfVenue(trades, listing[|listing| - 1])).tradeCount
  }

  lemma {:induction false} SameCounts(a: seq<Trade>, b: seq<Trade>, listing: seq<string>)
    requires forall venue :: OfVenue(a, venue) == OfVenue(b, venue)
    ensures CountOver(a, listing) == CountOver(b, listing)
  {
    hide OfVenue, VenueOf;
    if listing != [] {
      SameCounts(a, b, listing[..|listing| - 1]);
    }
  }

  lemma VenueGrows(trades: seq<Trade>, t: Trade, venue: string)
    ensures OfVenue(trades + [t], venue) ==
              if t.source == venue then OfVenue(trades, venue) + [t] else OfVenue(trades, venue)
    ensures VenueOf(OfVenue(trades + [t], venue)).tradeCount ==
              VenueOf(OfVenue(trades, venue)).tradeCount + if t.source == venue then 1 else 0
  {
    assert (trades + [t])[..|trades|] == trades;
    assert OfVenue(trades, venue) + [] == OfVenue(trades, venue);
  }

  lemma {:induction false} CountGrows(trades: seq<Trade>, t: Trade, listing: seq<string>)
    requires forall i, j | 0 <= i < j < |listing| :: listing[i] != listing[j]
    ensures CountOver(trades + [t], listing) == CountOver(trades, listing) + if t.source in listing then 1 else 0
  {
    hide OfVenue, VenueOf;
    if listing != [] {
      var init, last := listing[..|listing| - 1], listing[|listing| - 1];
      CountGrows(trades, t, init);
      VenueGrows(trades, t, last);
      assert last !in init;
      assert t.source in listing <==> t.source in init || t.source == last by {
        assert listing == init + [last];
      }
    }
  }

  lemma {:induction false} CountIsLength(trades: seq<Trade>, listing: seq<string>)
    requires forall i, j | 0 <= i < j < |listing| :: listing[i] != listing[j]
    requires forall i | 0 <= i < |trades| :: trades[i].source in listing
    ensures CountOver(trades, listing) == |trades|
  {
    hide CountOver;
    if trades == [] {
      NoTrades(listing);
    } else {
      var init, t := trades[..|trades| - 1], trades[|trades| - 1];
      assert trades == init + [t];
      CountIsLength(init, listing);
      CountGrows(init, t, listing);
    }
  }

  lemma {:induction false} NoTrades(listing: seq<string>)
    ensures CountOver([], listing) == 0
  {
    if listing != [] {
      NoTrades(listing[..|listing| - 1]);
    }
  }

  /** The counts of the rows, over any listing of the venues, add up to the count of the window. */
  lemma CountsAddUp(timeframe: int, run: seq<Trade>, listing: seq<string>)
    requires timeframe >= SECOND && run != [] && Lists(listing, WindowOf(timeframe, run).venues.Keys)
    ensures RowCount(WindowOf(timeframe, run).venues, listing) == WindowOf(timeframe, run).tradeCount
    ensures CountOver(run, listing) == |run|
    ensures WindowOf(timeframe, run).closeTime == WindowOf(timeframe, run).openTime + timeframe
  {
    hide VenueOf, OfVenue, OpenTime, CountOver;
    forall i | 0 <= i < |run|
      ensures run[i].source in listing
    {
      assert run[i].source in Venues(run);
    }
    CountIsLength(run, listing);
    RowsAreCounts(WindowOf(timeframe, run).venues, run, listing);
  }

  function RowCount(venues: map<string, Venue>, listing: seq<string>): nat
    requires forall i | 0 <= i < |listing| :: listing[i] in venues
  {
    if listing == [] then 0
    else
      var init, last := listing[..|listing| - 1], listing[|listing| - 1];
      RowCount(venues, init) + venues[last].tradeCount
  }

  lemma {:induction false} RowsAreCounts(venues: map<string, Venue>, run: seq<Trade>, listing: seq<string>)
    requires forall i | 0 <= i < |listing| ::
              listing[i] in venues && venues[listing[i]] == VenueOf(OfVenue(run, listing[i]))
    ensures RowCount(venues, listing) == CountOver(run, listing)
  {
    hide VenueOf, OfVenue;
    if listing != [] {
      RowsAreCounts(venues, run, listing[..|listing| - 1]);
    }
  }

  /**
   The row of a venue, told by the trades of the window: their count and notional, the newest price and
   both extremes.
   */
  ghost predicate RowTells(row: Venue, run: seq<Trade>, venue: string) {
    && row.last.Some? && row.high.Some? && row.low.Some?
    && row.tradeCount == |OfVenue(run, venue)| && row.notional == Candle.Notional(OfVenue(run, venue))
    && (exists i | 0 <= i < |run| ::
          && run[i].source == venue && run[i].price == row.last.value
          && forall j | i < j < |run| :: run[j].source != venue)
    && (forall i | 0 <= i < |run| && run[i].source == venue :: row.low.value <= run[i].price <= row.high.value)
    && (exists i | 0 <= i < |run| :: run[i].source == venue && run[i].price == row.high.value)
    && (exists i | 0 <= i < |run| :: run[i].source == venue && run[i].price == row.low.value)
  }

  lemma {:induction false} RowMeaning(run: seq<Trade>, venue: string)
    requires venue in Venues(run)
    ensures venue in Rows(run) && RowTells(Rows(run)[venue], run, venue)
  {
    hide OfVenue, Candle.High, Candle.Low, Candle.Notional, Venues;
    var sub := OfVenue(run, venue);
    VenuePresent(run, venue);
    Candle.HighAndLow(sub);
    forall i | 0 <= i < |run| && run[i].source == venue
      ensures Candle.Low(sub) <= run[i].price <= Candle.High(sub)
    {
      InSubstream(run, venue, i);
      var k :| 0 <= k < |sub| && sub[k] == run[i];
    }
    var h :| 0 <= h < |sub| && sub[h].price == Candle.High(sub);
    var l :| 0 <= l < |sub| && sub[l].price == Candle.Low(sub);
    var hi := FromStream(run, venue, h);
    var lo := FromStream(run, venue, l);
    var newest := FromStream(run, venue, |sub| - 1);
  }

  lemma {:induction false} InSubstream(run: seq<Trade>, venue: string, i: nat)
    requires i < |run| && run[i].source == venue
    ensures exists k | 0 <= k < |OfVenue(run, venue)| :: OfVenue(run, venue)[k] == run[i]
  {
    var init, sub := run[..|run| - 1], OfVenue(run, venue);
    if i < |init| {
      InSubstream(init, venue, i);
      var k :| 0 <= k < |OfVenue(init, venue)| && OfVenue(init, venue)[k] == run[i];
      assert sub[k] == run[i];
    } else {
      assert sub[|sub| - 1] == run[i];
    }
  }

  /** Where a trade of a substream comes from; after the last one there is no other of the venue. */
  lemma {:induction false} FromStream(run: seq<Trade>, venue: string, k: nat) returns (i: nat)
    requires k < |OfVenue(run, venue)|
    ensures i < |run| && run[i] == OfVenue(run, venue)[k] && run[i].source == venue
    ensures k == |OfVenue(run, venue)| - 1 ==> forall j | i < j < |run| :: run[j].source != venue
  {
    var init := run[..|run| - 1];
    if k < |OfVenue(init, venue)| {
      i := FromStream(init, venue, k);
    } else {
      i := |run| - 1;
    }
  }

  /** What a snapshot of a window says: its rows, the number of all its trades, and the time it spans. */
  lemma SnapshotTells(timeframe: int, run: seq<Trade>, final: bool)
    requires timeframe >= SECOND && run != []
    ensures var s := SnapshotOf(WindowOf(timeframe, run), final);
            && s.instrument == run[0].instrument && s.venues == Rows(run) && s.tradeCount == |run|
            && s.openTime == OpenTime(timeframe, run[0].timestamp) && s.closeTime == s.openTime + timeframe
            && s.final == final
            && (forall venue :: venue in s.venues <==> exists i | 0 <= i < |run| :: run[i].source == venue)
  {
    hide OpenTime, VenueOf, OfVenue;
  }

  // ---------------------------------------------------------------- one more trade of a window

  function Plus(v: Venue, t: Trade): Venue {
    Venue(v.tradeCount + 1, v.notional + Candle.Value(t), Some(t.price),
      Some(if v.high.None? || t.price > v.high.value then t.price else v.high.value),
      Some(if v.low.None? || v.low.value > t.price then t.price else v.low.value))
  }

  lemma RowGrows(trades: seq<Trade>, t: Trade)
    ensures VenueOf(trades + [t]) == Plus(VenueOf(trades), t)
  {
    assert (trades + [t])[..|trades|] == trades;
    assert trades == [] ==> trades + [t] == [t] && Candle.Notional(trades) == 0.0;
  }

  lemma WindowGrows(timeframe: int, run: seq<Trade>, t: Trade)
    requires timeframe >= SECOND
    ensures run != [] ==>
              var w := WindowOf(timeframe, run);
              var row := if t.source in w.venues then w.venues[t.source] else Venue(0, 0.0, None, None, None);
              WindowOf(timeframe, run + [t]) ==
                w.(venues := w.venues[t.source := Plus(row, t)], tradeCount := w.tradeCount + 1)
  {
    hide VenueOf, OfVenue, Venues, OpenTime, CloseTime, Plus;
    VenuesGrow(run, t);
    forall venue
      ensures venue != t.source ==> OfVenue(run + [t], venue) == OfVenue(run, venue)
    {
      VenueGrows(run, t, venue);
    }
    VenueGrows(run, t, t.source);
    RowGrows(OfVenue(run, t.source), t);
    VenuePresent(run, t.source);
    NoRow();
  }

  lemma WindowOpens(timeframe: int, t: Trade)
    requires timeframe >= SECOND
    ensures WindowOf(timeframe, [t]) ==
              Window(t.instrument, OpenTime(timeframe, t.timestamp), CloseTime(timeframe, t.timestamp),
                map[t.source := Plus(Venue(0, 0.0, None, None, None), t)], 1)
  {
    hide VenueOf, OpenTime, CloseTime, Plus;
    NoRow();
    VenueGrows([], t, t.source);
    RowGrows([], t);
    assert [] + [t] == [t];
  }

  lemma NoRow()
    ensures VenueOf([]) == Venue(0, 0.0, None, None, None) && Venues([]) == {}
  {
  }

  // ---------------------------------------------------------------- the fusion

  class CrossVenueFusion {
    const timeframe: int
    var windows: map<string, Window>

    /** All trades so far, and the snapshots that have been emitted. */
    ghost var trades: seq<Trade>
    ghost var emitted: seq<Snapshot>

    /** Every instrument has the window of its own open run, if it has one. */
    ghost predicate Valid()
      reads this
    {
      && timeframe >= SECOND
      && (forall key :: WindowRight(key))
      && emitted == Emissions(timeframe, trades)
    }

    ghost predicate WindowRight(key: string)
      reads this
      requires timeframe >= SECOND
    {
      var run := Current(timeframe, OfInstrument(trades, key));
      && (key in windows <==> run != [])
      && (key in windows ==> windows[key] == WindowOf(timeframe, run))
    }

    constructor (timeframe: int)
      requires timeframe >= SECOND
      ensures Valid() && this.timeframe == timeframe && trades == [] && emitted == []
    {
      this.timeframe := timeframe;
      windows := map[];
      trades, emitted := [], [];
    }

    method AddTrade(trade: Trade) returns (finalized: Option<Snapshot>)
      requires Valid() && trade.priced
      modifies this
      ensures Valid() && trades == old(trades) + [trade]
      ensures emitted == old(emitted) + if finalized.Some? then [finalized.value] else []
      ensures var run := Current(timeframe, OfInstrument(old(trades), trade.instrument));
              && (finalized.Some? <==> Closes(timeframe, run, trade))
              && (finalized.Some? ==> finalized.value == SnapshotOf(WindowOf(timeframe, run), true))
    {
      hide OpenTime, CloseTime, Current, Emissions, OfInstrument, SnapshotOf, Plus;
      var key := trade.instrument;
      ghost var run := Current(timeframe, OfInstrument(trades, key));
      ghost var before := trades;
      ghost var base := if Closes(timeframe, run, trade) then [] else run;
      assert WindowRight(key);
      RunAfter(timeframe, trades, trade);
      EmissionsGrow(timeframe, trades, trade);
      WindowGrows(timeframe, base, trade);
      WindowOpens(timeframe, trade);
      WindowStart(timeframe, run);
      assert [] + [trade] == [trade];
      var openTime', closeTime' := OpenTime(timeframe, trade.timestamp), CloseTime(timeframe, trade.timestamp);
      finalized := None;
      var w := None;
      if key in windows {
        w := Some(windows[key]);
      }
      if w.Some? && w.value.openTime != openTime' {
        finalized := Some(SnapshotOf(w.value, true));
        w := None;
      }
      if w.None? {
        w := Some(Window(trade.instrument, openTime', closeTime', map[], 0));
      }
      w := Some(Admit(w.value, trade));
      windows := windows[key := w.value];
      trades := trades + [trade];
      emitted := emitted + if finalized.Some? then [finalized.value] else [];
      assert WindowRight(key);
      forall other | other != key
        ensures WindowRight(other)
      {
        SubstreamGrows(before, trade, other);
        assert old(WindowRight(other));
      }
    }

    /** Adds a trade to the accumulator of its venue. */
    function Admit(w: Window, trade: Trade): Window {
      var acc := if trade.source in w.venues then w.venues[trade.source] else Venue(0, 0.0, None, None, None);
      w.(venues := w.venues[trade.source := Plus(acc, trade)], tradeCount := w.tradeCount + 1)
    }
  }

  lemma RunAfter(timeframe: int, trades: seq<Trade>, t: Trade)
    requires timeframe >= SECOND
    ensures var run := Current(timeframe, OfInstrument(trades, t.instrument));
            Current(timeframe, OfInstrument(trades + [t], t.instrument)) ==
                (if Closes(timeframe, run, t) then [] else run) + [t]
  {
    SubstreamGrows(trades, t, t.instrument);
    OneMore(timeframe, OfInstrument(trades, t.instrument), t);
  }

  lemma WindowStart(timeframe: int, run: seq<Trade>)
    requires timeframe >= SECOND
    ensures run != [] ==> WindowOf(timeframe, run).openTime == OpenTime(timeframe, run[0].timestamp)
  {
  }
}
