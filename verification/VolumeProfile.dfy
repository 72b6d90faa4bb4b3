/** The volume profile sampler of internal/application/derive/volume_profile_sampler.go. */
module VolumeProfile {
  import opened Wrappers
  import opened Windows
  import opened Levels
  import Candle
  import Volume

  datatype Bucket = Bucket(buy: real, sell: real)

  datatype Profile = Profile(
    instrument: string, buckets: map<real, Bucket>, tradeCount: nat, overload: Overload,
    openTime: int, closeTime: int, final: bool)

  /** The trades of one price level. */
  function AtLevel(trades: seq<Trade>, width: real, level: real): seq<Trade> {
    if trades == [] then []
    else
      var t := trades[|trades| - 1];
      AtLevel(trades[..|trades| - 1], width, level) + if BucketLevel(t, width) == Some(level) then [t] else []
  }

  function BucketOf(trades: seq<Trade>, width: real, level: real): Bucket {
    var here := AtLevel(trades, width, level);
    Bucket(Volume.SideNotional(here, true), Volume.SideNotional(here, false))
  }

  /** One bucket for each admitted level, with the notional of the counted trades there. */
  function BucketsOf(run: seq<Trade>, width: real, cap: nat): map<real, Bucket> {
    map level | level in Admitted(run, width, cap) :: BucketOf(Counted(run, width, cap), width, level)
  }

  function ProfileOf(timeframe: int, width: real, cap: nat, run: seq<Trade>, final: bool): Profile
    requires timeframe >= SECOND && run != []
  {
    Profile(run[0].instrument, BucketsOf(run, width, cap), |Counted(run, width, cap)|,
      ClassifyOverload(|BucketsOf(run, width, cap)|, cap),
      OpenTime(timeframe, run[0].timestamp), CloseTime(timeframe, run[0].timestamp), final)
  }

  function Profiles(timeframe: int, width: real, cap: nat, runs: seq<seq<Trade>>): seq<Profile>
    requires timeframe >= SECOND
  {
    if runs == [] then []
    else
      var last := runs[|runs| - 1];
      Profiles(timeframe, width, cap, runs[..|runs| - 1]) +
      if last == [] then [] else [ProfileOf(timeframe, width, cap, last, true)]
  }

  lemma ProfilesGrow(timeframe: int, width: real, cap: nat, runs: seq<seq<Trade>>, run: seq<Trade>)
    requires timeframe >= SECOND && run != []
    ensures Profiles(timeframe, width, cap, runs + [run]) ==
              Profiles(timeframe, width, cap, runs) + [ProfileOf(timeframe, width, cap, run, true)]
  {
    assert (runs + [run])[..|runs|] == runs;
  }

  // ---------------------------------------------------------------- one more trade

  lemma BucketGrows(trades: seq<Trade>, t: Trade, width: real, level: real)
    ensures BucketLevel(t, width) != Some(level) ==>
              BucketOf(trades + [t], width, level) == BucketOf(trades, width, level)
    ensures BucketLevel(t, width) == Some(level) ==>
              BucketOf(trades + [t], width, level) == Plus(BucketOf(trades, width, level), t)
  {
    assert (trades + [t])[..|trades|] == trades;
    var here := AtLevel(trades, width, level);
    assert here + [] == here;
    Volume.SumsGrow(here, t, Candle.Value(t));
  }

  function Plus(b: Bucket, t: Trade): Bucket {
    var notional := Candle.Value(t);
    if t.buyerMaker then b.(buy := b.buy + notional) else b.(sell := b.sell + notional)
  }

  lemma {:induction false} NothingAtLevel(trades: seq<Trade>, width: real, level: real)
    requires forall i | 0 <= i < |trades| :: BucketLevel(trades[i], width) != Some(level)
    ensures AtLevel(trades, width, level) == []
  {
    if trades != [] {
      NothingAtLevel(trades[..|trades| - 1], width, level);
    }
  }

  /** What a trade does to the buckets and the count: nothing, or an addition to the bucket of its level. */
  lemma BucketsGrow(run: seq<Trade>, t: Trade, width: real, cap: nat)
    ensures var level := BucketLevel(t, width);
            var before, after := BucketsOf(run, width, cap), BucketsOf(run + [t], width, cap);
            && |before| == |Admitted(run, width, cap)|
            && if level.None? || (level.value !in before && |before| >= cap) then
                 after == before && |Counted(run + [t], width, cap)| == |Counted(run, width, cap)|
               else
                 && |Counted(run + [t], width, cap)| == |Counted(run, width, cap)| + 1
                 && after == before[level.value :=
                           Plus(if level.value in before then before[level.value] else Bucket(0.0, 0.0), t)]
  {
    hide BucketLevel, BucketOf, Admitted, Counted;
    var level, counted := BucketLevel(t, width), Counted(run, width, cap);
    LevelCount(run, width, cap);
    OneMoreTrade(run, t, width, cap);
    assert counted + [] == counted;
    if level.Some? {
      CountedLevels(run, width, cap);
      forall other
        ensures other != level.value ==> BucketOf(counted + [t], width, other) == BucketOf(counted, width, other)
      {
        BucketGrows(counted, t, width, other);
      }
      BucketGrows(counted, t, width, level.value);
      if level.value !in Admitted(run, width, cap) {
        EmptyBucket(counted, width, level.value);
      }
    }
  }

  lemma EmptyBucket(trades: seq<Trade>, width: real, level: real)
    requires forall i | 0 <= i < |trades| :: BucketLevel(trades[i], width) != Some(level)
    ensures BucketOf(trades, width, level) == Bucket(0.0, 0.0)
  {
    NothingAtLevel(trades, width, level);
  }

  /** There is one bucket for each admitted level, so never more than the cap. */
  lemma LevelCount(run: seq<Trade>, width: real, cap: nat)
    ensures |BucketsOf(run, width, cap)| == |Admitted(run, width, cap)| <= cap
  {
    AdmittedAreFirst(run, width, cap);
    var levels := Admitted(run, width, cap);
    KeysOfDistinct(levels);
    assert BucketsOf(run, width, cap).Keys == set l | l in levels;
  }

  // ---------------------------------------------------------------- volume is conserved

  function TotalVolume(buckets: map<real, Bucket>, listing: seq<real>): real
    requires forall i | 0 <= i < |listing| :: listing[i] in buckets
  {
    if listing == [] then 0.0
    else
      var init, last := listing[..|listing| - 1], listing[|listing| - 1];
      TotalVolume(buckets, init) + buckets[last].buy + buckets[last].sell
  }

  /** Every level once, in any order. */
  predicate Lists(listing: seq<real>, levels: set<real>) {
    && Distinct(listing)
    && (forall i | 0 <= i < |listing| :: listing[i] in levels)
    && (forall l | l in levels :: l in listing)
  }

  /** The same sum, taken over the buckets that a list of trades makes. */
  function LevelTotal(trades: seq<Trade>, width: real, listing: seq<real>): real {
    if listing == [] then 0.0
    else
      var b := BucketOf(trades, width, listing[|listing| - 1]);
      LevelTotal(trades, width, listing[..|listing| - 1]) + b.buy + b.sell
  }

  lemma {:induction false} TotalIsLevelTotal(buckets: map<real, Bucket>, trades: seq<Trade>, width: real,
      listing: seq<real>)
    requires forall i | 0 <= i < |listing| ::
              listing[i] in buckets && buckets[listing[i]] == BucketOf(trades, width, listing[i])
    ensures TotalVolume(buckets, listing) == LevelTotal(trades, width, listing)
  {
    hide BucketOf;
    if listing != [] {
      TotalIsLevelTotal(buckets, trades, width, listing[..|listing| - 1]);
    }
  }

  lemma {:induction false} LevelTotalGrows(trades: seq<Trade>, t: Trade, width: real, listing: seq<real>)
    requires Distinct(listing) && BucketLevel(t, width).Some?
    ensures LevelTotal(trades + [t], width, listing) ==
              LevelTotal(trades, width, listing) +
              if BucketLevel(t, width).value in listing then Candle.Value(t) else 0.0
  {
    hide BucketOf, BucketLevel;
    if listing != [] {
      var init, last := listing[..|listing| - 1], listing[|listing| - 1];
      LevelTotalGrows(trades, t, width, init);
      BucketGrows(trades, t, width, last);
      var level := BucketLevel(t, width).value;
      assert last !in init;
      assert level in listing <==> level in init || level == last by {
        assert listing == init + [last];
      }
    }
  }

  lemma {:induction false} NoTradesNoVolume(width: real, listing: seq<real>)
    ensures LevelTotal([], width, listing) == 0.0
  {
    if listing != [] {
      NoTradesNoVolume(width, listing[..|listing| - 1]);
    }
  }

  lemma {:induction false} TotalOfCounted(trades: seq<Trade>, width: real, listing: seq<real>)
    requires Distinct(listing)
    requires forall i | 0 <= i < |trades| ::
              BucketLevel(trades[i], width).Some? && BucketLevel(trades[i], width).value in listing
    ensures LevelTotal(trades, width, listing) == Candle.Notional(trades)
  {
    hide BucketLevel, LevelTotal;
    if trades == [] {
      NoTradesNoVolume(width, listing);
    } else {
      var init, t := trades[..|trades| - 1], trades[|trades| - 1];
      assert trades == init + [t];
      TotalOfCounted(init, width, listing);
      LevelTotalGrows(init, t, width, listing);
    }
  }

  /**
   The profile of a window accounts for exactly the counted trades: over any listing of its buckets,
   buy plus sell volume is their notional, and the trade count is their number.
   */
  lemma VolumeConserved(timeframe: int, width: real, cap: nat, run: seq<Trade>, listing: seq<real>)
    requires timeframe >= SECOND && run != []
    requires Lists(listing, ProfileOf(timeframe, width, cap, run, true).buckets.Keys)
    ensures var p := ProfileOf(timeframe, width, cap, run, true);
            var counted := Select(run, width, First(DistinctLevels(run, width), cap));
            && TotalVolume(p.buckets, listing) == Candle.Notional(counted)
            && p.tradeCount == |counted|
            && |p.buckets| <= cap && (cap > 0 ==> (p.overload == L3 <==> |p.buckets| == cap))
            && p.closeTime == p.openTime + timeframe
  {
    hide OpenTime, Counted, Admitted, Select, DistinctLevels, First, BucketLevel, BucketOf, TotalVolume, LevelTotal,
      Candle.Notional, ClassifyOverload;
    var p := ProfileOf(timeframe, width, cap, run, true);
    CountedIffAmongFirst(run, width, cap);
    LevelCount(run, width, cap);
    CountedLevels(run, width, cap);
    if cap > 0 {
      OverloadIsMonotone(|p.buckets|, |p.buckets|, cap);
    }
    forall level | level in Admitted(run, width, cap)
      ensures level in listing
    {
      assert level in p.buckets.Keys;
    }
    TotalOfCounted(Counted(run, width, cap), width, listing);
    TotalIsLevelTotal(p.buckets, Counted(run, width, cap), width, listing);
  }

  /** The bucket of a level: what its counted trades with the buyer as maker paid, and what the others did. */
  lemma BucketMeaning(timeframe: int, width: real, cap: nat, run: seq<Trade>, level: real)
    requires timeframe >= SECOND && run != []
    ensures var p := ProfileOf(timeframe, width, cap, run, true);
            var here := AtLevel(Select(run, width, First(DistinctLevels(run, width), cap)), width, level);
            && (level in p.buckets <==> level in First(DistinctLevels(run, width), cap))
            && (level in p.buckets ==>
                  && p.buckets[level].buy == Candle.Notional(Volume.OfSide(here, true))
                  && p.buckets[level].sell == Candle.Notional(Volume.OfSide(here, false)))
  {
    hide OpenTime, CloseTime, Counted, Admitted, Select, AtLevel, DistinctLevels, First, ClassifyOverload,
      Candle.Notional, Volume.SideNotional, Volume.OfSide, BucketLevel;
    CountedIffAmongFirst(run, width, cap);
    AdmittedAreFirst(run, width, cap);
    var here := AtLevel(Counted(run, width, cap), width, level);
    Volume.SideIsNotional(here, true);
    Volume.SideIsNotional(here, false);
  }

  // ---------------------------------------------------------------- the sampler

  class VolumeProfileSampler {
    const timeframe: int
    const bucketSize: real
    const maxBuckets: nat
    var instrument: string
    var buckets: map<real, Bucket>
    var tradeCount: nat
    var openTime: int
    var closeTime: int
    var active: bool

    /** All trades so far, and the profiles that have been finalized. */
    ghost var trades: seq<Trade>
    ghost var profiles: seq<Profile>

    ghost predicate Valid()
      reads this
    {
      && timeframe >= SECOND && maxBuckets > 0
      && var run := Current(timeframe, trades);
      && active == (run != [])
      && (active ==>
            && instrument == run[0].instrument
            && openTime == OpenTime(timeframe, run[0].timestamp) && closeTime == CloseTime(timeframe, run[0].timestamp)
            && buckets == BucketsOf(run, bucketSize, maxBuckets)
            && tradeCount == |Counted(run, bucketSize, maxBuckets)|)
      && profiles == Profiles(timeframe, bucketSize, maxBuckets, Closed(timeframe, trades))
    }

    constructor (timeframe: int, bucketSize: real, maxBuckets: int)
      requires timeframe >= SECOND
      ensures Valid() && this.timeframe == timeframe && this.bucketSize == bucketSize
      ensures this.maxBuckets == if maxBuckets <= 0 then 512 else maxBuckets
      ensures trades == [] && profiles == []
    {
      this.timeframe := timeframe;
      this.bucketSize := bucketSize;
      this.maxBuckets := if maxBuckets <= 0 then DEFAULT_MAX_BUCKETS else maxBuckets;
      active, instrument, openTime, closeTime, tradeCount := false, "", 0, 0, 0;
      buckets := map[];
      trades, profiles := [], [];
    }

    method AddTrade(trade: Trade) returns (finalized: Option<Profile>)
      requires Valid()
      modifies this
      ensures Valid() && trades == old(trades) + [trade]
      ensures finalized.Some? <==> Closes(timeframe, Current(timeframe, old(trades)), trade)
      ensures finalized.Some? ==>
                finalized.value == ProfileOf(timeframe, bucketSize, maxBuckets, Current(timeframe, old(trades)), true)
      ensures profiles == old(profiles) + if finalized.Some? then [finalized.value] else []
    {
      hide OpenTime, CloseTime, Current, Closed, Profiles, BucketsOf, Counted;
      OneMore(timeframe, trades, trade);
      ghost var run := Current(timeframe, trades);
      ghost var closed := Closed(timeframe, trades);
      ghost var base := if Closes(timeframe, run, trade) then [] else run;
      assert Next(timeframe, run, trade) == base + [trade];
      trades := trades + [trade];
      var openTime', closeTime' := OpenTime(timeframe, trade.timestamp), CloseTime(timeframe, trade.timestamp);
      finalized := None;
      if active && openTime' != openTime {
        finalized := Some(Snapshot(true));
        profiles := profiles + [finalized.value];
        ProfilesGrow(timeframe, bucketSize, maxBuckets, closed, run);
        Reset();
      } else {
        assert closed + [] == closed && profiles + [] == profiles;
      }
      if !active {
        openTime := openTime';
        closeTime := closeTime';
        instrument := trade.instrument;
        buckets := map[];
        tradeCount := 0;
        active := true;
        NoBuckets(bucketSize, maxBuckets);
      }
      AdmitTrade(trade, base);
    }

    /** Bins a trade, unless its price is malformed or it needs a level past the cap. */
    method AdmitTrade(trade: Trade, ghost run: seq<Trade>)
      requires maxBuckets > 0
      requires buckets == BucketsOf(run, bucketSize, maxBuckets) && tradeCount == |Counted(run, bucketSize, maxBuckets)|
      modifies this`buckets, this`tradeCount
      ensures buckets == BucketsOf(run + [trade], bucketSize, maxBuckets)
      ensures tradeCount == |Counted(run + [trade], bucketSize, maxBuckets)|
    {
      hide BucketsOf, Counted, BucketLevel;
      BucketsGrow(run, trade, bucketSize, maxBuckets);
      var level := BucketLevel(trade, bucketSize);
      if level.None? {
        return;
      }
      var acc := Bucket(0.0, 0.0);
      if level.value in buckets {
        acc := buckets[level.value];
      } else {
        var overload := ClassifyOverload(|buckets|, maxBuckets);
        if !AdmitsNewLevel(overload) {
          return;
        }
        buckets := buckets[level.value := acc];
      }
      var notional := Candle.Value(trade);
      if trade.buyerMaker {
        acc := acc.(buy := acc.buy + notional);
      } else {
        acc := acc.(sell := acc.sell + notional);
      }
      buckets := buckets[level.value := acc];
      tradeCount := tradeCount + 1;
    }

    function Snapshot(final: bool): Profile
      reads this
    {
      Profile(instrument, buckets, tradeCount, ClassifyOverload(|buckets|, maxBuckets), openTime, closeTime, final)
    }

    method Reset()
      modifies this
      ensures !active && unchanged(this`trades) && unchanged(this`profiles)
    {
      active, instrument, tradeCount, openTime, closeTime := false, "", 0, 0, 0;
      buckets := map[];
    }
  }

  lemma NoBuckets(width: real, cap: nat)
    ensures BucketsOf([], width, cap) == map[] && Counted([], width, cap) == []
  {
  }
}
