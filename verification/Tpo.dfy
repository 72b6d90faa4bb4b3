/** The time-price-opportunity sampler of internal/application/derive/tpo_sampler.go. */
module Tpo {
  import opened Wrappers
  import opened Windows
  import opened Levels
  import Products

  const TPO_MAX_PERIODS := 24

  // ---------------------------------------------------------------- period arithmetic

  function MinPeriodSeconds(timeframeSecs: int): int {
    if timeframeSecs <= 0 then 1
    else
      var m := (timeframeSecs + TPO_MAX_PERIODS - 1) / TPO_MAX_PERIODS;
      if m < 1 then 1 else m
  }

  /**
   The corrected period width: a twelfth of the timeframe by default, never so fine that a window has too
   many periods.
   */
  function PeriodSeconds(timeframe: int, requested: int): int
    requires timeframe >= SECOND
  {
    var secs := Seconds(timeframe);
    var least := MinPeriodSeconds(secs);
    if requested <= 0 then
      var width := if secs / 12 < 1 then 1 else secs / 12;
      if width < least then least else width
    else if requested < least then least
    else requested
  }

  /** The period of an instant, clamped to the periods there are letters for. */
  function PeriodIndex(openTime: int, periodSeconds: int, ts: int): nat {
    if periodSeconds <= 0 then 0
    else
      var elapsed := Unix(ts) - Unix(openTime);
      var idx := (if elapsed < 0 then 0 else elapsed) / periodSeconds;
      if idx >= TPO_MAX_PERIODS then TPO_MAX_PERIODS - 1 else idx
  }

  lemma WidthFitsWindow(timeframe: int, requested: int)
    requires timeframe >= SECOND
    ensures PeriodSeconds(timeframe, requested) >= 1
    ensures Seconds(timeframe) <= 24 * PeriodSeconds(timeframe, requested)
  {
  }

  /**
   The width is the least one that fits and is not below what was asked for, a twelfth of the timeframe by
   default.
   */
  lemma WidthIsLeast(timeframe: int, requested: int, width: int)
    requires timeframe >= SECOND
    ensures var wanted := if requested > 0 then requested else Seconds(timeframe) / 12;
            && PeriodSeconds(timeframe, requested) >= wanted
            && (width >= 1 && width >= wanted && Seconds(timeframe) <= 24 * width ==>
                  PeriodSeconds(timeframe, requested) <= width)
  {
  }

  /** A window's opening is a whole number of seconds, and no instant of the window is a window's length after it. */
  lemma ElapsedBelowWindow(timeframe: int, ts: int)
    requires timeframe >= SECOND
    ensures Unix(OpenTime(timeframe, ts)) * SECOND == OpenTime(timeframe, ts)
    ensures Unix(ts) - Unix(OpenTime(timeframe, ts)) < Seconds(timeframe)
    ensures Unix(ts) - Unix(OpenTime(timeframe, ts)) >= 0 <==> OpenTime(timeframe, ts) <= ts < CloseTime(timeframe, ts)
  {
    var u, secs := Unix(ts), Seconds(timeframe);
    var start := Quotient(u, secs) * secs;
    assert OpenTime(timeframe, ts) == start * SECOND;
    assert Unix(start * SECOND) == start;
    var a := if u >= 0 then u else -u;
    assert a == (a / secs) * secs + a % secs;
    if u < 0 {
      assert (-(a / secs)) * secs == -(a / secs * secs);
    }
    WindowContains(timeframe, ts);
  }

  /**
   The clamp never merges periods. Whatever the timeframe and the requested width, an instant of its
   window has the index of the one period that contains it; the only instants the clamp moves are
   those before 1970 that their window does not contain, and they count as the first period.
   */
  lemma ClampNeverMerges(timeframe: int, requested: int, ts: int)
    requires timeframe >= SECOND
    ensures var width, open := PeriodSeconds(timeframe, requested), OpenTime(timeframe, ts);
            var idx := PeriodIndex(open, width, ts);
            && (open <= ts < CloseTime(timeframe, ts) ==>
                  && idx == (Unix(ts) - Unix(open)) / width < TPO_MAX_PERIODS
                  && PeriodStart(open, width, idx) <= ts < PeriodStart(open, width, idx + 1))
            && (!(open <= ts < CloseTime(timeframe, ts)) ==> ts < open && idx == 0)
  {
    hide OpenTime, CloseTime, PeriodSeconds;
    WidthFitsWindow(timeframe, requested);
    ElapsedBelowWindow(timeframe, ts);
    var width, open := PeriodSeconds(timeframe, requested), OpenTime(timeframe, ts);
    var elapsed := Unix(ts) - Unix(open);
    assert Unix(ts) * SECOND <= ts < (Unix(ts) + 1) * SECOND;
    if elapsed >= 0 {
      DivisionBounds(elapsed, width);
      if elapsed / width >= TPO_MAX_PERIODS {
        Products.WholeTimesMonotone(TPO_MAX_PERIODS, elapsed / width, width);
      }
    }
  }

  /** When a period starts, as the snapshot gives it; the period ends where the next one starts. */
  function PeriodStart(openTime: int, periodSeconds: int, idx: int): int {
    openTime + idx * periodSeconds * SECOND
  }

  lemma DivisionBounds(x: int, k: int)
    requires x >= 0 && k > 0
    ensures x / k * k <= x < (x / k + 1) * k
  {
    assert x == (x / k) * k + x % k;
    assert (x / k + 1) * k == (x / k) * k + k;
  }

  // ---------------------------------------------------------------- the batch specification

  datatype Range = Range(high: real, low: real)

  /** Bucket width, level cap and period width of a sampler. */
  datatype Grid = Grid(width: real, cap: nat, periodSeconds: int)

  datatype Profile = Profile(
    instrument: string, levels: map<real, set<nat>>, periods: map<nat, Range>, tradeCount: nat,
    overload: Overload, openTime: int, closeTime: int, final: bool)

  function PeriodOf(g: Grid, open: int, t: Trade): (idx: nat)
    ensures idx < TPO_MAX_PERIODS
  {
    PeriodIndex(open, g.periodSeconds, t.timestamp)
  }

  /** The periods in which trades of one level came. */
  function Marks(g: Grid, open: int, trades: seq<Trade>, level: real): set<nat> {
    if trades == [] then {}
    else
      var t := trades[|trades| - 1];
      Marks(g, open, trades[..|trades| - 1], level) +
      if BucketLevel(t, g.width) == Some(level) then {PeriodOf(g, open, t)} else {}
  }

  function Widen(r: Option<Range>, price: real): Range {
    match r
    case None => Range(price, price)
    case Some(r) => Range(if price > r.high then price else r.high, if r.low > price then price else r.low)
  }

  /** High and low of the trades of one period, if there are any. */
  function RangeOf(g: Grid, open: int, trades: seq<Trade>, idx: nat): Option<Range> {
    if trades == [] then None
    else
      var t, before := trades[|trades| - 1], RangeOf(g, open, trades[..|trades| - 1], idx);
      if PeriodOf(g, open, t) == idx then Some(Widen(before, t.price)) else before
  }

  /** The marks of some levels. */
  function MarkedLevels(g: Grid, open: int, levels: seq<real>, trades: seq<Trade>): map<real, set<nat>> {
    map level | level in levels :: Marks(g, open, trades, level)
  }

  function LevelsOf(g: Grid, open: int, run: seq<Trade>): map<real, set<nat>> {
    MarkedLevels(g, open, Admitted(run, g.width, g.cap), Counted(run, g.width, g.cap))
  }

  function PeriodsOf(g: Grid, open: int, run: seq<Trade>): map<nat, Range> {
    var counted := Counted(run, g.width, g.cap);
    map idx: nat | idx < TPO_MAX_PERIODS && RangeOf(g, open, counted, idx).Some? :: RangeOf(g, open, counted, idx).value
  }

  function ProfileOf(timeframe: int, g: Grid, run: seq<Trade>, final: bool): Profile
    requires timeframe >= SECOND && run != []
  {
    var open := OpenTime(timeframe, run[0].timestamp);
    Profile(run[0].instrument, LevelsOf(g, open, run), PeriodsOf(g, open, run), |Counted(run, g.width, g.cap)|,
      ClassifyOverload(|LevelsOf(g, open, run)|, g.cap), open, CloseTime(timeframe, run[0].timestamp), final)
  }

  function Profiles(timeframe: int, g: Grid, runs: seq<seq<Trade>>): seq<Profile>
    requires timeframe >= SECOND
  {
    if runs == [] then []
    else
      var last := runs[|runs| - 1];
      Profiles(timeframe, g, runs[..|runs| - 1]) + if last == [] then [] else [ProfileOf(timeframe, g, last, true)]
  }

  lemma ProfilesGrow(timeframe: int, g: Grid, runs: seq<seq<Trade>>, run: seq<Trade>)
    requires timeframe >= SECOND && run != []
    ensures Profiles(timeframe, g, runs + [run]) == Profiles(timeframe, g, runs) + [ProfileOf(timeframe, g, run, true)]
  {
    assert (runs + [run])[..|runs|] == runs;
  }

  // ---------------------------------------------------------------- what the specification means

  lemma {:induction false} MarksMeaning(g: Grid, open: int, trades: seq<Trade>, level: real)
    ensures forall idx :: idx in Marks(g, open, trades, level) <==>
              exists i | 0 <= i < |trades| ::
                  BucketLevel(trades[i], g.width) == Some(level) && PeriodOf(g, open, trades[i]) == idx
  {
    hide BucketLevel, PeriodOf;
    if trades != [] {
      var init := trades[..|trades| - 1];
      MarksMeaning(g, open, init, level);
      assert forall i | 0 <= i < |init| :: trades[i] == init[i];
      forall idx | idx in Marks(g, open, init, level)
        ensures exists i | 0 <= i < |trades| ::
            BucketLevel(trades[i], g.width) == Some(level) && PeriodOf(g, open, trades[i]) == idx
      {
        var i :| 0 <= i < |init| && BucketLevel(init[i], g.width) == Some(level) && PeriodOf(g, open, init[i]) == idx;
        assert trades[i] == init[i];
      }
    }
  }

  /** The range of a period is there exactly when the period has a trade; it bounds their prices and is attained. */
  lemma {:induction false} RangeMeaning(g: Grid, open: int, trades: seq<Trade>, idx: nat)
    ensures var r := RangeOf(g, open, trades, idx);
            && (forall i | 0 <= i < |trades| && PeriodOf(g, open, trades[i]) == idx ::
                  r.Some? && r.value.low <= trades[i].price <= r.value.high)
            && (r.Some? ==>
                  && (exists i | 0 <= i < |trades| ::
                            PeriodOf(g, open, trades[i]) == idx && trades[i].price == r.value.high)
                  && (exists i | 0 <= i < |trades| ::
                            PeriodOf(g, open, trades[i]) == idx && trades[i].price == r.value.low))
  {
    hide PeriodOf;
    if trades != [] {
      var last := |trades| - 1;
      var init := trades[..last];
      RangeMeaning(g, open, init, idx);
      assert forall i | 0 <= i < |init| :: trades[i] == init[i];
      var before, r := RangeOf(g, open, init, idx), RangeOf(g, open, trades, idx);
      if before.Some? {
        var h :| 0 <= h < |init| && PeriodOf(g, open, init[h]) == idx && init[h].price == before.value.high;
        var l :| 0 <= l < |init| && PeriodOf(g, open, init[l]) == idx && init[l].price == before.value.low;
        assert trades[h] == init[h] && trades[l] == init[l];
        assert trades[h].price == r.value.high
            || (PeriodOf(g, open, trades[last]) == idx && trades[last].price == r.value.high);
        assert trades[l].price == r.value.low
            || (PeriodOf(g, open, trades[last]) == idx && trades[last].price == r.value.low);
      } else if r.Some? {
        assert PeriodOf(g, open, trades[last]) == idx && trades[last].price == r.value.high == r.value.low;
      }
    }
  }

  // ---------------------------------------------------------------- coherence

  function BucketOfPrice(price: real, width: real): real
    requires width > 0.0
  {
    (price / width).Floor as real * width
  }

  /** Levels and periods of a profile tell one story, within the caps. */
  ghost predicate Coherent(g: Grid, levels: map<real, set<nat>>, periods: map<nat, Range>) {
    && |levels| <= g.cap
    && (forall idx | idx in periods :: idx < TPO_MAX_PERIODS)
    && (forall idx :: idx in periods <==> exists level :: level in levels && idx in levels[level])
    && (forall level | level in levels :: levels[level] != {})
    && (forall idx | idx in periods ::
          && periods[idx].low <= periods[idx].high
          && g.width > 0.0
          && Carries(levels, BucketOfPrice(periods[idx].high, g.width), idx)
          && Carries(levels, BucketOfPrice(periods[idx].low, g.width), idx))
  }

  predicate Carries(levels: map<real, set<nat>>, level: real, idx: nat) {
    level in levels && idx in levels[level]
  }

  lemma LevelCount(g: Grid, open: int, run: seq<Trade>)
    ensures |LevelsOf(g, open, run)| == |Admitted(run, g.width, g.cap)| <= g.cap
  {
    AdmittedAreFirst(run, g.width, g.cap);
    var levels := Admitted(run, g.width, g.cap);
    KeysOfDistinct(levels);
    assert LevelsOf(g, open, run).Keys == set l | l in levels;
  }

  /** A counted trade marks the level of its price with its period. */
  lemma TradeMarks(g: Grid, open: int, run: seq<Trade>, i: nat)
    requires i < |Counted(run, g.width, g.cap)|
    ensures var t := Counted(run, g.width, g.cap)[i];
            && g.width > 0.0
            && Carries(LevelsOf(g, open, run), BucketOfPrice(t.price, g.width), PeriodOf(g, open, t))
            && PeriodOf(g, open, t) in PeriodsOf(g, open, run)
  {
    hide PeriodOf, Marks, RangeOf, Counted, Admitted;
    var counted := Counted(run, g.width, g.cap);
    var t := counted[i];
    CountedLevels(run, g.width, g.cap);
    var level := BucketLevel(t, g.width).value;
    MarksMeaning(g, open, counted, level);
    RangeMeaning(g, open, counted, PeriodOf(g, open, t));
  }

  /** A marked level has a counted trade of that level in that period. */
  lemma MarkHasTrade(g: Grid, open: int, run: seq<Trade>, level: real, idx: nat) returns (i: nat)
    requires Carries(LevelsOf(g, open, run), level, idx)
    ensures i < |Counted(run, g.width, g.cap)|
    ensures PeriodOf(g, open, Counted(run, g.width, g.cap)[i]) == idx
  {
    hide PeriodOf, Marks, Counted, Admitted, BucketLevel;
    var counted := Counted(run, g.width, g.cap);
    MarksMeaning(g, open, counted, level);
    i :| 0 <= i < |counted| && BucketLevel(counted[i], g.width) == Some(level) && PeriodOf(g, open, counted[i]) == idx;
  }

  lemma PeriodIsCoherent(g: Grid, open: int, run: seq<Trade>, idx: nat)
    requires idx in PeriodsOf(g, open, run)
    ensures var levels, r := LevelsOf(g, open, run), PeriodsOf(g, open, run)[idx];
            && r.low <= r.high && g.width > 0.0
            && Carries(levels, BucketOfPrice(r.high, g.width), idx)
            && Carries(levels, BucketOfPrice(r.low, g.width), idx)
  {
    hide PeriodOf, RangeOf, Counted, LevelsOf, BucketOfPrice, Carries;
    var counted := Counted(run, g.width, g.cap);
    RangeMeaning(g, open, counted, idx);
    var r := RangeOf(g, open, counted, idx).value;
    var h :| 0 <= h < |counted| && PeriodOf(g, open, counted[h]) == idx && counted[h].price == r.high;
    var l :| 0 <= l < |counted| && PeriodOf(g, open, counted[l]) == idx && counted[l].price == r.low;
    TradeMarks(g, open, run, h);
    TradeMarks(g, open, run, l);
  }

  lemma LevelIsMarked(g: Grid, open: int, run: seq<Trade>, level: real)
    requires level in LevelsOf(g, open, run)
    ensures LevelsOf(g, open, run)[level] != {}
  {
    hide PeriodOf, Marks, Counted, Admitted, BucketLevel;
    var counted := Counted(run, g.width, g.cap);
    CountedLevels(run, g.width, g.cap);
    assert level in Admitted(run, g.width, g.cap);
    var i :| 0 <= i < |counted| && BucketLevel(counted[i], g.width) == Some(level);
    MarksMeaning(g, open, counted, level);
    assert PeriodOf(g, open, counted[i]) in LevelsOf(g, open, run)[level];
  }

  /**
   Coherence, in every state: the periods are the union of the marks, and their extremes lie in levels
   that carry them.
   */
  lemma ProfilesAreCoherent(g: Grid, open: int, run: seq<Trade>)
    ensures Coherent(g, LevelsOf(g, open, run), PeriodsOf(g, open, run))
  {
    hide LevelsOf, PeriodsOf, Counted, PeriodOf, BucketOfPrice;
    var levels, periods := LevelsOf(g, open, run), PeriodsOf(g, open, run);
    LevelCount(g, open, run);
    forall idx | idx in periods
      ensures idx < TPO_MAX_PERIODS && periods[idx].low <= periods[idx].high && g.width > 0.0
      ensures Carries(levels, BucketOfPrice(periods[idx].high, g.width), idx)
      ensures Carries(levels, BucketOfPrice(periods[idx].low, g.width), idx)
    {
      PeriodIsCoherent(g, open, run, idx);
      PeriodsAreFew(g, open, run, idx);
    }
    forall level, idx | Carries(levels, level, idx)
      ensures idx in periods
    {
      var i := MarkHasTrade(g, open, run, level, idx);
      TradeMarks(g, open, run, i);
    }
    forall level | level in levels
      ensures levels[level] != {}
    {
      LevelIsMarked(g, open, run, level);
    }
    forall idx
      ensures idx in periods <==> exists level :: level in levels && idx in levels[level]
    {
      if idx in periods {
        assert Carries(levels, BucketOfPrice(periods[idx].high, g.width), idx);
      }
      if level :| level in levels && idx in levels[level] {
        assert Carries(levels, level, idx);
      }
    }
  }

  /**
   A profile's period of time and pressure: as long as the timeframe, and at the last stage exactly when
   its levels are used up.
   */
  lemma ProfileTells(timeframe: int, g: Grid, run: seq<Trade>)
    requires timeframe >= SECOND && run != [] && g.cap > 0
    ensures var p := ProfileOf(timeframe, g, run, true);
            && p.instrument == run[0].instrument && p.closeTime == p.openTime + timeframe
            && p.tradeCount == |Select(run, g.width, First(DistinctLevels(run, g.width), g.cap))|
            && (p.overload == L3 <==> |p.levels| == g.cap)
            && |p.levels| == |First(DistinctLevels(run, g.width), g.cap)|
  {
    hide OpenTime, PeriodsOf, LevelsOf, Counted, Select, DistinctLevels, Admitted;
    var open := OpenTime(timeframe, run[0].timestamp);
    LevelCount(g, open, run);
    AdmittedAreFirst(run, g.width, g.cap);
    CountedIffAmongFirst(run, g.width, g.cap);
  }

  lemma PeriodsAreFew(g: Grid, open: int, run: seq<Trade>, idx: nat)
    requires idx in PeriodsOf(g, open, run)
    ensures idx < TPO_MAX_PERIODS
  {
  }

  // ---------------------------------------------------------------- one more trade

  predicate Drops(g: Grid, levels: map<real, set<nat>>, t: Trade) {
    var level := BucketLevel(t, g.width);
    level.None? || (level.value !in levels && |levels| >= g.cap)
  }

  lemma LevelsGrow(g: Grid, open: int, run: seq<Trade>, t: Trade)
    ensures var level, before, after := BucketLevel(t, g.width), LevelsOf(g, open, run), LevelsOf(g, open, run + [t]);
            if Drops(g, before, t) then
              after == before && Counted(run + [t], g.width, g.cap) == Counted(run, g.width, g.cap)
            else
              && after == Marked(before, level.value, PeriodOf(g, open, t))
              && Counted(run + [t], g.width, g.cap) == Counted(run, g.width, g.cap) + [t]
  {
    hide BucketLevel, PeriodOf, Admitted, Counted, Marks, MarkedLevels, Marked;
    var level, counted, levels := BucketLevel(t, g.width), Counted(run, g.width, g.cap), Admitted(run, g.width, g.cap);
    LevelCount(g, open, run);
    var before := LevelsOf(g, open, run);
    if level.Some? {
      LevelKeys(g, open, run, level.value);
    }
    OneMoreTrade(run, t, g.width, g.cap);
    if Drops(g, before, t) {
      assert counted + [] == counted;
      assert Admitted(run + [t], g.width, g.cap) == levels;
    } else {
      assert Admitted(run + [t], g.width, g.cap) == if level.value in levels then levels else levels + [level.value];
      if level.value !in levels {
        NoMarks(g, open, run, level.value);
      }
      MarksGrow(g, open, levels, counted, t);
    }
  }

  /** The levels with one more mark. */
  function Marked(levels: map<real, set<nat>>, level: real, idx: nat): map<real, set<nat>> {
    levels[level := (if level in levels then levels[level] else {}) + {idx}]
  }

  lemma LevelKeys(g: Grid, open: int, run: seq<Trade>, level: real)
    ensures level in LevelsOf(g, open, run) <==> level in Admitted(run, g.width, g.cap)
  {
  }

  lemma MarksGrow(g: Grid, open: int, levels: seq<real>, trades: seq<Trade>, t: Trade)
    requires BucketLevel(t, g.width).Some?
    requires var level := BucketLevel(t, g.width).value;
             level !in levels ==> Marks(g, open, trades, level) == {}
    ensures var level := BucketLevel(t, g.width).value;
            MarkedLevels(g, open, if level in levels then levels else levels + [level], trades + [t]) ==
              Marked(MarkedLevels(g, open, levels, trades), level, PeriodOf(g, open, t))
  {
    hide BucketLevel, PeriodOf, Marks;
    var level := BucketLevel(t, g.width).value;
    var levels' := if level in levels then levels else levels + [level];
    forall other | other in levels'
      ensures Marks(g, open, trades + [t], other) ==
                Marks(g, open, trades, other) + if other == level then {PeriodOf(g, open, t)} else {}
      ensures other != level ==> Marks(g, open, trades + [t], other) == Marks(g, open, trades, other)
    {
      OneMoreMark(g, open, trades, t, other);
    }
  }

  lemma OneMoreMark(g: Grid, open: int, trades: seq<Trade>, t: Trade, level: real)
    ensures Marks(g, open, trades + [t], level) ==
              Marks(g, open, trades, level) +
              if BucketLevel(t, g.width) == Some(level) then {PeriodOf(g, open, t)} else {}
  {
    hide BucketLevel, PeriodOf;
    assert (trades + [t])[..|trades|] == trades;
  }

  lemma PeriodsGrow(g: Grid, open: int, run: seq<Trade>, t: Trade)
    ensures Counted(run + [t], g.width, g.cap) == Counted(run, g.width, g.cap) ==>
              PeriodsOf(g, open, run + [t]) == PeriodsOf(g, open, run)
    ensures Counted(run + [t], g.width, g.cap) == Counted(run, g.width, g.cap) + [t] ==>
              var idx, periods := PeriodOf(g, open, t), PeriodsOf(g, open, run);
              PeriodsOf(g, open, run + [t]) ==
                  periods[idx := Widen(if idx in periods then Some(periods[idx]) else None, t.price)]
  {
    hide Counted, Widen;
    var counted := Counted(run, g.width, g.cap);
    assert (counted + [t])[..|counted|] == counted;
    assert PeriodOf(g, open, t) < TPO_MAX_PERIODS;
    hide PeriodOf;
    forall idx
      ensures RangeOf(g, open, counted + [t], idx) ==
                if PeriodOf(g, open, t) == idx then Some(Widen(RangeOf(g, open, counted, idx), t.price))
                    else RangeOf(g, open, counted, idx)
    {
    }
  }

  lemma NoMarks(g: Grid, open: int, run: seq<Trade>, level: real)
    requires level !in Admitted(run, g.width, g.cap)
    ensures Marks(g, open, Counted(run, g.width, g.cap), level) == {}
  {
    hide PeriodOf, Marks, Counted, Admitted, BucketLevel;
    CountedLevels(run, g.width, g.cap);
    MarksMeaning(g, open, Counted(run, g.width, g.cap), level);
  }

  lemma Nothing(g: Grid, open: int)
    ensures LevelsOf(g, open, []) == map[] && PeriodsOf(g, open, []) == map[] && Counted([], g.width, g.cap) == []
  {
  }

  // ---------------------------------------------------------------- the sampler

  class TpoSampler {
    const timeframe: int
    const bucketSize: real
    const periodSeconds: int
    const maxLevels: nat
    var instrument: string
    var levels: map<real, set<nat>>
    var periods: map<nat, Range>
    var tradeCount: nat
    var openTime: int
    var closeTime: int
    var active: bool

    /** All trades so far, and the profiles that have been finalized. */
    ghost var trades: seq<Trade>
    ghost var profiles: seq<Profile>

    ghost function TheGrid(): Grid {
      Grid(bucketSize, maxLevels, periodSeconds)
    }

    /** The state is the batch profile of the open window. */
    ghost predicate Valid()
      reads this
    {
      && timeframe >= SECOND && maxLevels > 0 && periodSeconds > 0
      && var run := Current(timeframe, trades);
      && active == (run != [])
      && (active ==>
            && instrument == run[0].instrument
            && openTime == OpenTime(timeframe, run[0].timestamp) && closeTime == CloseTime(timeframe, run[0].timestamp)
            && levels == LevelsOf(TheGrid(), openTime, run) && periods == PeriodsOf(TheGrid(), openTime, run)
            && tradeCount == |Counted(run, bucketSize, maxLevels)|)
      && profiles == Profiles(timeframe, TheGrid(), Closed(timeframe, trades))
    }

    constructor (timeframe: int, bucketSize: real, periodSeconds: int, maxLevels: int)
      requires timeframe >= SECOND
      ensures Valid() && this.timeframe == timeframe && this.bucketSize == bucketSize
      ensures this.periodSeconds == PeriodSeconds(timeframe, periodSeconds)
      ensures this.maxLevels == if maxLevels <= 0 then 512 else maxLevels
      ensures trades == [] && profiles == []
    {
      WidthFitsWindow(timeframe, periodSeconds);
      this.timeframe := timeframe;
      this.bucketSize := bucketSize;
      this.maxLevels := if maxLevels <= 0 then DEFAULT_MAX_BUCKETS else maxLevels;
      var width := periodSeconds;
      if width <= 0 {
        var secs := Seconds(timeframe);
        width := secs / 12;
        if width < 1 {
          width := 1;
        }
        if width < MinPeriodSeconds(secs) {
          width := MinPeriodSeconds(secs);
        }
      } else if width < MinPeriodSeconds(Seconds(timeframe)) {
        width := MinPeriodSeconds(Seconds(timeframe));
      }
      this.periodSeconds := width;
      active, instrument, openTime, closeTime, tradeCount := false, "", 0, 0, 0;
      levels, periods := map[], map[];
      trades, profiles := [], [];
    }

    method AddTrade(trade: Trade) returns (finalized: Option<Profile>)
      requires Valid()
      modifies this
      ensures Valid() && trades == old(trades) + [trade]
      ensures finalized.Some? <==> Closes(timeframe, Current(timeframe, old(trades)), trade)
      ensures finalized.Some? ==>
                finalized.value == ProfileOf(timeframe, TheGrid(), Current(timeframe, old(trades)), true)
      ensures profiles == old(profiles) + if finalized.Some? then [finalized.value] else []
      ensures active && Coherent(TheGrid(), levels, periods)
    {
      hide OpenTime, CloseTime, Current, Closed, Profiles, LevelsOf, PeriodsOf, Counted, Coherent;
      OneMore(timeframe, trades, trade);
      ghost var run := Current(timeframe, trades);
      ghost var closed := Closed(timeframe, trades);
      ghost var base := if Closes(timeframe, run, trade) then [] else run;
      assert Next(timeframe, run, trade) == base + [trade];
      trades := trades + [trade];
      var openTime', closeTime' := OpenTime(timeframe, trade.timestamp), CloseTime(timeframe, trade.timestamp);
      finalized := None;
      if active && openTime' != openTime {
        finalized := Some(Snapshot(true));
        profiles := profiles + [finalized.value];
        ProfilesGrow(timeframe, TheGrid(), closed, run);
        Reset();
      } else {
        assert closed + [] == closed && profiles + [] == profiles;
      }
      if !active {
        openTime := openTime';
        closeTime := closeTime';
        instrument := trade.instrument;
        levels := map[];
        periods := map[];
        tradeCount := 0;
        active := true;
        Nothing(TheGrid(), openTime);
      }
      AdmitTrade(trade, base);
      ProfilesAreCoherent(TheGrid(), openTime, base + [trade]);
    }

    /** Marks the level of a trade with its period and widens the period's range. */
    method AdmitTrade(trade: Trade, ghost run: seq<Trade>)
      requires maxLevels > 0
      requires levels == LevelsOf(TheGrid(), openTime, run) && periods == PeriodsOf(TheGrid(), openTime, run)
      requires tradeCount == |Counted(run, bucketSize, maxLevels)|
      modifies this`levels, this`periods, this`tradeCount
      ensures levels == LevelsOf(TheGrid(), openTime, run + [trade])
      ensures periods == PeriodsOf(TheGrid(), openTime, run + [trade])
      ensures tradeCount == |Counted(run + [trade], bucketSize, maxLevels)|
    {
      hide LevelsOf, PeriodsOf, Counted, BucketLevel, PeriodIndex;
      LevelsGrow(TheGrid(), openTime, run, trade);
      PeriodsGrow(TheGrid(), openTime, run, trade);
      var level := BucketLevel(trade, bucketSize);
      if level.None? {
        return;
      }
      var idx := PeriodIndex(openTime, periodSeconds, trade.timestamp);
      var marks := {};
      if level.value in levels {
        marks := levels[level.value];
      } else {
        var overload := ClassifyOverload(|levels|, maxLevels);
        if !AdmitsNewLevel(overload) {
          return;
        }
      }
      levels := levels[level.value := marks + {idx}];
      if idx !in periods {
        periods := periods[idx := Range(trade.price, trade.price)];
      } else {
        var acc := periods[idx];
        if trade.price > acc.high {
          acc := acc.(high := trade.price);
        }
        if acc.low > trade.price {
          acc := acc.(low := trade.price);
        }
        periods := periods[idx := acc];
      }
      tradeCount := tradeCount + 1;
    }

    function Snapshot(final: bool): Profile
      reads this
    {
      Profile(instrument, levels, periods, tradeCount, ClassifyOverload(|levels|, maxLevels), openTime,
          closeTime, final)
    }

    method Reset()
      modifies this
      ensures !active && unchanged(this`trades) && unchanged(this`profiles)
    {
      active, instrument, tradeCount, openTime, closeTime := false, "", 0, 0, 0;
      levels, periods := map[], map[];
    }
  }
}
