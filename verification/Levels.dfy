/**
 Price levels and the overload policy that the volume profile and the TPO sampler share
 (internal/domain/insights/binning.go, internal/domain/insights/overload.go and the admission
 steps of the two samplers).
 */
module Levels {
  import opened Wrappers
  import opened Windows

  const DEFAULT_MAX_BUCKETS := 512

  datatype Overload = L0 | L1 | L2 | L3

  function ClassifyOverload(count: int, cap: int): Overload {
    if cap <= 0 || count < 0 then L0
    else if count >= cap then L3
    else if count * 100 >= cap * 80 then L2
    else if count * 100 >= cap * 50 then L1
    else L0
  }

  predicate AdmitsNewLevel(o: Overload) {
    o != L3
  }

  function Rank(o: Overload): nat {
    match o
    case L0 => 0
    case L1 => 1
    case L2 => 2
    case L3 => 3
  }

  /** Pressure never falls while levels are added, and a new level is refused exactly when the cap is reached. */
  lemma OverloadIsMonotone(m: nat, n: nat, cap: int)
    requires m <= n && cap > 0
    ensures Rank(ClassifyOverload(m, cap)) <= Rank(ClassifyOverload(n, cap))
    ensures AdmitsNewLevel(ClassifyOverload(n, cap)) <==> n < cap
    ensures ClassifyOverload(n, cap) == L0 <==> 2 * n < cap
    ensures ClassifyOverload(n, cap) == L1 <==> cap <= 2 * n && 5 * n < 4 * cap
    ensures ClassifyOverload(n, cap) == L2 <==> 4 * cap <= 5 * n && n < cap
  {
  }

  /** The lower bound of the bucket of a price; none for a malformed price or width. */
  function BucketLevel(t: Trade, width: real): Option<real> {
    if !t.priced || width <= 0.0 then None else Some((t.price / width).Floor as real * width)
  }

  /** The bucket of a price is the half-open interval from its level, one width wide. */
  lemma BucketContains(t: Trade, width: real)
    requires t.priced && width > 0.0
    ensures BucketLevel(t, width).value <= t.price < BucketLevel(t, width).value + width
  {
    FloorContains(t.price, width, (t.price / width).Floor as real);
  }

  /** Levels are whole multiples of the width, so the buckets do not overlap. */
  lemma BucketsAreAGrid(t: Trade, width: real) returns (k: int)
    requires t.priced && width > 0.0
    ensures BucketLevel(t, width) == Some(k as real * width)
    ensures k as real * width <= t.price < (k + 1) as real * width
  {
    BucketContains(t, width);
    k := (t.price / width).Floor;
    assert (k + 1) as real == k as real + 1.0;
    assert (k as real + 1.0) * width == k as real * width + width;
  }

  lemma FloorContains(price: real, width: real, f: real)
    requires width > 0.0 && f <= price / width < f + 1.0
    ensures f * width <= price < f * width + width
  {
    var q := price / width;
    assert price == q * width;
    var up, down := f + 1.0 - q, q - f;
    assert down * width >= 0.0 && up * width > 0.0;
    Distributes(q, f, width);
  }

  lemma Distributes(q: real, f: real, width: real)
    ensures (q - f) * width == q * width - f * width
    ensures (f + 1.0 - q) * width == f * width + width - q * width
  {
  }

  // ---------------------------------------------------------------- the policy, trade by trade

  /** The levels admitted after the trades of a window, in the order of admission. */
  function Admitted(run: seq<Trade>, width: real, cap: nat): seq<real> {
    if run == [] then []
    else Admit(Admitted(run[..|run| - 1], width, cap), BucketLevel(run[|run| - 1], width), cap)
  }

  /** A level is admitted unless it is there already or the cap has been reached. */
  function Admit(levels: seq<real>, level: Option<real>, cap: nat): seq<real> {
    if level.None? || level.value in levels || |levels| >= cap then levels else levels + [level.value]
  }

  /** The trades that are counted: those whose level was admitted by the time they came. */
  function Counted(run: seq<Trade>, width: real, cap: nat): seq<Trade> {
    if run == [] then []
    else
      var init, t := run[..|run| - 1], run[|run| - 1];
      var level := BucketLevel(t, width);
      Counted(init, width, cap) + if level.Some? && level.value in Admitted(run, width, cap) then [t] else []
  }

  // ---------------------------------------------------------------- the policy, in one sentence

  /** The distinct levels of a window in the order of their first trade. */
  function DistinctLevels(run: seq<Trade>, width: real): seq<real> {
    if run == [] then []
    else
      var before := DistinctLevels(run[..|run| - 1], width);
      var level := BucketLevel(run[|run| - 1], width);
      if level.None? || level.value in before then before else before + [level.value]
  }

  function Select(run: seq<Trade>, width: real, levels: seq<real>): seq<Trade> {
    if run == [] then []
    else
      var t := run[|run| - 1];
      var level := BucketLevel(t, width);
      Select(run[..|run| - 1], width, levels) + if level.Some? && level.value in levels then [t] else []
  }

  function First(levels: seq<real>, cap: nat): seq<real> {
    if |levels| <= cap then levels else levels[..cap]
  }

  predicate Distinct(levels: seq<real>) {
    forall i, j | 0 <= i < j < |levels| :: levels[i] != levels[j]
  }

  lemma {:induction false} LevelsAreDistinct(run: seq<Trade>, width: real)
    ensures Distinct(DistinctLevels(run, width))
    ensures forall i | 0 <= i < |run| && BucketLevel(run[i], width).Some? ::
              BucketLevel(run[i], width).value in DistinctLevels(run, width)
  {
    if run != [] {
      var init := run[..|run| - 1];
      LevelsAreDistinct(init, width);
      assert forall i | 0 <= i < |init| :: init[i] == run[i];
    }
  }

  lemma {:induction false} KeysOfDistinct(levels: seq<real>)
    requires Distinct(levels)
    ensures |set l | l in levels| == |levels|
  {
    if levels != [] {
      var init, last := levels[..|levels| - 1], levels[|levels| - 1];
      KeysOfDistinct(init);
      assert (set l | l in levels) == (set l | l in init) + {last} by {
        assert levels == init + [last];
      }
      assert last !in init;
    }
  }

  /** The levels admitted are the first ones of the window, as many as the cap allows. */
  lemma {:induction false} AdmittedAreFirst(run: seq<Trade>, width: real, cap: nat)
    ensures Admitted(run, width, cap) == First(DistinctLevels(run, width), cap)
    ensures Distinct(Admitted(run, width, cap)) && |Admitted(run, width, cap)| <= cap
  {
    LevelsAreDistinct(run, width);
    if run != [] {
      AdmittedAreFirst(run[..|run| - 1], width, cap);
    }
  }

  /** Adding to the levels one that no trade of the run has changes nothing. */
  lemma {:induction false} SelectIgnores(run: seq<Trade>, width: real, levels: seq<real>, extra: real)
    requires forall i | 0 <= i < |run| :: BucketLevel(run[i], width) != Some(extra)
    ensures Select(run, width, levels + [extra]) == Select(run, width, levels)
  {
    if run != [] {
      SelectIgnores(run[..|run| - 1], width, levels, extra);
      assert BucketLevel(run[|run| - 1], width) != Some(extra);
    }
  }

  /**
   The overload policy characterised: a trade is counted exactly when its price is well formed and
   its level is among the first `cap` distinct levels of its window.
   */
  lemma {:induction false} CountedIffAmongFirst(run: seq<Trade>, width: real, cap: nat)
    ensures Counted(run, width, cap) == Select(run, width, First(DistinctLevels(run, width), cap))
  {
    AdmittedAreFirst(run, width, cap);
    if run != [] {
      var init, t := run[..|run| - 1], run[|run| - 1];
      CountedIffAmongFirst(init, width, cap);
      AdmittedAreFirst(init, width, cap);
      var before, after := Admitted(init, width, cap), Admitted(run, width, cap);
      if after != before {
        var level := BucketLevel(t, width).value;
        LevelsAreDistinct(init, width);
        assert |DistinctLevels(init, width)| < cap;
        SelectIgnores(init, width, before, level);
      }
    }
  }

  lemma OneMoreTrade(run: seq<Trade>, t: Trade, width: real, cap: nat)
    ensures var level := BucketLevel(t, width);
            var before, after := Admitted(run, width, cap), Admitted(run + [t], width, cap);
            && after == Admit(before, level, cap)
            && Counted(run + [t], width, cap) ==
                 Counted(run, width, cap) + if level.Some? && level.value in after then [t] else []
  {
    assert (run + [t])[..|run|] == run;
  }

  /** Every counted trade has an admitted level, and every admitted level a counted trade. */
  lemma {:induction false} CountedLevels(run: seq<Trade>, width: real, cap: nat)
    ensures var c, ls := Counted(run, width, cap), Admitted(run, width, cap);
            && (forall i | 0 <= i < |c| :: BucketLevel(c[i], width).Some? && BucketLevel(c[i], width).value in ls)
            && (forall l | l in ls :: exists i | 0 <= i < |c| :: BucketLevel(c[i], width) == Some(l))
  {
    if run != [] {
      var init, t := run[..|run| - 1], run[|run| - 1];
      CountedLevels(init, width, cap);
      var before, c := Counted(init, width, cap), Counted(run, width, cap);
      assert forall i | 0 <= i < |before| :: c[i] == before[i];
      forall l | l in Admitted(run, width, cap)
        ensures exists i | 0 <= i < |c| :: BucketLevel(c[i], width) == Some(l)
      {
        if l in Admitted(init, width, cap) {
          var i :| 0 <= i < |before| && BucketLevel(before[i], width) == Some(l);
          assert BucketLevel(c[i], width) == Some(l);
        } else {
          assert BucketLevel(c[|before|], width) == Some(l);
        }
      }
    }
  }
}
