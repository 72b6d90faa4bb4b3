/**
 The window arithmetic that all samplers of internal/application/derive share, and the batch view
 of a trade stream: its maximal runs of trades in the same window.

 Times are nanoseconds since 1970, durations nanoseconds; prices and quantities are exact.
 */
module Windows {
  import Products

  const SECOND := 1_000_000_000

  /** `priced` says that the price text is a decimal; `price` is its value. */
  datatype Trade = Trade(
    instrument: string, source: string, timestamp: int,
    priced: bool, price: real, quantity: real, buyerMaker: bool)

  /** `Time.Unix`: whole seconds, rounded down. */
  function Unix(ts: int): int {
    ts / SECOND
  }

  function Seconds(timeframe: int): int
    requires timeframe >= SECOND
    ensures Seconds(timeframe) >= 1
  {
    timeframe / SECOND
  }

  /** Go's integer division truncates toward zero. */
  function Quotient(a: int, b: int): int
    requires b > 0
  {
    if a >= 0 then a / b else -((-a) / b)
  }

  /** The opening of the window of an instant; the source divides by zero for a timeframe under a second. */
  function OpenTime(timeframe: int, ts: int): int
    requires timeframe >= SECOND
  {
    Quotient(Unix(ts), Seconds(timeframe)) * Seconds(timeframe) * SECOND
  }

  function CloseTime(timeframe: int, ts: int): int
    requires timeframe >= SECOND
  {
    OpenTime(timeframe, ts) + timeframe
  }

  predicate SameWindow(timeframe: int, a: Trade, b: Trade)
    requires timeframe >= SECOND
  {
    OpenTime(timeframe, a.timestamp) == OpenTime(timeframe, b.timestamp)
  }

  /**
   A window contains the instant it was computed for exactly when that instant is not before 1970
   or lies in a second that a window starts with: truncation moves the others into a later window.
   */
  lemma WindowContains(timeframe: int, ts: int)
    requires timeframe >= SECOND
    ensures OpenTime(timeframe, ts) <= ts < CloseTime(timeframe, ts)
            <==> Unix(ts) >= 0 || (-Unix(ts)) % Seconds(timeframe) == 0
  {
    var u, secs := Unix(ts), Seconds(timeframe);
    var a := if u >= 0 then u else -u;
    assert a == (a / secs) * secs + a % secs;
    assert u * SECOND <= ts < (u + 1) * SECOND;
    assert secs * SECOND <= timeframe;
    var start := Quotient(u, secs) * secs;
    if u >= 0 {
      assert start <= u < start + secs;
      assert (u + 1) * SECOND <= (start + secs) * SECOND;
    } else {
      assert start == -(a / secs * secs) by { assert (-(a / secs)) * secs == -(a / secs * secs); }
      assert start == u + a % secs;
      if a % secs != 0 {
        assert start >= u + 1;
        assert start * SECOND >= (u + 1) * SECOND;
      }
    }
  }

  /** Windows are aligned to multiples of the timeframe's seconds and keep the order of instants. */
  lemma WindowsAreOrdered(timeframe: int, a: int, b: int)
    requires timeframe >= SECOND && a <= b
    ensures OpenTime(timeframe, a) % (Seconds(timeframe) * SECOND) == 0
    ensures OpenTime(timeframe, a) <= OpenTime(timeframe, b)
    ensures OpenTime(timeframe, a) == OpenTime(timeframe, b)
            || OpenTime(timeframe, a) + Seconds(timeframe) * SECOND <= OpenTime(timeframe, b)
  {
    var secs := Seconds(timeframe);
    var p, q := Quotient(Unix(a), secs), Quotient(Unix(b), secs);
    QuotientMonotone(Unix(a), Unix(b), secs);
    var step := secs * SECOND;
    assert OpenTime(timeframe, a) == p * step && OpenTime(timeframe, b) == q * step by {
      assert p * secs * SECOND == p * (secs * SECOND) && q * secs * SECOND == q * (secs * SECOND);
    }
    MultipleOf(p, step);
    if p < q {
      assert (p + 1) * step <= q * step by { Products.WholeTimesMonotone(p + 1, q, step); }
      assert (p + 1) * step == p * step + step;
    }
  }

  /** The seconds of a timeframe are all of it but for a fraction of a second. */
  lemma WholeSeconds(timeframe: int)
    requires timeframe >= SECOND
    ensures timeframe == Seconds(timeframe) * SECOND + timeframe % SECOND
    ensures 0 <= timeframe % SECOND < SECOND
  {
  }

  lemma WindowOfInstant(timeframe: int, ts: int)
    requires timeframe >= SECOND && ts >= 0
    ensures OpenTime(timeframe, ts) <= ts < OpenTime(timeframe, ts) + Seconds(timeframe) * SECOND
  {
    var u, secs := Unix(ts), Seconds(timeframe);
    var start := u / secs * secs;
    assert start <= u < start + secs;
    assert u * SECOND <= ts < (u + 1) * SECOND;
    assert OpenTime(timeframe, ts) == start * SECOND;
    assert (u + 1) * SECOND <= (start + secs) * SECOND == start * SECOND + secs * SECOND;
  }

  /**
   From 1970 on two instants have the same window exactly if one lies between opening and closing of
   the other's; for a timeframe with a fraction of a second, between opening and that much before the
   closing.
   */
  lemma SameWindowIffBetween(timeframe: int, ts: int, t: int)
    requires timeframe >= SECOND && ts >= 0 && t >= 0
    ensures OpenTime(timeframe, t) == OpenTime(timeframe, ts) <==>
              OpenTime(timeframe, ts) <= t < CloseTime(timeframe, ts) - timeframe % SECOND
  {
    hide OpenTime, Seconds;
    WholeSeconds(timeframe);
    WindowOfInstant(timeframe, t);
    WindowOfInstant(timeframe, ts);
    if t <= ts {
      WindowsAreOrdered(timeframe, t, ts);
    } else {
      WindowsAreOrdered(timeframe, ts, t);
    }
  }

  /**
   How far a window reaches into the next one: by the fraction of a second of the timeframe, whatever the
   instants.
   */
  lemma NeighboursOverlap(timeframe: int, a: int, b: int)
    requires timeframe >= SECOND && OpenTime(timeframe, a) < OpenTime(timeframe, b)
    ensures CloseTime(timeframe, a) - timeframe % SECOND <= OpenTime(timeframe, b)
    ensures CloseTime(timeframe, a) - OpenTime(timeframe, b) == timeframe % SECOND <==>
              OpenTime(timeframe, b) - OpenTime(timeframe, a) == Seconds(timeframe) * SECOND
    ensures CloseTime(timeframe, a) - OpenTime(timeframe, a) == timeframe
  {
    hide OpenTime, Seconds;
    WholeSeconds(timeframe);
    if a <= b {
      WindowsAreOrdered(timeframe, a, b);
    } else {
      WindowsAreOrdered(timeframe, b, a);
    }
  }

  lemma MultipleOf(p: int, step: int)
    requires step > 0
    ensures (p * step) % step == 0
  {
    var r := (p * step) % step;
    var q := (p * step) / step;
    assert p * step == q * step + r;
    assert r == (p - q) * step;
    if p - q >= 1 {
      Products.WholeTimesMonotone(1, p - q, step);
    } else if p - q <= -1 {
      Products.WholeTimesMonotone(p - q, -1, step);
    }
  }

  lemma DivisionMonotone(x: int, y: int, k: int)
    requires 0 <= x <= y && k > 0
    ensures x / k <= y / k
  {
    assert x == (x / k) * k + x % k && y == (y / k) * k + y % k;
    if x / k > y / k {
      Products.WholeTimesMonotone(y / k + 1, x / k, k);
    }
  }

  lemma QuotientMonotone(x: int, y: int, k: int)
    requires x <= y && k > 0
    ensures Quotient(x, k) <= Quotient(y, k)
  {
    if x >= 0 {
      DivisionMonotone(x, y, k);
    } else if y < 0 {
      DivisionMonotone(-y, -x, k);
    } else {
      DivisionMonotone(0, -x, k);
      DivisionMonotone(0, y, k);
    }
  }

  // ---------------------------------------------------------------- runs, one trade at a time

  /** A trade of another window ends the current run. */
  predicate Closes(timeframe: int, run: seq<Trade>, t: Trade)
    requires timeframe >= SECOND
  {
    run != [] && !SameWindow(timeframe, run[0], t)
  }

  function Next(timeframe: int, run: seq<Trade>, t: Trade): seq<Trade>
    requires timeframe >= SECOND
  {
    if Closes(timeframe, run, t) then [t] else run + [t]
  }

  /** The trades of the open window after a stream. */
  function Current(timeframe: int, trades: seq<Trade>): seq<Trade>
    requires timeframe >= SECOND
  {
    if trades == [] then []
    else Next(timeframe, Current(timeframe, trades[..|trades| - 1]), trades[|trades| - 1])
  }

  /** The windows a stream has closed, as the trades in them. */
  function Closed(timeframe: int, trades: seq<Trade>): seq<seq<Trade>>
    requires timeframe >= SECOND
  {
    if trades == [] then []
    else
      var before := trades[..|trades| - 1];
      var run := Current(timeframe, before);
      Closed(timeframe, before) + if Closes(timeframe, run, trades[|trades| - 1]) then [run] else []
  }

  lemma OneMore(timeframe: int, trades: seq<Trade>, t: Trade)
    requires timeframe >= SECOND
    ensures var run := Current(timeframe, trades);
            && Current(timeframe, trades + [t]) == Next(timeframe, run, t)
            && Closed(timeframe, trades + [t]) ==
                 Closed(timeframe, trades) + if Closes(timeframe, run, t) then [run] else []
  {
    assert (trades + [t])[..|trades|] == trades;
  }

  // ---------------------------------------------------------------- runs, all at once

  function Flatten(runs: seq<seq<Trade>>): seq<Trade> {
    if runs == [] then [] else runs[0] + Flatten(runs[1..])
  }

  predicate OneWindow(timeframe: int, run: seq<Trade>)
    requires timeframe >= SECOND
  {
    run != [] && forall i | 0 <= i < |run| :: SameWindow(timeframe, run[0], run[i])
  }

  /** `runs` are the maximal runs of `trades`: they make up the stream, and neighbours are in different windows. */
  predicate MaximalRuns(timeframe: int, runs: seq<seq<Trade>>, trades: seq<Trade>)
    requires timeframe >= SECOND
  {
    && Flatten(runs) == trades
    && (forall i | 0 <= i < |runs| :: OneWindow(timeframe, runs[i]))
    && (forall i | 0 < i < |runs| :: !SameWindow(timeframe, runs[i - 1][0], runs[i][0]))
  }

  lemma {:induction false} FlattenAppend(runs: seq<seq<Trade>>, run: seq<Trade>)
    ensures Flatten(runs + [run]) == Flatten(runs) + run
  {
    if runs == [] {
      assert [run][1..] == [] && run + [] == run;
    } else {
      assert (runs + [run])[1..] == runs[1..] + [run];
      FlattenAppend(runs[1..], run);
      assert runs[0] + (Flatten(runs[1..]) + run) == (runs[0] + Flatten(runs[1..])) + run;
    }
  }

  /** A trade in the window of the last run extends it. */
  lemma RunGrows(timeframe: int, closed: seq<seq<Trade>>, run: seq<Trade>, trades: seq<Trade>, t: Trade)
    requires timeframe >= SECOND && MaximalRuns(timeframe, closed + [run], trades)
    requires run != [] && SameWindow(timeframe, run[0], t)
    ensures MaximalRuns(timeframe, closed + [run + [t]], trades + [t])
  {
    hide SameWindow;
    var old', new' := closed + [run], closed + [run + [t]];
    FlattenAppend(closed, run);
    FlattenAppend(closed, run + [t]);
    assert Flatten(closed) + (run + [t]) == (Flatten(closed) + run) + [t];
    assert forall i | 0 <= i < |closed| :: new'[i] == old'[i];
    assert OneWindow(timeframe, old'[|closed|]);
    assert forall i | 0 <= i < |new'| :: old'[i] != [] && new'[i] != [] && new'[i][0] == old'[i][0];
  }

  /** A trade of another window starts the next run. */
  lemma RunEnds(timeframe: int, runs: seq<seq<Trade>>, trades: seq<Trade>, t: Trade)
    requires timeframe >= SECOND && runs != [] && MaximalRuns(timeframe, runs, trades)
    requires runs[|runs| - 1] != [] && !SameWindow(timeframe, runs[|runs| - 1][0], t)
    ensures MaximalRuns(timeframe, runs + [[t]], trades + [t])
  {
    hide SameWindow, Flatten;
    FlattenAppend(runs, [t]);
    SameWindowReflexive(timeframe, t);
    var all := runs + [[t]];
    assert all[|runs|] == [t] && all[|runs| - 1] == runs[|runs| - 1];
    forall i | 0 <= i < |runs|
      ensures OneWindow(timeframe, all[i])
    {
      assert all[i] == runs[i];
    }
  }

  lemma SameWindowReflexive(timeframe: int, t: Trade)
    requires timeframe >= SECOND
    ensures SameWindow(timeframe, t, t)
  {}

  lemma SingleRun(timeframe: int, t: Trade)
    requires timeframe >= SECOND
    ensures MaximalRuns(timeframe, [[t]], [t])
  {
    assert [[t]][1..] == [] && [t] + [] == [t];
  }

  /** Streaming finds the maximal runs: the closed ones and then the open one. */
  lemma {:induction false} StreamFindsRuns(timeframe: int, trades: seq<Trade>)
    requires timeframe >= SECOND && trades != []
    ensures Current(timeframe, trades) != []
    ensures MaximalRuns(timeframe, Closed(timeframe, trades) + [Current(timeframe, trades)], trades)
  {
    hide SameWindow;
    var before, t := trades[..|trades| - 1], trades[|trades| - 1];
    assert trades == before + [t];
    OneMore(timeframe, before, t);
    var closed, run := Closed(timeframe, before), Current(timeframe, before);
    if before == [] {
      assert [] + [t] == [t] && closed + [[t]] == [[t]] && closed + [] == [];
      SingleRun(timeframe, t);
    } else {
      StreamFindsRuns(timeframe, before);
      if Closes(timeframe, run, t) {
        RunEnds(timeframe, closed + [run], before, t);
      } else {
        RunGrows(timeframe, closed, run, before, t);
        assert closed + [] == closed;
      }
    }
  }

  /** What follows the first run is in another window. */
  lemma FirstRunEnds(timeframe: int, runs: seq<seq<Trade>>, trades: seq<Trade>)
    requires timeframe >= SECOND && runs != [] && MaximalRuns(timeframe, runs, trades)
    requires |runs[0]| < |trades|
    ensures !SameWindow(timeframe, runs[0][0], trades[|runs[0]|])
  {
    assert trades == runs[0] + Flatten(runs[1..]);
    assert |runs| > 1;
    assert OneWindow(timeframe, runs[1]) && runs[1..][0] == runs[1];
    assert Flatten(runs[1..])[0] == runs[1][0];
    assert !SameWindow(timeframe, runs[1 - 1][0], runs[1][0]);
  }

  lemma FirstRunIsPrefix(timeframe: int, a: seq<seq<Trade>>, b: seq<seq<Trade>>, trades: seq<Trade>)
    requires timeframe >= SECOND && a != [] && b != []
    requires MaximalRuns(timeframe, a, trades) && MaximalRuns(timeframe, b, trades)
    ensures |a[0]| <= |b[0]|
  {
    var k := |b[0]|;
    assert OneWindow(timeframe, a[0]) && OneWindow(timeframe, b[0]);
    assert b[0][0] == trades[0] == a[0][0];
    assert k < |a[0]| ==> trades[k] == a[0][k];
    if k < |trades| {
      FirstRunEnds(timeframe, b, trades);
    }
  }

  /** There is only one way to cut a stream into maximal runs. */
  lemma {:induction false} MaximalRunsAreUnique(timeframe: int, a: seq<seq<Trade>>, b: seq<seq<Trade>>,
      trades: seq<Trade>)
    requires timeframe >= SECOND
    requires MaximalRuns(timeframe, a, trades) && MaximalRuns(timeframe, b, trades)
    ensures a == b
    decreases |a|
  {
    assert a != [] ==> OneWindow(timeframe, a[0]) && trades != [];
    assert b != [] ==> OneWindow(timeframe, b[0]) && trades != [];
    if a != [] {
      assert b != [];
      FirstRunIsPrefix(timeframe, a, b, trades);
      FirstRunIsPrefix(timeframe, b, a, trades);
      assert a[0] == trades[..|a[0]|] == b[0];
      var rest := trades[|a[0]|..];
      TailRuns(timeframe, a, trades);
      TailRuns(timeframe, b, trades);
      MaximalRunsAreUnique(timeframe, a[1..], b[1..], rest);
    }
  }

  lemma TailRuns(timeframe: int, a: seq<seq<Trade>>, trades: seq<Trade>)
    requires timeframe >= SECOND && a != [] && MaximalRuns(timeframe, a, trades)
    ensures |a[0]| <= |trades| && MaximalRuns(timeframe, a[1..], trades[|a[0]|..])
  {
    assert forall i | 0 <= i < |a[1..]| :: a[1..][i] == a[i + 1];
    forall i | 0 < i < |a[1..]|
      ensures !SameWindow(timeframe, a[1..][i - 1][0], a[1..][i][0])
    {
      assert !SameWindow(timeframe, a[i + 1 - 1][0], a[i + 1][0]);
    }
  }

  /** Streaming equals batch: what a stream closes are its maximal runs but the last, which is open. */
  lemma StreamingEqualsBatch(timeframe: int, trades: seq<Trade>, runs: seq<seq<Trade>>)
    requires timeframe >= SECOND && trades != [] && MaximalRuns(timeframe, runs, trades)
    ensures runs != []
    ensures Closed(timeframe, trades) == runs[..|runs| - 1] && Current(timeframe, trades) == runs[|runs| - 1]
  {
    StreamFindsRuns(timeframe, trades);
    MaximalRunsAreUnique(timeframe, runs, Closed(timeframe, trades) + [Current(timeframe, trades)], trades);
  }

  /** Timestamps from 1970 on that never go back. */
  predicate InOrder(trades: seq<Trade>) {
    && (forall i | 0 <= i < |trades| :: trades[i].timestamp >= 0)
    && (forall i, j | 0 <= i < j < |trades| :: trades[i].timestamp <= trades[j].timestamp)
  }

  /**
   For such a stream the runs are in strictly increasing windows, so no window occurs twice, and each
   trade is in its window.
   */
  lemma {:induction false} OrderedRunsAreWindows(timeframe: int, runs: seq<seq<Trade>>, trades: seq<Trade>)
    requires timeframe >= SECOND && MaximalRuns(timeframe, runs, trades) && InOrder(trades)
    ensures forall i, j | 0 <= i < j < |runs| ::
              OpenTime(timeframe, runs[i][0].timestamp) + Seconds(timeframe) * SECOND
              <= OpenTime(timeframe, runs[j][0].timestamp)
    ensures forall i, k | 0 <= i < |runs| && 0 <= k < |runs[i]| ::
              OpenTime(timeframe, runs[i][0].timestamp) <= runs[i][k].timestamp
              < CloseTime(timeframe, runs[i][0].timestamp)
    decreases |runs|
  {
    hide OpenTime, CloseTime, Seconds;
    if runs != [] {
      var first := runs[0];
      TailRuns(timeframe, runs, trades);
      var rest := trades[|first|..];
      assert forall i | 0 <= i < |rest| :: rest[i] == trades[i + |first|];
      OrderedRunsAreWindows(timeframe, runs[1..], rest);
      assert forall i | 0 < i < |runs| :: runs[i] == runs[1..][i - 1];
      assert OneWindow(timeframe, first);
      forall k | 0 <= k < |first|
        ensures OpenTime(timeframe, first[0].timestamp) <= first[k].timestamp < CloseTime(timeframe, first[0].timestamp)
      {
        assert first[k] == trades[k] && SameWindow(timeframe, first[0], first[k]);
        InItsWindow(timeframe, first[k].timestamp, first[0].timestamp);
      }
      if |runs| > 1 {
        assert OneWindow(timeframe, runs[1]);
        assert runs[1][0] == rest[0] by { assert runs[1..][0] == runs[1]; }
        assert first[0] == trades[0];
        assert !SameWindow(timeframe, runs[1 - 1][0], runs[1][0]);
        WindowsAreOrdered(timeframe, first[0].timestamp, runs[1][0].timestamp);
        assert Seconds(timeframe) * SECOND >= 0;
      }
    }
  }

  lemma InItsWindow(timeframe: int, ts: int, other: int)
    requires timeframe >= SECOND && ts >= 0 && OpenTime(timeframe, ts) == OpenTime(timeframe, other)
    ensures OpenTime(timeframe, other) <= ts < CloseTime(timeframe, other)
  {
    WindowContains(timeframe, ts);
  }

  /** The number of trades in a list of runs. */
  function TotalCount(runs: seq<seq<Trade>>): nat {
    if runs == [] then 0 else TotalCount(runs[..|runs| - 1]) + |runs[|runs| - 1]|
  }

  /** No trade is lost or counted twice: each is in exactly one closed run or in the open one. */
  lemma {:induction false} CountsConserved(timeframe: int, trades: seq<Trade>)
    requires timeframe >= SECOND
    ensures TotalCount(Closed(timeframe, trades)) + |Current(timeframe, trades)| == |trades|
    ensures forall i | 0 <= i < |Closed(timeframe, trades)| :: Closed(timeframe, trades)[i] != []
  {
    hide SameWindow, Current, Closed, TotalCount;
    if trades == [] {
      NothingCounted(timeframe);
    } else {
      var before, t := trades[..|trades| - 1], trades[|trades| - 1];
      assert trades == before + [t];
      CountsConserved(timeframe, before);
      OneMore(timeframe, before, t);
      var closed, run := Closed(timeframe, before), Current(timeframe, before);
      CountGrows(closed, run);
      assert closed + [] == closed;
    }
  }

  lemma NothingCounted(timeframe: int)
    requires timeframe >= SECOND
    ensures Closed(timeframe, []) == [] && Current(timeframe, []) == [] && TotalCount([]) == 0
  {
  }

  lemma CountGrows(runs: seq<seq<Trade>>, run: seq<Trade>)
    ensures TotalCount(runs + [run]) == TotalCount(runs) + |run|
  {
    assert (runs + [run])[..|runs|] == runs;
  }
}
