/** What leaves the inserter's buffer and when: flushes, their attempts and their waits, over every run. */
module InserterLaws {
  import opened Inserter

  // ---------------------------------------------------------------- runs in parts

  lemma {:induction false} RunParts<R>(cfg: Config, s: State<R>, first: seq<Message<R>>, m: Message<R>)
    ensures Run(cfg, s, first + [m]) == Handle(cfg, Run(cfg, s, first), m)
    ensures Received(first + [m]) == Received(first) + Received([m])
    decreases |first|
  {
    hide Handle;
    if first == [] {
      assert first + [m] == [m] && [m][1..] == [];
      assert Received<R>([]) + Received([m]) == Received([m]);
    } else {
      assert (first + [m])[1..] == first[1..] + [m];
      RunParts(cfg, Handle(cfg, s, first[0]), first[1..], m);
      ReceivedOneByOne(first + [m]);
      ReceivedOneByOne(first);
      var one, rest := Received([first[0]]), Received(first[1..]);
      assert one + (rest + Received([m])) == (one + rest) + Received([m]);
    }
  }

  /** A message that stops the actor or ticks drains the buffer: every row received until then has left it. */
  lemma StopAndTickDrain<R>(cfg: Config, messages: seq<Message<R>>, last: Message<R>)
    requires last.Stopped? || last.FlushTick?
    ensures var t := Run(cfg, New(), messages + [last]);
            t.buffer == [] && Gone(t.chunks) == Received(messages) && t.counters.bufferDepth == 0
  {
    hide Flush;
    RunParts(cfg, New<R>(), messages, last);
    RowsConservedFromStart(cfg, messages);
    RowsConservedFromStart(cfg, messages + [last]);
    var s := Run(cfg, New<R>(), messages);
    FlushKeeps(cfg, s, last.outcomes);
    var t := Handle(cfg, s, last);
    assert Received([last]) == [] by { assert [last][1..] == []; }
    assert Received(messages) + [] == Received(messages) && Gone(t.chunks) + [] == Gone(t.chunks);
  }

  // ---------------------------------------------------------------- when an insert is attempted

  /** The rows that a new row leaves in the buffer: the newest ones, as many as the limit allows. */
  function Newest<R>(rows: seq<R>, limit: nat): seq<R> {
    if |rows| <= limit then rows else rows[|rows| - limit..]
  }

  function Arrived<R>(s: State<R>, m: Message<R>): seq<R> {
    s.buffer + if m.InsertRow? then [m.row] else []
  }

  function Batch<R>(cfg: Config, s: State<R>, m: Message<R>): seq<R> {
    if m.InsertRow? then Newest(Arrived(s, m), cfg.maxPending) else s.buffer
  }

  /**
   When inserts are attempted, in every state: after a row exactly when the rows that are left have
   reached the batch size, after the other messages always, and never for no rows.  Then the whole
   batch is tried and leaves the buffer, as written exactly when one of the attempts succeeds.
   */
  lemma AttemptedExactly<R>(cfg: Config, s: State<R>, m: Message<R>)
    ensures var t, all, batch := Handle(cfg, s, m), Arrived(s, m), Batch(cfg, s, m);
            var evicted := all[..|all| - |batch|];
            var base := s.chunks + if evicted == [] then [] else [Evicted(evicted)];
            if batch != [] && (m.InsertRow? ==> |batch| >= cfg.batchSize) then
              && t.buffer == []
              && t.actions == s.actions + Tries(batch, m.outcomes, 1, Max(1, cfg.maxRetries), cfg.initialBackoff)
              && t.chunks == base + [if exists k: nat | 1 <= k <= Max(1, cfg.maxRetries) :: m.outcomes(k)
                                     then Flushed(batch) else Dropped(batch)]
            else
              t.buffer == batch && t.actions == s.actions && t.chunks == base
  {
    hide Tries;
    assert Succeeds(m.outcomes, 1, Attempts(cfg)) <==>
             exists k: nat | 1 <= k <= Max(1, cfg.maxRetries) :: m.outcomes(k);
    assert s.buffer + [] == s.buffer && s.chunks + [] == s.chunks;
  }

  /** The rows of the inserts that succeeded. */
  function Inserted<R>(actions: seq<Action<R>>): seq<R> {
    if actions == [] then []
    else
      var a := actions[|actions| - 1];
      Inserted(actions[..|actions| - 1]) + if a.Insert? && a.ok then a.rows else []
  }

  /** The rows of the chunks counted as written. */
  function WrittenRows<R>(chunks: seq<Chunk<R>>): seq<R> {
    if chunks == [] then []
    else
      var c := chunks[|chunks| - 1];
      WrittenRows(chunks[..|chunks| - 1]) + if c.Flushed? then c.rows else []
  }

  lemma {:induction false} InsertedSum<R>(a: seq<Action<R>>, b: seq<Action<R>>)
    ensures Inserted(a + b) == Inserted(a) + Inserted(b)
  {
    if b == [] {
      assert a + b == a && Inserted(a) + [] == Inserted(a);
    } else {
      var init := b[..|b| - 1];
      assert (a + b)[..|a + b| - 1] == a + init;
      InsertedSum(a, init);
      var last := if b[|b| - 1].Insert? && b[|b| - 1].ok then b[|b| - 1].rows else [];
      assert (Inserted(a) + Inserted(init)) + last == Inserted(a) + (Inserted(init) + last);
    }
  }

  lemma WrittenGrows<R>(chunks: seq<Chunk<R>>, c: Chunk<R>)
    ensures WrittenRows(chunks + [c]) == WrittenRows(chunks) + if c.Flushed? then c.rows else []
  {
    assert (chunks + [c])[..|chunks|] == chunks;
  }

  lemma {:induction false} TriesInsertOnce<R>(rows: seq<R>, outcomes: nat -> bool, n: nat, max: int, backoff: int)
    requires n <= max
    ensures Inserted(Tries(rows, outcomes, n, max, backoff)) == if Succeeds(outcomes, n, max) then rows else []
    decreases max - n
  {
    hide NextBackoff, Inserted;
    if outcomes(n) {
      assert Succeeds(outcomes, n, max);
      OneInserted(Insert(rows, true));
    } else if n == max {
      OneInserted(Insert(rows, false));
    } else {
      var rest := Tries(rows, outcomes, n + 1, max, NextBackoff(backoff));
      TriesInsertOnce(rows, outcomes, n + 1, max, NextBackoff(backoff));
      assert Succeeds(outcomes, n, max) <==> Succeeds(outcomes, n + 1, max);
      InsertedSum([Insert(rows, false), Sleep(backoff)], rest);
      NoneInserted(rows, backoff);
      assert [] + Inserted(rest) == Inserted(rest);
    }
  }

  lemma NoneInserted<R>(rows: seq<R>, backoff: int)
    ensures Inserted([Insert(rows, false), Sleep(backoff)]) == []
  {
    assert [Insert(rows, false), Sleep(backoff)][..1] == [Insert(rows, false)];
    OneInserted(Insert(rows, false));
  }

  lemma OneInserted<R>(a: Action<R>)
    ensures Inserted([a]) == if a.Insert? && a.ok then a.rows else []
  {
    assert [a][..0] == [];
  }

  /** What counts as written is what inserts that succeeded were given, once each and in order, over every run. */
  lemma {:induction false} WrittenIsInserted<R>(cfg: Config, s: State<R>, messages: seq<Message<R>>)
    requires Inserted(s.actions) == WrittenRows(s.chunks)
    ensures var t := Run(cfg, s, messages);
            Inserted(t.actions) == WrittenRows(t.chunks)
    decreases |messages|
  {
    hide Handle, Inserted, WrittenRows;
    if messages != [] {
      HandleInserts(cfg, s, messages[0]);
      WrittenIsInserted(cfg, Handle(cfg, s, messages[0]), messages[1..]);
    }
  }

  lemma HandleInserts<R>(cfg: Config, s: State<R>, m: Message<R>)
    requires Inserted(s.actions) == WrittenRows(s.chunks)
    ensures var t := Handle(cfg, s, m);
            Inserted(t.actions) == WrittenRows(t.chunks)
  {
    hide Inserted, WrittenRows, Flush, Evict;
    match m
    case InsertRow(row, outcomes) =>
      var grown := s.(buffer := s.buffer + [row]);
      EvictInserts(cfg, grown);
      FlushInserts(cfg, Depth(Evict(cfg, grown)), outcomes);
    case FlushTick(outcomes) => FlushInserts(cfg, s, outcomes);
    case Stopped(outcomes) => FlushInserts(cfg, s, outcomes);
  }

  lemma EvictInserts<R>(cfg: Config, s: State<R>)
    requires Inserted(s.actions) == WrittenRows(s.chunks)
    ensures var t := Evict(cfg, s);
            Inserted(t.actions) == WrittenRows(t.chunks)
  {
    hide Inserted, WrittenRows;
    if |s.buffer| > cfg.maxPending {
      var gone := s.buffer[..|s.buffer| - cfg.maxPending];
      WrittenGrows(s.chunks, Evicted(gone));
      assert WrittenRows(s.chunks) + [] == WrittenRows(s.chunks);
    }
  }

  lemma FlushInserts<R>(cfg: Config, s: State<R>, outcomes: nat -> bool)
    requires Inserted(s.actions) == WrittenRows(s.chunks)
    ensures var t := Flush(cfg, s, outcomes);
            Inserted(t.actions) == WrittenRows(t.chunks)
  {
    hide Inserted, WrittenRows, Tries, Succeeds;
    if s.buffer != [] {
      var tries := Tries(s.buffer, outcomes, 1, Attempts(cfg), cfg.initialBackoff);
      TriesInsertOnce(s.buffer, outcomes, 1, Attempts(cfg), cfg.initialBackoff);
      InsertedSum(s.actions, tries);
      WrittenGrows(s.chunks, Flushed(s.buffer));
      WrittenGrows(s.chunks, Dropped(s.buffer));
    }
  }

  // ---------------------------------------------------------------- the waits between attempts

  function Doubled(x: int, n: nat): int {
    if n == 0 then x else 2 * Doubled(x, n - 1)
  }

  /** The wait after attempt number k + 1: the first as configured, the others doubled and capped. */
  function Wait(backoff: int, k: nat): int {
    if k > 0 && Doubled(backoff, k) > 30_000 then 30_000 else Doubled(backoff, k)
  }

  lemma {:induction false} DoubledFirst(x: int, n: nat)
    ensures Doubled(2 * x, n) == 2 * Doubled(x, n)
  {
    if n > 0 {
      DoubledFirst(x, n - 1);
    }
  }

  lemma {:induction false} DoubledGrows(x: int, y: int, n: nat)
    requires x <= y
    ensures Doubled(x, n) <= Doubled(y, n)
    ensures x >= 30_000 ==> Doubled(x, n) >= 30_000
  {
    if n > 0 {
      DoubledGrows(x, y, n - 1);
    }
  }

  /**
   The attempts of a flush alternate with waits; the first wait is as configured, each later one the
   double of the one before, capped at thirty seconds.
   */
  lemma WaitsDouble<R>(rows: seq<R>, outcomes: nat -> bool, n: nat, max: int, backoff: int)
    requires n <= max
    ensures var t := Tries(rows, outcomes, n, max, backoff);
            forall i | 0 <= i < |t| :: Alternates(t[i], i, backoff)
  {
    hide *;
    AllAlternate(rows, outcomes, n, max, backoff, Tries(rows, outcomes, n, max, backoff));
  }

  lemma {:induction false} AllAlternate<R>(rows: seq<R>, outcomes: nat -> bool, n: nat, max: int, backoff: int,
      t: seq<Action<R>>)
    requires n <= max && t == Tries(rows, outcomes, n, max, backoff)
    ensures forall i | 0 <= i < |t| :: Alternates(t[i], i, backoff)
    decreases max - n
  {
    hide NextBackoff, Alternates;
    FirstTwo(t[0], backoff);
    if !outcomes(n) && n < max {
      var next := NextBackoff(backoff);
      var rest := t[2..];
      AllAlternate(rows, outcomes, n + 1, max, next, rest);
      forall i | 2 <= i < |t|
        ensures Alternates(t[i], i, backoff)
      {
        assert t[i] == rest[i - 2] && Alternates(rest[i - 2], i - 2, next);
        TwoLater(rest[i - 2], i, backoff);
      }
    }
  }

  /** Action number `i` of a flush: an insert, or the wait that belongs there. */
  predicate Alternates<R>(a: Action<R>, i: nat, backoff: int) {
    if i % 2 == 0 then a.Insert? else a == Sleep(Wait(backoff, i / 2))
  }

  lemma FirstTwo<R>(a: Action<R>, backoff: int)
    ensures a.Insert? ==> Alternates(a, 0, backoff)
    ensures Alternates(Action<R>.Sleep(backoff), 1, backoff)
  {
  }

  lemma TwoLater<R>(a: Action<R>, i: nat, backoff: int)
    requires i >= 2 && Alternates(a, i - 2, NextBackoff(backoff))
    ensures Alternates(a, i, backoff)
  {
    hide Wait, NextBackoff;
    Halves(i);
    NextWait(backoff, i / 2 - 1);
  }

  lemma Halves(i: nat)
    requires i >= 2
    ensures (i - 2) % 2 == i % 2 && (i - 2) / 2 == i / 2 - 1 && i / 2 - 1 + 1 == i / 2
  {
  }

  lemma NextWait(backoff: int, k: nat)
    ensures Wait(NextBackoff(backoff), k) == Wait(backoff, k + 1)
  {
    var next := NextBackoff(backoff);
    DoubledFirst(backoff, k);
    var d := Doubled(2 * backoff, k);
    assert Wait(backoff, k + 1) == if d > 30_000 then 30_000 else d;
    DoubledGrows(next, next, k);
    DoubledGrows(2 * backoff, 2 * backoff, k);
    if k == 0 {
      assert d == 2 * backoff && Wait(next, 0) == Doubled(next, 0) == next;
    } else {
      assert Wait(next, k) == if Doubled(next, k) > 30_000 then 30_000 else Doubled(next, k);
    }
  }
}
