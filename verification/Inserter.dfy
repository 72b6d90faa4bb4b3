/** The batch inserter actor of cmd/writer/inserter.go: a bounded buffer in front of a fallible database. */
module Inserter {

  /** The settings; the eviction slice needs `maxPending` not to be negative. */
  datatype Config = Config(batchSize: int, maxPending: nat, maxRetries: int, initialBackoff: int)

  const BACKOFF_CAP := 30_000

  /** What became of a run of consecutive rows. */
  datatype Chunk<R> = Flushed(rows: seq<R>) | Dropped(rows: seq<R>) | Evicted(rows: seq<R>)

  datatype Counters = Counters(
    eventsFlushed: nat, eventsDropped: nat, eventsOverflowed: nat,
    flushTotal: nat, flushFailures: nat, bufferDepth: nat)

  datatype Action<R> = Insert(rows: seq<R>, ok: bool) | Sleep(delay: int)

  datatype State<R> = State(buffer: seq<R>, chunks: seq<Chunk<R>>, counters: Counters, actions: seq<Action<R>>)

  /** Messages, each with the outcomes that insert attempts would have while it is handled. */
  datatype Message<R> =
    | InsertRow(row: R, outcomes: nat -> bool)
    | FlushTick(outcomes: nat -> bool)
    | Stopped(outcomes: nat -> bool)

  // ---------------------------------------------------------------- one message, as a function

  function Attempts(cfg: Config): int {
    if cfg.maxRetries < 1 then 1 else cfg.maxRetries
  }

  function NextBackoff(backoff: int): int {
    if backoff * 2 > BACKOFF_CAP then BACKOFF_CAP else backoff * 2
  }

  /** Some attempt from `n` on succeeds. */
  predicate Succeeds(outcomes: nat -> bool, n: nat, max: int) {
    exists k: nat | n <= k <= max :: outcomes(k)
  }

  /** The attempts from `n` on: the whole batch each time, up to the first success, with sleeps between. */
  function Tries<R>(rows: seq<R>, outcomes: nat -> bool, n: nat, max: int, backoff: int): seq<Action<R>>
    requires n <= max
    decreases max - n
  {
    if outcomes(n) then [Insert(rows, true)]
    else if n == max then [Insert(rows, false)]
    else [Insert(rows, false), Sleep(backoff)] + Tries(rows, outcomes, n + 1, max, NextBackoff(backoff))
  }

  function Flush<R>(cfg: Config, s: State<R>, outcomes: nat -> bool): State<R> {
    if s.buffer == [] then s
    else
      var rows, c := s.buffer, s.counters;
      var actions := s.actions + Tries(rows, outcomes, 1, Attempts(cfg), cfg.initialBackoff);
      if Succeeds(outcomes, 1, Attempts(cfg)) then
        State([], s.chunks + [Flushed(rows)],
          c.(eventsFlushed := c.eventsFlushed + |rows|, flushTotal := c.flushTotal + 1, bufferDepth := 0), actions)
      else
        State([], s.chunks + [Dropped(rows)],
          c.(eventsDropped := c.eventsDropped + |rows|, flushFailures := c.flushFailures + 1, bufferDepth := 0),
          actions)
  }

  function Evict<R>(cfg: Config, s: State<R>): State<R> {
    if |s.buffer| <= cfg.maxPending then s
    else
      var overflow := |s.buffer| - cfg.maxPending;
      s.(buffer := s.buffer[overflow..],
         chunks := s.chunks + [Evicted(s.buffer[..overflow])],
         counters := s.counters.(
           eventsDropped := s.counters.eventsDropped + overflow,
           eventsOverflowed := s.counters.eventsOverflowed + overflow))
  }

  function Depth<R>(s: State<R>): State<R> {
    s.(counters := s.counters.(bufferDepth := |s.buffer|))
  }

  function Handle<R>(cfg: Config, s: State<R>, m: Message<R>): State<R> {
    match m
    case InsertRow(row, outcomes) =>
      var t := Depth(Evict(cfg, s.(buffer := s.buffer + [row])));
      if |t.buffer| >= cfg.batchSize then Flush(cfg, t, outcomes) else t
    case FlushTick(outcomes) => Flush(cfg, s, outcomes)
    case Stopped(outcomes) => Flush(cfg, s, outcomes)
  }

  // ---------------------------------------------------------------- the actor

  class InserterActor<R> {
    const cfg: Config
    var buffer: seq<R>
    var chunks: seq<Chunk<R>>
    var counters: Counters
    var actions: seq<Action<R>>

    function Current(): State<R>
      reads this
    {
      State(buffer, chunks, counters, actions)
    }

    constructor (cfg: Config)
      ensures this.cfg == cfg && Current() == New()
    {
      this.cfg := cfg;
      buffer, chunks, actions := [], [], [];
      counters := Counters(0, 0, 0, 0, 0, 0);
    }

    method Receive(m: Message<R>)
      modifies this
      ensures Current() == Handle(cfg, old(Current()), m)
    {
      match m {
        case InsertRow(row, outcomes) =>
          buffer := buffer + [row];
          EnforceMaxPending();
          UpdateBufferDepth();
          if |buffer| >= cfg.batchSize {
            FlushBuffer(outcomes);
          }
        case FlushTick(outcomes) =>
          FlushBuffer(outcomes);
        case Stopped(outcomes) =>
          if |buffer| > 0 {
            FlushBuffer(outcomes);
          }
      }
    }

    method EnforceMaxPending()
      modifies this
      ensures Current() == Evict(cfg, old(Current()))
    {
      if |buffer| <= cfg.maxPending {
        return;
      }
      var overflow := |buffer| - cfg.maxPending;
      chunks := chunks + [Evicted(buffer[..overflow])];
      buffer := buffer[overflow..];
      counters := counters.(eventsDropped := counters.eventsDropped + overflow);
      counters := counters.(eventsOverflowed := counters.eventsOverflowed + overflow);
    }

    method UpdateBufferDepth()
      modifies this`counters
      ensures counters == old(counters).(bufferDepth := |buffer|)
    {
      counters := counters.(bufferDepth := |buffer|);
    }

    method FlushBuffer(outcomes: nat -> bool)
      modifies this
      ensures Current() == Flush(cfg, old(Current()), outcomes)
    {
      if |buffer| == 0 {
        return;
      }
      var rows := buffer;
      var backoff := cfg.initialBackoff;
      var maxRetries := cfg.maxRetries;
      if maxRetries < 1 {
        maxRetries := 1;
      }
      ghost var before := actions;
      ghost var plan := Tries(rows, outcomes, 1, maxRetries, backoff);
      assert actions + plan == before + plan;
      var attempt := 1;
      while attempt <= maxRetries
        invariant 1 <= attempt <= maxRetries + 1
        invariant forall k | 1 <= k < attempt :: !outcomes(k)
        invariant attempt <= maxRetries ==>
            actions + Tries(rows, outcomes, attempt, maxRetries, backoff) == before + plan
        invariant attempt > maxRetries ==> actions == before + plan
        invariant buffer == old(buffer) && chunks == old(chunks) && counters == old(counters)
      {
        ghost var sofar := actions;
        var ok := outcomes(attempt);
        actions := actions + [Insert(rows, ok)];
        if ok {
          buffer := [];
          chunks := chunks + [Flushed(rows)];
          counters := counters.(eventsFlushed := counters.eventsFlushed + |rows|);
          counters := counters.(flushTotal := counters.flushTotal + 1);
          UpdateBufferDepth();
          assert Succeeds(outcomes, 1, maxRetries);
          return;
        }
        if attempt < maxRetries {
          actions := actions + [Sleep(backoff)];
          assert actions == sofar + [Insert(rows, false), Sleep(backoff)];
          var nextBackoff := backoff * 2;
          if nextBackoff > BACKOFF_CAP {
            nextBackoff := BACKOFF_CAP;
          }
          backoff := nextBackoff;
        }
        attempt := attempt + 1;
      }
      buffer := [];
      chunks := chunks + [Dropped(rows)];
      counters := counters.(eventsDropped := counters.eventsDropped + |rows|);
      counters := counters.(flushFailures := counters.flushFailures + 1);
      UpdateBufferDepth();
    }
  }

  function New<R>(): State<R> {
    State([], [], Counters(0, 0, 0, 0, 0, 0), [])
  }

  // ---------------------------------------------------------------- runs

  function Run<R>(cfg: Config, s: State<R>, messages: seq<Message<R>>): State<R>
    decreases |messages|
  {
    if messages == [] then s else Run(cfg, Handle(cfg, s, messages[0]), messages[1..])
  }

  function Received<R>(messages: seq<Message<R>>): seq<R> {
    if messages == [] then []
    else (if messages[0].InsertRow? then [messages[0].row] else []) + Received(messages[1..])
  }

  /** The rows that have left the buffer, in order. */
  function Gone<R>(chunks: seq<Chunk<R>>): seq<R> {
    if chunks == [] then [] else Gone(chunks[..|chunks| - 1]) + chunks[|chunks| - 1].rows
  }

  datatype Kind = Written | Lost | Overflow

  function KindOf<R>(c: Chunk<R>): Kind {
    match c
    case Flushed(_) => Written
    case Dropped(_) => Lost
    case Evicted(_) => Overflow
  }

  /** The number of rows in chunks of a kind, and the number of such chunks. */
  function Rows<R>(chunks: seq<Chunk<R>>, kind: Kind): nat {
    if chunks == [] then 0
    else
      var last := chunks[|chunks| - 1];
      Rows(chunks[..|chunks| - 1], kind) + if KindOf(last) == kind then |last.rows| else 0
  }

  function Number<R>(chunks: seq<Chunk<R>>, kind: Kind): nat {
    if chunks == [] then 0
    else Number(chunks[..|chunks| - 1], kind) + if KindOf(chunks[|chunks| - 1]) == kind then 1 else 0
  }

  /** The counters tell the chunks. */
  predicate Tallied<R>(s: State<R>) {
    var c := s.counters;
    && c.eventsFlushed == Rows(s.chunks, Written)
    && c.eventsDropped == Rows(s.chunks, Lost) + Rows(s.chunks, Overflow)
    && c.eventsOverflowed == Rows(s.chunks, Overflow)
    && c.flushTotal == Number(s.chunks, Written)
    && c.flushFailures == Number(s.chunks, Lost)
    && c.bufferDepth == |s.buffer|
  }

  function Max(a: int, b: int): int {
    if a < b then b else a
  }

  /** The buffer between messages. */
  predicate Bounded<R>(cfg: Config, s: State<R>) {
    |s.buffer| < Max(1, cfg.batchSize) && |s.buffer| <= cfg.maxPending
  }

  lemma ChunkAdded<R>(before: seq<Chunk<R>>, c: Chunk<R>)
    ensures Gone(before + [c]) == Gone(before) + c.rows
    ensures forall kind :: Rows(before + [c], kind) == Rows(before, kind) + if KindOf(c) == kind then |c.rows| else 0
    ensures forall kind :: Number(before + [c], kind) == Number(before, kind) + if KindOf(c) == kind then 1 else 0
  {
    assert (before + [c])[..|before|] == before;
  }

  lemma FlushKeeps<R>(cfg: Config, s: State<R>, outcomes: nat -> bool)
    requires Tallied(s)
    ensures var t := Flush(cfg, s, outcomes);
            && Tallied(t) && t.buffer == []
            && Gone(t.chunks) + t.buffer == Gone(s.chunks) + s.buffer
            && (forall c | c in t.chunks && c.Evicted? :: c in s.chunks)
  {
    hide Tries, Gone, Rows, Number;
    if s.buffer != [] {
      ChunkAdded(s.chunks, Flushed(s.buffer));
      ChunkAdded(s.chunks, Dropped(s.buffer));
    }
  }

  lemma EvictKeeps<R>(cfg: Config, s: State<R>)
    requires Tallied(Depth(s))
    ensures var t := Depth(Evict(cfg, s));
            && Tallied(t) && |t.buffer| <= cfg.maxPending && |t.buffer| <= |s.buffer|
            && Gone(t.chunks) + t.buffer == Gone(s.chunks) + s.buffer
            && (|s.buffer| <= cfg.maxPending ==> t == Depth(s))
  {
    hide Gone, Rows, Number;
    if |s.buffer| > cfg.maxPending {
      var overflow := |s.buffer| - cfg.maxPending;
      ChunkAdded(s.chunks, Evicted(s.buffer[..overflow]));
      assert s.buffer == s.buffer[..overflow] + s.buffer[overflow..];
    }
  }

  /** One message conserves rows, keeps the counters right and the buffer within its bounds. */
  lemma HandleKeeps<R>(cfg: Config, s: State<R>, m: Message<R>)
    requires Tallied(s) && Bounded(cfg, s)
    ensures var t := Handle(cfg, s, m);
            && Tallied(t) && Bounded(cfg, t)
            && Gone(t.chunks) + t.buffer == Gone(s.chunks) + s.buffer + Received([m])
            && (cfg.maxPending >= Max(1, cfg.batchSize) ==> forall c | c in t.chunks && c.Evicted? :: c in s.chunks)
  {
    hide Gone, Rows, Number, Flush, Evict;
    assert Received([m]) == if m.InsertRow? then [m.row] else [] by { assert [m][1..] == []; }
    match m
    case InsertRow(row, outcomes) =>
      var grown := s.(buffer := s.buffer + [row]);
      assert Tallied(Depth(grown));
      EvictKeeps(cfg, grown);
      var t := Depth(Evict(cfg, grown));
      FlushKeeps(cfg, t, outcomes);
      assert Gone(s.chunks) + (s.buffer + [row]) == (Gone(s.chunks) + s.buffer) + [row];
    case FlushTick(outcomes) => FlushKeeps(cfg, s, outcomes);
    case Stopped(outcomes) => FlushKeeps(cfg, s, outcomes);
  }

  lemma ReceivedOneByOne<R>(messages: seq<Message<R>>)
    requires messages != []
    ensures Received(messages) == Received([messages[0]]) + Received(messages[1..])
  {
    assert [messages[0]][1..] == [];
  }

  /**
   Row conservation over every run and every outcome of the inserts: what was received is, in
   order, what was flushed, dropped and evicted, followed by the buffer.
   */
  lemma {:induction false} RowsConserved<R>(cfg: Config, s: State<R>, messages: seq<Message<R>>)
    requires Tallied(s) && Bounded(cfg, s)
    ensures var t := Run(cfg, s, messages);
            && Gone(t.chunks) + t.buffer == Gone(s.chunks) + s.buffer + Received(messages)
            && Tallied(t) && Bounded(cfg, t)
    decreases |messages|
  {
    if messages == [] {
      assert Gone(s.chunks) + s.buffer + [] == Gone(s.chunks) + s.buffer;
    } else {
      ReceivedOneByOne(messages);
      HandleKeeps(cfg, s, messages[0]);
      var t := Handle(cfg, s, messages[0]);
      hide Handle, Tallied, Bounded, Gone, Received;
      RowsConserved(cfg, t, messages[1..]);
      var before, first, rest := Gone(s.chunks) + s.buffer, Received([messages[0]]), Received(messages[1..]);
      assert before + (first + rest) == (before + first) + rest;
    }
  }

  /** From the start: nothing is lost, invented or reordered. */
  lemma RowsConservedFromStart<R>(cfg: Config, messages: seq<Message<R>>)
    ensures var t := Run(cfg, New(), messages);
            Gone(t.chunks) + t.buffer == Received(messages) && Tallied(t) && Bounded(cfg, t)
  {
    RowsConserved(cfg, New<R>(), messages);
    assert Gone(New<R>().chunks) + New<R>().buffer + Received(messages) == Received(messages);
  }

  /** With room for a batch there is never an eviction. */
  lemma {:induction false} NoEviction<R>(cfg: Config, s: State<R>, messages: seq<Message<R>>)
    requires Tallied(s) && Bounded(cfg, s) && cfg.maxPending >= Max(1, cfg.batchSize)
    requires forall c | c in s.chunks :: !c.Evicted?
    ensures forall c | c in Run(cfg, s, messages).chunks :: !c.Evicted?
    decreases |messages|
  {
    if messages != [] {
      HandleKeeps(cfg, s, messages[0]);
      NoEviction(cfg, Handle(cfg, s, messages[0]), messages[1..]);
    }
  }

  function Same<R>(row: R, n: nat): seq<Message<R>> {
    seq(n, _ => InsertRow(row, _ => true))
  }

  /** Without it the buffer fills up to its limit and the next row evicts one: no flush comes first. */
  lemma {:induction false} EvictionHappens<R>(cfg: Config, s: State<R>, row: R, n: nat)
    requires cfg.maxPending < Max(1, cfg.batchSize)
    requires |s.buffer| + n == cfg.maxPending + 1 && |s.buffer| <= cfg.maxPending
    ensures exists c :: c in Run(cfg, s, Same(row, n)).chunks && c.Evicted?
    decreases n
  {
    var messages := Same(row, n);
    var t := Handle(cfg, s, messages[0]);
    assert messages[1..] == Same(row, n - 1);
    if n == 1 {
      var grown := s.(buffer := s.buffer + [row]);
      var evicted := Evict(cfg, grown);
      assert evicted.chunks[|s.chunks|] == Evicted(grown.buffer[..1]);
      assert messages[1..] == [];
      FlushAdds(cfg, Depth(evicted), messages[0].outcomes);
      assert t.chunks[|s.chunks|] == Evicted(grown.buffer[..1]);
      assert t.chunks[|s.chunks|] in Run(cfg, s, messages).chunks;
    } else {
      EvictionHappens(cfg, t, row, n - 1);
    }
  }

  lemma FlushAdds<R>(cfg: Config, s: State<R>, outcomes: nat -> bool)
    ensures s.chunks <= Flush(cfg, s, outcomes).chunks
  {}

  /** Evictions are possible exactly when the limit is below the batch size. */
  lemma EvictionIffLimitBelowBatch<R>(cfg: Config, row: R)
    ensures (exists messages: seq<Message<R>>, c :: c in Run(cfg, New(), messages).chunks && c.Evicted?)
            <==> cfg.maxPending < Max(1, cfg.batchSize)
  {
    if cfg.maxPending < Max(1, cfg.batchSize) {
      EvictionHappens(cfg, New(), row, cfg.maxPending + 1);
    } else {
      forall messages: seq<Message<R>>
        ensures forall c | c in Run(cfg, New(), messages).chunks :: !c.Evicted?
      {
        NoEviction(cfg, New(), messages);
      }
    }
  }

  /** A flush tries the whole batch, at most so many times, and stops at the first success. */
  lemma {:induction false} TriesAreBounded<R>(rows: seq<R>, outcomes: nat -> bool, n: nat, max: int, backoff: int)
    requires n <= max
    ensures var t := Tries(rows, outcomes, n, max, backoff);
            && 1 <= |t| <= 2 * (max - n) + 1
            && (forall i | 0 <= i < |t| && t[i].Insert? :: t[i].rows == rows && (t[i].ok ==> i == |t| - 1))
            && t[|t| - 1] == Insert(rows, Succeeds(outcomes, n, max))
            && (!Succeeds(outcomes, n, max) ==> |t| == 2 * (max - n) + 1)
    decreases max - n
  {
    var t := Tries(rows, outcomes, n, max, backoff);
    if outcomes(n) {
      assert Succeeds(outcomes, n, max);
    } else if n < max {
      var tail := Tries(rows, outcomes, n + 1, max, NextBackoff(backoff));
      TriesAreBounded(rows, outcomes, n + 1, max, NextBackoff(backoff));
      assert Succeeds(outcomes, n, max) <==> Succeeds(outcomes, n + 1, max);
      assert forall i | 2 <= i < |t| :: t[i] == tail[i - 2];
    }
  }
}
