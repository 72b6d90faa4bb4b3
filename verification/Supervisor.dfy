/**
 The writer supervisor of cmd/writer/supervisor.go: pipelines of a consumer and an inserter actor,
 restarted with backoff by messages the supervisor sends itself.
 */
module Supervisor {
  import opened Wrappers

  const MAX_PIPELINE_RESTARTS := 5
  const RESTART_BACKOFF := 2
  const RESTART_BACKOFF_CAP := 30

  datatype PipelineState = Active | Restarting | Degraded

  datatype Lifecycle = Lifecycle(
    state: PipelineState,
    restarts: nat,
    lastError: string,
    consumer: Option<nat>,
    inserter: Option<nat>)

  /** A pair of actors that was spawned for a family. */
  datatype Pair = Pair(family: string, inserter: nat, consumer: nat)

  /** A restart message that was scheduled, in seconds from then. */
  datatype Timer = Timer(family: string, delay: int)

  /** The supervisor's table and everything it has done to the outside. */
  datatype State = State(
    families: map<string, Lifecycle>,
    spawned: seq<Pair>,
    poisoned: set<nat>,
    pending: multiset<string>,
    scheduled: seq<Timer>)

  function Pow2(n: nat): nat {
    if n == 0 then 1 else 2 * Pow2(n - 1)
  }

  /** The delay before the n-th restart of a family. */
  function Backoff(n: int): int {
    if n <= 1 then RESTART_BACKOFF
    else if Pow2(n) > RESTART_BACKOFF_CAP then RESTART_BACKOFF_CAP
    else Pow2(n)
  }

  /** Actor identifiers are handed out in order. */
  function NewPair(s: State, family: string): Pair {
    Pair(family, 2 * |s.spawned|, 2 * |s.spawned| + 1)
  }

  function Spawn(s: State, family: string, restarts: nat, lastError: string): State {
    var p := NewPair(s, family);
    s.(spawned := s.spawned + [p],
       families := s.families[family := Lifecycle(Active, restarts, lastError, Some(p.consumer), Some(p.inserter))])
  }

  function Handles(lc: Lifecycle): set<nat> {
    (if lc.consumer.Some? then {lc.consumer.value} else {}) + (if lc.inserter.Some? then {lc.inserter.value} else {})
  }

  /** A consumer of the family reports that it could not start. */
  function Fail(s: State, family: string, error: string): State {
    if family !in s.families || s.families[family].state != Active then s
    else
      var lc := s.families[family];
      var restarts := lc.restarts + 1;
      var poisoned := s.poisoned + Handles(lc);
      if restarts > MAX_PIPELINE_RESTARTS then
        s.(families := s.families[family := Lifecycle(Degraded, restarts, error, None, None)], poisoned := poisoned)
      else
        s.(families := s.families[family := Lifecycle(Restarting, restarts, error, None, None)],
           poisoned := poisoned,
           pending := s.pending + multiset{family},
           scheduled := s.scheduled + [Timer(family, Backoff(restarts))])
  }

  /** A restart message is handled; nothing here looks for the state `Restarting`. */
  function Restart(s: State, family: string): State {
    if family !in s.families || s.families[family].state == Degraded then s
    else Spawn(s, family, s.families[family].restarts, s.families[family].lastError)
  }

  class WriterSupervisor {
    var families: map<string, Lifecycle>
    var spawned: seq<Pair>
    var poisoned: set<nat>
    var pending: multiset<string>
    var scheduled: seq<Timer>

    function Current(): State
      reads this
    {
      State(families, spawned, poisoned, pending, scheduled)
    }

    constructor ()
      ensures Current() == State(map[], [], {}, multiset{}, [])
    {
      families, spawned, poisoned, pending, scheduled := map[], [], {}, multiset{}, [];
    }

    /** Spawns the enabled families; fails when there are none. */
    method Start(pipelines: seq<string>, enabled: set<string>) returns (ok: bool)
      modifies this
      ensures Current() == Started(old(Current()), pipelines, enabled)
      ensures ok <==> exists i | 0 <= i < |pipelines| :: pipelines[i] in enabled
    {
      ok := false;
      assert pipelines[..|pipelines|] == pipelines;
      for i := 0 to |pipelines|
        invariant Current() == Started(old(Current()), pipelines[..i], enabled)
        invariant ok <==> exists j | 0 <= j < i :: pipelines[j] in enabled
      {
        assert pipelines[..i + 1][..i] == pipelines[..i];
        if pipelines[i] in enabled {
          var lc := SpawnPipeline(pipelines[i]);
          families := families[pipelines[i] := lc];
          ok := true;
        }
      }
    }

    method SpawnPipeline(family: string) returns (lc: Lifecycle)
      modifies this`spawned
      ensures var p := NewPair(old(Current()), family);
              spawned == old(spawned) + [p] && lc == Lifecycle(Active, 0, "", Some(p.consumer), Some(p.inserter))
    {
      var inserter := 2 * |spawned|;
      var consumer := inserter + 1;
      spawned := spawned + [Pair(family, inserter, consumer)];
      lc := Lifecycle(Active, 0, "", Some(consumer), Some(inserter));
    }

    method PoisonPipeline(lc: Lifecycle) returns (r: Lifecycle)
      modifies this`poisoned
      ensures poisoned == old(poisoned) + Handles(lc)
      ensures r == lc.(consumer := None, inserter := None)
    {
      r := lc;
      if r.consumer.Some? {
        poisoned := poisoned + {r.consumer.value};
        r := r.(consumer := None);
      }
      if r.inserter.Some? {
        poisoned := poisoned + {r.inserter.value};
        r := r.(inserter := None);
      }
    }

    method HandlePipelineFailure(family: string, error: string)
      modifies this
      ensures Current() == Fail(old(Current()), family, error)
    {
      if family !in families {
        return;
      }
      var lc := families[family];
      if lc.state == Degraded || lc.state == Restarting {
        return;
      }
      lc := lc.(restarts := lc.restarts + 1);
      lc := lc.(lastError := error);
      if lc.restarts > MAX_PIPELINE_RESTARTS {
        lc := lc.(state := Degraded);
        lc := PoisonPipeline(lc);
        families := families[family := lc];
        return;
      }
      var backoff := CalcBackoff(lc.restarts);
      lc := lc.(state := Restarting);
      lc := PoisonPipeline(lc);
      families := families[family := lc];
      pending := pending + multiset{family};
      scheduled := scheduled + [Timer(family, backoff)];
    }

    method HandlePipelineRestart(family: string)
      modifies this
      ensures Current() == Restart(old(Current()), family)
    {
      if family !in families || families[family].state == Degraded {
        return;
      }
      var lc := families[family];
      var fresh' := SpawnPipeline(family);
      fresh' := fresh'.(restarts := lc.restarts);
      fresh' := fresh'.(lastError := lc.lastError);
      families := families[family := fresh'];
    }

    method CalcBackoff(restart: int) returns (backoff: int)
      ensures backoff == Backoff(restart)
    {
      backoff := RESTART_BACKOFF;
      var i := 1;
      assert Pow2(1) == 2 * Pow2(0);
      while i < restart
        invariant 1 <= i && (i <= restart || i == 1)
        invariant backoff == Pow2(i) <= RESTART_BACKOFF_CAP
      {
        backoff := backoff * 2;
        i := i + 1;
        if backoff > RESTART_BACKOFF_CAP {
          Pow2Grows(i, restart);
          return RESTART_BACKOFF_CAP;
        }
      }
    }
  }

  lemma {:induction false} Pow2Grows(m: nat, n: nat)
    requires m <= n
    ensures Pow2(m) <= Pow2(n)
  {
    if m < n {
      Pow2Grows(m, n - 1);
    }
  }

  function Started(s: State, pipelines: seq<string>, enabled: set<string>): State {
    if pipelines == [] then s
    else
      var before := Started(s, pipelines[..|pipelines| - 1], enabled);
      var family := pipelines[|pipelines| - 1];
      if family in enabled then Spawn(before, family, 0, "") else before
  }

  // ---------------------------------------------------------------- runs

  datatype Event = Failure(family: string, error: string) | TimerFired(family: string)

  /** Failures can be reported at any time; a timer fires only if it was set, and once. */
  predicate Enabled(s: State, e: Event) {
    e.TimerFired? ==> e.family in s.pending
  }

  function Step(s: State, e: Event): State
    requires Enabled(s, e)
  {
    match e
    case Failure(family, error) => Fail(s, family, error)
    case TimerFired(family) => Restart(s.(pending := s.pending - multiset{family}), family)
  }

  predicate Run(s: State, events: seq<Event>)
    decreases |events|
  {
    events != [] ==> Enabled(s, events[0]) && Run(Step(s, events[0]), events[1..])
  }

  function End(s: State, events: seq<Event>): State
    requires Run(s, events)
    decreases |events|
  {
    if events == [] then s else End(Step(s, events[0]), events[1..])
  }

  function SpawnsOf(pairs: seq<Pair>, family: string): nat {
    if pairs == [] then 0
    else SpawnsOf(pairs[..|pairs| - 1], family) + if pairs[|pairs| - 1].family == family then 1 else 0
  }

  function DelaysOf(timers: seq<Timer>, family: string): seq<int> {
    if timers == [] then []
    else
      var last := timers[|timers| - 1];
      DelaysOf(timers[..|timers| - 1], family) + if last.family == family then [last.delay] else []
  }

  function Schedule(n: nat): seq<int> {
    seq(n, i => Backoff(i + 1))
  }

  function Min(a: int, b: int): int {
    if a < b then a else b
  }

  /** The pair is the one recorded for its family. */
  predicate Recorded(s: State, p: Pair) {
    && p.family in s.families
    && s.families[p.family].consumer == Some(p.consumer)
    && s.families[p.family].inserter == Some(p.inserter)
  }

  predicate Poisoned(s: State, p: Pair) {
    p.consumer in s.poisoned && p.inserter in s.poisoned
  }

  predicate Untouched(s: State, p: Pair) {
    p.consumer !in s.poisoned && p.inserter !in s.poisoned
  }

  /** What holds of one family. */
  ghost predicate FamilyOk(s: State, f: string) {
    if f !in s.families then s.pending[f] == 0 && SpawnsOf(s.spawned, f) == 0 && DelaysOf(s.scheduled, f) == []
    else
      var lc := s.families[f];
      && s.pending[f] == (if lc.state == Restarting then 1 else 0)
      && (lc.consumer.Some? <==> lc.state == Active) && (lc.inserter.Some? <==> lc.state == Active)
      && (lc.state == Degraded <==> lc.restarts == MAX_PIPELINE_RESTARTS + 1)
      && lc.restarts <= MAX_PIPELINE_RESTARTS + 1
      && SpawnsOf(s.spawned, f) == lc.restarts + (if lc.state == Active then 1 else 0)
      && DelaysOf(s.scheduled, f) == Schedule(Min(lc.restarts, MAX_PIPELINE_RESTARTS))
      && (lc.state == Active ==> exists i | 0 <= i < |s.spawned| ::
                s.spawned[i].family == f && Recorded(s, s.spawned[i]))
  }

  /** No pair leaks: each one ever spawned is running and recorded, or has been poisoned. */
  ghost predicate NoLeaks(s: State) {
    && (forall i | 0 <= i < |s.spawned| :: s.spawned[i].inserter == 2 * i && s.spawned[i].consumer == 2 * i + 1)
    && (forall x | x in s.poisoned :: x < 2 * |s.spawned|)
    && (forall i | 0 <= i < |s.spawned| ::
          if Recorded(s, s.spawned[i]) then Untouched(s, s.spawned[i]) else Poisoned(s, s.spawned[i]))
  }

  ghost predicate Safe(s: State) {
    NoLeaks(s) && forall f :: FamilyOk(s, f)
  }

  /** What an event of one family leaves alone. */
  ghost predicate OthersUntouched(s: State, t: State, family: string) {
    forall f | f != family ::
      && (f in t.families <==> f in s.families)
      && (f in s.families ==> t.families[f] == s.families[f])
      && t.pending[f] == s.pending[f]
      && SpawnsOf(t.spawned, f) == SpawnsOf(s.spawned, f)
      && DelaysOf(t.scheduled, f) == DelaysOf(s.scheduled, f)
  }
}
