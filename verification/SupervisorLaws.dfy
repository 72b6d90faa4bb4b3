/** Safety of the writer supervisor over every run. */
module SupervisorLaws {
  import opened Wrappers
  import opened Supervisor

  /** Spawning for a family that has no running pair. */
  lemma SpawnIsSafe(s: State, f: string, restarts: nat, lastError: string)
    requires NoLeaks(s)
    requires f in s.families ==> s.families[f].consumer.None? && s.families[f].inserter.None?
    ensures var t := Spawn(s, f, restarts, lastError);
            && NoLeaks(t) && OthersUntouched(s, t, f)
            && SpawnsOf(t.spawned, f) == SpawnsOf(s.spawned, f) + 1
            && t.spawned[|s.spawned|].family == f && Recorded(t, t.spawned[|s.spawned|])
  {
    var t := Spawn(s, f, restarts, lastError);
    assert t.spawned[..|t.spawned| - 1] == s.spawned;
    forall i | 0 <= i < |t.spawned|
      ensures if Recorded(t, t.spawned[i]) then Untouched(t, t.spawned[i]) else Poisoned(t, t.spawned[i])
    {
      if i < |s.spawned| {
        var p := s.spawned[i];
        assert t.spawned[i] == p;
        if p.family == f {
          assert !Recorded(s, p) && !Recorded(t, p);
        } else {
          assert Recorded(s, p) <==> Recorded(t, p);
        }
      }
    }
  }

  lemma FailIsSafe(s: State, f: string, error: string)
    requires Safe(s)
    ensures Safe(Fail(s, f, error)) && OthersUntouched(s, Fail(s, f, error), f)
    ensures f in s.families && s.families[f].state == Active ==>
              f in Fail(s, f, error).families && Fail(s, f, error).families[f].lastError == error
  {
    var t := Fail(s, f, error);
    assert FamilyOk(s, f);
    if f in s.families && s.families[f].state == Active {
      FailLeaksNothing(s, f, error);
      FailKeepsFamily(s, f, error);
      assert OthersUntouched(s, t, f) by {
        if |t.scheduled| > |s.scheduled| {
          assert t.scheduled[..|s.scheduled|] == s.scheduled;
        }
      }
      OthersStayOk(s, t, f);
    }
  }

  lemma FailLeaksNothing(s: State, f: string, error: string)
    requires NoLeaks(s) && FamilyOk(s, f) && f in s.families && s.families[f].state == Active
    ensures NoLeaks(Fail(s, f, error))
  {
    var t := Fail(s, f, error);
    var lc := s.families[f];
    var k :| 0 <= k < |s.spawned| && s.spawned[k].family == f && Recorded(s, s.spawned[k]);
    assert Handles(lc) == {s.spawned[k].consumer, s.spawned[k].inserter};
    forall i | 0 <= i < |s.spawned|
      ensures if Recorded(t, s.spawned[i]) then Untouched(t, s.spawned[i]) else Poisoned(t, s.spawned[i])
    {
      var p := s.spawned[i];
      if p.family != f {
        assert Recorded(s, p) <==> Recorded(t, p);
        assert i != k;
      } else {
        assert !Recorded(t, p);
        if Recorded(s, p) {
          assert p.consumer == s.spawned[k].consumer;
        }
      }
    }
  }

  lemma FailKeepsFamily(s: State, f: string, error: string)
    requires FamilyOk(s, f) && f in s.families && s.families[f].state == Active
    ensures FamilyOk(Fail(s, f, error), f)
  {
    var t := Fail(s, f, error);
    var n := s.families[f].restarts;
    if n < MAX_PIPELINE_RESTARTS {
      assert t.scheduled[..|s.scheduled|] == s.scheduled;
      assert Schedule(n + 1) == Schedule(n) + [Backoff(n + 1)];
    }
  }

  /** The invariant of a family speaks of nothing that another family's events change. */
  lemma OthersStayOk(s: State, t: State, f: string)
    requires forall g :: FamilyOk(s, g)
    requires FamilyOk(t, f) && OthersUntouched(s, t, f) && s.spawned <= t.spawned
    ensures forall g :: FamilyOk(t, g)
  {
    forall g
      ensures FamilyOk(t, g)
    {
      assert FamilyOk(s, g);
      if g != f && g in s.families && s.families[g].state == Active {
        var i :| 0 <= i < |s.spawned| && s.spawned[i].family == g && Recorded(s, s.spawned[i]);
        assert t.spawned[i] == s.spawned[i] && Recorded(t, t.spawned[i]);
      }
    }
  }

  /** A timer can only be pending for a family that is restarting: that is why the handler need not look. */
  lemma PendingMeansRestarting(s: State, f: string)
    requires Safe(s) && f in s.pending
    ensures f in s.families && s.families[f].state == Restarting && s.pending[f] == 1
    ensures s.families[f].consumer.None? && s.families[f].inserter.None?
  {
    assert FamilyOk(s, f);
  }

  lemma TimerIsSafe(s: State, f: string)
    requires Safe(s) && f in s.pending
    ensures var t := Step(s, TimerFired(f));
            && Safe(t) && OthersUntouched(s, t, f)
            && f in t.families && f in s.families
            && t.families[f].state == Active && t.families[f].restarts == s.families[f].restarts
            && t.families[f].lastError == s.families[f].lastError
  {
    PendingMeansRestarting(s, f);
    var popped := s.(pending := s.pending - multiset{f});
    var lc := s.families[f];
    assert NoLeaks(popped);
    SpawnIsSafe(popped, f, lc.restarts, lc.lastError);
    var t := Step(s, TimerFired(f));
    assert FamilyOk(s, f);
    assert FamilyOk(t, f);
    OthersStayOk(s, t, f);
  }

  lemma StepIsSafe(s: State, e: Event)
    requires Safe(s) && Enabled(s, e)
    ensures Safe(Step(s, e)) && OthersUntouched(s, Step(s, e), e.family)
  {
    match e
    case Failure(f, error) => FailIsSafe(s, f, error);
    case TimerFired(f) => TimerIsSafe(s, f);
  }

  lemma {:induction false} StartIsSafe(pipelines: seq<string>, enabled: set<string>)
    requires forall i, j | 0 <= i < j < |pipelines| :: pipelines[i] != pipelines[j]
    ensures var s := Started(State(map[], [], {}, multiset{}, []), pipelines, enabled);
            && Safe(s)
            && forall f :: f in s.families <==> f in pipelines && f in enabled
  {
    if pipelines != [] {
      var init, f := pipelines[..|pipelines| - 1], pipelines[|pipelines| - 1];
      StartIsSafe(init, enabled);
      var before := Started(State(map[], [], {}, multiset{}, []), init, enabled);
      assert f !in before.families by {
        assert f !in init;
      }
      assert forall g :: g in pipelines <==> g in init || g == f by {
        assert pipelines == init + [f];
      }
      if f in enabled {
        assert FamilyOk(before, f);
        SpawnIsSafe(before, f, 0, "");
        var s := Spawn(before, f, 0, "");
        assert Schedule(0) == [];
        assert FamilyOk(s, f);
        OthersStayOk(before, s, f);
      }
    }
  }

  /** Safety over every run: whatever the failures and their order. */
  lemma {:induction false} RunsAreSafe(s: State, events: seq<Event>)
    requires Safe(s) && Run(s, events)
    ensures Safe(End(s, events))
    decreases |events|
  {
    if events != [] {
      StepIsSafe(s, events[0]);
      RunsAreSafe(Step(s, events[0]), events[1..]);
    }
  }

  /** A family is spawned at most once at the start and five times after, with the documented delays. */
  lemma RestartBudget(s: State, events: seq<Event>, f: string)
    requires Safe(s) && Run(s, events)
    ensures SpawnsOf(End(s, events).spawned, f) <= 1 + MAX_PIPELINE_RESTARTS
    ensures DelaysOf(End(s, events).scheduled, f) <= [2, 4, 8, 16, 30]
  {
    RunsAreSafe(s, events);
    assert FamilyOk(End(s, events), f);
    FiveDelays();
  }

  lemma FiveDelays()
    ensures Schedule(MAX_PIPELINE_RESTARTS) == [2, 4, 8, 16, 30]
    ensures forall n | 0 <= n <= MAX_PIPELINE_RESTARTS :: Schedule(n) <= Schedule(MAX_PIPELINE_RESTARTS)
  {
    assert Pow2(1) == 2 && Pow2(2) == 4 && Pow2(3) == 8 && Pow2(4) == 16 && Pow2(5) == 32;
  }

  /**
   Degraded is absorbing: nothing that happens later changes the family or spawns for it, not even a
   restart message from nowhere.
   */
  lemma {:induction false} DegradedIsAbsorbing(s: State, events: seq<Event>, f: string)
    requires Safe(s) && Run(s, events)
    requires f in s.families && s.families[f].state == Degraded
    ensures var t := End(s, events);
            f in t.families && t.families[f] == s.families[f] && SpawnsOf(t.spawned, f) == SpawnsOf(s.spawned, f)
    ensures Restart(End(s, events), f) == End(s, events)
    decreases |events|
  {
    if events != [] {
      var e := events[0];
      StepIsSafe(s, e);
      if e.family == f && e.TimerFired? {
        PendingMeansRestarting(s, f);
      }
      DegradedIsAbsorbing(Step(s, e), events[1..], f);
    }
  }

  /** The events of other families, whatever they are, do not touch a family. */
  lemma {:induction false} FamiliesAreIndependent(s: State, events: seq<Event>, f: string)
    requires Safe(s) && Run(s, events)
    requires forall i | 0 <= i < |events| :: events[i].family != f
    ensures var t := End(s, events);
            && (f in t.families <==> f in s.families)
            && (f in s.families ==> t.families[f] == s.families[f])
            && t.pending[f] == s.pending[f] && SpawnsOf(t.spawned, f) == SpawnsOf(s.spawned, f)
    decreases |events|
  {
    if events != [] {
      StepIsSafe(s, events[0]);
      FamiliesAreIndependent(Step(s, events[0]), events[1..], f);
    }
  }

  /** Without the invariant the handler would not be safe: a stray restart of a running family loses its pair. */
  lemma StrayRestartLeaks(s: State, f: string, i: nat)
    requires Safe(s) && i < |s.spawned| && s.spawned[i].family == f && Recorded(s, s.spawned[i])
    ensures var t := Restart(s, f);
            i < |t.spawned| && !Recorded(t, t.spawned[i]) && !Poisoned(t, t.spawned[i])
  {
    assert FamilyOk(s, f);
  }
}
