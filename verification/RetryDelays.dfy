/** How long the retry loop waits: the sleeps of every run, and when they stay within the configured cap. */
module RetryDelays {
  import opened Wrappers
  import opened Venue
  import opened Retry
  import opened PipelineLaws
  import Products

  // ---------------------------------------------------------------- the sleeps of a run

  /** The delays slept in a trace, in order. */
  function Sleeps(t: seq<Event>): seq<int> {
    if t == [] then []
    else
      var e := t[|t| - 1];
      Sleeps(t[..|t| - 1]) + if e.Slept? then [e.delay] else []
  }

  /** The delay before jitter that follows attempt `k`. */
  function Nominal(p: Policy, k: nat): int
    requires k >= 1
  {
    if k == 1 then p.baseDelay else NextDelay(p, Nominal(p, k - 1))
  }

  lemma {:induction false} SleepsSum(a: seq<Event>, b: seq<Event>)
    ensures Sleeps(a + b) == Sleeps(a) + Sleeps(b)
  {
    if b == [] {
      assert a + b == a;
    } else {
      assert (a + b)[..|a + b| - 1] == a + b[..|b| - 1];
      SleepsSum(a, b[..|b| - 1]);
    }
  }

  lemma SleepsOfOne(e: Event)
    ensures Sleeps([e]) == if e.Slept? then [e.delay] else []
  {
    assert [e][..0] == [];
  }

  lemma {:induction false} Sleepless(t: seq<Event>)
    requires forall i | 0 <= i < |t| :: !t[i].Slept?
    ensures Sleeps(t) == []
  {
    if t != [] {
      Sleepless(t[..|t| - 1]);
    }
  }

  /** What a submit adds to the log. */
  function SubmitTrace(hash: string -> string, intent: Intent, fate: SubmitFate): seq<Event> {
    if intent.side == NoSide || !fate.sent then [] else [SubmitSent(OrderOf(hash, intent, fate.report), fate.response)]
  }

  lemma SubmitLogs(hash: string -> string, v: State, intent: Intent, fate: SubmitFate)
    ensures Submit(hash, v, intent, fate).0.log == v.log + SubmitTrace(hash, intent, fate)
    ensures intent.side != NoSide && fate.sent && RetryableResponse(fate.response) ==>
              Submit(hash, v, intent, fate).1.Failed? && Submit(hash, v, intent, fate).1.problem.retryable
  {
    hide Take, Holds;
    if fate.response.Response? {
      ClassificationIsExact(fate.response.status, fate.response.code);
    }
  }

  /** The events of an attempt after which the next one follows. */
  function Round(hash: string -> string, intent: Intent, a: Attempt, limit: Option<int>, slept: int): seq<Event> {
    Checks(a, limit) + SubmitTrace(hash, intent, a.submit) + [HaltChecked(false), Slept(slept)]
  }

  lemma RoundSleeps(hash: string -> string, intent: Intent, a: Attempt, limit: Option<int>, slept: int)
    ensures Sleeps(Round(hash, intent, a, limit, slept)) == [slept]
  {
    hide Sleeps, Checks, SubmitTrace;
    var before, halt := Checks(a, limit) + SubmitTrace(hash, intent, a.submit), [HaltChecked(false)];
    NoSleepInTrace(hash, intent, a, limit);
    Sleepless(halt);
    SleepsSum(before, halt);
    SleepsSum(before + halt, [Slept(slept)]);
    SleepsOfOne(Slept(slept));
    assert Round(hash, intent, a, limit, slept) == (before + halt) + [Slept(slept)];
  }

  /** One turn of the loop: either it is the last, without a sleep, or it is a whole round. */
  lemma OneTurn(hash: string -> string, p: Policy, s: Schedule, limit: Option<int>, intent: Intent,
      attempt: nat, delay: int, last: Option<Problem>, v: State)
    returns (goesOn: bool, problem: Option<Problem>, next: State)
    requires 1 <= attempt <= p.maxAttempts && (attempt > 1 ==> last.Some?)
    ensures var a, out := s.attempts(attempt), RetryFrom(hash, p, s, limit, intent, attempt, delay, last, v);
            && (goesOn ==>
                  && attempt < p.maxAttempts && problem.Some?
                  && next.log == v.log + Round(hash, intent, a, limit, Jittered(delay, a.jitter))
                  && out == RetryFrom(hash, p, s, limit, intent, attempt + 1, NextDelay(p, delay), problem, next))
            && (!goesOn ==> exists t :: out.0.log == v.log + t && Sleeps(t) == [])
            && (intent.side != NoSide && Transits(a, limit) && attempt < p.maxAttempts ==> goesOn)
  {
    hide Submit, NextDelay, Jittered, Annotate, AnnotateHalted, AnnotateDeadline, Sleeps, RetryableResponse,
      SubmitTrace;
    var a := s.attempts(attempt);
    var w := RetryFrom(hash, p, s, limit, intent, attempt, delay, last, v).0;
    var slept := Jittered(delay, a.jitter);
    goesOn, problem, next := false, None, v;
    if a.done || (limit.Some? && a.now > limit.value) {
      EndsWithoutSleep(v.log, [], [ContextChecked(a.done)] + if a.done then [] else [ClockRead(a.now)], w.log);
    } else {
      var v2 := if limit.Some? then Log(Log(v, ContextChecked(false)), ClockRead(a.now))
          else Log(v, ContextChecked(false));
      var (v3, r3) := Submit(hash, v2, intent, a.submit);
      SubmitLogs(hash, v2, intent, a.submit);
      var before := Checks(a, limit) + SubmitTrace(hash, intent, a.submit);
      assert v3.log == v.log + before by {
        assert v2.log == v.log + Checks(a, limit);
      }
      NoSleepInTrace(hash, intent, a, limit);
      if r3.Ok? || !r3.problem.retryable || attempt == p.maxAttempts {
        assert w == v3;
      } else if a.halted {
        EndsWithoutSleep(v.log, before, [HaltChecked(true)], w.log);
      } else if a.doneBeforeSleep {
        EndsWithoutSleep(v.log, before, [HaltChecked(false), ContextChecked(true)], w.log);
      } else {
        goesOn, problem := true, Some(r3.problem);
        next := Log(Log(v3, HaltChecked(false)), Slept(slept));
        assert next.log == v.log + (before + [HaltChecked(false), Slept(slept)]);
      }
    }
  }

  lemma EndsWithoutSleep(log: seq<Event>, before: seq<Event>, extra: seq<Event>, end: seq<Event>)
    requires end == log + before + extra
    requires forall i | 0 <= i < |before| :: !before[i].Slept?
    requires forall i | 0 <= i < |extra| :: !extra[i].Slept?
    ensures exists t :: end == log + t && Sleeps(t) == []
  {
    Sleepless(before + extra);
    assert end == log + (before + extra);
  }

  lemma NoSleepInTrace(hash: string -> string, intent: Intent, a: Attempt, limit: Option<int>)
    ensures var t := Checks(a, limit) + SubmitTrace(hash, intent, a.submit);
            Sleeps(t) == [] && forall i | 0 <= i < |t| :: !t[i].Slept?
  {
    Sleepless(Checks(a, limit) + SubmitTrace(hash, intent, a.submit));
  }

  /**
   The sleeps of every run, exactly: the nominal delays one after the other, each with the jitter
   drawn for it; all of them when every attempt is a transient failure.
   */
  lemma {:induction false} SleepsAreJittered(hash: string -> string, p: Policy, s: Schedule, limit: Option<int>,
      intent: Intent, attempt: nat, last: Option<Problem>, v: State) returns (t: seq<Event>)
    requires 1 <= attempt <= p.maxAttempts && (attempt > 1 ==> last.Some?)
    ensures RetryFrom(hash, p, s, limit, intent, attempt, Nominal(p, attempt), last, v).0.log == v.log + t
    ensures |Sleeps(t)| <= p.maxAttempts - attempt
    ensures forall k | 0 <= k < |Sleeps(t)| ::
              Sleeps(t)[k] == Jittered(Nominal(p, attempt + k), s.attempts(attempt + k).jitter)
    ensures intent.side != NoSide && (forall n | attempt <= n < p.maxAttempts :: Transits(s.attempts(n), limit)) ==>
              |Sleeps(t)| == p.maxAttempts - attempt
    decreases p.maxAttempts - attempt
  {
    hide RetryFrom, NextDelay, Jittered, Sleeps, Round, Transits;
    var delay := Nominal(p, attempt);
    var goesOn, problem, next := OneTurn(hash, p, s, limit, intent, attempt, delay, last, v);
    if goesOn {
      var round := Round(hash, intent, s.attempts(attempt), limit, Jittered(delay, s.attempts(attempt).jitter));
      var rest := SleepsAreJittered(hash, p, s, limit, intent, attempt + 1, problem, next);
      t := round + rest;
      assert v.log + t == next.log + rest;
      RoundSleeps(hash, intent, s.attempts(attempt), limit, Jittered(delay, s.attempts(attempt).jitter));
      SleepsSum(round, rest);
      forall k | 0 <= k < |Sleeps(t)|
        ensures Sleeps(t)[k] == Jittered(Nominal(p, attempt + k), s.attempts(attempt + k).jitter)
      {
        assert k > 0 ==> Sleeps(t)[k] == Sleeps(rest)[k - 1];
      }
    } else {
      t :| RetryFrom(hash, p, s, limit, intent, attempt, delay, last, v).0.log == v.log + t && Sleeps(t) == [];
    }
  }

  // ---------------------------------------------------------------- how long a sleep can be

  /** The longest sleep that jitter makes of a delay. */
  function Longest(delay: int): int {
    if delay > 0 then (5 * delay - 1) / 4 else -((3 * -delay) / 4)
  }

  /** Jitter lengthens a delay by less than a quarter; the longest sleep is as stated, and attained. */
  lemma JitterBound(delay: int, jitter: Jitter)
    ensures Jittered(delay, jitter) <= Longest(delay)
  {
    var d, x := delay as real, delay as real * jitter;
    if delay > 0 {
      Products.TimesMonotone(jitter, 1.25, d, jitter * d, 1.25 * d);
      Products.TimesMonotone(0.0, jitter, d, 0.0 * d, jitter * d);
      assert 1.25 * d == (5 * delay) as real / 4.0;
      FloorBelow(x, 5 * delay);
    } else {
      Products.TimesMonotone(0.75, jitter, -d, 0.75 * -d, jitter * -d);
      assert 0.75 * -d == (3 * -delay) as real / 4.0;
      NegativeTruncation(x, 3 * -delay);
    }
  }

  lemma FloorBelow(x: real, n: int)
    requires 0.0 <= x < n as real / 4.0
    ensures x.Floor <= (n - 1) / 4
  {
    var f := x.Floor;
    assert 4.0 * f as real <= 4.0 * x < n as real;
    assert (4 * f) as real < n as real;
  }

  lemma NegativeTruncation(x: real, n: nat)
    requires x <= -(n as real / 4.0)
    ensures Truncate(x) <= -(n / 4)
  {
    var y := -x;
    assert y >= n as real / 4.0 >= (n / 4) as real by {
      assert n >= 4 * (n / 4);
      assert n as real >= (4 * (n / 4)) as real == 4.0 * (n / 4) as real;
    }
    assert y.Floor >= n / 4;
  }

  lemma LongestIsAttained(delay: int) returns (jitter: Jitter)
    ensures Jittered(delay, jitter) == Longest(delay)
  {
    if delay > 0 {
      var m := (5 * delay - 1) / 4;
      Between(delay, m);
      var d := delay as real;
      var j := m as real / d;
      assert j * d == m as real;
      jitter := j;
      assert d * jitter == m as real;
    } else {
      jitter := 0.75;
      var x := -delay;
      assert delay as real * 0.75 == -((3 * x) as real / 4.0);
      QuarterFloor(3 * x);
    }
  }

  lemma QuarterFloor(n: nat)
    ensures Truncate(-(n as real / 4.0)) == -(n / 4)
  {
    var q := n as real / 4.0;
    assert n == 4 * (n / 4) + n % 4;
    assert n as real == 4.0 * (n / 4) as real + (n % 4) as real;
    assert (n / 4) as real <= q < (n / 4) as real + 1.0;
    assert q.Floor == n / 4;
  }

  lemma Between(delay: int, m: int)
    requires delay > 0 && m == (5 * delay - 1) / 4
    ensures 0.75 <= m as real / delay as real < 1.25
  {
    var d, q := delay as real, m as real / delay as real;
    assert q * d == m as real;
    assert 3 * delay <= 4 * m < 5 * delay;
    assert 3.0 * d == (3 * delay) as real <= (4 * m) as real == 4.0 * m as real;
    assert 4.0 * m as real == (4 * m) as real < (5 * delay) as real == 5.0 * d;
    Products.Cancel(0.75, q, d, 0.75 * d, m as real);
    Products.Cancel(q, 1.25, d, m as real, 1.25 * d);
  }

  lemma LongestGrows(a: int, b: int)
    requires a <= b
    ensures Longest(a) <= Longest(b)
  {
  }

  lemma {:induction false} NominalIsCapped(p: Policy, k: nat)
    requires k >= 2
    ensures Nominal(p, k) <= p.maxDelay
  {
    hide Grown;
  }

  /**
   The bound on waiting: the first sleep is the base delay with less than a quarter added, whatever
   the cap, and every later one the cap with less than a quarter added, at most.
   */
  lemma SleepBounds(hash: string -> string, p: Policy, s: Schedule, intent: Intent, v: State) returns (t: seq<Event>)
    ensures RetrySubmit(hash, p, s, intent, v).0.log == v.log + t
    ensures |Sleeps(t)| < Normalized(p).maxAttempts
    ensures forall k | 0 <= k < |Sleeps(t)| :: Sleeps(t)[k] <= Longest(if k == 0 then p.baseDelay else p.maxDelay)
  {
    hide RetryFrom, Jittered, Sleeps, Longest, NextDelay;
    var q := Normalized(p);
    t := SleepsAreJittered(hash, q, s, Limit(q, s.start), intent, 1, None, v);
    forall k | 0 <= k < |Sleeps(t)|
      ensures Sleeps(t)[k] <= Longest(if k == 0 then p.baseDelay else p.maxDelay)
    {
      JitterBound(Nominal(q, 1 + k), s.attempts(1 + k).jitter);
      if k > 0 {
        NominalIsCapped(q, 1 + k);
        LongestGrows(Nominal(q, 1 + k), q.maxDelay);
      }
    }
  }

  // ---------------------------------------------------------------- when the cap holds

  /** A run of this schedule sleeps longer than the cap. */
  ghost predicate Oversleeps(hash: string -> string, p: Policy, s: Schedule, intent: Intent, v: State) {
    exists t, k :: RetrySubmit(hash, p, s, intent, v).0.log == v.log + t && 0 <= k < |Sleeps(t)|
        && Sleeps(t)[k] > p.maxDelay
  }

  /** A nominal delay of the policy, followed by another attempt, that jitter can take past the cap. */
  predicate PassesCap(p: Policy, k: nat) {
    1 <= k < p.maxAttempts && Longest(Nominal(p, k)) > p.maxDelay
  }

  lemma NoDelayNoOversleep(hash: string -> string, p: Policy, s: Schedule, intent: Intent, v: State)
    requires Oversleeps(hash, p, s, intent, v)
    ensures exists k :: PassesCap(p, k)
  {
    hide RetryFrom, RetrySubmit, Jittered, Longest, NextDelay, Sleeps;
    var q := Normalized(p);
    var t, k :| RetrySubmit(hash, p, s, intent, v).0.log == v.log + t && 0 <= k < |Sleeps(t)|
        && Sleeps(t)[k] > p.maxDelay;
    var t' := FromTheStart(hash, p, s, intent, v);
    SameTrace(v.log, t, t');
    JitterBound(Nominal(q, 1 + k), s.attempts(1 + k).jitter);
    NominalOfNormalized(p, 1 + k);
    assert PassesCap(p, 1 + k);
  }

  lemma SameTrace(log: seq<Event>, t: seq<Event>, t': seq<Event>)
    requires log + t == log + t'
    ensures t == t'
  {
    assert t == (log + t)[|log|..] && t' == (log + t')[|log|..];
  }

  lemma FromTheStart(hash: string -> string, p: Policy, s: Schedule, intent: Intent, v: State) returns (t: seq<Event>)
    ensures var q := Normalized(p);
            && RetrySubmit(hash, p, s, intent, v).0.log == v.log + t
            && |Sleeps(t)| < q.maxAttempts
            && (forall k | 0 <= k < |Sleeps(t)| ::
                      Sleeps(t)[k] == Jittered(Nominal(q, 1 + k), s.attempts(1 + k).jitter))
            && (intent.side != NoSide
                && (forall n | 1 <= n < q.maxAttempts :: Transits(s.attempts(n), Limit(q, s.start))) ==>
                  |Sleeps(t)| == q.maxAttempts - 1)
  {
    hide RetryFrom, Jittered, Sleeps, NextDelay, Transits;
    var q := Normalized(p);
    t := SleepsAreJittered(hash, q, s, Limit(q, s.start), intent, 1, None, v);
  }

  lemma {:induction false} NominalOfNormalized(p: Policy, k: nat)
    requires k >= 1
    ensures Nominal(Normalized(p), k) == Nominal(p, k)
  {
    hide Grown;
    if k > 1 {
      NominalOfNormalized(p, k - 1);
    }
  }

  /** Nothing but transient failures, with the jitter that makes the sleep after attempt `k` longest. */
  lemma PassedCapOversleeps(hash: string -> string, p: Policy, k: nat, intent: Intent, v: State) returns (s: Schedule)
    requires intent.side != NoSide && PassesCap(p, k)
    ensures Oversleeps(hash, p, s, intent, v)
  {
    hide RetryFrom, RetrySubmit, Jittered, Longest, NextDelay, Sleeps, Nominal;
    var jitter := LongestIsAttained(Nominal(p, k));
    var fate := SubmitFate(true, false, Report(0, "", "", "", ""), NoResponse);
    var a := Attempt(false, 0, fate, false, jitter, false);
    s := Schedule(0, _ => a);
    var t := FromTheStart(hash, p, s, intent, v);
    assert Transits(a, Limit(p, 0));
    assert Sleeps(t)[k - 1] == Jittered(Nominal(p, k), jitter);
    assert Sleeps(t)[k - 1] > p.maxDelay;
  }

  /**
   When waiting stays within the cap, exactly: some schedule makes some run sleep longer than the cap
   if and only if some delay of the policy before its last attempt is one that jitter takes past it.
   */
  lemma OversleepsIff(hash: string -> string, p: Policy, intent: Intent, v: State)
    requires intent.side != NoSide
    ensures (exists s: Schedule :: Oversleeps(hash, p, s, intent, v)) <==> exists k :: PassesCap(p, k)
  {
    hide Oversleeps, PassesCap;
    if s: Schedule :| Oversleeps(hash, p, s, intent, v) {
      NoDelayNoOversleep(hash, p, s, intent, v);
    }
    if k :| PassesCap(p, k) {
      var s := PassedCapOversleeps(hash, p, k, intent, v);
    }
  }

  // ---------------------------------------------------------------- the condition in closed form

  lemma LongestWithin(delay: int, cap: int)
    requires delay >= 0 && cap >= 0
    ensures Longest(delay) <= cap <==> 5 * delay <= 4 * cap + 4
  {
  }

  lemma {:induction false} NominalGrows(p: Policy, j: nat, k: nat)
    requires p.baseDelay >= 0 && p.maxDelay >= 0 && p.factor >= 1.0 && 2 <= j <= k
    ensures 0 <= Nominal(p, j) <= Nominal(p, k)
  {
    hide Grown;
    NominalNotNegative(p, j);
    if j < k {
      NominalGrows(p, j, k - 1);
      NominalIsCapped(p, k - 1);
      var before := Nominal(p, k - 1);
      GrowsByFactor(before, p.factor);
      assert Nominal(p, k) == NextDelay(p, before) >= before;
    }
  }

  lemma GrowsByFactor(delay: int, factor: real)
    requires delay >= 0 && factor >= 1.0
    ensures Grown(delay, factor) >= delay
  {
    var d := delay as real;
    Products.TimesMonotone(1.0, factor, d, 1.0 * d, factor * d);
  }

  lemma {:induction false} NominalNotNegative(p: Policy, k: nat)
    requires p.baseDelay >= 0 && p.maxDelay >= 0 && p.factor >= 1.0 && k >= 1
    ensures Nominal(p, k) >= 0
  {
    if k > 1 {
      hide Grown;
      NominalNotNegative(p, k - 1);
      GrowsByFactor(Nominal(p, k - 1), p.factor);
    }
  }

  /**
   For delays that grow only the first and the last one matter: the cap holds on every schedule if
   and only if five quarters of neither reach it by more than one.
   */
  lemma CapHoldsIff(p: Policy)
    requires p.baseDelay >= 0 && p.maxDelay >= 0 && p.factor >= 1.0 && p.maxAttempts >= 2
    ensures (exists k :: PassesCap(p, k)) <==>
              5 * p.baseDelay > 4 * p.maxDelay + 4 || 5 * Nominal(p, p.maxAttempts - 1) > 4 * p.maxDelay + 4
  {
    hide NextDelay, Longest;
    var last := p.maxAttempts - 1;
    NominalNotNegative(p, last);
    LongestWithin(p.baseDelay, p.maxDelay);
    LongestWithin(Nominal(p, last), p.maxDelay);
    assert PassesCap(p, 1) <==> 5 * p.baseDelay > 4 * p.maxDelay + 4;
    assert PassesCap(p, last) <==> 5 * Nominal(p, last) > 4 * p.maxDelay + 4;
    if k :| PassesCap(p, k) {
      if k > 1 {
        NominalGrows(p, k, last);
        LongestGrows(Nominal(p, k), Nominal(p, last));
      }
    }
  }

  const MILLISECOND := 1_000_000

  /** The shipped policy, for any number of attempts and any deadline. */
  function Shipped(attempts: int, deadline: int): Policy {
    Policy(attempts, 100 * MILLISECOND, 2000 * MILLISECOND, 2.0, deadline)
  }

  /** The shipped delays pass the cap from seven attempts on; with the shipped three attempts they never do. */
  lemma ShippedPolicy(attempts: int, deadline: int)
    ensures (exists k :: PassesCap(Shipped(attempts, deadline), k)) <==> attempts >= 7
  {
    var p := Shipped(attempts, deadline);
    ShippedDelays(attempts, deadline);
    hide Nominal;
    if k :| PassesCap(p, k) {
      assert k in {1, 2, 3, 4, 5} || k >= 6;
    }
    if attempts >= 7 {
      assert PassesCap(p, 6);
    }
  }

  lemma ShippedDelays(attempts: int, deadline: int)
    ensures var p := Shipped(attempts, deadline);
            && Nominal(p, 1) == 100 * MILLISECOND && Nominal(p, 2) == 200 * MILLISECOND
            && Nominal(p, 3) == 400 * MILLISECOND && Nominal(p, 4) == 800 * MILLISECOND
            && Nominal(p, 5) == 1600 * MILLISECOND && Nominal(p, 6) == 2000 * MILLISECOND
  {
    var p := Shipped(attempts, deadline);
    forall d: nat
      ensures NextDelay(p, d) == if 2 * d > p.maxDelay then p.maxDelay else 2 * d
    {
      assert d as real * 2.0 == (2 * d) as real;
    }
    hide NextDelay;
    assert Nominal(p, 2) == NextDelay(p, Nominal(p, 1));
    assert Nominal(p, 3) == NextDelay(p, Nominal(p, 2));
    assert Nominal(p, 4) == NextDelay(p, Nominal(p, 3));
    assert Nominal(p, 5) == NextDelay(p, Nominal(p, 4));
    assert Nominal(p, 6) == NextDelay(p, Nominal(p, 5));
  }
}
