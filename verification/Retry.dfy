/** The retry decorator of internal/application/execution/retry_submitter.go. */
module Retry {
  import opened Wrappers
  import opened Venue

  datatype Policy = Policy(maxAttempts: int, baseDelay: int, maxDelay: int, factor: real, deadline: int)

  /** The factor that a delay is multiplied with, drawn anew each time. */
  type Jitter = j: real | 0.75 <= j < 1.25 witness 1.0

  /**
   What an attempt finds: the context, the clock, the fate of the request, the kill switch, the draw
   of the jitter, the context again.
   */
  datatype Attempt = Attempt(
    done: bool, now: int, submit: SubmitFate, halted: bool, jitter: Jitter, doneBeforeSleep: bool)

  /** A fault schedule: what every attempt would find. */
  datatype Schedule = Schedule(start: int, attempts: nat -> Attempt)

  function Annotate(p: Problem, attempts: int): Problem {
    p.WithDetail(RetryAttempts, Number(attempts)).WithDetail(RetryExhausted, Flag(true))
  }

  function AnnotateHalted(p: Problem, attempts: int): Problem {
    p.WithDetail(RetryAttempts, Number(attempts)).WithDetail(RetryHalted, Flag(true))
  }

  function AnnotateDeadline(p: Problem, attempts: int): Problem {
    p.WithDetail(RetryAttempts, Number(attempts)).WithDetail(RetryDeadlineExceeded, Flag(true))
  }

  function Truncate(x: real): int {
    if x >= 0.0 then x.Floor else -((-x).Floor)
  }

  /** The delay that is slept. */
  function Jittered(delay: int, jitter: Jitter): int {
    Truncate(delay as real * jitter)
  }

  function Grown(delay: int, factor: real): int {
    Truncate(delay as real * factor)
  }

  /** Exponential increase, capped. */
  function NextDelay(p: Policy, delay: int): int {
    var d := Grown(delay, p.factor);
    if d > p.maxDelay then p.maxDelay else d
  }

  /** The loop from attempt number `attempt` on; `last` is the problem of the attempt before it. */
  function RetryFrom(hash: string -> string, p: Policy, s: Schedule, limit: Option<int>, intent: Intent,
      attempt: nat, delay: int, last: Option<Problem>, v: State): (State, Reply)
    requires 1 <= attempt <= p.maxAttempts && (attempt > 1 ==> last.Some?)
    decreases p.maxAttempts - attempt
  {
    var a := s.attempts(attempt);
    var v1 := Log(v, ContextChecked(a.done));
    if a.done then
      (v1, Failed(if last.Some? then Annotate(last.value, attempt - 1) else Problem(Unavailable, false, map[])))
    else
      var v2 := if limit.Some? then Log(v1, ClockRead(a.now)) else v1;
      if limit.Some? && a.now > limit.value then
        (v2, Failed(if last.Some? then AnnotateDeadline(last.value, attempt - 1)
                    else Problem(Unavailable, false, map[RetryDeadlineExceeded := Flag(true)])))
      else
        var (v3, r) := Submit(hash, v2, intent, a.submit);
        if r.Ok? || !r.problem.retryable then (v3, r)
        else if attempt == p.maxAttempts then (v3, Failed(Annotate(r.problem, attempt)))
        else
          var v4 := Log(v3, HaltChecked(a.halted));
          if a.halted then (v4, Failed(AnnotateHalted(r.problem, attempt)))
          else if a.doneBeforeSleep then (Log(v4, ContextChecked(true)), Failed(Annotate(r.problem, attempt)))
          else
            var v5 := Log(v4, Slept(Jittered(delay, a.jitter)));
            RetryFrom(hash, p, s, limit, intent, attempt + 1, NextDelay(p, delay), Some(r.problem), v5)
  }

  /** `NewRetrySubmitter`: at least one attempt. */
  function Normalized(p: Policy): Policy {
    if p.maxAttempts < 1 then p.(maxAttempts := 1) else p
  }

  /** The instant after which no attempt is started. */
  function Limit(p: Policy, start: int): Option<int> {
    if p.deadline > 0 then Some(start + p.deadline) else None
  }

  function RetrySubmit(hash: string -> string, p: Policy, s: Schedule, intent: Intent, v: State): (State, Reply) {
    var q := Normalized(p);
    RetryFrom(hash, q, s, Limit(q, s.start), intent, 1, q.baseDelay, None, v)
  }

  class RetrySubmitter {
    const inner: Adapter
    const policy: Policy

    constructor (inner: Adapter, policy: Policy)
      ensures this.inner == inner
      ensures this.policy.maxAttempts >= 1 && this.policy == policy.(maxAttempts := this.policy.maxAttempts)
      ensures policy.maxAttempts >= 1 ==> this.policy == policy
    {
      this.inner := inner;
      this.policy := if policy.maxAttempts < 1 then policy.(maxAttempts := 1) else policy;
    }

    method SubmitOrder(intent: Intent, s: Schedule) returns (r: Reply)
      requires policy.maxAttempts >= 1
      modifies inner.venue
      ensures (inner.venue.state, r) == RetrySubmit(inner.hash, policy, s, intent, old(inner.venue.state))
    {
      hide Submit, Annotate, AnnotateHalted, AnnotateDeadline, NextDelay, Jittered, Log;
      var venue := inner.venue;
      var lastProblem: Option<Problem> := None;
      var delay := policy.baseDelay;
      var deadlineAt := if policy.deadline > 0 then Some(s.start + policy.deadline) else None;
      var attempt := 1;
      while attempt <= policy.maxAttempts
        invariant 1 <= attempt <= policy.maxAttempts && (attempt > 1 ==> lastProblem.Some?)
        invariant RetrySubmit(inner.hash, policy, s, intent, old(inner.venue.state))
               == RetryFrom(inner.hash, policy, s, deadlineAt, intent, attempt, delay, lastProblem, venue.state)
        decreases policy.maxAttempts - attempt
      {
        var a := s.attempts(attempt);
        venue.state := Log(venue.state, ContextChecked(a.done));
        if a.done {
          if lastProblem.Some? {
            return Failed(Annotate(lastProblem.value, attempt - 1));
          }
          return Failed(Problem(Unavailable, false, map[]));
        }
        if deadlineAt.Some? {
          venue.state := Log(venue.state, ClockRead(a.now));
          if a.now > deadlineAt.value {
            if lastProblem.Some? {
              return Failed(AnnotateDeadline(lastProblem.value, attempt - 1));
            }
            return Failed(Problem(Unavailable, false, map[RetryDeadlineExceeded := Flag(true)]));
          }
        }
        r := inner.SubmitOrder(intent, a.submit);
        if r.Ok? {
          return;
        }
        if !r.problem.retryable {
          return;
        }
        lastProblem := Some(r.problem);
        if attempt == policy.maxAttempts {
          break;
        }
        venue.state := Log(venue.state, HaltChecked(a.halted));
        if a.halted {
          return Failed(AnnotateHalted(lastProblem.value, attempt));
        }
        var jittered := Jittered(delay, a.jitter);
        if a.doneBeforeSleep {
          venue.state := Log(venue.state, ContextChecked(true));
          return Failed(Annotate(lastProblem.value, attempt));
        }
        venue.state := Log(venue.state, Slept(jittered));
        delay := NextDelay(policy, delay);
        attempt := attempt + 1;
      }
      return Failed(Annotate(lastProblem.value, policy.maxAttempts));
    }
  }
}
