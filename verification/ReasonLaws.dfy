/** What the details of a problem tell of the run that ended in it. */
module ReasonLaws {
  import opened Wrappers
  import opened Venue
  import opened Retry
  import opened Reconciler
  import opened PipelineLaws
  import RetryDelays

  /** Neither a retry loop nor the reconciler has put anything into the details. */
  predicate Plain(p: Problem) {
    && RetryAttempts !in p.details && RetryExhausted !in p.details
    && RetryHalted !in p.details && RetryDeadlineExceeded !in p.details
    && Unreconciled(p) && (p.retryable ==> p.code == Unavailable)
  }

  predicate Unreconciled(p: Problem) {
    ReconciliationAttempted !in p.details && ReconciliationFailed !in p.details && ReconciliationError !in p.details
  }

  /**
   How a run with trace `t` ended, and that the problem tells it: a halt, a deadline that had passed,
   or attempts used up or cut off by a context; with the number of requests sent, `before` of them
   earlier.  It can be retried exactly if the last request could.
   */
  predicate Told(p: Problem, t: seq<Event>, limit: Option<int>, before: nat)
    requires t != []
  {
    var end, d, requests := t[|t| - 1], p.details, before + Submits(t);
    && (RetryHalted in d <==> end == HaltChecked(true))
    && (RetryDeadlineExceeded in d <==> end.ClockRead? && limit.Some? && end.now > limit.value)
    && (RetryExhausted in d <==>
          || (end == ContextChecked(true) && requests > 0)
          || (end.SubmitSent? && RetryableResponse(end.response)))
    && (RetryAttempts in d <==>
          requests > 0 && (RetryHalted in d || RetryDeadlineExceeded in d || RetryExhausted in d))
    && (RetryAttempts in d ==> d[RetryAttempts] == Number(requests))
    && (RetryHalted in d || RetryDeadlineExceeded in d || end == ContextChecked(true) || RetryExhausted in d ==>
          p.code == Unavailable)
    && (p.retryable <==> RetryAttempts in d)
    && Unreconciled(p)
  }

  /** An end that leaves the details as they were. */
  predicate QuietEnd(t: seq<Event>, limit: Option<int>, before: nat)
    requires t != []
  {
    match t[|t| - 1]
    case ContextChecked(done) => done ==> before + Submits(t) == 0
    case ClockRead(now) => limit.Some? ==> now <= limit.value
    case SubmitSent(_, response) => !RetryableResponse(response)
    case HaltChecked(halted) => !halted
    case _ => true
  }

  lemma ToldPlainly(p: Problem, t: seq<Event>, limit: Option<int>, before: nat)
    requires t != [] && Plain(p) && !p.retryable && QuietEnd(t, limit, before)
    requires t[|t| - 1] == ContextChecked(true) ==> p.code == Unavailable
    ensures Told(p, t, limit, before)
  {
    hide Submits, RetryableResponse;
  }

  lemma ToldExhausted(p: Problem, t: seq<Event>, limit: Option<int>, before: nat, n: nat)
    requires t != [] && Plain(p) && p.retryable && n == before + Submits(t) > 0
    requires var end := t[|t| - 1];
             end == ContextChecked(true) || (end.SubmitSent? && RetryableResponse(end.response))
    ensures Told(Annotate(p, n), t, limit, before)
  {
    hide Submits, RetryableResponse;
  }

  lemma ToldHalted(p: Problem, t: seq<Event>, limit: Option<int>, before: nat, n: nat)
    requires t != [] && Plain(p) && p.retryable && n == before + Submits(t) > 0 && t[|t| - 1] == HaltChecked(true)
    ensures Told(AnnotateHalted(p, n), t, limit, before)
  {
    hide Submits, RetryableResponse;
  }

  lemma ToldLate(last: Option<Problem>, t: seq<Event>, limit: Option<int>, before: nat)
    requires t != [] && Submits(t) == 0 && (last.Some? <==> before > 0)
    requires last.Some? ==> Plain(last.value) && last.value.retryable
    requires t[|t| - 1].ClockRead? && limit.Some? && t[|t| - 1].now > limit.value
    ensures last.Some? ==> Told(AnnotateDeadline(last.value, before), t, limit, before)
    ensures last.None? ==> Told(Problem(Unavailable, false, map[RetryDeadlineExceeded := Flag(true)]), t, limit, before)
  {
    hide Submits, RetryableResponse;
  }

  /** What comes first does not matter for how a run ends. */
  lemma ToldLater(p: Problem, first: seq<Event>, rest: seq<Event>, limit: Option<int>, before: nat)
    requires rest != [] && Submits(first) == 1 && Told(p, rest, limit, before + 1)
    ensures Told(p, first + rest, limit, before)
  {
    hide Submits, RetryableResponse;
    SubmitsSum(first, rest);
  }

  lemma SubmitIsPlain(hash: string -> string, v: State, intent: Intent, fate: SubmitFate)
    ensures var (w, r) := Submit(hash, v, intent, fate);
            && w.log == v.log + RetryDelays.SubmitTrace(hash, intent, fate)
            && (r.Failed? ==> Plain(r.problem))
            && (r.Failed? && r.problem.retryable <==>
                  intent.side != NoSide && fate.sent && RetryableResponse(fate.response))
  {
    hide Take, Holds, MapBinanceStatus;
    if fate.response.Response? {
      ClassificationIsExact(fate.response.status, fate.response.code);
    }
  }

  lemma OneRequest(checks: seq<Event>, sent: seq<Event>, extra: seq<Event>)
    requires Silent(checks) && Silent(extra) && |sent| <= 1 && (sent != [] ==> sent[0].SubmitSent?)
    ensures Submits(checks + sent) == |sent| && Submits(checks + sent + extra) == |sent|
  {
    SilentSubmitsNothing(checks);
    SilentSubmitsNothing(extra);
    SubmitsSum(checks, sent);
    SubmitsSum(checks + sent, extra);
    if sent != [] {
      OneSubmit(sent[0]);
      assert sent == [sent[0]];
    }
  }

  /** Attempt number `attempt` is followed by another one. */
  predicate GoesOn(hash: string -> string, p: Policy, a: Attempt, limit: Option<int>, intent: Intent, attempt: nat) {
    && !a.done && (limit.Some? ==> a.now <= limit.value)
    && intent.side != NoSide && a.submit.sent && RetryableResponse(a.submit.response)
    && attempt < p.maxAttempts && !a.halted && !a.doneBeforeSleep
  }

  /** The last turn of a retry loop. */
  lemma LastTurn(hash: string -> string, p: Policy, s: Schedule, limit: Option<int>,
      intent: Intent, attempt: nat, delay: int, last: Option<Problem>, v: State) returns (t: seq<Event>)
    requires 1 <= attempt <= p.maxAttempts && (attempt > 1 ==> last.Some?)
    requires last.Some? ==> attempt > 1 && Plain(last.value) && last.value.retryable
    requires !GoesOn(hash, p, s.attempts(attempt), limit, intent, attempt)
    ensures var (w, r) := RetryFrom(hash, p, s, limit, intent, attempt, delay, last, v);
            && w.log == v.log + t && t != []
            && (r.Failed? ==> Told(r.problem, t, limit, attempt - 1))
  {
    hide Submit, NextDelay, Jittered, Submits, RetryableResponse, OrderOf, Plain, Told, Checks, Silent, QuietEnd,
      Annotate, AnnotateHalted, AnnotateDeadline, RetryDelays.SubmitTrace;
    var a := s.attempts(attempt);
    var before := attempt - 1;
    if a.done {
      t := [ContextChecked(true)];
      ChecksAreSilent(t);
      if last.Some? {
        ToldExhausted(last.value, t, limit, before, before);
      } else {
        NothingSaid(t, limit);
      }
    } else if limit.Some? && a.now > limit.value {
      t := [ContextChecked(false), ClockRead(a.now)];
      ChecksAreSilent(t);
      ToldLate(last, t, limit, before);
    } else {
      var r3;
      t, r3 := Requested(hash, intent, a, limit, before, v);
      if r3.Failed? && !r3.problem.retryable {
        ToldPlainly(r3.problem, t, limit, before);
      } else if r3.Failed? {
        EndsAfterFailure(r3.problem, Checks(a, limit), RetryDelays.SubmitTrace(hash, intent, a.submit), limit,
            before, 0);
        if attempt < p.maxAttempts {
          t := t + if a.halted then [HaltChecked(true)] else [HaltChecked(false), ContextChecked(true)];
        }
      }
    }
  }

  /** An attempt up to its request. */
  lemma Requested(hash: string -> string, intent: Intent, a: Attempt, limit: Option<int>, before: nat, v: State)
    returns (t: seq<Event>, r: Reply)
    requires !a.done && (limit.Some? ==> a.now <= limit.value)
    ensures var ready := if limit.Some? then Log(Log(v, ContextChecked(false)), ClockRead(a.now))
                         else Log(v, ContextChecked(false));
            var out := Submit(hash, ready, intent, a.submit);
            out.1 == r && out.0.log == v.log + t
    ensures t != [] && t == Checks(a, limit) + RetryDelays.SubmitTrace(hash, intent, a.submit)
    ensures r.Failed? ==> Plain(r.problem)
    ensures r.Failed? && r.problem.retryable <==>
              intent.side != NoSide && a.submit.sent && RetryableResponse(a.submit.response)
    ensures r.Failed? && !r.problem.retryable ==>
              QuietEnd(t, limit, before) && t[|t| - 1] != ContextChecked(true)
    ensures r.Failed? && r.problem.retryable ==>
              var sent := RetryDelays.SubmitTrace(hash, intent, a.submit);
              && |sent| == 1 && sent[0].SubmitSent? && RetryableResponse(sent[0].response) && Silent(Checks(a, limit))
  {
    hide Submit, Submits, RetryableResponse, OrderOf, Plain, Checks, Silent, QuietEnd;
    var ready := if limit.Some? then Log(Log(v, ContextChecked(false)), ClockRead(a.now))
                 else Log(v, ContextChecked(false));
    r := Submit(hash, ready, intent, a.submit).1;
    t := Checks(a, limit) + RetryDelays.SubmitTrace(hash, intent, a.submit);
    SubmitIsPlain(hash, ready, intent, a.submit);
    ChecksLogged(v, a, limit);
    assert v.log + t == (v.log + Checks(a, limit)) + RetryDelays.SubmitTrace(hash, intent, a.submit);
    EndOfRequest(hash, intent, a, limit, before);
  }

  /** For every schedule: the details of the problem that a retry loop ends with tell how it ended. */
  lemma {:induction false} DetailsTellTheEnd(hash: string -> string, p: Policy, s: Schedule, limit: Option<int>,
      intent: Intent, attempt: nat, delay: int, last: Option<Problem>, v: State) returns (t: seq<Event>)
    requires 1 <= attempt <= p.maxAttempts && (attempt > 1 ==> last.Some?)
    requires last.Some? ==> attempt > 1 && Plain(last.value) && last.value.retryable
    ensures var (w, r) := RetryFrom(hash, p, s, limit, intent, attempt, delay, last, v);
            && w.log == v.log + t && t != []
            && (r.Failed? ==> Told(r.problem, t, limit, attempt - 1))
    decreases p.maxAttempts - attempt
  {
    hide Submit, NextDelay, Jittered, Submits, RetryableResponse, OrderOf, Plain, Told, Checks, Silent, QuietEnd,
      Annotate, AnnotateHalted, AnnotateDeadline, RetryDelays.SubmitTrace;
    var a := s.attempts(attempt);
    if !GoesOn(hash, p, a, limit, intent, attempt) {
      t := LastTurn(hash, p, s, limit, intent, attempt, delay, last, v);
    } else {
      var before, slept := attempt - 1, Jittered(delay, a.jitter);
      var sent, r3 := Requested(hash, intent, a, limit, before, v);
      EndsAfterFailure(r3.problem, Checks(a, limit), RetryDelays.SubmitTrace(hash, intent, a.submit), limit,
          before, slept);
      var v2 := if limit.Some? then Log(Log(v, ContextChecked(false)), ClockRead(a.now))
                else Log(v, ContextChecked(false));
      var v5 := Log(Log(Submit(hash, v2, intent, a.submit).0, HaltChecked(false)), Slept(slept));
      var first := sent + [HaltChecked(false), Slept(slept)];
      assert v5.log == v.log + first;
      var rest := DetailsTellTheEnd(hash, p, s, limit, intent, attempt + 1, NextDelay(p, delay), Some(r3.problem), v5);
      t := first + rest;
      var r := RetryFrom(hash, p, s, limit, intent, attempt, delay, last, v).1;
      if r.Failed? {
        ToldLater(r.problem, first, rest, limit, before);
      }
    }
  }

  /** The ends that can follow a retryable failure, and the sleep that goes on. */
  lemma EndsAfterFailure(p: Problem, checks: seq<Event>, sent: seq<Event>, limit: Option<int>, before: nat, slept: int)
    requires Silent(checks) && |sent| == 1 && sent[0].SubmitSent? && RetryableResponse(sent[0].response)
    requires Plain(p) && p.retryable
    ensures var t, halt := checks + sent, HaltChecked(false);
            && Submits(t) == 1 && Submits(t + [halt, Slept(slept)]) == 1
            && Told(Annotate(p, before + 1), t, limit, before)
            && Told(Annotate(p, before + 1), t + [halt, ContextChecked(true)], limit, before)
            && Told(AnnotateHalted(p, before + 1), t + [HaltChecked(true)], limit, before)
  {
    hide Submits, RetryableResponse, Plain, Told, Annotate, AnnotateHalted;
    var t, halt := checks + sent, HaltChecked(false);
    OneRequest(checks, sent, [halt, Slept(slept)]);
    ToldExhausted(p, t, limit, before, before + 1);
    OneRequest(checks, sent, [halt, ContextChecked(true)]);
    ToldExhausted(p, t + [halt, ContextChecked(true)], limit, before, before + 1);
    OneRequest(checks, sent, [HaltChecked(true)]);
    ToldHalted(p, t + [HaltChecked(true)], limit, before, before + 1);
  }

  lemma NothingSaid(t: seq<Event>, limit: Option<int>)
    requires t == [ContextChecked(true)] && Submits(t) == 0
    ensures Told(Problem(Unavailable, false, map[]), t, limit, 0)
  {
  }

  lemma ChecksAreSilent(t: seq<Event>)
    requires forall i | 0 <= i < |t| :: t[i].ContextChecked? || t[i].ClockRead?
    ensures Submits(t) == 0
  {
    SilentSubmitsNothing(t);
  }

  lemma ChecksLogged(v: State, a: Attempt, limit: Option<int>)
    requires !a.done
    ensures var ready := if limit.Some? then Log(Log(v, ContextChecked(false)), ClockRead(a.now))
                         else Log(v, ContextChecked(false));
            ready.log == v.log + Checks(a, limit)
  {
  }

  /** How an attempt ends whose request, if there is one, is the last event. */
  lemma EndOfRequest(hash: string -> string, intent: Intent, a: Attempt, limit: Option<int>, before: nat)
    requires !a.done && (limit.Some? ==> a.now <= limit.value)
    ensures var sent := RetryDelays.SubmitTrace(hash, intent, a.submit);
            var t := Checks(a, limit) + sent;
            && t != [] && Submits(t) == |sent|
            && (sent != [] ==> t[|t| - 1].SubmitSent? && t[|t| - 1].response == a.submit.response)
            && (sent != [] <==> intent.side != NoSide && a.submit.sent)
            && |sent| <= 1 && (sent != [] ==> sent[0].SubmitSent?) && Silent(Checks(a, limit))
            && (sent == [] || !RetryableResponse(a.submit.response) ==>
                  QuietEnd(t, limit, before) && t[|t| - 1] != ContextChecked(true))
  {
    hide Submits, RetryableResponse;
    OneRequest(Checks(a, limit), RetryDelays.SubmitTrace(hash, intent, a.submit), []);
  }

  /** A response that was lost and could not be recovered: the problem says so, and still names the order. */
  lemma UnresolvedSaysSo(hash: string -> string, p: Policy, s: Schedule, fate: QueryFate, intent: Intent, v: State)
    ensures var r1 := RetrySubmit(hash, p, s, intent, v).1;
            var r := Pipeline(hash, p, s, fate, intent, v).1;
            var queried := r1.Failed? && IsBodyReadFailureAfter200(r1.problem) && hash(intent.deduplicationKey) != "";
            r.Failed? ==>
              && (ReconciliationFailed in r.problem.details <==> queried)
              && (queried ==>
                    && r.problem.details[ReconciliationFailed] == Flag(true)
                    && IsBodyReadFailureAfter200(r.problem) && !r.problem.retryable
                    && LostOrderId(r.problem) == hash(intent.deduplicationKey))
  {
    hide RetryFrom, Query, Told, Plain;
    var q := Normalized(p);
    var (v1, r1) := RetrySubmit(hash, p, s, intent, v);
    var t := RetryGuarantees(hash, q, s, Limit(p, s.start), intent, 1, q.baseDelay, None, v);
    var t' := DetailsTellTheEnd(hash, q, s, Limit(p, s.start), intent, 1, q.baseDelay, None, v);
    if r1.Failed? {
      RetryDelays.SameTrace(v.log, t, t');
      ToldUnreconciled(r1.problem, t', Limit(p, s.start), 0);
    }
  }

  lemma ToldUnreconciled(p: Problem, t: seq<Event>, limit: Option<int>, before: nat)
    requires t != [] && Told(p, t, limit, before)
    ensures Unreconciled(p) && (EndsLost(t) ==> !p.retryable)
  {
  }
}
