/** What a problem that the submit pipeline returns says about the venue's book, and what it cannot say. */
module ProblemLaws {
  import opened Wrappers
  import opened Venue
  import opened Retry
  import opened Reconciler
  import opened PipelineLaws
  import RetryDelays

  /** A request was sent after the first `from` events. */
  predicate Sent(log: seq<Event>, from: nat) {
    exists i | from <= i < |log| :: log[i].SubmitSent?
  }

  /** The two schedules differ only in which requests the venue took. */
  ghost predicate OnlyTakenDiffers(s: Schedule, s': Schedule) {
    && s'.start == s.start
    && forall n :: s'.attempts(n) ==
              s.attempts(n).(submit := s.attempts(n).submit.(taken := s'.attempts(n).submit.taken))
  }

  /** The schedule under which the venue takes every request. */
  function AllTaken(s: Schedule): Schedule {
    Schedule(s.start, (n: nat) => s.attempts(n).(submit := s.attempts(n).submit.(taken := true)))
  }

  // ---------------------------------------------------------------- one submit

  /**
   A submit that leaves no order of its id was not answered 200: had it been taken, nothing else would
   have changed.
   */
  lemma SubmitAlike(hash: string -> string, v: State, v': State, intent: Intent, fate: SubmitFate)
    requires v'.log == v.log && !Holds(Submit(hash, v, intent, fate).0.book, hash(intent.deduplicationKey))
    ensures var (w, r) := Submit(hash, v, intent, fate);
            var (w', r') := Submit(hash, v', intent, fate.(taken := true));
            r' == r && w'.log == w.log
  {
    hide HandleErrorResponse, ParseOrderResponse, Holds;
  }

  lemma TakeHolds(book: seq<Order>, o: Order, id: string)
    ensures Holds(book, id) || o.id == id ==> Holds(Take(book, o), id)
  {
    if Holds(book, id) {
      var i :| 0 <= i < |book| && book[i].id == id;
      assert Take(book, o)[i] == book[i];
    }
  }

  lemma SubmitKeeps(hash: string -> string, v: State, intent: Intent, fate: SubmitFate, id: string)
    ensures var w := Submit(hash, v, intent, fate).0;
            && (Holds(v.book, id) ==> Holds(w.book, id))
            && (intent.side == NoSide || !fate.sent ==> w == v)
            && w.log == v.log + RetryDelays.SubmitTrace(hash, intent, fate)
  {
    hide HandleErrorResponse, ParseOrderResponse, Holds;
    TakeHolds(v.book, OrderOf(hash, intent, fate.report), id);
  }

  // ---------------------------------------------------------------- the retry loop

  /** A retry loop loses no order, extends the log, and leaves the book alone unless it sends a request. */
  lemma {:induction false} RetryKeeps(hash: string -> string, p: Policy, s: Schedule, limit: Option<int>,
      intent: Intent, attempt: nat, delay: int, last: Option<Problem>, v: State, id: string)
    requires 1 <= attempt <= p.maxAttempts && (attempt > 1 ==> last.Some?)
    ensures var w := RetryFrom(hash, p, s, limit, intent, attempt, delay, last, v).0;
            && v.log <= w.log
            && (Holds(v.book, id) ==> Holds(w.book, id))
            && (!Sent(w.log, |v.log|) ==> w.book == v.book)
    decreases p.maxAttempts - attempt
  {
    hide Submit, Holds, NextDelay, Jittered, Annotate, AnnotateHalted, AnnotateDeadline, Sent;
    var a := s.attempts(attempt);
    var w := RetryFrom(hash, p, s, limit, intent, attempt, delay, last, v).0;
    if !a.done && (limit.Some? ==> a.now <= limit.value) {
      var v2 := Ready(v, a, limit);
      var (v3, r) := Submit(hash, v2, intent, a.submit);
      SubmitKeeps(hash, v2, intent, a.submit, id);
      SubmitSends(hash, v, a, limit, intent);
      if r.Failed? && r.problem.retryable && attempt < p.maxAttempts && !a.halted && !a.doneBeforeSleep {
        var v5 := Log(Log(v3, HaltChecked(false)), Slept(Jittered(delay, a.jitter)));
        RetryKeeps(hash, p, s, limit, intent, attempt + 1, NextDelay(p, delay), Some(r.problem), v5, id);
        assert v.log <= v3.log <= v5.log <= w.log;
        SentLater(v, v5, w);
        SentLater(v, v3, v5);
      } else {
        assert v.log <= v3.log <= w.log;
        SentLater(v, v3, w);
      }
    }
  }

  lemma SubmitSends(hash: string -> string, v: State, a: Attempt, limit: Option<int>, intent: Intent)
    ensures var w := Submit(hash, Ready(v, a, limit), intent, a.submit).0;
            && v.log <= w.log
            && (Sent(w.log, |v.log|) <==> intent.side != NoSide && a.submit.sent)
  {
    hide Submit, Holds;
    var v2 := Ready(v, a, limit);
    SubmitKeeps(hash, v2, intent, a.submit, "");
    var w := Submit(hash, v2, intent, a.submit).0;
    if intent.side != NoSide && a.submit.sent {
      assert w.log[|v2.log|].SubmitSent?;
    }
  }

  /** The state after the checks before a request have passed. */
  function Ready(v: State, a: Attempt, limit: Option<int>): State {
    if limit.Some? then Log(Log(v, ContextChecked(false)), ClockRead(a.now)) else Log(v, ContextChecked(false))
  }

  /**
   A retry loop that leaves no order of its id behind runs alike when the venue takes every request: same
   events, same reply.
   */
  lemma {:induction false} RunsAlike(hash: string -> string, p: Policy, s: Schedule, limit: Option<int>, intent: Intent,
      attempt: nat, delay: int, last: Option<Problem>, v: State, v': State)
    requires 1 <= attempt <= p.maxAttempts && (attempt > 1 ==> last.Some?)
    requires v'.log == v.log
    requires !Holds(RetryFrom(hash, p, s, limit, intent, attempt, delay, last, v).0.book, hash(intent.deduplicationKey))
    ensures var (w, r) := RetryFrom(hash, p, s, limit, intent, attempt, delay, last, v);
            var (w', r') := RetryFrom(hash, p, AllTaken(s), limit, intent, attempt, delay, last, v');
            r' == r && w'.log == w.log
    decreases p.maxAttempts - attempt
  {
    hide Submit, Holds, NextDelay, Jittered, Annotate, AnnotateHalted, AnnotateDeadline;
    var a := s.attempts(attempt);
    if !a.done && (limit.Some? ==> a.now <= limit.value) {
      var v2, v2' := Ready(v, a, limit), Ready(v', a, limit);
      var (v3, r3) := Submit(hash, v2, intent, a.submit);
      var (v3', r3') := Submit(hash, v2', intent, a.submit.(taken := true));
      if r3.Failed? && r3.problem.retryable && attempt < p.maxAttempts && !a.halted && !a.doneBeforeSleep {
        var slept := Slept(Jittered(delay, a.jitter));
        var v5, v5' := Log(Log(v3, HaltChecked(false)), slept), Log(Log(v3', HaltChecked(false)), slept);
        RetryKeeps(hash, p, s, limit, intent,
            attempt + 1, NextDelay(p, delay), Some(r3.problem), v5, hash(intent.deduplicationKey));
        SubmitAlike(hash, v2, v2', intent, a.submit);
        RunsAlike(hash, p, s, limit, intent, attempt + 1, NextDelay(p, delay), Some(r3.problem), v5, v5');
      } else {
        SubmitAlike(hash, v2, v2', intent, a.submit);
      }
    }
  }

  /** When the venue takes every request, one request is enough for the order to be there. */
  lemma {:induction false} TakenIsThere(hash: string -> string, p: Policy, s: Schedule, limit: Option<int>,
      intent: Intent, attempt: nat, delay: int, last: Option<Problem>, v: State)
    requires 1 <= attempt <= p.maxAttempts && (attempt > 1 ==> last.Some?)
    requires forall n :: s.attempts(n).submit.taken
    ensures var w := RetryFrom(hash, p, s, limit, intent, attempt, delay, last, v).0;
            Sent(w.log, |v.log|) ==> Holds(w.book, hash(intent.deduplicationKey))
    decreases p.maxAttempts - attempt
  {
    hide Submit, Holds, NextDelay, Jittered, Annotate, AnnotateHalted, AnnotateDeadline, Sent;
    var id := hash(intent.deduplicationKey);
    var a := s.attempts(attempt);
    var w := RetryFrom(hash, p, s, limit, intent, attempt, delay, last, v).0;
    if !a.done && (limit.Some? ==> a.now <= limit.value) {
      var v2 := Ready(v, a, limit);
      var (v3, r3) := Submit(hash, v2, intent, a.submit);
      SubmitSends(hash, v, a, limit, intent);
      SubmitTakes(hash, v2, intent, a.submit);
      if r3.Failed? && r3.problem.retryable && attempt < p.maxAttempts && !a.halted && !a.doneBeforeSleep {
        var v5 := Log(Log(v3, HaltChecked(false)), Slept(Jittered(delay, a.jitter)));
        RetryKeeps(hash, p, s, limit, intent, attempt + 1, NextDelay(p, delay), Some(r3.problem), v5, id);
        TakenIsThere(hash, p, s, limit, intent, attempt + 1, NextDelay(p, delay), Some(r3.problem), v5);
        SentLater(v, v5, w);
        Unsent(v, v3, v5);
      } else {
        Unsent(v, v3, w);
      }
    } else {
      Unsent(v, v, w);
    }
  }

  /** Events that are no requests do not count as one. */
  lemma Unsent(v: State, v3: State, w: State)
    requires v.log <= v3.log <= w.log && forall i | |v3.log| <= i < |w.log| :: !w.log[i].SubmitSent?
    ensures Sent(w.log, |v.log|) <==> Sent(v3.log, |v.log|)
    ensures !Sent(v.log, |v.log|)
  {
    SentLater(v, v3, w);
  }

  lemma SubmitTakes(hash: string -> string, v: State, intent: Intent, fate: SubmitFate)
    ensures intent.side != NoSide && fate.sent && fate.taken ==>
              Holds(Submit(hash, v, intent, fate).0.book, hash(intent.deduplicationKey))
  {
    hide HandleErrorResponse, ParseOrderResponse, Holds;
  }

  lemma SentLater(v: State, v5: State, w: State)
    requires v.log <= v5.log <= w.log
    ensures Sent(w.log, |v.log|) <==> Sent(v5.log, |v.log|) || Sent(w.log, |v5.log|)
  {
    if i :| |v.log| <= i < |v5.log| && v5.log[i].SubmitSent? {
      assert w.log[i] == v5.log[i];
    }
    if i :| |v.log| <= i < |w.log| && w.log[i].SubmitSent? {
      assert i < |v5.log| ==> v5.log[i] == w.log[i];
    }
  }

  /**
   Under every policy, however few attempts it was configured with, a request is sent if and only if
   the first attempt can send it: a buy or sell, a live context, a clock within the deadline, and a
   request that can be built.
   */
  lemma SendsIffFirstAttemptCan(hash: string -> string, p: Policy, s: Schedule, intent: Intent, v: State)
    ensures var a, limit := s.attempts(1), Limit(p, s.start);
            Sent(RetrySubmit(hash, p, s, intent, v).0.log, |v.log|) <==>
              intent.side != NoSide && !a.done && (limit.Some? ==> a.now <= limit.value) && a.submit.sent
  {
    hide Holds, NextDelay, Jittered, Annotate, AnnotateHalted, AnnotateDeadline, HandleErrorResponse,
      ParseOrderResponse;
    var q, a, limit := Normalized(p), s.attempts(1), Limit(p, s.start);
    var w := RetrySubmit(hash, p, s, intent, v).0;
    if !a.done && (limit.Some? ==> a.now <= limit.value) {
      var v2 := Ready(v, a, limit);
      var (v3, r3) := Submit(hash, v2, intent, a.submit);
      SubmitKeeps(hash, v2, intent, a.submit, "");
      if r3.Failed? && r3.problem.retryable && 1 < q.maxAttempts && !a.halted && !a.doneBeforeSleep {
        var v5 := Log(Log(v3, HaltChecked(false)), Slept(Jittered(q.baseDelay, a.jitter)));
        RetryKeeps(hash, q, s, limit, intent, 2, NextDelay(q, q.baseDelay), Some(r3.problem), v5, "");
      }
      if intent.side != NoSide && a.submit.sent {
        assert w.log[|v2.log|] == v3.log[|v2.log|];
      }
    }
  }

  // ---------------------------------------------------------------- the pipeline

  /** A problem without a request: the venue's book is as it was. */
  lemma UnsentChangesNothing(hash: string -> string, p: Policy, s: Schedule, fate: QueryFate, intent: Intent, v: State)
    ensures var w := Pipeline(hash, p, s, fate, intent, v).0;
            !Sent(w.log, |v.log|) ==> w.book == v.book
  {
    hide RetryFrom, Query, Submits, OnlyRequest, Disciplined, AtMostOneMore, Holds;
    var q := Normalized(p);
    var (v1, r1) := RetrySubmit(hash, p, s, intent, v);
    var w := Pipeline(hash, p, s, fate, intent, v).0;
    RetryKeeps(hash, q, s, Limit(q, s.start), intent, 1, q.baseDelay, None, v, "");
    if r1.Failed? && IsBodyReadFailureAfter200(r1.problem) {
      LossWasSent(hash, p, s, intent, v);
      QueryEffect(hash, v1, LostOrderId(r1.problem), intent.symbol, fate);
      SentLater(v, v1, w);
    }
  }

  /** A reply about a lost response comes after a request, and names its id; no query has been made by then. */
  lemma LossWasSent(hash: string -> string, p: Policy, s: Schedule, intent: Intent, v: State)
    ensures var (v1, r) := RetrySubmit(hash, p, s, intent, v);
            && v.log <= v1.log
            && (forall i | |v.log| <= i < |v1.log| :: !v1.log[i].QuerySent?)
            && (r.Failed? && IsBodyReadFailureAfter200(r.problem) ==>
                  Sent(v1.log, |v.log|) && LostOrderId(r.problem) == hash(intent.deduplicationKey))
  {
    hide RetryFrom, Submits, OnlyRequest, Disciplined, AtMostOneMore, Holds, IsBodyReadFailureAfter200, LostOrderId;
    var q := Normalized(p);
    var t := RetryGuarantees(hash, q, s, Limit(q, s.start), intent, 1, q.baseDelay, None, v);
    var v1 := RetrySubmit(hash, p, s, intent, v).0;
    assert forall i | |v.log| <= i < |v1.log| :: v1.log[i] == t[i - |v.log|];
    if EndsLost(t) {
      assert v1.log[|v.log| + |t| - 1].SubmitSent?;
    }
  }

  /** The response to the last request was lost, and the venue answers the query that it has no such order. */
  predicate Denied(hash: string -> string, p: Policy, s: Schedule, fate: QueryFate, intent: Intent, v: State) {
    var (v1, r) := RetrySubmit(hash, p, s, intent, v);
    && r.Failed? && IsBodyReadFailureAfter200(r.problem) && LostOrderId(r.problem) != ""
    && fate.sent && fate.response.Response? && fate.response.status == 200
    && !Holds(v1.book, hash(intent.deduplicationKey))
  }

  /** Under `s'` the caller sees just what it sees under `s`, and only requests taken or not differ. */
  ghost predicate LooksAlike(hash: string -> string, p: Policy, s: Schedule, s': Schedule, fate: QueryFate,
      intent: Intent, v: State) {
    && OnlyTakenDiffers(s, s')
    && Pipeline(hash, p, s', fate, intent, v).1 == Pipeline(hash, p, s, fate, intent, v).1
    && Pipeline(hash, p, s', fate, intent, v).0.log == Pipeline(hash, p, s, fate, intent, v).0.log
  }

  predicate OrderThere(hash: string -> string, p: Policy, s: Schedule, fate: QueryFate, intent: Intent, v: State) {
    Holds(Pipeline(hash, p, s, fate, intent, v).0.book, hash(intent.deduplicationKey))
  }

  lemma QueryKeepsHolds(hash: string -> string, v: State, id: string, symbol: string, fate: QueryFate, other: string)
    ensures Holds(Query(hash, v, id, symbol, fate).0.book, other) <==> Holds(v.book, other)
  {
    hide ParseOrderResponse, HandleErrorResponse;
    var w := Query(hash, v, id, symbol, fate).0;
    assert |w.book| == |v.book| && forall i | 0 <= i < |v.book| :: w.book[i].id == v.book[i].id;
    if i :| 0 <= i < |v.book| && v.book[i].id == other {
      assert w.book[i].id == other;
    }
  }

  /** A query whose answer does not depend on the book. */
  lemma QueryAlike(hash: string -> string, v: State, v': State, id: string, symbol: string, fate: QueryFate)
    requires v'.log == v.log && !(fate.sent && fate.response.Response? && fate.response.status == 200)
    ensures Query(hash, v', id, symbol, fate).1 == Query(hash, v, id, symbol, fate).1
    ensures Query(hash, v', id, symbol, fate).0.log == Query(hash, v, id, symbol, fate).0.log
  {
    hide HandleErrorResponse;
  }

  /** With a request sent and no denial, the same reply fits a venue that took the order. */
  lemma MaybeThere(hash: string -> string, p: Policy, s: Schedule, fate: QueryFate, intent: Intent, v: State)
    requires Sent(Pipeline(hash, p, s, fate, intent, v).0.log, |v.log|)
              && Pipeline(hash, p, s, fate, intent, v).1.Failed?
    requires !OrderThere(hash, p, s, fate, intent, v) && !Denied(hash, p, s, fate, intent, v)
    ensures LooksAlike(hash, p, s, AllTaken(s), fate, intent, v) && OrderThere(hash, p, AllTaken(s), fate, intent, v)
  {
    hide RetryFrom, Query, Holds, Recover, IsBodyReadFailureAfter200, LostOrderId;
    var q, id, s' := Normalized(p), hash(intent.deduplicationKey), AllTaken(s);
    var limit := Limit(q, s.start);
    var (v1, r1) := RetrySubmit(hash, p, s, intent, v);
    var (v1', r1') := RetrySubmit(hash, p, s', intent, v);
    var lost := LostOrderId(if r1.Failed? then r1.problem else Problem(Internal, false, map[]));
    LossWasSent(hash, p, s, intent, v);
    QueryKeepsHolds(hash, v1, lost, intent.symbol, fate, id);
    QueryKeepsHolds(hash, v1', lost, intent.symbol, fate, id);
    QueryEffect(hash, v1, lost, intent.symbol, fate);
    RunsAlike(hash, q, s, limit, intent, 1, q.baseDelay, None, v, v);
    TakenIsThere(hash, q, s', limit, intent, 1, q.baseDelay, None, v);
    if r1.Failed? && IsBodyReadFailureAfter200(r1.problem) && lost != "" {
      QueryAlike(hash, v1, v1', lost, intent.symbol, fate);
    }
  }

  /** A denial is proof: no schedule that looks the same leaves an order behind. */
  lemma DenialIsProof(hash: string -> string, p: Policy, s: Schedule, s': Schedule, fate: QueryFate, intent: Intent,
      v: State)
    requires Denied(hash, p, s, fate, intent, v) && LooksAlike(hash, p, s, s', fate, intent, v)
    ensures !OrderThere(hash, p, s', fate, intent, v)
  {
    hide RetrySubmit, IsBodyReadFailureAfter200, LostOrderId, Holds, Query, Recover, OnlyTakenDiffers;
    var id := hash(intent.deduplicationKey);
    var (v1, r1) := RetrySubmit(hash, p, s, intent, v);
    var (v1', r1') := RetrySubmit(hash, p, s', intent, v);
    LossWasSent(hash, p, s, intent, v);
    LossWasSent(hash, p, s', intent, v);
    QueryEffect(hash, v1, id, intent.symbol, fate);
    QueryAnswers(hash, v1, id, intent.symbol, fate);
    QueryAnswers(hash, v1', id, intent.symbol, fate);
    QueryKeepsHolds(hash, v1', id, intent.symbol, fate, id);
    var w, w' := Pipeline(hash, p, s, fate, intent, v).0, Pipeline(hash, p, s', fate, intent, v).0;
    assert w.log[|w.log| - 1].QuerySent? && |w.log| > |v.log|;
    assert w'.log[|w.log| - 1].QuerySent?;
    assert w' != v1';
    var q, q' := Query(hash, v1, id, intent.symbol, fate).1, Query(hash, v1', id, intent.symbol, fate).1;
    RecoveriesDiffer(intent, r1.problem, r1'.problem, id, q, q');
  }

  lemma QueryAnswers(hash: string -> string, v: State, id: string, symbol: string, fate: QueryFate)
    requires fate.sent && fate.response.Response? && fate.response.status == 200
    ensures var q := Query(hash, v, id, symbol, fate).1;
            if Holds(v.book, id) then q.Ok? || q.problem.code == Internal
                else q.Failed? && q.problem.code == InvalidArgument
  {
    hide Holds;
    QueryKeepsHolds(hash, v, id, symbol, fate, id);
  }

  lemma RecoveriesDiffer(intent: Intent, p: Problem, p': Problem, id: string, denied: Reply, other: Reply)
    requires denied.Failed? && denied.problem.code == InvalidArgument
    ensures other.Ok? || other.problem.code == Internal ==>
              Recover(intent, p, id, denied) != Recover(intent, p', id, other)
  {
    assert Recover(intent, p, id, denied).problem.details[ReconciliationError] == Cause(InvalidArgument);
    assert other.Failed? ==>
             Recover(intent, p', id, other).problem.details[ReconciliationError] == Cause(other.problem.code);
  }

  /**
   When a problem leaves open whether there is an order.  For every schedule that ends in a problem,
   some schedule that only differs in which requests were taken, and that looks the same to the
   caller, ends with the order at the venue: exactly if it was there before, or a request was sent
   and the venue has not denied having the order.
   */
  lemma DoubtIff(hash: string -> string, p: Policy, s: Schedule, fate: QueryFate, intent: Intent, v: State)
    requires Pipeline(hash, p, s, fate, intent, v).1.Failed?
    ensures (exists s' :: LooksAlike(hash, p, s, s', fate, intent, v) && OrderThere(hash, p, s', fate, intent, v)) <==>
              || Holds(v.book, hash(intent.deduplicationKey))
              || (Sent(Pipeline(hash, p, s, fate, intent, v).0.log, |v.log|) && !Denied(hash, p, s, fate, intent, v))
  {
    hide Pipeline, Denied, OrderThere, Holds;
    var id, w := hash(intent.deduplicationKey), Pipeline(hash, p, s, fate, intent, v).0;
    if s' :| LooksAlike(hash, p, s, s', fate, intent, v) && OrderThere(hash, p, s', fate, intent, v) {
      Untouched(hash, p, s', fate, intent, v);
      if Denied(hash, p, s, fate, intent, v) {
        DenialIsProof(hash, p, s, s', fate, intent, v);
      }
    }
    ItLooksLikeItself(hash, p, s, fate, intent, v);
    if Sent(w.log, |v.log|) && !Denied(hash, p, s, fate, intent, v) && !OrderThere(hash, p, s, fate, intent, v) {
      MaybeThere(hash, p, s, fate, intent, v);
    }
  }

  lemma Untouched(hash: string -> string, p: Policy, s: Schedule, fate: QueryFate, intent: Intent, v: State)
    ensures !Sent(Pipeline(hash, p, s, fate, intent, v).0.log, |v.log|) && OrderThere(hash, p, s, fate, intent, v) ==>
              Holds(v.book, hash(intent.deduplicationKey))
  {
    hide Pipeline, Holds;
    UnsentChangesNothing(hash, p, s, fate, intent, v);
  }

  lemma ItLooksLikeItself(hash: string -> string, p: Policy, s: Schedule, fate: QueryFate, intent: Intent, v: State)
    ensures LooksAlike(hash, p, s, s, fate, intent, v)
    ensures Holds(v.book, hash(intent.deduplicationKey)) ==> OrderThere(hash, p, s, fate, intent, v)
  {
    hide RetryFrom, Query, Holds;
    var q, id := Normalized(p), hash(intent.deduplicationKey);
    var (v1, r1) := RetrySubmit(hash, p, s, intent, v);
    RetryKeeps(hash, q, s, Limit(q, s.start), intent, 1, q.baseDelay, None, v, id);
    QueryKeepsHolds(hash, v1, LostOrderId(if r1.Failed? then r1.problem else Problem(Internal, false, map[])),
        intent.symbol, fate, id);
  }

  /** Under every policy: the answer to a request is lost, the kill switch stops the retries, and the order is there. */
  lemma ProblemMayHideAnOrder(hash: string -> string, p: Policy, fate: QueryFate, intent: Intent, v: State,
      report: Report)
    returns (s: Schedule)
    requires intent.side != NoSide
    ensures var (w, r) := Pipeline(hash, p, s, fate, intent, v);
            r.Failed? && Holds(w.book, hash(intent.deduplicationKey))
  {
    s := Schedule(0, _ => Attempt(false, 0, SubmitFate(true, true, report, NoResponse), true, 1.0, false));
  }
}
