/** At-most-once submission, over every fault schedule. */
module PipelineLaws {
  import opened Wrappers
  import opened Venue
  import opened Retry
  import opened Reconciler

  // ---------------------------------------------------------------- which failures are retried

  /** Failures the venue may get over: not authentication, not a plain client error. */
  predicate Transient(status: int, code: int) {
    || status == 429 || status < 400 || status >= 500
    || (status != 401 && status != 403 && code in {-1001, -1003, -1015})
  }

  lemma ClassificationIsExact(status: int, code: int)
    ensures HandleErrorResponse(status, code).retryable <==> Transient(status, code)
    ensures HandleErrorResponse(status, code).retryable <==> HandleErrorResponse(status, code).code == Unavailable
    ensures BodyReadFailureAfter200 !in HandleErrorResponse(status, code).details
  {
  }

  /**
   The details of an HTTP error: its status, the venue's code if there is one, and the class of a
   transient 4xx code.
   */
  lemma ErrorsAreTold(status: int, code: int)
    ensures var p := HandleErrorResponse(status, code);
            var told := 400 <= status < 500 && status !in {401, 403, 429} && code in {-1001, -1003, -1015};
            && VenueHttpStatus in p.details && p.details[VenueHttpStatus] == Number(status)
            && (VenueErrorCode in p.details <==> code != 0)
            && (code != 0 ==> p.details[VenueErrorCode] == Number(code))
            && (VenueErrorClass in p.details <==> told)
            && (told && code == -1001 ==> p.details[VenueErrorClass] == Label(VenueInternal))
            && (told && code == -1003 ==> p.details[VenueErrorClass] == Label(IpRateLimit))
            && (told && code == -1015 ==> p.details[VenueErrorClass] == Label(OrderRateLimit))
            && p.code == (if Transient(status, code) then Unavailable else InvalidArgument)
  {
  }

  predicate RetryableResponse(r: Response) {
    r.NoResponse? || (r.Response? && r.status != 200 && Transient(r.status, r.code))
  }

  // ---------------------------------------------------------------- what one submit does

  predicate SameRequest(a: Order, b: Order) {
    a == b.(report := a.report)
  }

  /** The book after any number of submits of the same request. */
  predicate AtMostOneMore(before: seq<Order>, after: seq<Order>, request: Order) {
    || after == before
    || (!Holds(before, request.id) && |after| == |before| + 1 && after[..|before|] == before
        && SameRequest(after[|before|], request))
  }

  /** The words the venue has for the state of an order. */
  const VENUE_STATUSES := {"NEW", "FILLED", "PARTIALLY_FILLED", "CANCELED", "CANCELLED", "REJECTED", "EXPIRED"}

  /** Which of these words a status of a receipt stands for. */
  predicate StandsFor(status: Status, text: string) {
    match status
    case Accepted => text == "NEW"
    case Filled => text == "FILLED"
    case PartiallyFilled => text == "PARTIALLY_FILLED"
    case Cancelled => text == "CANCELED" || text == "CANCELLED"
    case Rejected => text == "REJECTED" || text == "EXPIRED"
    case Submitted => false
    case Sent => false
  }

  /**
   A receipt tells what the venue has on the order, in the venue's own words; there is one fill, with
   price, quantity and cost as reported, exactly for an order the venue calls filled or partially
   filled.  `unfilled` is the fill list for all others.
   */
  predicate Faithful(receipt: Receipt, intent: Intent, id: string, r: Report, unfilled: seq<Fill>) {
    && receipt.clientOrderId == id
    && receipt.venueOrderId == Some(r.orderId)
    && StandsFor(receipt.status, r.status)
    && receipt.intent == intent.(
         status := receipt.status,
         filledQuantity := r.executedQty,
         fills := if r.status == "FILLED" || r.status == "PARTIALLY_FILLED"
                  then [Fill(r.avgPrice, r.executedQty, if r.cumQuote == "" then "0" else r.cumQuote)]
                  else unfilled)
  }

  /** A response is a receipt exactly if it is legible and its status one of the venue's words. */
  lemma ParseIsFaithful(hash: string -> string, legible: bool, r: Report, intent: Intent)
    ensures var p := ParseOrderResponse(hash, legible, r, intent);
            && (p.Ok? <==> legible && r.status in VENUE_STATUSES)
            && (p.Ok? ==> Faithful(p.receipt, intent, hash(intent.deduplicationKey), r, intent.fills))
            && (p.Failed? ==> !p.problem.retryable && p.problem.details == map[])
  {
  }

  /** The venue answered 200 and the answer can be read. */
  predicate Legible(r: Response) {
    r.Response? && r.status == 200 && r.legible
  }

  /** The venue has an order of that id and one of its words for its state. */
  predicate Known(book: seq<Order>, id: string) {
    Holds(book, id) && Find(book, id).report.status in VENUE_STATUSES
  }

  lemma SubmitEffect(hash: string -> string, v: State, intent: Intent, fate: SubmitFate)
    requires intent.side != NoSide && fate.sent
    ensures var (w, r) := Submit(hash, v, intent, fate);
            var request := OrderOf(hash, intent, fate.report);
            && w.log == v.log + [SubmitSent(request, fate.response)]
            && (w.book == v.book || w.book == Take(v.book, request))
            && (r.Failed? ==> (r.problem.retryable <==> RetryableResponse(fate.response)))
            && (r.Failed? ==> (BodyReadFailureAfter200 in r.problem.details <==> fate.response.Unreadable?))
            && (fate.response.Unreadable? ==>
                  r.Failed? && IsBodyReadFailureAfter200(r.problem) && LostOrderId(r.problem) == request.id)
            && (r.Ok? <==> Legible(fate.response) && Known(w.book, request.id))
            && (r.Ok? ==> Faithful(r.receipt, intent, request.id, Find(w.book, request.id).report, intent.fills))
  {
    hide HandleErrorResponse, ParseOrderResponse, Transient, Holds, Faithful;
    var (w, r) := Submit(hash, v, intent, fate);
    if fate.response.Response? {
      if fate.response.status == 200 {
        ParseIsFaithful(hash, fate.response.legible, Find(w.book, hash(intent.deduplicationKey)).report, intent);
      } else {
        ClassificationIsExact(fate.response.status, fate.response.code);
      }
    }
  }

  lemma FirstTake(a: seq<Order>, b: seq<Order>, o: Order, request: Order)
    requires SameRequest(o, request) && (b == a || b == Take(a, o))
    ensures AtMostOneMore(a, b, request)
  {}

  // ---------------------------------------------------------------- the retry loop

  function Submits(t: seq<Event>): nat {
    if t == [] then 0 else (if t[0].SubmitSent? then 1 else 0) + Submits(t[1..])
  }

  lemma {:induction false} SubmitsSum(a: seq<Event>, b: seq<Event>)
    ensures Submits(a + b) == Submits(a) + Submits(b)
  {
    if a == [] {
      assert a + b == b;
    } else {
      assert (a + b)[1..] == a[1..] + b;
      SubmitsSum(a[1..], b);
    }
  }

  /** An event after which another attempt may be started. */
  predicate Continues(e: Event, limit: Option<int>) {
    match e
    case ContextChecked(done) => !done
    case ClockRead(now) => limit.Some? && now <= limit.value
    case SubmitSent(_, response) => RetryableResponse(response)
    case HaltChecked(halted) => !halted
    case Slept(_) => true
    case QuerySent(_) => false
  }

  /** The last things seen before a request is sent: a live context and, under a deadline, a clock within it. */
  predicate Cleared(t: seq<Event>, limit: Option<int>) {
    if limit.None? then |t| >= 1 && t[|t| - 1] == ContextChecked(false)
    else
      && |t| >= 2
      && t[|t| - 2] == ContextChecked(false)
      && t[|t| - 1].ClockRead? && t[|t| - 1].now <= limit.value
  }

  /**
   No request is sent without clearance, and none after a success, a lost response, a
   non-retryable refusal, a done context, an expired deadline, a halt or a query.
   */
  predicate Disciplined(t: seq<Event>, limit: Option<int>) {
    forall k | 0 <= k < |t| && t[k].SubmitSent? ::
      Cleared(t[..k], limit) && forall j | 0 <= j < k :: Continues(t[j], limit)
  }

  lemma DisciplinedChain(a: seq<Event>, b: seq<Event>, limit: Option<int>)
    requires Disciplined(a, limit) && Disciplined(b, limit)
    requires forall j | 0 <= j < |a| :: Continues(a[j], limit)
    ensures Disciplined(a + b, limit)
  {
    var t := a + b;
    forall k | 0 <= k < |t| && t[k].SubmitSent?
      ensures Cleared(t[..k], limit) && forall j | 0 <= j < k :: Continues(t[j], limit)
    {
      if k < |a| {
        assert a[k].SubmitSent? && t[..k] == a[..k];
      } else {
        assert b[k - |a|].SubmitSent? && t[..k] == a + b[..k - |a|];
      }
    }
  }

  predicate OnlyRequest(t: seq<Event>, request: Order) {
    forall k | 0 <= k < |t| && t[k].SubmitSent? :: SameRequest(t[k].order, request)
  }

  predicate NoQuery(t: seq<Event>) {
    forall k | 0 <= k < |t| :: !t[k].QuerySent?
  }

  /** The last thing that happened is a request whose response was lost. */
  predicate EndsLost(t: seq<Event>) {
    t != [] && t[|t| - 1].SubmitSent? && t[|t| - 1].response.Unreadable?
  }

  /** The last thing that happened is a request that was answered legibly. */
  predicate EndsAnswered(t: seq<Event>) {
    t != [] && t[|t| - 1].SubmitSent? && Legible(t[|t| - 1].response)
  }

  /** The request as the venue sees it, up to the report it gives. */
  function Request(hash: string -> string, intent: Intent): Order {
    Order(hash(intent.deduplicationKey), intent.symbol, intent.side, intent.quantity, Report(0, "", "", "", ""))
  }

  /** Everything the retry loop guarantees about a run with trace `t`. */
  ghost predicate RetryGuarantee(hash: string -> string, intent: Intent, limit: Option<int>, budget: int,
      v: State, w: State, r: Reply, t: seq<Event>) {
    var request := Request(hash, intent);
    && w.log == v.log + t
    && Submits(t) <= budget
    && OnlyRequest(t, request) && NoQuery(t) && Disciplined(t, limit)
    && AtMostOneMore(v.book, w.book, request)
    && (intent.side != NoSide ==> (r.Ok? <==> EndsAnswered(t) && Known(w.book, request.id)))
    && (r.Ok? && intent.side != NoSide ==>
          Faithful(r.receipt, intent, request.id, Find(w.book, request.id).report, intent.fills))
    && (EndsLost(t) <==> r.Failed? && IsBodyReadFailureAfter200(r.problem))
    && (EndsLost(t) ==> LostOrderId(r.problem) == request.id)
  }

  /** The events of an attempt up to the request. */
  function Checks(a: Attempt, limit: Option<int>): seq<Event> {
    [ContextChecked(a.done)] + if limit.Some? then [ClockRead(a.now)] else []
  }

  lemma {:induction false} RetryGuarantees(hash: string -> string, p: Policy, s: Schedule, limit: Option<int>,
      intent: Intent, attempt: nat, delay: int, last: Option<Problem>, v: State) returns (t: seq<Event>)
    requires 1 <= attempt <= p.maxAttempts && (attempt > 1 ==> last.Some?)
    requires last.Some? ==> BodyReadFailureAfter200 !in last.value.details
    ensures var (w, r) := RetryFrom(hash, p, s, limit, intent, attempt, delay, last, v);
            RetryGuarantee(hash, intent, limit, p.maxAttempts - attempt + 1, v, w, r, t)
    decreases p.maxAttempts - attempt
  {
    hide Submit, RetryGuarantee, AtMostOneMore, Faithful, Disciplined, Continues, Known, IsBodyReadFailureAfter200,
      Submits, NextDelay;
    var a := s.attempts(attempt);
    var budget := p.maxAttempts - attempt + 1;
    var (w, r) := RetryFrom(hash, p, s, limit, intent, attempt, delay, last, v);
    if a.done {
      t := [ContextChecked(true)];
      StopsUnsent(hash, intent, limit, budget, v, w, r, t);
    } else if limit.Some? && a.now > limit.value {
      t := [ContextChecked(false), ClockRead(a.now)];
      assert v.log + t == (v.log + [ContextChecked(false)]) + [ClockRead(a.now)];
      StopsUnsent(hash, intent, limit, budget, v, w, r, t);
    } else {
      var checks := Checks(a, limit);
      var ready := v.(log := v.log + checks);
      assert ready == if limit.Some? then Log(Log(v, ContextChecked(false)), ClockRead(a.now))
          else Log(v, ContextChecked(false)) by {
        assert limit.Some? ==> v.log + checks == (v.log + [ContextChecked(false)]) + [ClockRead(a.now)];
      }
      var (v3, r3) := Submit(hash, ready, intent, a.submit);
      if intent.side == NoSide || !a.submit.sent {
        t := checks;
        NothingSent(hash, intent, a, limit, budget, v, ready, v3, r3);
      } else {
        t := checks + [SubmitSent(OrderOf(hash, intent, a.submit.report), a.submit.response)];
        AttemptGuarantee(hash, intent, a, limit, v, v3, r3, t);
        if r3.Ok? || !r3.problem.retryable {
          MoreBudget(hash, intent, limit, budget, v, w, r, t);
        } else {
          SubmitEffect(hash, ready, intent, a.submit);
          var halt := HaltChecked(a.halted);
          if attempt == p.maxAttempts {
            GivesUp(hash, intent, limit, budget, v, v3, r3, t, [], Annotate(r3.problem, attempt));
            assert t + [] == t && v3.log + [] == v3.log;
          } else if a.halted {
            GivesUp(hash, intent, limit, budget, v, v3, r3, t, [halt], AnnotateHalted(r3.problem, attempt));
            t := t + [halt];
          } else if a.doneBeforeSleep {
            GivesUp(hash, intent, limit, budget, v, v3, r3, t, [halt, ContextChecked(true)],
                Annotate(r3.problem, attempt));
            assert v3.log + [halt, ContextChecked(true)] == (v3.log + [halt]) + [ContextChecked(true)];
            t := t + [halt, ContextChecked(true)];
          } else {
            var slept := Jittered(delay, a.jitter);
            var v5 := Log(Log(v3, halt), Slept(slept));
            var rest := RetryGuarantees(hash, p, s, limit, intent,
                attempt + 1, NextDelay(p, delay), Some(r3.problem), v5);
            assert v3.log + [halt, Slept(slept)] == (v3.log + [halt]) + [Slept(slept)];
            GoesOn(hash, intent, a, limit, budget, slept, v, v3, w, r3, r, t, rest);
            t := t + [halt, Slept(slept)] + rest;
          }
        }
      }
    }
  }

  lemma MoreBudget(hash: string -> string, intent: Intent, limit: Option<int>, budget: int, v: State, w: State,
      r: Reply, t: seq<Event>)
    requires RetryGuarantee(hash, intent, limit, 1, v, w, r, t) && budget >= 1
    ensures RetryGuarantee(hash, intent, limit, budget, v, w, r, t)
  {}

  predicate Silent(t: seq<Event>) {
    forall k | 0 <= k < |t| :: !t[k].SubmitSent? && !t[k].QuerySent?
  }

  lemma {:induction false} SilentSubmitsNothing(t: seq<Event>)
    requires Silent(t)
    ensures Submits(t) == 0
  {
    if t != [] {
      SilentSubmitsNothing(t[1..]);
    }
  }

  /** After a retryable failure: some checks, and the failure is reported with other details. */
  lemma GivesUp(hash: string -> string, intent: Intent, limit: Option<int>, budget: int, v: State, w: State, r: Reply,
      t: seq<Event>, extra: seq<Event>, p: Problem)
    requires RetryGuarantee(hash, intent, limit, 1, v, w, r, t) && budget >= 1
    requires r.Failed? && BodyReadFailureAfter200 !in r.problem.details && BodyReadFailureAfter200 !in p.details
    requires Silent(extra)
    ensures RetryGuarantee(hash, intent, limit, budget, v, w.(log := w.log + extra), Failed(p), t + extra)
  {
    hide AtMostOneMore, Continues, Cleared, Request, Submits, Known;
    ChainTraces(t, extra, Request(hash, intent));
    SilentSubmitsNothing(extra);
    assert v.log + (t + extra) == (v.log + t) + extra;
    forall k | 0 <= k < |t + extra| && (t + extra)[k].SubmitSent?
      ensures Cleared((t + extra)[..k], limit) && forall j | 0 <= j < k :: Continues((t + extra)[j], limit)
    {
      assert k < |t| && (t + extra)[..k] == t[..k];
    }
  }

  /** After a retryable failure: the checks pass, and the loop goes on with guarantee `rest`. */
  lemma GoesOn(hash: string -> string, intent: Intent, a: Attempt, limit: Option<int>, budget: int, slept: int,
      v: State, v3: State, w: State, r3: Reply, r: Reply, t: seq<Event>, rest: seq<Event>)
    requires RetryGuarantee(hash, intent, limit, 1, v, v3, r3, t)
    requires t == Checks(a, limit) + [SubmitSent(OrderOf(hash, intent, a.submit.report), a.submit.response)]
    requires !a.done && (limit.Some? ==> a.now <= limit.value) && RetryableResponse(a.submit.response)
    requires RetryGuarantee(hash, intent, limit, budget - 1, v3.(log := v3.log + [HaltChecked(false), Slept(slept)]),
              w, r, rest)
    ensures RetryGuarantee(hash, intent, limit, budget, v, w, r, t + [HaltChecked(false), Slept(slept)] + rest)
  {
    hide Faithful, AtMostOneMore, IsBodyReadFailureAfter200, Known, Submits, OnlyRequest, NoQuery, Disciplined,
      Continues, EndsLost, EndsAnswered, Checks, Request, OrderOf, RetryableResponse;
    var extra, request := [HaltChecked(false), Slept(slept)], Request(hash, intent);
    var first := t + extra;
    WholeRound(a, limit, t, extra, OrderOf(hash, intent, a.submit.report));
    ChainTraces(t, extra, request);
    ChainTraces(first, rest, request);
    DisciplinedChain(t, extra, limit);
    DisciplinedChain(first, rest, limit);
    ChainBooks(v.book, v3.book, w.book, request);
    assert v.log + (first + rest) == ((v.log + t) + extra) + rest;
  }

  /** A turn of the loop after which the next one follows: nothing in it forbids another attempt. */
  lemma WholeRound(a: Attempt, limit: Option<int>, t: seq<Event>, extra: seq<Event>, order: Order)
    requires t == Checks(a, limit) + [SubmitSent(order, a.submit.response)]
    requires !a.done && (limit.Some? ==> a.now <= limit.value) && RetryableResponse(a.submit.response)
    requires |extra| == 2 && extra[0] == HaltChecked(false) && extra[1].Slept?
    ensures forall j | 0 <= j < |t| :: Continues(t[j], limit)
    ensures forall j | 0 <= j < |t + extra| :: Continues((t + extra)[j], limit)
    ensures Silent(extra) && Disciplined(extra, limit) && Submits(extra) == 0
    ensures forall request :: OnlyRequest(extra, request)
    ensures !EndsLost(t + extra) && !EndsAnswered(t + extra) && NoQuery(extra)
  {
    SilentSubmitsNothing(extra);
  }

  lemma ChainTraces(a: seq<Event>, b: seq<Event>, request: Order)
    ensures Submits(a + b) == Submits(a) + Submits(b)
    ensures OnlyRequest(a, request) && OnlyRequest(b, request) ==> OnlyRequest(a + b, request)
    ensures NoQuery(a) && NoQuery(b) ==> NoQuery(a + b)
    ensures !EndsLost([]) && (EndsLost(a + b) <==> EndsLost(if b == [] then a else b))
    ensures !EndsAnswered([]) && (EndsAnswered(a + b) <==> EndsAnswered(if b == [] then a else b))
  {
    hide Submits;
    SubmitsSum(a, b);
    assert b == [] ==> a + b == a;
  }

  lemma ChainBooks(a: seq<Order>, b: seq<Order>, c: seq<Order>, request: Order)
    requires AtMostOneMore(a, b, request) && AtMostOneMore(b, c, request)
    ensures AtMostOneMore(a, c, request)
  {
    if b != a {
      assert b[|a|].id == request.id;
      assert Holds(b, request.id);
    }
  }

  lemma StopsUnsent(hash: string -> string, intent: Intent, limit: Option<int>, budget: int, v: State, w: State,
      r: Reply, t: seq<Event>)
    requires budget >= 0 && w == v.(log := v.log + t) && r.Failed? && BodyReadFailureAfter200 !in r.problem.details
    requires t == [ContextChecked(true)] || (|t| == 2 && t[0] == ContextChecked(false) && t[1].ClockRead?)
    ensures RetryGuarantee(hash, intent, limit, budget, v, w, r, t)
  {
    assert |t| == 2 ==> Submits(t) == Submits(t[1..]) == Submits(t[1..][1..]);
  }

  lemma NothingSent(hash: string -> string, intent: Intent, a: Attempt, limit: Option<int>, budget: int,
      v: State, ready: State, w: State, r: Reply)
    requires budget >= 0 && ready == v.(log := v.log + Checks(a, limit))
    requires (w, r) == Submit(hash, ready, intent, a.submit) && (intent.side == NoSide || !a.submit.sent)
    ensures RetryGuarantee(hash, intent, limit, budget, v, w, r, Checks(a, limit))
    ensures r.Ok? || !r.problem.retryable
  {
    var t := Checks(a, limit);
    assert |t| == 2 ==> Submits(t) == Submits(t[1..]) == Submits(t[1..][1..]);
  }

  lemma AttemptGuarantee(hash: string -> string, intent: Intent, a: Attempt, limit: Option<int>,
      v: State, w: State, r: Reply, t: seq<Event>)
    requires intent.side != NoSide && a.submit.sent && !a.done && (limit.Some? ==> a.now <= limit.value)
    requires (w, r) == Submit(hash, v.(log := v.log + Checks(a, limit)), intent, a.submit)
    requires t == Checks(a, limit) + [SubmitSent(OrderOf(hash, intent, a.submit.report), a.submit.response)]
    ensures RetryGuarantee(hash, intent, limit, 1, v, w, r, t)
  {
    hide Submit, AtMostOneMore, Faithful, Holds;
    var checks := Checks(a, limit);
    var sent := SubmitSent(OrderOf(hash, intent, a.submit.report), a.submit.response);
    SubmitEffect(hash, v.(log := v.log + checks), intent, a.submit);
    SubmitsSum(checks, [sent]);
    assert [sent][1..] == [];
    assert |checks| == 2 ==> Submits(checks) == Submits(checks[1..]) == Submits(checks[1..][1..]);
    assert v.log + t == (v.log + checks) + [sent];
    assert t[..|checks|] == checks;
    FirstTake(v.book, w.book, OrderOf(hash, intent, a.submit.report), Request(hash, intent));
  }

  // ---------------------------------------------------------------- the whole pipeline

  /** All of the orders of before, at most one new one, and only the request's own order may have moved on. */
  predicate Accounted(before: seq<Order>, after: seq<Order>, request: Order) {
    && |before| <= |after| <= |before| + 1
    && (forall i | 0 <= i < |before| ::
          SameRequest(after[i], before[i]) && (before[i].id != request.id ==> after[i] == before[i]))
    && (|after| > |before| ==> !Holds(before, request.id) && SameRequest(after[|before|], request))
  }

  /** What is sent for one intent: the same request within the budget, and one query at most, last and after a loss. */
  predicate Prudent(t: seq<Event>, limit: Option<int>, budget: int, request: Order) {
    && Submits(t) <= budget && OnlyRequest(t, request) && Disciplined(t, limit)
    && (forall k | 0 <= k < |t| && t[k].QuerySent? ::
          k == |t| - 1 && t[k].id == request.id && EndsLost(t[..k]))
  }

  /** Exactly one order of the book carries the id, and the receipt tells what the venue has on it. */
  ghost predicate Confirmed(book: seq<Order>, receipt: Receipt, intent: Intent, id: string) {
    exists i | 0 <= i < |book| ::
      && book[i].id == id
      && (forall j | 0 <= j < |book| && book[j].id == id :: j == i)
      && (Faithful(receipt, intent, id, book[i].report, intent.fills)
                || Faithful(receipt, intent, id, book[i].report, []))
  }

  /**
   At-most-once over every fault schedule.  For one intent the pipeline sends the same request at
   most `maxAttempts` times, each time cleared and never after an outcome that ends the retries;
   the venue, which refuses duplicate ids, ends with at most one order more; and a buy or sell
   that comes back without a problem stands for exactly one order, as reported.
   */
  lemma AtMostOnce(hash: string -> string, p: Policy, s: Schedule, fate: QueryFate, intent: Intent, v: State)
    returns (t: seq<Event>)
    requires Unique(v.book)
    ensures var (w, r) := Pipeline(hash, p, s, fate, intent, v);
            var request := Request(hash, intent);
            && w.log == v.log + t
            && Prudent(t, if p.deadline > 0 then Some(s.start + p.deadline) else None,
                 if p.maxAttempts < 1 then 1 else p.maxAttempts, request)
            && Unique(w.book) && Accounted(v.book, w.book, request)
            && (r.Ok? && intent.side != NoSide ==> Confirmed(w.book, r.receipt, intent, request.id))
            && (request.id != "" && fate.sent ==> !EndsLost(t))
  {
    hide RetryFrom, Submits, OnlyRequest, NoQuery, Disciplined, Query, Faithful, Known, EndsAnswered, Prudent,
      AtMostOneMore, Accounted, MovedOn, Unique, Confirmed;
    var q := Normalized(p);
    var limit, request := Limit(p, s.start), Request(hash, intent);
    t := RetryGuarantees(hash, q, s, limit, intent, 1, q.baseDelay, None, v);
    var (v1, r1) := RetryFrom(hash, q, s, limit, intent, 1, q.baseDelay, None, v);
    AccountedFor(v.book, v1.book, request);
    PrudentAlone(t, limit, q.maxAttempts, request);
    if r1.Ok? {
      if intent.side != NoSide {
        KnownIsThere(v1.book, request.id);
        ConfirmedByFind(v1.book, r1.receipt, intent, request.id);
      }
    } else if IsBodyReadFailureAfter200(r1.problem) && request.id != "" {
      var (w, a) := Query(hash, v1, request.id, intent.symbol, fate);
      QueryEffect(hash, v1, request.id, intent.symbol, fate);
      if fate.sent {
        assert v.log + (t + [QuerySent(request.id)]) == (v.log + t) + [QuerySent(request.id)];
        QueryAfterLoss(t, limit, q.maxAttempts, request);
        t := t + [QuerySent(request.id)];
      }
      AccountedAfterMove(v.book, v1.book, w.book, request);
      if a.Ok? {
        KnownIsThere(w.book, request.id);
        RecoveredIsFaithful(intent, r1.problem, request.id, a, hash(""), Find(w.book, request.id).report);
        ConfirmedByFind(w.book, Recover(intent, r1.problem, request.id, a).receipt, intent, request.id);
      }
    }
  }

  /** An intent without a side is accepted as it is; nothing is sent for it. */
  lemma NoSideNoMessage(hash: string -> string, p: Policy, s: Schedule, fate: QueryFate, intent: Intent, v: State)
    requires intent.side == NoSide
    ensures var (w, r) := Pipeline(hash, p, s, fate, intent, v);
            && w.book == v.book && v.log <= w.log
            && (forall i | |v.log| <= i < |w.log| :: !w.log[i].SubmitSent? && !w.log[i].QuerySent?)
            && (r.Ok? ==> r.receipt == Receipt(None, "", Accepted, intent))
            && (r.Failed? <==> s.attempts(1).done || (p.deadline > 0 && s.attempts(1).now > s.start + p.deadline))
  {
  }

  /** The last message of a run, a request or the query, was answered legibly. */
  predicate LastAnswered(log: seq<Event>, from: nat, fate: QueryFate) {
    from < |log| &&
    match log[|log| - 1]
    case SubmitSent(_, response) => Legible(response)
    case QuerySent(_) => Legible(fate.response)
    case _ => false
  }

  /**
   For a buy or sell, exactly: the pipeline comes back without a problem if and only if its last
   message was answered legibly and the venue then has the order, in a state it has a word for.
   */
  lemma OkIffVenueConfirms(hash: string -> string, p: Policy, s: Schedule, fate: QueryFate, intent: Intent, v: State)
    requires intent.side != NoSide
    ensures var (w, r) := Pipeline(hash, p, s, fate, intent, v);
            r.Ok? <==> LastAnswered(w.log, |v.log|, fate) && Known(w.book, hash(intent.deduplicationKey))
  {
    hide RetryFrom, Submits, OnlyRequest, Disciplined, Query, Faithful, Legible, Known;
    var q, id := Normalized(p), hash(intent.deduplicationKey);
    var t := RetryGuarantees(hash, q, s, Limit(p, s.start), intent, 1, q.baseDelay, None, v);
    var (v1, r1) := RetrySubmit(hash, p, s, intent, v);
    if t != [] {
      assert v1.log[|v1.log| - 1] == t[|t| - 1];
    }
    if r1.Failed? && IsBodyReadFailureAfter200(r1.problem) {
      UnreadableIsNotLegible();
      if id != "" {
        QueryEffect(hash, v1, id, intent.symbol, fate);
      }
    }
  }

  lemma UnreadableIsNotLegible()
    ensures forall r: Response | r.Unreadable? :: !Legible(r)
  {
  }

  /** Attempt `n` meets no reason to stop: all clear, a transient failure, and time to sleep. */
  predicate Transits(a: Attempt, limit: Option<int>) {
    && !a.done && !a.halted && !a.doneBeforeSleep
    && (limit.Some? ==> a.now <= limit.value)
    && a.submit.sent && RetryableResponse(a.submit.response)
  }

  /** The retries do not give up early: when nothing but transient failures happens, every attempt is made. */
  lemma {:induction false} RetriesAllAttempts(hash: string -> string, p: Policy, s: Schedule, limit: Option<int>,
      intent: Intent, attempt: nat, delay: int, last: Option<Problem>, v: State) returns (t: seq<Event>)
    requires 1 <= attempt <= p.maxAttempts && (attempt > 1 ==> last.Some?) && intent.side != NoSide
    requires forall n | attempt <= n <= p.maxAttempts :: Transits(s.attempts(n), limit)
    ensures var (w, r) := RetryFrom(hash, p, s, limit, intent, attempt, delay, last, v);
            && w.log == v.log + t && Submits(t) == p.maxAttempts - attempt + 1
            && r.Failed? && RetryExhausted in r.problem.details
            && RetryAttempts in r.problem.details && r.problem.details[RetryAttempts] == Number(p.maxAttempts)
    decreases p.maxAttempts - attempt
  {
    hide Submit, RetryableResponse, Holds, NextDelay, Faithful, Take, IsBodyReadFailureAfter200, LostOrderId, Submits;
    var a := s.attempts(attempt);
    assert Transits(a, limit);
    var checks := Checks(a, limit);
    var ready := v.(log := v.log + checks);
    assert ready == if limit.Some? then Log(Log(v, ContextChecked(false)), ClockRead(a.now))
        else Log(v, ContextChecked(false)) by {
      assert limit.Some? ==> v.log + checks == (v.log + [ContextChecked(false)]) + [ClockRead(a.now)];
    }
    var (v3, r3) := Submit(hash, ready, intent, a.submit);
    SubmitEffect(hash, ready, intent, a.submit);
    TransientFails(hash, ready, intent, a.submit);
    var sent := [SubmitSent(OrderOf(hash, intent, a.submit.report), a.submit.response)];
    SilentSubmitsNothing(checks);
    SubmitsSum(checks, sent);
    OneSubmit(sent[0]);
    t := checks + sent;
    assert v.log + t == (v.log + checks) + sent;
    if attempt < p.maxAttempts {
      var slept := Jittered(delay, a.jitter);
      var extra := [HaltChecked(false), Slept(slept)];
      SilentSubmitsNothing(extra);
      SubmitsSum(t, extra);
      var v5 := Log(Log(v3, HaltChecked(false)), Slept(slept));
      var rest := RetriesAllAttempts(hash, p, s, limit, intent, attempt + 1, NextDelay(p, delay), Some(r3.problem), v5);
      SubmitsSum(t + extra, rest);
      assert v.log + (t + extra + rest) == v5.log + rest;
      t := t + extra + rest;
    }
  }

  lemma OneSubmit(e: Event)
    requires e.SubmitSent?
    ensures Submits([e]) == 1
  {
    assert [e][1..] == [];
  }

  lemma TransientFails(hash: string -> string, v: State, intent: Intent, fate: SubmitFate)
    requires intent.side != NoSide && fate.sent && RetryableResponse(fate.response)
    ensures Submit(hash, v, intent, fate).1.Failed?
  {}

  lemma AccountedFor(before: seq<Order>, after: seq<Order>, request: Order)
    requires Unique(before) && AtMostOneMore(before, after, request)
    ensures Unique(after) && Accounted(before, after, request)
  {
    if after != before {
      assert forall i | 0 <= i < |before| :: after[i] == after[..|before|][i] == before[i];
    }
  }

  /** The venue's account of an order may have moved on; nothing else has. */
  ghost predicate MovedOn(before: seq<Order>, after: seq<Order>, id: string) {
    && |after| == |before|
    && forall i | 0 <= i < |before| ::
         SameRequest(after[i], before[i]) && (before[i].id != id ==> after[i] == before[i])
  }

  lemma AccountedAfterMove(a: seq<Order>, b: seq<Order>, c: seq<Order>, request: Order)
    requires Unique(b) && Accounted(a, b, request) && MovedOn(b, c, request.id)
    ensures Unique(c) && Accounted(a, c, request)
  {}

  lemma NoSuchOrderIsFinal()
    ensures !Transient(400, -2013)
  {
  }

  lemma QueryEffect(hash: string -> string, v: State, id: string, symbol: string, fate: QueryFate)
    ensures var (w, a) := Query(hash, v, id, symbol, fate);
            && w.log == (if fate.sent then v.log + [QuerySent(id)] else v.log)
            && MovedOn(v.book, w.book, id)
            && (a.Ok? <==> fate.sent && Legible(fate.response) && Known(w.book, id))
            && (a.Failed? ==> (a.problem.retryable <==> fate.sent && RetryableResponse(fate.response)))
            && (a.Ok? ==> Faithful(a.receipt, SyntheticIntent(symbol), hash(""), Find(w.book, id).report, []))
  {
    hide *;
    QueryMoves(hash, v, id, symbol, fate);
    QueryTells(hash, v, id, symbol, fate);
  }

  lemma QueryMoves(hash: string -> string, v: State, id: string, symbol: string, fate: QueryFate)
    ensures var w := Query(hash, v, id, symbol, fate).0;
            && w.log == (if fate.sent then v.log + [QuerySent(id)] else v.log)
            && MovedOn(v.book, w.book, id)
  {
    hide HandleErrorResponse, ParseOrderResponse, Holds;
  }

  lemma QueryTells(hash: string -> string, v: State, id: string, symbol: string, fate: QueryFate)
    ensures var (w, a) := Query(hash, v, id, symbol, fate);
            && (a.Ok? <==> fate.sent && Legible(fate.response) && Known(w.book, id))
            && (a.Failed? ==> (a.problem.retryable <==> fate.sent && RetryableResponse(fate.response)))
            && (a.Ok? ==> Faithful(a.receipt, SyntheticIntent(symbol), hash(""), Find(w.book, id).report, []))
  {
    hide HandleErrorResponse, ParseOrderResponse, Faithful, Transient, Holds, Find, Move;
    var (w, a) := Query(hash, v, id, symbol, fate);
    ClassificationIsExact(400, -2013);
    NoSuchOrderIsFinal();
    if fate.sent && fate.response.Response? {
      ClassificationIsExact(fate.response.status, fate.response.code);
      if fate.response.status == 200 && Holds(w.book, id) {
        ParseIsFaithful(hash, fate.response.legible, Find(w.book, id).report, SyntheticIntent(symbol));
      }
    }
  }

  lemma RecoveredIsFaithful(intent: Intent, p: Problem, id: string, a: Reply, own: string, r: Report)
    requires a.Ok? && Faithful(a.receipt, SyntheticIntent(intent.symbol), own, r, [])
    ensures Faithful(Recover(intent, p, id, a).receipt, intent, id, r, [])
  {}

  lemma KnownIsThere(book: seq<Order>, id: string)
    requires Known(book, id)
    ensures Holds(book, id)
  {
  }

  lemma PrudentAlone(t: seq<Event>, limit: Option<int>, budget: int, request: Order)
    requires Submits(t) <= budget && OnlyRequest(t, request) && NoQuery(t) && Disciplined(t, limit)
    ensures Prudent(t, limit, budget, request)
  {
    hide Submits, OnlyRequest, Disciplined;
  }

  lemma QueryAfterLoss(t: seq<Event>, limit: Option<int>, budget: int, request: Order)
    requires Submits(t) <= budget && OnlyRequest(t, request) && NoQuery(t) && Disciplined(t, limit) && EndsLost(t)
    ensures Prudent(t + [QuerySent(request.id)], limit, budget, request)
  {
    var all := t + [QuerySent(request.id)];
    SubmitsSum(t, [QuerySent(request.id)]);
    assert [QuerySent(request.id)][1..] == [];
    assert all[..|t|] == t;
    forall k | 0 <= k < |all| && all[k].SubmitSent?
      ensures Cleared(all[..k], limit) && forall j | 0 <= j < k :: Continues(all[j], limit)
    {
      assert k < |t| && all[..k] == t[..k];
    }
  }

  lemma ConfirmedByFind(book: seq<Order>, receipt: Receipt, intent: Intent, id: string)
    requires Unique(book) && Holds(book, id)
    requires
      || Faithful(receipt, intent, id, Find(book, id).report, intent.fills)
      || Faithful(receipt, intent, id, Find(book, id).report, [])
    ensures Confirmed(book, receipt, intent, id)
  {
    hide Faithful;
    var o := Find(book, id);
    var i :| 0 <= i < |book| && book[i] == o;
  }

  /** A client of the pipeline: intents with the schedules they meet. */
  datatype Job = Job(intent: Intent, schedule: Schedule, fate: QueryFate)

  function RunJobs(hash: string -> string, p: Policy, jobs: seq<Job>, v: State): State {
    if jobs == [] then v
    else RunJobs(hash, p, jobs[1..], Pipeline(hash, p, jobs[0].schedule, jobs[0].fate, jobs[0].intent, v).0)
  }

  /**
   Over any number of intents, the same one submitted again included: no id has two orders, every
   order was there before or is one of the requests, and none disappears.
   */
  lemma {:induction false} JobsAreAtMostOnce(hash: string -> string, p: Policy, jobs: seq<Job>, v: State)
    requires Unique(v.book)
    ensures var w := RunJobs(hash, p, jobs, v);
            && Unique(w.book) && |v.book| <= |w.book|
            && (forall i | 0 <= i < |v.book| :: SameRequest(w.book[i], v.book[i]))
            && (forall i | |v.book| <= i < |w.book| ::
                  exists j | 0 <= j < |jobs| :: SameRequest(w.book[i], Request(hash, jobs[j].intent)))
  {
    if jobs != [] {
      var job := jobs[0];
      var t := AtMostOnce(hash, p, job.schedule, job.fate, job.intent, v);
      var v1 := Pipeline(hash, p, job.schedule, job.fate, job.intent, v).0;
      JobsAreAtMostOnce(hash, p, jobs[1..], v1);
      NewOrdersAreRequests(hash, p, jobs, v, v1, RunJobs(hash, p, jobs[1..], v1));
    }
  }

  lemma NewOrdersAreRequests(hash: string -> string, p: Policy, jobs: seq<Job>, v: State, v1: State, w: State)
    requires jobs != [] && Accounted(v.book, v1.book, Request(hash, jobs[0].intent))
    requires |v1.book| <= |w.book| && forall i | 0 <= i < |v1.book| :: SameRequest(w.book[i], v1.book[i])
    requires forall i | |v1.book| <= i < |w.book| ::
               exists j | 0 <= j < |jobs[1..]| :: SameRequest(w.book[i], Request(hash, jobs[1..][j].intent))
    ensures forall i | |v.book| <= i < |w.book| ::
              exists j | 0 <= j < |jobs| :: SameRequest(w.book[i], Request(hash, jobs[j].intent))
  {
    forall i | |v.book| <= i < |w.book|
      ensures exists j | 0 <= j < |jobs| :: SameRequest(w.book[i], Request(hash, jobs[j].intent))
    {
      if i < |v1.book| {
        assert SameRequest(w.book[i], Request(hash, jobs[0].intent));
      } else {
        var j :| 0 <= j < |jobs[1..]| && SameRequest(w.book[i], Request(hash, jobs[1..][j].intent));
        assert jobs[1..][j] == jobs[j + 1];
      }
    }
  }
}
