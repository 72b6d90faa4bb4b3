/** The lost-response reconciler of internal/application/execution/post200_reconciler.go. */
module Reconciler {
  import opened Venue
  import opened Retry

  predicate IsBodyReadFailureAfter200(p: Problem) {
    && BodyReadFailureAfter200 in p.details
    && p.details[BodyReadFailureAfter200].Flag?
    && p.details[BodyReadFailureAfter200].b
  }

  /** The client order id the adapter left in the details; "" when there is none. */
  function LostOrderId(p: Problem): string {
    if ClientOrderId in p.details && p.details[ClientOrderId].Text? then p.details[ClientOrderId].t else ""
  }

  /** The answer to a submit whose response was lost, once the query has been answered. */
  function Recover(intent: Intent, p: Problem, id: string, q: Reply): Reply {
    match q
    case Failed(queryProblem) =>
      Failed(p.WithDetail(ReconciliationAttempted, Flag(true))
             .WithDetail(ReconciliationFailed, Flag(true))
             .WithDetail(ReconciliationError, Cause(queryProblem.code)))
    case Ok(recovered) =>
      var restored := intent.(
        status := recovered.status,
        filledQuantity := recovered.intent.filledQuantity,
        fills := recovered.intent.fills);
      Ok(Receipt(recovered.venueOrderId, id, recovered.status, restored))
  }

  /** The whole pipeline: adapter, retries, reconciliation. */
  function Pipeline(hash: string -> string, p: Policy, s: Schedule, fate: QueryFate, intent: Intent,
      v: State): (State, Reply) {
    var (v1, r) := RetrySubmit(hash, p, s, intent, v);
    if r.Ok? || !IsBodyReadFailureAfter200(r.problem) || LostOrderId(r.problem) == "" then (v1, r)
    else
      var id := LostOrderId(r.problem);
      var (v2, q) := Query(hash, v1, id, intent.symbol, fate);
      (v2, Recover(intent, r.problem, id, q))
  }

  class Post200Reconciler {
    const submit: RetrySubmitter
    const query: Adapter

    constructor (submit: RetrySubmitter, query: Adapter)
      ensures this.submit == submit && this.query == query
    {
      this.submit := submit;
      this.query := query;
    }

    method SubmitOrder(intent: Intent, s: Schedule, fate: QueryFate) returns (r: Reply)
      requires submit.policy.maxAttempts >= 1
      requires query.venue == submit.inner.venue && query.hash == submit.inner.hash
      modifies query.venue
      ensures (query.venue.state, r) == Pipeline(query.hash, submit.policy, s, fate, intent, old(query.venue.state))
    {
      r := submit.SubmitOrder(intent, s);
      if r.Ok? {
        return;
      }
      if !IsBodyReadFailureAfter200(r.problem) {
        return;
      }
      var clientOrderId := LostOrderId(r.problem);
      if clientOrderId == "" {
        return;
      }
      var problem := r.problem;
      var recovered := query.QueryOrder(clientOrderId, intent.symbol, fate);
      if recovered.Failed? {
        return Failed(problem
                      .WithDetail(ReconciliationAttempted, Flag(true))
                      .WithDetail(ReconciliationFailed, Flag(true))
                      .WithDetail(ReconciliationError, Cause(recovered.problem.code)));
      }
      var receipt := recovered.receipt;
      var restored := intent.(status := receipt.status);
      restored := restored.(filledQuantity := receipt.intent.filledQuantity);
      restored := restored.(fills := receipt.intent.fills);
      return Ok(Receipt(receipt.venueOrderId, clientOrderId, receipt.status, restored));
    }
  }
}
