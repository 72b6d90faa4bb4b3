/**
 The Binance futures venue, its adapter (internal/application/execution/binance_futures_testnet_adapter.go)
 and the types of the submit pipeline.

 The venue keeps at most one order for a client order id.  What happens to each request, and what
 comes back, is decided by a fate that the code does not control.
 */
module Venue {
  import opened Wrappers

  // ---------------------------------------------------------------- orders, receipts, problems

  datatype Side = Buy | Sell | NoSide

  datatype Status = Submitted | Sent | Accepted | Filled | PartiallyFilled | Rejected | Cancelled

  datatype Fill = Fill(price: string, quantity: string, costBasis: string)

  datatype Intent = Intent(
    deduplicationKey: string,
    symbol: string,
    side: Side,
    quantity: string,
    status: Status,
    filledQuantity: string,
    fills: seq<Fill>)

  datatype Code = InvalidArgument | Internal | Unavailable

  datatype Key =
    | BodyReadFailureAfter200 | ClientOrderId
    | VenueHttpStatus | VenueErrorCode | VenueErrorClass
    | RetryAttempts | RetryExhausted | RetryHalted | RetryDeadlineExceeded
    | ReconciliationAttempted | ReconciliationFailed | ReconciliationError

  datatype Detail = Flag(b: bool) | Number(n: int) | Label(l: Class) | Text(t: string) | Cause(c: Code)

  datatype Class = VenueInternal | IpRateLimit | OrderRateLimit

  datatype Problem = Problem(code: Code, retryable: bool, details: map<Key, Detail>) {
    function WithDetail(k: Key, d: Detail): Problem {
      this.(details := details[k := d])
    }
  }

  datatype Receipt = Receipt(venueOrderId: Option<int>, clientOrderId: string, status: Status, intent: Intent)

  datatype Reply = Ok(receipt: Receipt) | Failed(problem: Problem)

  // ---------------------------------------------------------------- the venue

  /** The venue's own account of an order, as its responses carry it. */
  datatype Report = Report(orderId: int, status: string, avgPrice: string, executedQty: string, cumQuote: string)

  datatype Order = Order(id: string, symbol: string, side: Side, quantity: string, report: Report)

  datatype Response =
    | NoResponse
    | Unreadable(status: int)
    | Response(status: int, code: int, legible: bool)

  /** The venue answered 200, whether or not the answer could be read. */
  predicate Answers200(r: Response) {
    !r.NoResponse? && r.status == 200
  }

  /**
   The fate of a submit: whether the request was built and sent, whether the venue took the order
   (it did when it answers 200), the report it starts with, and what comes back.
   */
  datatype SubmitFate = SubmitFate(sent: bool, taken: bool, report: Report, response: Response)

  /** The fate of a query: how the order has moved on by then, and what comes back. */
  datatype QueryFate = QueryFate(sent: bool, moved: Option<Report>, response: Response)

  datatype Event =
    | ContextChecked(done: bool)
    | ClockRead(now: int)
    | SubmitSent(order: Order, response: Response)
    | HaltChecked(halted: bool)
    | Slept(delay: int)
    | QuerySent(id: string)

  datatype State = State(book: seq<Order>, log: seq<Event>)

  predicate Holds(book: seq<Order>, id: string) {
    exists i | 0 <= i < |book| :: book[i].id == id
  }

  /** No two orders carry the same client order id. */
  predicate Unique(book: seq<Order>) {
    forall i, j | 0 <= i < j < |book| :: book[i].id != book[j].id
  }

  /** The venue takes an order unless it has one with that id already. */
  function Take(book: seq<Order>, o: Order): (b: seq<Order>)
    ensures Holds(b, o.id)
    ensures Unique(book) ==> Unique(b)
  {
    if Holds(book, o.id) then book
    else
      var b := book + [o];
      assert b[|book|].id == o.id;
      b
  }

  function Find(book: seq<Order>, id: string): (o: Order)
    requires Holds(book, id)
    ensures o in book && o.id == id
  {
    if book[0].id == id then book[0]
    else
      assert forall i | 0 <= i < |book[1..]| :: book[1..][i] == book[i + 1];
      Find(book[1..], id)
  }

  function Move(book: seq<Order>, id: string, r: Report): (b: seq<Order>)
    ensures |b| == |book|
    ensures forall i | 0 <= i < |b| :: b[i] == if book[i].id == id then book[i].(report := r) else book[i]
  {
    seq(|book|, i requires 0 <= i < |book| => if book[i].id == id then book[i].(report := r) else book[i])
  }

  function Log(v: State, e: Event): State {
    v.(log := v.log + [e])
  }

  // ---------------------------------------------------------------- reading responses

  /** Venue error codes that say more than the HTTP status, inside the ambiguous part of the 4xx range. */
  function ClassifyByVenueErrorCode(status: int, code: int, details: map<Key, Detail>): Option<Problem> {
    if status < 400 || status >= 500 then None
    else if status == 401 || status == 403 || status == 429 then None
    else if code == -1001 then Some(Problem(Unavailable, true, details[VenueErrorClass := Label(VenueInternal)]))
    else if code == -1003 then Some(Problem(Unavailable, true, details[VenueErrorClass := Label(IpRateLimit)]))
    else if code == -1015 then Some(Problem(Unavailable, true, details[VenueErrorClass := Label(OrderRateLimit)]))
    else None
  }

  function HandleErrorResponse(status: int, code: int): Problem {
    var base := map[VenueHttpStatus := Number(status)];
    var details := if code != 0 then base[VenueErrorCode := Number(code)] else base;
    var override := ClassifyByVenueErrorCode(status, code, details);
    if override.Some? then override.value
    else if status == 401 || status == 403 then Problem(InvalidArgument, false, details)
    else if status == 429 then Problem(Unavailable, true, details)
    else if 400 <= status < 500 then Problem(InvalidArgument, false, details)
    else if status == 503 then Problem(Unavailable, true, details)
    else if status == 502 then Problem(Unavailable, true, details)
    else Problem(Unavailable, true, details)
  }

  function MapBinanceStatus(status: string): Option<Status> {
    if status == "NEW" then Some(Accepted)
    else if status == "FILLED" then Some(Filled)
    else if status == "PARTIALLY_FILLED" then Some(PartiallyFilled)
    else if status == "CANCELED" || status == "CANCELLED" then Some(Cancelled)
    else if status == "REJECTED" || status == "EXPIRED" then Some(Rejected)
    else None
  }

  function FillOf(r: Report): Fill {
    Fill(r.avgPrice, r.executedQty, if r.cumQuote != "" then r.cumQuote else "0")
  }

  function ParseOrderResponse(hash: string -> string, legible: bool, r: Report, intent: Intent): Reply {
    if !legible then Failed(Problem(Internal, false, map[]))
    else
      var status := MapBinanceStatus(r.status);
      if status.None? then Failed(Problem(Internal, false, map[]))
      else
        var filled := intent.(status := status.value, filledQuantity := r.executedQty);
        var reported :=
          if status.value.Filled? || status.value.PartiallyFilled? then filled.(fills := [FillOf(r)]) else filled;
        Ok(Receipt(Some(r.orderId), hash(intent.deduplicationKey), status.value, reported))
  }

  // ---------------------------------------------------------------- the two calls

  function OrderOf(hash: string -> string, intent: Intent, r: Report): Order {
    Order(hash(intent.deduplicationKey), intent.symbol, intent.side, intent.quantity, r)
  }

  function Submit(hash: string -> string, v: State, intent: Intent, fate: SubmitFate): (State, Reply) {
    if intent.side == NoSide then
      (v, Ok(Receipt(None, "", Accepted, intent)))
    else if !fate.sent then
      (v, Failed(Problem(Internal, false, map[])))
    else
      var order := OrderOf(hash, intent, fate.report);
      var taken := fate.taken || Answers200(fate.response);
      var book := if taken then Take(v.book, order) else v.book;
      var after := Log(v.(book := book), SubmitSent(order, fate.response));
      match fate.response
      case NoResponse => (after, Failed(Problem(Unavailable, true, map[])))
      case Unreadable(_) =>
        (after, Failed(Problem(Internal, false,
          map[BodyReadFailureAfter200 := Flag(true), ClientOrderId := Text(order.id)])))
      case Response(status, code, legible) =>
        if status != 200 then (after, Failed(HandleErrorResponse(status, code)))
        else (after, ParseOrderResponse(hash, legible, Find(book, order.id).report, intent))
  }

  /** The intent a query parses its response into. */
  function SyntheticIntent(symbol: string): Intent {
    Intent("", symbol, NoSide, "", Submitted, "", [])
  }

  function Query(hash: string -> string, v: State, id: string, symbol: string, fate: QueryFate): (State, Reply) {
    if !fate.sent then
      (v, Failed(Problem(Internal, false, map[])))
    else
      var book := if fate.moved.Some? then Move(v.book, id, fate.moved.value) else v.book;
      var after := Log(v.(book := book), QuerySent(id));
      match fate.response
      case NoResponse => (after, Failed(Problem(Unavailable, true, map[])))
      case Unreadable(_) => (after, Failed(Problem(Internal, false, map[])))
      case Response(status, code, legible) =>
        if status != 200 then (after, Failed(HandleErrorResponse(status, code)))
        else if !Holds(book, id) then (after, Failed(HandleErrorResponse(400, -2013)))
        else (after, ParseOrderResponse(hash, legible, Find(book, id).report, SyntheticIntent(symbol)))
  }

  class Exchange {
    var state: State

    constructor ()
      ensures state == State([], [])
    {
      state := State([], []);
    }
  }

  class Adapter {
    const venue: Exchange
    const hash: string -> string

    constructor (venue: Exchange, hash: string -> string)
      ensures this.venue == venue && this.hash == hash
    {
      this.venue := venue;
      this.hash := hash;
    }

    method SubmitOrder(intent: Intent, fate: SubmitFate) returns (r: Reply)
      modifies venue
      ensures (venue.state, r) == Submit(hash, old(venue.state), intent, fate)
    {
      if intent.side == NoSide {
        return Ok(Receipt(None, "", Accepted, intent));
      }
      if !fate.sent {
        return Failed(Problem(Internal, false, map[]));
      }
      var id := hash(intent.deduplicationKey);
      var answer := Deliver(Order(id, intent.symbol, intent.side, intent.quantity, fate.report), fate);
      match fate.response {
        case NoResponse =>
          return Failed(Problem(Unavailable, true, map[]));
        case Unreadable(_) =>
          return Failed(Problem(Internal, false, map[])
                        .WithDetail(BodyReadFailureAfter200, Flag(true))
                        .WithDetail(ClientOrderId, Text(id)));
        case Response(status, code, legible) =>
          if status != 200 {
            return Failed(HandleErrorResponse(status, code));
          }
          return ParseOrderResponse(hash, legible, answer.value, intent);
      }
    }

    /** The other side of the wire: the venue takes the order or not, and may report on it. */
    method Deliver(order: Order, fate: SubmitFate) returns (answer: Option<Report>)
      modifies venue
      ensures var taken := fate.taken || Answers200(fate.response);
              var book := if taken then Take(old(venue.state).book, order) else old(venue.state).book;
              && venue.state == Log(old(venue.state).(book := book), SubmitSent(order, fate.response))
              && (taken ==> Holds(book, order.id) && answer == Some(Find(book, order.id).report))
    {
      answer := None;
      if fate.taken || Answers200(fate.response) {
        venue.state := venue.state.(book := Take(venue.state.book, order));
        answer := Some(Find(venue.state.book, order.id).report);
      }
      venue.state := Log(venue.state, SubmitSent(order, fate.response));
    }

    method QueryOrder(id: string, symbol: string, fate: QueryFate) returns (r: Reply)
      modifies venue
      ensures (venue.state, r) == Query(hash, old(venue.state), id, symbol, fate)
    {
      if !fate.sent {
        return Failed(Problem(Internal, false, map[]));
      }
      if fate.moved.Some? {
        venue.state := venue.state.(book := Move(venue.state.book, id, fate.moved.value));
      }
      venue.state := Log(venue.state, QuerySent(id));
      match fate.response {
        case NoResponse =>
          return Failed(Problem(Unavailable, true, map[]));
        case Unreadable(_) =>
          return Failed(Problem(Internal, false, map[]));
        case Response(status, code, legible) =>
          if status != 200 {
            return Failed(HandleErrorResponse(status, code));
          }
          if !Holds(venue.state.book, id) {
            return Failed(HandleErrorResponse(400, -2013));
          }
          return ParseOrderResponse(hash, legible, Find(venue.state.book, id).report, SyntheticIntent(symbol));
      }
    }
  }
}
