/** The paper order evaluator of internal/application/execution/paper_order_evaluator.go. */
module PaperOrder {
  import opened Wrappers

  datatype Side = Buy | Sell | NoSide

  datatype Order = Order(side: Side, quantity: real)

  /** An absent position size is the empty text, which becomes quantity 0. */
  function Evaluate(disposition: string, maxPosition: Option<real>, direction: string): Order {
    var allowed := disposition == "approved" || disposition == "modified";
    var size := if maxPosition.Some? then maxPosition.value else 0.0;
    if disposition == "rejected" then Order(NoSide, 0.0)
    else if direction == "flat" then Order(NoSide, 0.0)
    else if direction == "long" && allowed then Order(Buy, size)
    else if direction == "short" && allowed then Order(Sell, size)
    else Order(NoSide, 0.0)
  }
}
