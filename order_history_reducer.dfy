/** The order-history slice: the signed-in customer's orders. */
module OrderHistoryReducer {
  import opened Js

  /** The order record comes from `common/models/order-history`, which is
      not part of this model; the reducer only stores it. */
  datatype Order = Order(orderTrackingNumber: string, totalPrice: int, totalQuantity: int, dateCreated: string)

  /** The server response: `_embedded` (and its orders) may be missing. */
  datatype OrderHistoryResponse = OrderHistoryResponse(embedded: Option<seq<Order>>)

  datatype OrderHistoryState = OrderHistoryState(orders: seq<Order>, loading: bool, error: Option<string>)

  const InitialOrderHistoryState: OrderHistoryState := OrderHistoryState([], false, None)

  datatype Action =
    | LoadOrderHistory(email: string)
    | LoadOrderHistorySuccess(response: OrderHistoryResponse)
    | LoadOrderHistoryFailure(error: string)
    | ClearOrderHistory
    | SetOrderHistoryLoading(loading: bool)
    | ClearOrderHistoryError

  /** orderHistoryReducer. */
  function Reduce(s: OrderHistoryState, a: Action): OrderHistoryState
  {
    match a
    case LoadOrderHistory(_) => s.(loading := true, error := None)
    case LoadOrderHistorySuccess(response) =>
      s.(orders := if response.embedded.Some? then response.embedded.value else [], loading := false, error := None)
    case LoadOrderHistoryFailure(e) => s.(loading := false, error := Some(e))
    case ClearOrderHistory => s.(orders := [], error := None)
    case SetOrderHistoryLoading(l) => s.(loading := l)
    case ClearOrderHistoryError => s.(error := None)
  }

  /** Loading starts with the orders kept and the error cleared. */
  lemma LoadKeepsOrders(s: OrderHistoryState, email: string)
    ensures Reduce(s, LoadOrderHistory(email)) == s.(loading := true, error := None)
  {
  }

  /** A success stores the embedded orders, or none when they are missing. */
  lemma SuccessStoresOrders(s: OrderHistoryState, response: OrderHistoryResponse)
    ensures var r := Reduce(s, LoadOrderHistorySuccess(response));
            && r.orders == (if response.embedded.Some? then response.embedded.value else [])
            && !r.loading && r.error == None
  {
  }

  /** A failure stops loading, records the error and keeps the orders. */
  lemma FailureKeepsOrders(s: OrderHistoryState, e: string)
    ensures Reduce(s, LoadOrderHistoryFailure(e)) == OrderHistoryState(s.orders, false, Some(e))
  {
  }

  /** Clearing empties the orders and the error but not the loading flag;
      the two setters each change one field. */
  lemma ClearAndSetters(s: OrderHistoryState, l: bool)
    ensures Reduce(s, ClearOrderHistory) == OrderHistoryState([], s.loading, None)
    ensures Reduce(s, SetOrderHistoryLoading(l)) == s.(loading := l)
    ensures Reduce(s, ClearOrderHistoryError) == s.(error := None)
  {
  }
}
