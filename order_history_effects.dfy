/** The order-history effects: the message a failed load reports, and the
    clearing of the history when the user signs out. */
module OrderHistoryEffects {
  import opened Js
  import OrderHistoryReducer
  import AuthReducer

  /** What the order service may throw: something that is not a non-null
      object, or an object that may carry a numeric `status` key and a
      string `message` key. */
  datatype Thrown =
    | NotAnObject
    | ErrorObject(status: Option<int>, message: Option<string>)

  const DefaultMessage: string := "An error occurred while loading order history"

  /** The catchError classification of loadOrderHistory$. */
  function ErrorMessage(error: Thrown): (m: string)
    ensures error.ErrorObject? && error.status == Some(401) ==> m == "Authentication failed"
    ensures error.ErrorObject? && error.status == Some(403) ==> m == "Access denied"
    ensures error.ErrorObject? && error.status == Some(404) ==> m == "Service not found"
    ensures error.ErrorObject? && error.status.Some? && error.status.value !in {401, 403, 404} ==>
              m == (if Truthy(error.message) then error.message.value else DefaultMessage)
    ensures error.ErrorObject? && error.status.None? && error.message.Some? ==> m == error.message.value
    ensures error.NotAnObject? || (error.status.None? && error.message.None?) ==> m == DefaultMessage
  {
    match error
    case NotAnObject => DefaultMessage
    case ErrorObject(status, message) =>
      if status.Some? then
        if status.value == 401 then "Authentication failed"
        else if status.value == 403 then "Access denied"
        else if status.value == 404 then "Service not found"
        else if Truthy(message) then message.value
        else DefaultMessage
      else if message.Some? then message.value
      else DefaultMessage
  }

  /** The action a failed load emits. Its message is empty only when the
      thrown object has no status and carries an empty message. */
  function LoadFailure(error: Thrown): (a: OrderHistoryReducer.Action)
    ensures a.LoadOrderHistoryFailure?
    ensures a.error == "" <==> error.ErrorObject? && error.status.None? && error.message == Some("")
  {
    OrderHistoryReducer.LoadOrderHistoryFailure(ErrorMessage(error))
  }

  /** The status code decides before any message: a 401 that carries a
      message still reads "Authentication failed". */
  lemma StatusBeatsMessage(message: string)
    requires message != ""
    ensures ErrorMessage(ErrorObject(Some(401), Some(message))) == "Authentication failed"
    ensures ErrorMessage(ErrorObject(Some(500), Some(message))) == message
    ensures ErrorMessage(ErrorObject(Some(500), Some(""))) == DefaultMessage
  {
  }

  /** The message recorded by the reducer after a failed load is never empty
      when it comes from a status, and is the default for anything but an
      object. */
  lemma FailureRecorded(s: OrderHistoryReducer.OrderHistoryState, error: Thrown)
    ensures var r := OrderHistoryReducer.Reduce(s, LoadFailure(error));
            && r.error == Some(ErrorMessage(error)) && !r.loading && r.orders == s.orders
            && (error.NotAnObject? ==> r.error == Some(DefaultMessage))
            && (error.ErrorObject? && error.status.Some? ==> r.error.value != "")
  {
  }

  /** clearOrderHistoryOnLogout$: logoutSuccess and clearUser each map to
      one clearOrderHistory; other auth actions map to nothing. */
  function OnAuthAction(a: AuthReducer.Action): (r: seq<OrderHistoryReducer.Action>)
    ensures a.LogoutSuccess? || a.ClearUser? ==> r == [OrderHistoryReducer.ClearOrderHistory]
    ensures !(a.LogoutSuccess? || a.ClearUser?) ==> r == []
  {
    if a.LogoutSuccess? || a.ClearUser? then [OrderHistoryReducer.ClearOrderHistory] else []
  }

  /** Signing out leaves no orders behind. */
  lemma SignOutClearsOrders(s: OrderHistoryReducer.OrderHistoryState, a: AuthReducer.Action)
    requires a.LogoutSuccess? || a.ClearUser?
    ensures |OnAuthAction(a)| == 1
    ensures OrderHistoryReducer.Reduce(s, OnAuthAction(a)[0]).orders == []
  {
  }
}
