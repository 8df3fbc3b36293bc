/** The cart service: each public method turns its arguments into exactly
    one cart action and dispatches it. A call is modelled as a value and the
    service as the function from a call to the action it dispatches. */
module CartService {
  import opened Js
  import opened CartItems
  import Store = CartReducer
  import opened CartSelectors

  datatype Call =
    | InitializeCart
    | AddToCart(cartItem: CartItem)
    | UpdateCartItemQuantity(cartItemId: string, quantity: int)
    | IncrementQuantity(cartItem: CartItem)
    | DecrementQuantity(cartItem: CartItem)
    | RemoveFromCart(cartItemId: string)
    | ClearCart
    | ComputeCartTotals
    | PersistCart

  /** The single action a service call dispatches. Increment asks for one
      more unit of the line; decrement removes the line when one unit or
      fewer would remain and otherwise asks for one unit less. */
  function Dispatch(call: Call): (a: Store.Action)
    ensures call.IncrementQuantity? ==>
              a == Store.UpdateCartItemQuantity(call.cartItem.id, call.cartItem.quantity + 1)
    ensures call.DecrementQuantity? && call.cartItem.quantity - 1 <= 0 ==>
              a == Store.RemoveFromCart(call.cartItem.id)
    ensures call.DecrementQuantity? && call.cartItem.quantity - 1 > 0 ==>
              a == Store.UpdateCartItemQuantity(call.cartItem.id, call.cartItem.quantity - 1)
    ensures call.AddToCart? ==> a == Store.AddToCart(call.cartItem)
    ensures call.UpdateCartItemQuantity? ==> a == Store.UpdateCartItemQuantity(call.cartItemId, call.quantity)
    ensures call.RemoveFromCart? ==> a == Store.RemoveFromCart(call.cartItemId)
    ensures call.InitializeCart? ==> a == Store.LoadCart
    ensures call.ClearCart? ==> a == Store.ClearCart
    ensures call.ComputeCartTotals? ==> a == Store.ComputeCartTotals
    ensures call.PersistCart? ==> a == Store.PersistCart
  {
    match call
    case InitializeCart => Store.LoadCart
    case AddToCart(item) => Store.AddToCart(item)
    case UpdateCartItemQuantity(id, q) => Store.UpdateCartItemQuantity(id, q)
    case IncrementQuantity(item) => Store.UpdateCartItemQuantity(item.id, item.quantity + 1)
    case DecrementQuantity(item) =>
      var newQuantity := item.quantity - 1;
      if newQuantity <= 0 then Store.RemoveFromCart(item.id)
      else Store.UpdateCartItemQuantity(item.id, newQuantity)
    case RemoveFromCart(id) => Store.RemoveFromCart(id)
    case ClearCart => Store.ClearCart
    case ComputeCartTotals => Store.ComputeCartTotals
    case PersistCart => Store.PersistCart
  }

  /** Decrementing a line of quantity 1 removes it from the cart. */
  lemma DecrementLastUnitRemoves(s: Store.CartState, i: nat)
    requires Store.Valid(s) && i < |s.cartItems| && s.cartItems[i].quantity == 1
    ensures var r := Store.Reduce(s, Dispatch(DecrementQuantity(s.cartItems[i])));
            && r == Store.Reduce(s, Store.RemoveFromCart(s.cartItems[i].id))
            && !Store.ContainsId(r.cartItems, s.cartItems[i].id)
            && SelectCartItemById(Some(r), s.cartItems[i].id).None?
  {
  }

  /** Decrementing a line of quantity q > 1 leaves q - 1 units of it and
      lowers the total quantity by one. */
  lemma DecrementLowersByOne(s: Store.CartState, i: nat)
    requires Store.Valid(s) && i < |s.cartItems| && s.cartItems[i].quantity > 1
    ensures var r := Store.Reduce(s, Dispatch(DecrementQuantity(s.cartItems[i])));
            && r.cartItems[i].quantity == s.cartItems[i].quantity - 1
            && r.totalQuantity == s.totalQuantity - 1
  {
    var id := s.cartItems[i].id;
    assert Store.IndexOfId(s.cartItems, id) == i;
    Store.UpdatePositiveTotals(s, id, s.cartItems[i].quantity - 1);
  }

  /** Incrementing a line and then decrementing the line as it now stands
      gives back the original cart. */
  lemma IncrementThenDecrementRestores(s: Store.CartState, i: nat)
    requires Store.Valid(s) && i < |s.cartItems| && s.cartItems[i].quantity >= 1
    ensures var s1 := Store.Reduce(s, Dispatch(IncrementQuantity(s.cartItems[i])));
            i < |s1.cartItems|
            && Store.Reduce(s1, Dispatch(DecrementQuantity(s1.cartItems[i]))) == s
  {
    var items := s.cartItems;
    var q := items[i].quantity;
    var u := items[i := items[i].(quantity := q + 1)];
    Store.UpdateAt(s, i, q + 1);
    var s1 := Store.WithItems(s, u);
    assert Store.UniqueIds(u) by {
      forall j, k | 0 <= j < k < |u| ensures u[j].id != u[k].id {
        assert u[j].id == items[j].id && u[k].id == items[k].id;
      }
    }
    Store.UpdateAt(s1, i, q);
    assert u[i := u[i].(quantity := q)] == items;
  }
}
