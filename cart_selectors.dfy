/** Read-only views of the cart slice. Each view tolerates a missing slice
    (`state?.x || default`). */
module CartSelectors {
  import opened Js
  import opened CartItems
  import opened CartReducer

  /** The `cart` feature slice, which may be absent from the store. */
  type CartSlice = Option<CartState>

  function SelectCartItems(slice: CartSlice): seq<CartItem>
  {
    if slice.Some? then slice.value.cartItems else []
  }

  function SelectCartTotalPrice(slice: CartSlice): int
  {
    if slice.Some? then slice.value.totalPrice else 0
  }

  function SelectCartTotalQuantity(slice: CartSlice): int
  {
    if slice.Some? then slice.value.totalQuantity else 0
  }

  function SelectCartLoading(slice: CartSlice): bool
  {
    slice.Some? && slice.value.loading
  }

  /** `state?.error || null`: an empty error string reads as `null`. */
  function SelectCartError(slice: CartSlice): (r: Option<string>)
    ensures r.Some? ==> r.value != ""
    ensures slice.Some? && Truthy(slice.value.error) ==> r == slice.value.error
    ensures slice.None? ==> r == None
  {
    if slice.Some? then OrNull(slice.value.error) else None
  }

  /** The number of lines (not the summed quantity). */
  function SelectCartItemsCount(slice: CartSlice): nat
  {
    |SelectCartItems(slice)|
  }

  /** `find(item => item.id === id)`: the first line with the id, if any. */
  function SelectCartItemById(slice: CartSlice, id: string): (r: Option<CartItem>)
    ensures var items := SelectCartItems(slice);
            && (r.Some? <==> ContainsId(items, id))
            && (r.Some? ==> exists k :: 0 <= k < |items| && items[k] == r.value && r.value.id == id
                                       && forall j :: 0 <= j < k ==> items[j].id != id)
  {
    var items := SelectCartItems(slice);
    var i := IndexOfId(items, id);
    if i >= 0 then Some(items[i]) else None
  }

  /** With no cart slice every view reads its default. */
  lemma AbsentSliceDefaults()
    ensures SelectCartItems(None) == [] && SelectCartTotalPrice(None) == 0
    ensures SelectCartTotalQuantity(None) == 0 && !SelectCartLoading(None)
    ensures SelectCartError(None) == None && SelectCartItemsCount(None) == 0
  {
  }

  /** A cart whose lines each hold at least one unit has no more lines than
      units, and as many exactly when every line holds a single unit. */
  lemma {:induction false} LinesAtMostUnits(items: seq<CartItem>)
    requires forall k :: 0 <= k < |items| ==> items[k].quantity >= 1
    ensures |items| <= SumQuantity(items)
    ensures |items| == SumQuantity(items) <==> forall k :: 0 <= k < |items| ==> items[k].quantity == 1
  {
    if items != [] {
      var init := items[..|items| - 1];
      assert forall k :: 0 <= k < |init| ==> init[k] == items[k];
      LinesAtMostUnits(init);
    }
  }

  /** The count is the number of lines, not the summed quantity: on a cart
      with consistent totals and at least one unit per line it is at most
      the total quantity, and equal to it exactly when each line holds one
      unit. */
  lemma CountIsLines(s: CartState)
    requires TotalsConsistent(s)
    requires forall k :: 0 <= k < |s.cartItems| ==> s.cartItems[k].quantity >= 1
    ensures SelectCartItemsCount(Some(s)) == |s.cartItems|
    ensures SelectCartItemsCount(Some(s)) <= SelectCartTotalQuantity(Some(s))
    ensures SelectCartItemsCount(Some(s)) == SelectCartTotalQuantity(Some(s))
            <==> forall k :: 0 <= k < |s.cartItems| ==> s.cartItems[k].quantity == 1
  {
    LinesAtMostUnits(s.cartItems);
  }

  /** After addToCart(item) the line can be found by the item's id. */
  lemma AddThenFind(s: CartState, cartItem: CartItem)
    ensures SelectCartItemById(Some(Reduce(s, AddToCart(cartItem))), cartItem.id).Some?
  {
    var r := Reduce(s, AddToCart(cartItem)).cartItems;
    var i := IndexOfId(s.cartItems, cartItem.id);
    if i > -1 {
      assert r[i].id == cartItem.id;
    } else {
      assert r[|s.cartItems|].id == cartItem.id;
    }
  }
}
