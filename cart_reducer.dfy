/** The cart slice of the store: its state, its actions and `cartReducer`,
    with the totals helper `computeTotals`. The reducer keeps three
    invariants: no two lines share an id, `totalPrice` is the sum of
    quantity times unit price, and `totalQuantity` is the sum of quantities. */
module CartReducer {
  import opened Js
  import opened CartItems

  datatype CartState = CartState(
    cartItems: seq<CartItem>,
    totalPrice: int,
    totalQuantity: int,
    loading: bool,
    error: Option<string>)

  const InitialCartState: CartState := CartState([], 0, 0, false, None)

  /** The cart actions. `AddToCartSuccess`, `PersistCart`,
      `FetchMissingProductNames` and `FetchMissingProductNamesFailure` have no
      handler in the reducer (they drive effects only). */
  datatype Action =
    | LoadCart
    | LoadCartSuccess(items: seq<CartItem>)
    | LoadCartFailure(error: string)
    | AddToCart(cartItem: CartItem)
    | AddToCartSuccess
    | UpdateCartItemQuantity(cartItemId: string, quantity: int)
    | RemoveFromCart(cartItemId: string)
    | ClearCart
    | ComputeCartTotals
    | PersistCart
    | UpdateCartItemsLanguage(language: string)
    | AddLocalizedNameToCartItem(cartItemId: string, language: string, name: string)
    | FetchMissingProductNames(language: string)
    | FetchMissingProductNamesFailure(error: string)

  // ---------------------------------------------------------------------
  // Totals

  /** Σ quantity·unitPrice over the lines, accumulated front to back. */
  function SumPrice(items: seq<CartItem>): int
  {
    if items == [] then 0
    else SumPrice(items[..|items| - 1]) + items[|items| - 1].quantity * items[|items| - 1].unitPrice
  }

  /** Σ quantity over the lines, accumulated front to back. */
  function SumQuantity(items: seq<CartItem>): int
  {
    if items == [] then 0
    else SumQuantity(items[..|items| - 1]) + items[|items| - 1].quantity
  }

  /** computeTotals: one pass over the lines accumulating both totals. */
  method ComputeTotals(items: seq<CartItem>) returns (totalPrice: int, totalQuantity: int)
    ensures totalPrice == SumPrice(items)
    ensures totalQuantity == SumQuantity(items)
  {
    totalPrice := 0;
    totalQuantity := 0;
    for i := 0 to |items|
      invariant totalPrice == SumPrice(items[..i])
      invariant totalQuantity == SumQuantity(items[..i])
    {
      assert items[..i + 1][..i] == items[..i];
      totalPrice := totalPrice + items[i].quantity * items[i].unitPrice;
      totalQuantity := totalQuantity + items[i].quantity;
    }
    assert items[..|items|] == items;
  }

  /** Two line lists that agree on quantity and unit price, position by
      position, have the same totals. */
  lemma {:induction false} SumsAgree(a: seq<CartItem>, b: seq<CartItem>)
    requires |a| == |b|
    requires forall k :: 0 <= k < |a| ==> a[k].quantity == b[k].quantity && a[k].unitPrice == b[k].unitPrice
    ensures SumPrice(a) == SumPrice(b) && SumQuantity(a) == SumQuantity(b)
  {
    if a != [] {
      SumsAgree(a[..|a| - 1], b[..|b| - 1]);
    }
  }

  /** Replacing one line changes each total by the difference of that line's terms. */
  lemma {:induction false} SumsAfterUpdate(items: seq<CartItem>, i: nat, x: CartItem)
    requires i < |items|
    ensures SumQuantity(items[i := x]) == SumQuantity(items) - items[i].quantity + x.quantity
    ensures SumPrice(items[i := x])
         == SumPrice(items) - items[i].quantity * items[i].unitPrice + x.quantity * x.unitPrice
  {
    var n := |items|;
    var u := items[i := x];
    if i == n - 1 {
      assert u[..n - 1] == items[..n - 1];
    } else {
      assert u[..n - 1] == items[..n - 1][i := x];
      SumsAfterUpdate(items[..n - 1], i, x);
    }
  }

  // ---------------------------------------------------------------------
  // Line-list helpers used by the handlers

  /** No two lines share an id. */
  predicate UniqueIds(items: seq<CartItem>)
  {
    forall i, j :: 0 <= i < j < |items| ==> items[i].id != items[j].id
  }

  /** Some line carries the id. */
  predicate ContainsId(items: seq<CartItem>, id: string)
  {
    exists k :: 0 <= k < |items| && items[k].id == id
  }

  /** `findIndex(item => item.id === id)`: the first matching index, or -1. */
  function IndexOfId(items: seq<CartItem>, id: string): (r: int)
    ensures -1 <= r < |items|
    ensures r >= 0 ==> items[r].id == id && forall j :: 0 <= j < r ==> items[j].id != id
    ensures r == -1 <==> !ContainsId(items, id)
  {
    if items == [] then -1
    else if items[0].id == id then 0
    else
      var k := IndexOfId(items[1..], id);
      assert forall j :: 1 <= j < |items| ==> items[j] == items[1..][j - 1];
      if k == -1 then -1 else k + 1
  }

  /** `item.localizedNames || { 'en-US': item.name }`. */
  function WithDefaultNames(item: CartItem): CartItem
  {
    if item.localizedNames.Some? then item
    else item.(localizedNames := Some(map[DefaultLanguage := item.name]))
  }

  /** The items of `loadCartSuccess`, each given a names map when it has none. */
  function Migrate(items: seq<CartItem>): seq<CartItem>
  {
    seq(|items|, k requires 0 <= k < |items| => WithDefaultNames(items[k]))
  }

  /** The addToCart list: bump the first line with the id, or append the item
      with quantity 1 and default names. */
  function AddItem(items: seq<CartItem>, cartItem: CartItem): seq<CartItem>
  {
    var i := IndexOfId(items, cartItem.id);
    if i > -1 then items[i := items[i].(quantity := items[i].quantity + 1)]
    else items + [WithDefaultNames(cartItem.(quantity := 1))]
  }

  /** `map(item => item.id === id ? { ...item, quantity } : item)`. */
  function SetQuantity(items: seq<CartItem>, id: string, quantity: int): seq<CartItem>
  {
    seq(|items|, k requires 0 <= k < |items| =>
      if items[k].id == id then items[k].(quantity := quantity) else items[k])
  }

  /** `filter(item => item.id !== id)`. */
  function RemoveId(items: seq<CartItem>, id: string): (r: seq<CartItem>)
    ensures |r| <= |items|
    ensures forall k :: 0 <= k < |r| ==> r[k].id != id
  {
    if items == [] then []
    else if items[0].id == id then RemoveId(items[1..], id)
    else [items[0]] + RemoveId(items[1..], id)
  }

  /** updateCartItemsLanguage's map: the stored name when truthy, else the current one. */
  function ApplyLanguage(items: seq<CartItem>, language: string): seq<CartItem>
  {
    seq(|items|, k requires 0 <= k < |items| =>
      items[k].(name := Or(LocalizedName(items[k], language), Some(items[k].name)).value))
  }

  /** addLocalizedNameToCartItem's map: addLocalizedName on every line with the id. */
  function SetLocalizedName(items: seq<CartItem>, id: string, language: string, name: string): seq<CartItem>
  {
    seq(|items|, k requires 0 <= k < |items| =>
      if items[k].id == id then AddLocalizedName(items[k], language, name) else items[k])
  }

  /** New lines with the totals recomputed from them. */
  function WithItems(s: CartState, items: seq<CartItem>): CartState
  {
    s.(cartItems := items, totalPrice := SumPrice(items), totalQuantity := SumQuantity(items))
  }

  // ---------------------------------------------------------------------
  // The reducer

  /** cartReducer: one handler per action; an action without a handler
      returns the state unchanged. */
  function Reduce(s: CartState, a: Action): CartState
  {
    match a
    case LoadCart => s.(loading := true, error := None)
    case LoadCartSuccess(items) =>
      WithItems(s, Migrate(items)).(loading := false, error := None)
    case LoadCartFailure(e) => s.(loading := false, error := Some(e))
    case AddToCart(cartItem) => WithItems(s, AddItem(s.cartItems, cartItem))
    case UpdateCartItemQuantity(id, quantity) =>
      if quantity <= 0 then WithItems(s, RemoveId(s.cartItems, id))
      else WithItems(s, SetQuantity(s.cartItems, id, quantity))
    case RemoveFromCart(id) => WithItems(s, RemoveId(s.cartItems, id))
    case ClearCart => s.(cartItems := [], totalPrice := 0, totalQuantity := 0)
    case ComputeCartTotals => WithItems(s, s.cartItems)
    case UpdateCartItemsLanguage(language) => s.(cartItems := ApplyLanguage(s.cartItems, language))
    case AddLocalizedNameToCartItem(id, language, name) =>
      s.(cartItems := SetLocalizedName(s.cartItems, id, language, name))
    case AddToCartSuccess => s
    case PersistCart => s
    case FetchMissingProductNames(_) => s
    case FetchMissingProductNamesFailure(_) => s
  }

  /** Feed a sequence of actions to the reducer, in order. */
  function ReduceAll(s: CartState, actions: seq<Action>): CartState
    decreases |actions|
  {
    if actions == [] then s else ReduceAll(Reduce(s, actions[0]), actions[1..])
  }

  /** The totals agree with the lines. */
  predicate TotalsConsistent(s: CartState)
  {
    s.totalPrice == SumPrice(s.cartItems) && s.totalQuantity == SumQuantity(s.cartItems)
  }

  /** The cart invariant. */
  predicate Valid(s: CartState)
  {
    UniqueIds(s.cartItems) && TotalsConsistent(s)
  }

  // ---------------------------------------------------------------------
  // Properties of the handlers

  /** The filter distributes over concatenation: the lines of each part
      that survive stay in their original order. */
  lemma {:induction false} RemoveIdAppend(a: seq<CartItem>, b: seq<CartItem>, id: string)
    ensures RemoveId(a + b, id) == RemoveId(a, id) + RemoveId(b, id)
  {
    if a == [] {
      assert a + b == b;
    } else {
      assert (a + b)[0] == a[0] && (a + b)[1..] == a[1..] + b;
      RemoveIdAppend(a[1..], b, id);
    }
  }

  /** Filtering a cart with one more line at the end: that line is kept,
      after all the kept earlier lines, exactly when it has another id. */
  lemma RemoveIdSnoc(items: seq<CartItem>, x: CartItem, id: string)
    ensures RemoveId(items + [x], id) == RemoveId(items, id) + (if x.id == id then [] else [x])
  {
    RemoveIdAppend(items, [x], id);
    assert [x][1..] == [];
  }

  /** A line survives the filter exactly when it was in the cart with
      another id, and distinct ids stay distinct. */
  lemma {:induction false} RemoveIdKeepsOthers(items: seq<CartItem>, id: string)
    ensures forall x :: x in RemoveId(items, id) <==> x in items && x.id != id
    ensures UniqueIds(items) ==> UniqueIds(RemoveId(items, id))
  {
    if items != [] {
      var rest := RemoveId(items[1..], id);
      RemoveIdKeepsOthers(items[1..], id);
      if items[0].id != id && UniqueIds(items) {
        assert UniqueIds(items[1..]);
        forall j | 0 <= j < |rest| ensures rest[j].id != items[0].id {
          assert rest[j] in items[1..];
        }
        var r := [items[0]] + rest;
        forall i, j | 0 <= i < j < |r| ensures r[i].id != r[j].id {
          if i > 0 {
            assert r[i] == rest[i - 1] && r[j] == rest[j - 1];
          }
        }
      }
    }
  }

  /** The initial cart satisfies the invariant. */
  lemma InitialValid()
    ensures Valid(InitialCartState)
  {
  }

  /** addToCart keeps the ids distinct: it either bumps an existing line or
      appends a line whose id is not yet in the cart. */
  lemma AddItemKeepsUniqueIds(items: seq<CartItem>, cartItem: CartItem)
    requires UniqueIds(items)
    ensures UniqueIds(AddItem(items, cartItem))
  {
    var i := IndexOfId(items, cartItem.id);
    var r := AddItem(items, cartItem);
    if i == -1 {
      forall p, q | 0 <= p < q < |r| ensures r[p].id != r[q].id {
        if q == |items| {
          assert r[p] == items[p];
        }
      }
    }
  }

  /** Setting a quantity leaves every id where it was. */
  lemma SetQuantityKeepsUniqueIds(items: seq<CartItem>, id: string, quantity: int)
    requires UniqueIds(items)
    ensures UniqueIds(SetQuantity(items, id, quantity))
  {
    var r := SetQuantity(items, id, quantity);
    assert forall k :: 0 <= k < |r| ==> r[k].id == items[k].id;
  }

  /** Renaming lines for a language keeps ids, quantities and prices, so the
      invariant carries over. */
  lemma LanguageKeepsValid(s: CartState, language: string)
    requires Valid(s)
    ensures Valid(s.(cartItems := ApplyLanguage(s.cartItems, language)))
  {
    var r := ApplyLanguage(s.cartItems, language);
    assert forall k :: 0 <= k < |r| ==> r[k].id == s.cartItems[k].id;
    SumsAgree(s.cartItems, r);
  }

  /** Recording a localized name keeps ids, quantities and prices. */
  lemma LocalizedNameKeepsValid(s: CartState, id: string, language: string, name: string)
    requires Valid(s)
    ensures Valid(s.(cartItems := SetLocalizedName(s.cartItems, id, language, name)))
  {
    var r := SetLocalizedName(s.cartItems, id, language, name);
    assert forall k :: 0 <= k < |r| ==> r[k].id == s.cartItems[k].id;
    SumsAgree(s.cartItems, r);
  }

  /** Giving lines default names keeps their ids. */
  lemma MigrateKeepsUniqueIds(items: seq<CartItem>)
    requires UniqueIds(items)
    ensures UniqueIds(Migrate(items))
  {
    var r := Migrate(items);
    assert forall k :: 0 <= k < |r| ==> r[k].id == items[k].id;
  }

  /** Every handler keeps "no two lines share an id" and the totals in step
      with the lines; for loadCartSuccess this needs the loaded lines to have
      distinct ids. */
  lemma ReducePreservesValid(s: CartState, a: Action)
    requires Valid(s)
    requires a.LoadCartSuccess? ==> UniqueIds(a.items)
    ensures Valid(Reduce(s, a))
  {
    var items := s.cartItems;
    match a {
      case LoadCartSuccess(loaded) => MigrateKeepsUniqueIds(loaded);
      case AddToCart(cartItem) => AddItemKeepsUniqueIds(items, cartItem);
      case UpdateCartItemQuantity(id, quantity) =>
        if quantity <= 0 { RemoveIdKeepsOthers(items, id); }
        else { SetQuantityKeepsUniqueIds(items, id, quantity); }
      case RemoveFromCart(id) => RemoveIdKeepsOthers(items, id);
      case UpdateCartItemsLanguage(language) => LanguageKeepsValid(s, language);
      case AddLocalizedNameToCartItem(id, language, name) => LocalizedNameKeepsValid(s, id, language, name);
      case _ =>
    }
  }

  /** addToCart of an id already in the cart raises that line's quantity by
      exactly one and changes nothing else. */
  lemma AddExisting(s: CartState, cartItem: CartItem)
    requires ContainsId(s.cartItems, cartItem.id)
    ensures var r := Reduce(s, AddToCart(cartItem)).cartItems;
            var i := IndexOfId(s.cartItems, cartItem.id);
            && |r| == |s.cartItems|
            && r[i] == s.cartItems[i].(quantity := s.cartItems[i].quantity + 1)
            && forall k :: 0 <= k < |r| && k != i ==> r[k] == s.cartItems[k]
  {
  }

  /** addToCart of a new id appends one line at the end with quantity 1,
      whatever quantity the item carried, and names defaulting to
      `{ 'en-US': name }`. */
  lemma AddNew(s: CartState, cartItem: CartItem)
    requires !ContainsId(s.cartItems, cartItem.id)
    ensures var r := Reduce(s, AddToCart(cartItem)).cartItems;
            && |r| == |s.cartItems| + 1
            && r[..|s.cartItems|] == s.cartItems
            && r[|s.cartItems|].quantity == 1
            && r[|s.cartItems|].(quantity := cartItem.quantity, localizedNames := cartItem.localizedNames) == cartItem
            && r[|s.cartItems|].localizedNames
               == (if cartItem.localizedNames.Some? then cartItem.localizedNames
                   else Some(map[DefaultLanguage := cartItem.name]))
  {
  }

  /** addToCart raises the total quantity by exactly one. */
  lemma AddRaisesQuantity(s: CartState, cartItem: CartItem)
    requires Valid(s)
    ensures Reduce(s, AddToCart(cartItem)).totalQuantity == s.totalQuantity + 1
  {
    var items := s.cartItems;
    var i := IndexOfId(items, cartItem.id);
    if i > -1 {
      SumsAfterUpdate(items, i, items[i].(quantity := items[i].quantity + 1));
    } else {
      var r := AddItem(items, cartItem);
      assert r[..|r| - 1] == items;
    }
  }

  /** updateCartItemQuantity with a quantity of zero or less is removeFromCart. */
  lemma UpdateNonPositiveIsRemove(s: CartState, id: string, quantity: int)
    requires quantity <= 0
    ensures Reduce(s, UpdateCartItemQuantity(id, quantity)) == Reduce(s, RemoveFromCart(id))
  {
  }

  /** updateCartItemQuantity with a positive quantity changes only the
      quantity of the matching lines; order, length and every other field stay. */
  lemma UpdatePositive(s: CartState, id: string, quantity: int)
    requires quantity > 0
    ensures var r := Reduce(s, UpdateCartItemQuantity(id, quantity)).cartItems;
            && |r| == |s.cartItems|
            && forall k :: 0 <= k < |r| ==>
                 && r[k].(quantity := s.cartItems[k].quantity) == s.cartItems[k]
                 && r[k].quantity == (if s.cartItems[k].id == id then quantity else s.cartItems[k].quantity)
  {
  }

  /** With distinct ids, a positive update of line i's quantity replaces
      that line alone and recomputes the totals. */
  lemma UpdateAt(s: CartState, i: nat, quantity: int)
    requires UniqueIds(s.cartItems) && i < |s.cartItems| && quantity > 0
    ensures Reduce(s, UpdateCartItemQuantity(s.cartItems[i].id, quantity))
         == WithItems(s, s.cartItems[i := s.cartItems[i].(quantity := quantity)])
  {
    var items := s.cartItems;
    assert SetQuantity(items, items[i].id, quantity) == items[i := items[i].(quantity := quantity)];
  }

  /** With distinct ids, a positive quantity update is a one-position update,
      so the total quantity moves by the difference. */
  lemma UpdatePositiveTotals(s: CartState, id: string, quantity: int)
    requires Valid(s) && quantity > 0 && ContainsId(s.cartItems, id)
    ensures var i := IndexOfId(s.cartItems, id);
            var r := Reduce(s, UpdateCartItemQuantity(id, quantity));
            && r.cartItems == s.cartItems[i := s.cartItems[i].(quantity := quantity)]
            && r.totalQuantity == s.totalQuantity - s.cartItems[i].quantity + quantity
  {
    var items := s.cartItems;
    var i := IndexOfId(items, id);
    var u := items[i := items[i].(quantity := quantity)];
    assert SetQuantity(items, id, quantity) == u;
    SumsAfterUpdate(items, i, items[i].(quantity := quantity));
  }

  /** clearCart empties the lines and zeroes both totals, keeping `loading`
      and `error`. */
  lemma ClearKeepsFlags(s: CartState)
    ensures var r := Reduce(s, ClearCart);
            r.cartItems == [] && r.totalPrice == 0 && r.totalQuantity == 0
            && r.loading == s.loading && r.error == s.error && Valid(r)
  {
  }

  /** loadCartSuccess leaves every line with a names map, stops loading and
      clears the error; totals match the loaded lines. */
  lemma LoadSuccessMigrates(s: CartState, items: seq<CartItem>)
    ensures var r := Reduce(s, LoadCartSuccess(items));
            && |r.cartItems| == |items|
            && (forall k :: 0 <= k < |items| ==>
                  r.cartItems[k].localizedNames.Some?
                  && r.cartItems[k].(localizedNames := items[k].localizedNames) == items[k])
            && !r.loading && r.error == None && TotalsConsistent(r)
  {
  }

  /** updateCartItemsLanguage renames each line to its stored name for the
      language when that is non-empty, otherwise keeps the name; quantities,
      every other field and the totals are unchanged. */
  lemma LanguageRenames(s: CartState, language: string)
    ensures var r := Reduce(s, UpdateCartItemsLanguage(language));
            && |r.cartItems| == |s.cartItems|
            && r.totalPrice == s.totalPrice && r.totalQuantity == s.totalQuantity
            && forall k :: 0 <= k < |r.cartItems| ==>
                 && r.cartItems[k].(name := s.cartItems[k].name) == s.cartItems[k]
                 && r.cartItems[k].name
                    == (if HasName(s.cartItems[k], language)
                        then s.cartItems[k].localizedNames.value[language]
                        else s.cartItems[k].name)
  {
  }

  /** addLocalizedNameToCartItem sets the entry and the name on matching
      lines only, keeps their other languages, and leaves the totals alone. */
  lemma LocalizedNameOnMatching(s: CartState, id: string, language: string, name: string)
    ensures var r := Reduce(s, AddLocalizedNameToCartItem(id, language, name));
            && |r.cartItems| == |s.cartItems|
            && r.totalPrice == s.totalPrice && r.totalQuantity == s.totalQuantity
            && forall k :: 0 <= k < |r.cartItems| ==>
                 if s.cartItems[k].id == id then
                   && LocalizedName(r.cartItems[k], language) == Some(name)
                   && r.cartItems[k].name == name
                   && r.cartItems[k].quantity == s.cartItems[k].quantity
                   && (forall l :: l != language ==>
                         LocalizedName(r.cartItems[k], l) == LocalizedName(s.cartItems[k], l))
                 else r.cartItems[k] == s.cartItems[k]
  {
  }
}
