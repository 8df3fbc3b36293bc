/** The decisions the cart effects make. Each effect is modelled as a
    function from its trigger and the inputs it reads to the actions it
    emits. Local storage and the product service become parameters: the
    stored cart is a value, and the catalogue is a map from product id to
    the name the service returns in the requested language. */
module CartEffects {
  import opened Js
  import opened CartItems
  import opened CartReducer

  // ---------------------------------------------------------------------
  // loadCart$ and persistCart$

  /** What reading the `cartItems` key yields: `getItem` throws, the key is
      missing (`null`), it holds `''`, it holds JSON that parses to lines,
      or it holds text `JSON.parse` rejects. */
  datatype StoredCart =
    | Unavailable
    | Absent
    | EmptyText
    | Entries(items: seq<CartItem>)
    | Unparsable

  const LoadFailureMessage: string := "Failed to load cart from localStorage"

  /** loadCart$: a falsy stored value reads as an empty cart, parsed lines load
      as they are, and any exception becomes a failure with a fixed message. */
  function LoadCartOutcome(stored: StoredCart): (a: Action)
    ensures a.LoadCartSuccess? <==> !(stored.Unavailable? || stored.Unparsable?)
    ensures a.LoadCartFailure? ==> a.error == LoadFailureMessage
    ensures a.LoadCartSuccess? ==> a.items == (if stored.Entries? then stored.items else [])
  {
    match stored
    case Unavailable => LoadCartFailure(LoadFailureMessage)
    case Unparsable => LoadCartFailure(LoadFailureMessage)
    case Absent => LoadCartSuccess([])
    case EmptyText => LoadCartSuccess([])
    case Entries(items) => LoadCartSuccess(items)
  }

  /** The actions after which persistCart$ writes the cart. */
  predicate TriggersPersist(a: Action)
  {
    a.AddToCart? || a.UpdateCartItemQuantity? || a.RemoveFromCart? || a.ClearCart? || a.PersistCart?
  }

  /** persistCart$: after a triggering action the lines of the (already
      reduced) state are written; a failing write is ignored, as is every
      other action. */
  function PersistCartWrite(a: Action, after: CartState, before: StoredCart, writable: bool): (stored: StoredCart)
    ensures TriggersPersist(a) && writable ==> stored == Entries(after.cartItems)
    ensures !(TriggersPersist(a) && writable) ==> stored == before
  {
    if TriggersPersist(a) && writable then Entries(after.cartItems) else before
  }

  /** A cart written by persistCart$ and loaded again has the same lines
      (each given a names map if it lacked one) and the same totals. */
  lemma PersistThenLoad(s: CartState, a: Action, before: StoredCart, start: CartState)
    requires Valid(s) && TriggersPersist(a)
    ensures var saved := Reduce(s, a);
            var loaded := Reduce(start, LoadCartOutcome(PersistCartWrite(a, saved, before, true)));
            && loaded.cartItems == Migrate(saved.cartItems)
            && loaded.totalPrice == saved.totalPrice
            && loaded.totalQuantity == saved.totalQuantity
            && !loaded.loading && loaded.error == None
  {
    var saved := Reduce(s, a);
    ReducePreservesValid(s, a);
    SumsAgree(saved.cartItems, Migrate(saved.cartItems));
  }

  // ---------------------------------------------------------------------
  // updateCartItemsOnLanguageChange$

  /** `filter(item => !item.localizedNames || !item.localizedNames[language])`. */
  function MissingNames(items: seq<CartItem>, language: string): (r: seq<CartItem>)
    ensures |r| <= |items|
    ensures forall x :: x in r <==> x in items && !HasName(x, language)
  {
    if items == [] then []
    else if HasName(items[0], language) then MissingNames(items[1..], language)
    else [items[0]] + MissingNames(items[1..], language)
  }

  /** On setLanguage or languageLoaded: nothing for an empty cart; otherwise
      fetch the missing names when some line lacks one, else rename the lines. */
  function OnLanguageChange(language: string, items: seq<CartItem>): (r: seq<Action>)
    ensures items == [] ==> r == []
    ensures items != [] ==> |r| == 1
    ensures items != [] ==>
              (r[0] == FetchMissingProductNames(language)
               <==> exists k :: 0 <= k < |items| && !HasName(items[k], language))
    ensures items != [] ==>
              (r[0] == UpdateCartItemsLanguage(language)
               <==> forall k :: 0 <= k < |items| ==> HasName(items[k], language))
  {
    if |items| == 0 then []
    else if |MissingNames(items, language)| > 0 then
      assert MissingNames(items, language)[0] in items;
      [FetchMissingProductNames(language)]
    else
      assert forall k :: 0 <= k < |items| ==> items[k] !in MissingNames(items, language);
      [UpdateCartItemsLanguage(language)]
  }

  // ---------------------------------------------------------------------
  // fetchMissingProductNames$

  /** The name one product request yields for a line: the catalogue's name
      for `parseInt(id, 10)` when the request succeeds, else (the request
      fails) the line's current name. */
  function FetchedName(item: CartItem, catalog: map<int, string>): (name: string)
    ensures ParseInt(item.id).Some? && ParseInt(item.id).value in catalog ==>
              name == catalog[ParseInt(item.id).value]
    ensures ParseInt(item.id).None? || ParseInt(item.id).value !in catalog ==> name == item.name
  {
    var productId := ParseInt(item.id);
    if productId.Some? && productId.value in catalog then catalog[productId.value] else item.name
  }

  /** One addLocalizedNameToCartItem per line, in order, with its fetched name. */
  function AddNameActions(ms: seq<CartItem>, language: string, catalog: map<int, string>): (r: seq<Action>)
    ensures |r| == |ms|
    ensures forall j :: 0 <= j < |ms| ==>
              r[j] == AddLocalizedNameToCartItem(ms[j].id, language, FetchedName(ms[j], catalog))
  {
    if ms == [] then []
    else [AddLocalizedNameToCartItem(ms[0].id, language, FetchedName(ms[0], catalog))]
         + AddNameActions(ms[1..], language, catalog)
  }

  /** What fetchMissingProductNames$ emits: the add-name actions for the lines
      missing a name (none when no line is missing one), then
      updateCartItemsLanguage. */
  function FetchPlan(language: string, items: seq<CartItem>, catalog: map<int, string>): (r: seq<Action>)
    ensures var m := MissingNames(items, language);
            && |r| == |m| + 1
            && r[|m|] == UpdateCartItemsLanguage(language)
            && forall j :: 0 <= j < |m| ==>
                 r[j] == AddLocalizedNameToCartItem(m[j].id, language, FetchedName(m[j], catalog))
  {
    AddNameActions(MissingNames(items, language), language, catalog) + [UpdateCartItemsLanguage(language)]
  }

  /** When every line already has a name, the fetch plan is just the rename
      the language-change effect would emit directly. */
  lemma NothingMissingPlanIsRename(language: string, items: seq<CartItem>, catalog: map<int, string>)
    requires items != [] && forall k :: 0 <= k < |items| ==> HasName(items[k], language)
    ensures FetchPlan(language, items, catalog) == OnLanguageChange(language, items)
  {
    var m := MissingNames(items, language);
    forall x | x in items ensures x !in m {
      var k :| 0 <= k < |items| && items[k] == x;
    }
  }

  // ---------------------------------------------------------------------
  // The fetch plan run through the reducer

  /** Feeding two action lists one after the other. */
  lemma {:induction false} ReduceAllAppend(s: CartState, a: seq<Action>, b: seq<Action>)
    ensures ReduceAll(s, a + b) == ReduceAll(ReduceAll(s, a), b)
    decreases |a|
  {
    if a != [] {
      assert (a + b)[0] == a[0] && (a + b)[1..] == a[1..] + b;
      ReduceAllAppend(Reduce(s, a[0]), a[1..], b);
    } else {
      assert a + b == b;
    }
  }

  /** A filter of lines with distinct ids has distinct ids. */
  lemma {:induction false} MissingNamesUnique(items: seq<CartItem>, language: string)
    requires UniqueIds(items)
    ensures UniqueIds(MissingNames(items, language))
  {
    if items != [] {
      var rest := MissingNames(items[1..], language);
      MissingNamesUnique(items[1..], language);
      if !HasName(items[0], language) {
        forall j | 0 <= j < |rest| ensures rest[j].id != items[0].id {
          assert rest[j] in items[1..];
        }
        var r := [items[0]] + rest;
        forall i, j | 0 <= i < j < |r| ensures r[i].id != r[j].id {
          if i > 0 {
            assert r[i] == rest[i - 1] && r[j] == rest[j - 1];
          }
        }
      }
    }
  }

  /** The add-name actions touch only the lines, and keep their number. */
  lemma {:induction false} AddNamesFrame(s: CartState, ms: seq<CartItem>, language: string,
                                         catalog: map<int, string>)
    ensures var r := ReduceAll(s, AddNameActions(ms, language, catalog));
            |r.cartItems| == |s.cartItems| && r.(cartItems := s.cartItems) == s
    decreases |ms|
  {
    if ms != [] {
      var actions := AddNameActions(ms, language, catalog);
      assert actions[1..] == AddNameActions(ms[1..], language, catalog);
      AddNamesFrame(Reduce(s, actions[0]), ms[1..], language, catalog);
    }
  }

  /** Line `k` after the add-name actions of `ms` (distinct ids): renamed by
      the one action carrying its id, if there is one, else unchanged. */
  lemma {:induction false} AddNamesLine(s: CartState, ms: seq<CartItem>, language: string,
                                        catalog: map<int, string>, k: nat)
    requires UniqueIds(ms) && k < |s.cartItems|
    ensures var r := ReduceAll(s, AddNameActions(ms, language, catalog));
            var j := IndexOfId(ms, s.cartItems[k].id);
            && |r.cartItems| == |s.cartItems|
            && r.cartItems[k] == (if j >= 0 then AddLocalizedName(s.cartItems[k], language, FetchedName(ms[j], catalog))
                                  else s.cartItems[k])
    decreases |ms|
  {
    if ms != [] {
      var actions := AddNameActions(ms, language, catalog);
      var s1 := Reduce(s, actions[0]);
      assert actions[1..] == AddNameActions(ms[1..], language, catalog);
      assert UniqueIds(ms[1..]) by {
        forall p, q | 0 <= p < q < |ms| - 1 ensures ms[1..][p].id != ms[1..][q].id {
          assert ms[1..][p] == ms[p + 1] && ms[1..][q] == ms[q + 1];
        }
      }
      AddNamesLine(s1, ms[1..], language, catalog, k);
      var id := s.cartItems[k].id;
      if id == ms[0].id {
        assert IndexOfId(ms, id) == 0;
        forall j | 0 <= j < |ms[1..]| ensures ms[1..][j].id != id {
          assert ms[1..][j] == ms[j + 1];
        }
        assert IndexOfId(ms[1..], id) == -1;
      } else {
        var j' := IndexOfId(ms[1..], id);
        if j' >= 0 {
          assert ms[j' + 1] == ms[1..][j'];
          assert IndexOfId(ms, id) == j' + 1;
        } else {
          assert !ContainsId(ms, id) by {
            forall j | 0 <= j < |ms| ensures ms[j].id != id {
              if j > 0 { assert ms[j] == ms[1..][j - 1]; }
            }
          }
        }
      }
    }
  }

  /** Line `k` once the add-name actions of the fetch plan have run: a line
      that had a name is untouched, any other line has received its fetched
      name. */
  lemma MissingLineNamed(s: CartState, language: string, catalog: map<int, string>, k: nat)
    requires UniqueIds(s.cartItems) && k < |s.cartItems|
    ensures var mid := ReduceAll(s, AddNameActions(MissingNames(s.cartItems, language), language, catalog));
            var x := s.cartItems[k];
            && |mid.cartItems| == |s.cartItems|
            && mid.cartItems[k] == (if HasName(x, language) then x
                                    else AddLocalizedName(x, language, FetchedName(x, catalog)))
  {
    var items := s.cartItems;
    var m := MissingNames(items, language);
    MissingNamesUnique(items, language);
    AddNamesLine(s, m, language, catalog, k);
    var x := items[k];
    var j := IndexOfId(m, x.id);
    if j >= 0 {
      assert m[j] in items;
      var k' :| 0 <= k' < |items| && items[k'] == m[j];
      assert k' == k;
    } else {
      assert x !in m;
    }
  }

  /** The full fetch plan, run against the cart it was computed from (lines
      with distinct ids): every line ends with an entry for the language, and
      its name is the stored name when it had a non-empty one, otherwise the
      fetched name; ids, quantities, prices, totals and flags are unchanged. */
  lemma FetchPlanNamesEveryLine(s: CartState, language: string, catalog: map<int, string>)
    requires UniqueIds(s.cartItems)
    ensures var r := ReduceAll(s, FetchPlan(language, s.cartItems, catalog));
            && |r.cartItems| == |s.cartItems|
            && r.totalPrice == s.totalPrice && r.totalQuantity == s.totalQuantity
            && r.loading == s.loading && r.error == s.error
            && forall k :: 0 <= k < |s.cartItems| ==>
                 var x := s.cartItems[k];
                 && HasEntry(r.cartItems[k], language)
                 && r.cartItems[k].id == x.id && r.cartItems[k].quantity == x.quantity
                 && r.cartItems[k].unitPrice == x.unitPrice && r.cartItems[k].imageUrl == x.imageUrl
                 && r.cartItems[k].name
                    == (if HasName(x, language) then x.localizedNames.value[language] else FetchedName(x, catalog))
  {
    var items := s.cartItems;
    var m := MissingNames(items, language);
    var adds := AddNameActions(m, language, catalog);
    ReduceAllAppend(s, adds, [UpdateCartItemsLanguage(language)]);
    assert [UpdateCartItemsLanguage(language)][1..] == [];
    AddNamesFrame(s, m, language, catalog);
    forall k | 0 <= k < |items| {
      MissingLineNamed(s, language, catalog, k);
    }
  }
}
