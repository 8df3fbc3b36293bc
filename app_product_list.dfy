/** The store-backed product list component: it keeps the listing mode,
    the last keyword and category, and dispatches pagination changes and
    load or search requests to the product slice. Dispatching applies the
    product reducer at once, so the pagination the component reads back is
    the slice's pagination after its own dispatches. The current language
    is a field the component only reads. */
module AppProductList {
  import opened Js
  import opened ProductReducer
  import opened Paging

  /** The request for one page of a category; the page sent is zero-based. */
  function ListRequest(categoryId: int, p: Pagination, language: string): (a: Action)
    ensures a.LoadProductsByCategory? && a.page + 1 == p.pageNumber && a.size == p.pageSize
  {
    LoadProductsByCategory(categoryId, p.pageNumber - 1, p.pageSize, language)
  }

  /** The search request as line 117 builds it: the one-based page number
      is sent where a zero-based page is expected. */
  function SearchRequestAsWritten(keyword: string, p: Pagination, language: string): (a: Action)
    ensures a.SearchProducts? && a.page == p.pageNumber && a.size == p.pageSize
  {
    SearchProducts(keyword, p.pageNumber, p.pageSize, language)
  }

  /** The search request with a zero-based page, as the category request and
      the language-reload effect send it. */
  function SearchRequest(keyword: string, p: Pagination, language: string): (a: Action)
    ensures a.SearchProducts? && a.page + 1 == p.pageNumber && a.size == p.pageSize
  {
    SearchProducts(keyword, p.pageNumber - 1, p.pageSize, language)
  }

  /** The server's answer to a request: the page block echoes the requested
      zero-based page and size. */
  function Answer(page: int, size: int, products: seq<CatalogProduct>, totalElements: int, totalPages: int): ProductPage
  {
    ProductPage(products, PageInfo(size, totalElements, totalPages, page))
  }

  /** A category request answered for the page it asked for leaves the
      user on the same page. */
  lemma ListAnswerKeepsPage(s: ProductState, categoryId: int, language: string,
                            products: seq<CatalogProduct>, totalElements: int, totalPages: int)
    ensures var a := ListRequest(categoryId, s.pagination, language);
            var r := Reduce(Reduce(s, a), LoadProductsByCategorySuccess(Answer(a.page, a.size, products, totalElements, totalPages)));
            r.pagination == s.pagination.(totalElements := totalElements, totalPages := totalPages)
            && r.products == products
  {
  }

  /** With the zero-based search request the answer leaves the user on the
      same page. */
  lemma SearchAnswerKeepsPage(s: ProductState, keyword: string, language: string,
                              products: seq<CatalogProduct>, totalElements: int, totalPages: int)
    ensures var a := SearchRequest(keyword, s.pagination, language);
            var r := Reduce(Reduce(s, a), SearchProductsSuccess(Answer(a.page, a.size, products, totalElements, totalPages)));
            r.pagination == s.pagination.(totalElements := totalElements, totalPages := totalPages)
            && r.searchKeyword == Some(keyword)
  {
  }

  /** With the request as written, every answered search moves the user one
      page on: the first page of results asked for is the second served. */
  lemma SearchAnswerAsWrittenSkipsPage(s: ProductState, keyword: string, language: string,
                                       products: seq<CatalogProduct>, totalElements: int, totalPages: int)
    ensures var a := SearchRequestAsWritten(keyword, s.pagination, language);
            var r := Reduce(Reduce(s, a), SearchProductsSuccess(Answer(a.page, a.size, products, totalElements, totalPages)));
            r.pagination.pageNumber == s.pagination.pageNumber + 1
            && r.pagination != s.pagination.(totalElements := totalElements, totalPages := totalPages)
  {
  }

  /** A concrete case: searching "mug" from page 1 of 5 asks the server for
      its zero-based page 1, and the slice then shows page 2. */
  lemma FirstSearchLandsOnPageTwo()
    ensures var a := SearchRequestAsWritten("mug", DefaultPagination, "en-US");
            a == SearchProducts("mug", 1, 5, "en-US")
            && Reduce(Reduce(InitialProductState, a), SearchProductsSuccess(Answer(a.page, a.size, [], 12, 3))).pagination
               == Pagination(2, 5, 12, 3)
  {
  }

  /** Pagination restarted at page 1 of 5 when `reset`, else kept. */
  function Restart(p: Pagination, reset: bool): (r: Pagination)
    ensures reset ==> r == p.(pageNumber := 1, pageSize := 5)
    ensures !reset ==> r == p
  {
    if reset then p.(pageNumber := 1, pageSize := 5) else p
  }

  // ---------------------------------------------------------------------
  // The component's state and the specification of its handlers

  /** The component's fields, the slice it reads, and what it has dispatched. */
  datatype View = View(
    currentCategoryId: int,
    previousCategoryId: int,
    searchMode: bool,
    previousKeyword: string,
    language: string,
    store: ProductState,
    dispatched: seq<Action>)

  /** Dispatching one action. */
  function Dispatched(v: View, a: Action): (r: View)
    ensures r.store == Reduce(v.store, a) && r.dispatched == v.dispatched + [a]
    ensures r.(store := v.store, dispatched := v.dispatched) == v
  {
    v.(store := Reduce(v.store, a), dispatched := v.dispatched + [a])
  }

  /** handleListProducts. */
  function ListByCategory(v: View, route: Route): View
  {
    var cat := CategoryOf(route);
    var v1 := v.(currentCategoryId := cat);
    var v2 := if v1.previousCategoryId != cat then Dispatched(v1, SetPagination(1, 5)) else v1;
    var v3 := Dispatched(v2.(previousCategoryId := cat), SetCurrentCategory(cat));
    Dispatched(v3, ListRequest(cat, v3.store.pagination, v3.language))
  }

  /** handleSearchProducts: the search request is built as line 117 builds
      it, with the one-based page number. */
  function SearchByKeyword(v: View, route: Route): View
  {
    if route.keyword.None? || Trim(route.keyword.value) == "" then
      ListByCategory(Dispatched(v.(searchMode := false, previousKeyword := ""), ClearProducts), route)
    else
      var keyword := route.keyword.value;
      var v1 := if v.previousKeyword != keyword then Dispatched(v, SetPagination(1, 5)) else v;
      var v2 := v1.(previousKeyword := keyword);
      Dispatched(v2, SearchRequestAsWritten(keyword, v2.store.pagination, v2.language))
  }

  /** listProducts. */
  function Listed(v: View, route: Route): View
  {
    var v1 := v.(searchMode := route.keyword.Some?);
    if route.keyword.Some? then SearchByKeyword(v1, route)
    else ListByCategory(v1.(previousKeyword := ""), route)
  }

  /** updatePageSize. */
  function PageSizeUpdated(v: View, pageSize: int, route: Route): View
  {
    Listed(Dispatched(v, SetPagination(1, pageSize)), route)
  }

  /** onPageChange. */
  function PageChanged(v: View, event: PaginatorEvent, route: Route): View
  {
    var first := NumberOr(event.first, 0);
    var rows := NumberOr(event.rows, 5);
    Listed(Dispatched(v, SetPagination(PageContaining(first, rows), rows)), route)
  }

  // ---------------------------------------------------------------------
  // Properties of the handlers

  /** Listing a category: an absent id means category 1; a category other
      than the previous one restarts at page 1 of 5; both category fields end
      equal; the request asks for the zero-based page of the pagination then
      in force. */
  lemma ListByCategoryOutcome(v: View, route: Route)
    ensures var cat := CategoryOf(route);
            var reset := v.previousCategoryId != cat;
            var p := Restart(v.store.pagination, reset);
            var r := ListByCategory(v, route);
            && r.currentCategoryId == cat && r.previousCategoryId == cat
            && r.searchMode == v.searchMode && r.previousKeyword == v.previousKeyword && r.language == v.language
            && r.dispatched == v.dispatched + (if reset then [SetPagination(1, 5)] else [])
                               + [SetCurrentCategory(cat), LoadProductsByCategory(cat, p.pageNumber - 1, p.pageSize, v.language)]
            && r.store == v.store.(pagination := p, currentCategoryId := Some(cat), loading := true, error := None)
  {
    var cat := CategoryOf(route);
    var reset := v.previousCategoryId != cat;
    var v1 := v.(currentCategoryId := cat);
    var v2 := if reset then Dispatched(v1, SetPagination(1, 5)) else v1;
    assert v2.store.pagination == Restart(v.store.pagination, reset);
    assert v2.dispatched == v.dispatched + (if reset then [SetPagination(1, 5)] else []);
  }

  /** Searching for a blank keyword (missing, empty or white space only)
      leaves search mode, forgets the keyword, clears the products and lists
      the route's category from page 1 of 5. */
  lemma BlankKeywordLists(v: View, route: Route)
    requires route.keyword.None? || AllWhitespace(route.keyword.value)
    ensures var cat := CategoryOf(route);
            var r := SearchByKeyword(v, route);
            && !r.searchMode && r.previousKeyword == ""
            && r.currentCategoryId == cat && r.previousCategoryId == cat
            && r.dispatched == v.dispatched + [ClearProducts] + (if v.previousCategoryId != cat then [SetPagination(1, 5)] else [])
                               + [SetCurrentCategory(cat), LoadProductsByCategory(cat, 0, 5, v.language)]
            && r.store == v.store.(products := [], pagination := DefaultPagination, currentCategoryId := Some(cat),
                                   loading := true, error := None)
  {
    if route.keyword.Some? {
      TrimEmptyIffAllWhitespace(route.keyword.value);
    }
    var v1 := Dispatched(v.(searchMode := false, previousKeyword := ""), ClearProducts);
    ListByCategoryOutcome(v1, route);
  }

  /** Searching for a keyword: a keyword other than the previous one
      (compared untrimmed) restarts at page 1 of 5, a repeated one keeps the
      page; the keyword is remembered and searched for, the request carrying
      the one-based page number where the service expects a zero-based page. */
  lemma KeywordSearch(v: View, route: Route)
    requires route.keyword.Some? && !AllWhitespace(route.keyword.value)
    ensures var keyword := route.keyword.value;
            var reset := v.previousKeyword != keyword;
            var p := Restart(v.store.pagination, reset);
            var r := SearchByKeyword(v, route);
            && r.previousKeyword == keyword && r.searchMode == v.searchMode
            && r.currentCategoryId == v.currentCategoryId && r.previousCategoryId == v.previousCategoryId
            && r.dispatched == v.dispatched + (if reset then [SetPagination(1, 5)] else [])
                               + [SearchProducts(keyword, p.pageNumber, p.pageSize, v.language)]
            && r.store == v.store.(pagination := p, searchKeyword := Some(keyword), loading := true, error := None)
  {
    TrimEmptyIffAllWhitespace(route.keyword.value);
  }

  /** The component's own keyword search, answered for the page it asked
      for, leaves the user one page past the one it was on. */
  lemma ComponentSearchSkipsPage(v: View, route: Route, products: seq<CatalogProduct>,
                                 totalElements: int, totalPages: int)
    requires route.keyword.Some? && !AllWhitespace(route.keyword.value)
    ensures var p := Restart(v.store.pagination, v.previousKeyword != route.keyword.value);
            var r := SearchByKeyword(v, route);
            var a := r.dispatched[|r.dispatched| - 1];
            && a.SearchProducts?
            && Reduce(r.store, SearchProductsSuccess(Answer(a.page, a.size, products, totalElements, totalPages)))
                 .pagination.pageNumber == p.pageNumber + 1
  {
    KeywordSearch(v, route);
  }

  /** Listing without a keyword leaves search mode and forgets the keyword. */
  lemma ListWithoutKeyword(v: View, route: Route)
    requires route.keyword.None?
    ensures var r := Listed(v, route);
            !r.searchMode && r.previousKeyword == "" && r.previousCategoryId == CategoryOf(route)
  {
    ListByCategoryOutcome(v.(searchMode := false, previousKeyword := ""), route);
  }

  /** A page change first sets the page showing row `first` (0 when
      missing) with `rows` rows (5 when missing), then relists; on the same
      category outside search mode the request is for that page. */
  lemma PageChangeRequestsPage(v: View, event: PaginatorEvent, route: Route)
    ensures var first := NumberOr(event.first, 0);
            var rows := NumberOr(event.rows, 5);
            var r := PageChanged(v, event, route);
            && |r.dispatched| > |v.dispatched|
            && r.dispatched[..|v.dispatched| + 1] == v.dispatched + [SetPagination(PageContaining(first, rows), rows)]
    ensures var first := NumberOr(event.first, 0);
            var rows := NumberOr(event.rows, 5);
            var r := PageChanged(v, event, route);
            route.keyword.None? && CategoryOf(route) == v.previousCategoryId ==>
              r.dispatched[|r.dispatched| - 1]
              == LoadProductsByCategory(CategoryOf(route), PageContaining(first, rows) - 1, rows, v.language)
  {
    var first := NumberOr(event.first, 0);
    var rows := NumberOr(event.rows, 5);
    var v1 := Dispatched(v, SetPagination(PageContaining(first, rows), rows));
    var v2 := v1.(searchMode := route.keyword.Some?);
    if route.keyword.Some? {
      if Trim(route.keyword.value) == "" {
        var v3 := Dispatched(v2.(searchMode := false, previousKeyword := ""), ClearProducts);
        ListByCategoryOutcome(v3, route);
      } else {
        TrimEmptyIffAllWhitespace(route.keyword.value);
        KeywordSearch(v2, route);
      }
    } else {
      ListByCategoryOutcome(v2.(previousKeyword := ""), route);
    }
    var r := PageChanged(v, event, route);
    assert r.dispatched[..|v.dispatched| + 1] == v1.dispatched;
  }

  /** Changing the page size sets page 1 of the new size before relisting;
      on the same category outside search mode that is the page requested. */
  lemma PageSizeRequestsFirstPage(v: View, pageSize: int, route: Route)
    ensures var r := PageSizeUpdated(v, pageSize, route);
            && |r.dispatched| > |v.dispatched|
            && r.dispatched[..|v.dispatched| + 1] == v.dispatched + [SetPagination(1, pageSize)]
    ensures var r := PageSizeUpdated(v, pageSize, route);
            route.keyword.None? && CategoryOf(route) == v.previousCategoryId ==>
              r.dispatched[|r.dispatched| - 1] == LoadProductsByCategory(CategoryOf(route), 0, pageSize, v.language)
  {
    var v1 := Dispatched(v, SetPagination(1, pageSize));
    var v2 := v1.(searchMode := route.keyword.Some?);
    if route.keyword.Some? {
      if Trim(route.keyword.value) == "" {
        var v3 := Dispatched(v2.(searchMode := false, previousKeyword := ""), ClearProducts);
        ListByCategoryOutcome(v3, route);
      } else {
        TrimEmptyIffAllWhitespace(route.keyword.value);
        KeywordSearch(v2, route);
      }
    } else {
      ListByCategoryOutcome(v2.(previousKeyword := ""), route);
    }
    var r := PageSizeUpdated(v, pageSize, route);
    assert r.dispatched[..|v.dispatched| + 1] == v1.dispatched;
  }

  // ---------------------------------------------------------------------
  // The component

  class AppProductListComponent {
    var currentCategoryId: int
    var previousCategoryId: int
    var searchMode: bool
    var previousKeyword: string
    var language: string
    var store: ProductState
    var dispatched: seq<Action>

    function Snapshot(): View
      reads this
    {
      View(currentCategoryId, previousCategoryId, searchMode, previousKeyword, language, store, dispatched)
    }

    constructor(store: ProductState, language: string)
      ensures Snapshot() == View(1, 1, false, "", language, store, [])
    {
      currentCategoryId := 1;
      previousCategoryId := 1;
      searchMode := false;
      previousKeyword := "";
      this.language := language;
      this.store := store;
      dispatched := [];
    }

    /** `store.dispatch(a)` through the product facade. */
    method Dispatch(a: Action)
      modifies this
      ensures Snapshot() == Dispatched(old(Snapshot()), a)
    {
      store := Reduce(store, a);
      dispatched := dispatched + [a];
    }

    method HandleListProducts(route: Route)
      modifies this
      ensures Snapshot() == ListByCategory(old(Snapshot()), route)
    {
      if route.id.Some? {
        currentCategoryId := route.id.value;
      } else {
        currentCategoryId := 1;
      }
      if previousCategoryId != currentCategoryId {
        Dispatch(SetPagination(1, 5));
      }
      previousCategoryId := currentCategoryId;
      Dispatch(SetCurrentCategory(currentCategoryId));
      var pagination := store.pagination;
      Dispatch(ListRequest(currentCategoryId, pagination, language));
    }

    method HandleSearchProducts(route: Route)
      modifies this
      ensures Snapshot() == SearchByKeyword(old(Snapshot()), route)
    {
      var keyword := route.keyword;
      var trimmedKeyword := if keyword.Some? then Some(Trim(keyword.value)) else None;
      if !Truthy(trimmedKeyword) {
        searchMode := false;
        previousKeyword := "";
        Dispatch(ClearProducts);
        HandleListProducts(route);
        return;
      }
      if previousKeyword != keyword.value {
        Dispatch(SetPagination(1, 5));
      }
      previousKeyword := keyword.value;
      var pagination := store.pagination;
      Dispatch(SearchRequestAsWritten(keyword.value, pagination, language));
    }

    method ListProducts(route: Route)
      modifies this
      ensures Snapshot() == Listed(old(Snapshot()), route)
    {
      searchMode := route.keyword.Some?;
      if searchMode {
        HandleSearchProducts(route);
      } else {
        previousKeyword := "";
        HandleListProducts(route);
      }
    }

    method UpdatePageSize(pageSize: int, route: Route)
      modifies this
      ensures Snapshot() == PageSizeUpdated(old(Snapshot()), pageSize, route)
    {
      Dispatch(SetPagination(1, pageSize));
      ListProducts(route);
    }

    method OnPageChange(event: PaginatorEvent, route: Route)
      modifies this
      ensures Snapshot() == PageChanged(old(Snapshot()), event, route)
    {
      var first := NumberOr(event.first, 0);
      var rows := NumberOr(event.rows, 5);
      var pageNumber := PageContaining(first, rows);
      Dispatch(SetPagination(pageNumber, rows));
      ListProducts(route);
    }
  }
}
