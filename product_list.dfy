/** The product list component that pages through the catalogue itself:
    it keeps a one-based page number, page size and total, asks the product
    service for zero-based pages, and stores each answer or the failure.
    A request and its answer are separate steps here: the component records
    the request, and the success or error callback is a method of its own. */
module ProductList {
  import opened Js
  import opened ProductReducer
  import opened Paging

  /** The two product service calls; `page` is zero-based. */
  datatype Request =
    | SearchProductsPaginate(page: int, size: int, keyword: string)
    | GetProductListPaginate(page: int, size: int, categoryId: int)

  const SearchFailedMessage: string := "Failed to search products. Please try again."
  const LoadFailedMessage: string := "Failed to load products. Please try again."

  /** The component's fields and the requests it has made. */
  datatype View = View(
    products: seq<CatalogProduct>,
    currentCategoryId: int,
    previousCategoryId: int,
    searchMode: bool,
    isLoading: bool,
    errorMessage: string,
    thePageNumber: int,
    thePageSize: int,
    theTotalElements: int,
    previousKeyword: string,
    requests: seq<Request>)

  const InitialView: View := View([], 1, 1, false, true, "", 1, 5, 0, "", [])

  /** handleSearchProducts for the route's keyword. */
  function SearchByKeyword(v: View, keyword: string): View
  {
    var v1 := if v.previousKeyword != keyword then v.(thePageNumber := 1) else v;
    var v2 := v1.(previousKeyword := keyword);
    v2.(requests := v2.requests + [SearchProductsPaginate(v2.thePageNumber - 1, v2.thePageSize, keyword)])
  }

  /** handleListProducts. */
  function ListByCategory(v: View, route: Route): View
  {
    var v1 := v.(currentCategoryId := CategoryOf(route));
    var v2 := if v1.previousCategoryId != v1.currentCategoryId then v1.(thePageNumber := 1) else v1;
    var v3 := v2.(previousCategoryId := v2.currentCategoryId);
    v3.(requests := v3.requests + [GetProductListPaginate(v3.thePageNumber - 1, v3.thePageSize, v3.currentCategoryId)])
  }

  /** listProducts. */
  function Listed(v: View, route: Route): View
  {
    var v1 := v.(isLoading := true, errorMessage := "", searchMode := route.keyword.Some?);
    if route.keyword.Some? then SearchByKeyword(v1, route.keyword.value) else ListByCategory(v1, route)
  }

  /** updatePageSize. */
  function PageSizeUpdated(v: View, pageSize: int, route: Route): View
  {
    Listed(v.(thePageSize := pageSize, thePageNumber := 1), route)
  }

  /** processResult: the answer's products and its page, made one-based. */
  function Processed(v: View, data: ProductPage): (r: View)
    ensures r.thePageNumber - 1 == data.page.number
    ensures r.products == data.products && r.thePageSize == data.page.size && r.theTotalElements == data.page.totalElements
    ensures r.(products := v.products, thePageNumber := v.thePageNumber, thePageSize := v.thePageSize,
               theTotalElements := v.theTotalElements) == v
  {
    v.(products := data.products, thePageNumber := data.page.number + 1, thePageSize := data.page.size,
       theTotalElements := data.page.totalElements)
  }

  /** The `next` callback of either request. */
  function Succeeded(v: View, data: ProductPage): View
  {
    Processed(v, data).(isLoading := false)
  }

  /** The `error` callback of a request: no products, the request's message,
      no longer loading. */
  function Failed(v: View, request: Request): (r: View)
    ensures r.products == [] && !r.isLoading
    ensures r.errorMessage == if request.SearchProductsPaginate? then SearchFailedMessage else LoadFailedMessage
    ensures r.(products := v.products, isLoading := v.isLoading, errorMessage := v.errorMessage) == v
  {
    var message := if request.SearchProductsPaginate? then SearchFailedMessage else LoadFailedMessage;
    v.(errorMessage := message, products := [], isLoading := false)
  }

  /** The rows a page change uses: the event's, or the current page size. */
  function RowsOf(v: View, event: PaginatorEvent): int
  {
    NumberOr(event.rows, v.thePageSize)
  }

  /** onPageChange. */
  function PageChanged(v: View, event: PaginatorEvent, route: Route): View
    requires RowsOf(v, event) != 0
  {
    var first := NumberOr(event.first, 0);
    var rows := RowsOf(v, event);
    Listed(v.(thePageNumber := PageContaining(first, rows), thePageSize := rows), route)
  }

  /** Whether listing the route keeps the current page: the same keyword in
      search mode, or the same category outside it. */
  predicate KeepsPage(v: View, route: Route)
  {
    if route.keyword.Some? then route.keyword.value == v.previousKeyword
    else CategoryOf(route) == v.previousCategoryId
  }

  /** The request a listing makes. */
  function RequestFor(route: Route, page: int, size: int): Request
  {
    if route.keyword.Some? then SearchProductsPaginate(page, size, route.keyword.value)
    else GetProductListPaginate(page, size, CategoryOf(route))
  }

  // ---------------------------------------------------------------------
  // Properties

  /** Listing starts loading and clears the message; it asks for the
      zero-based form of the page it then shows: page 1 for a new keyword or
      a new category (an absent id meaning category 1), the current page
      otherwise; and it remembers the keyword or category. */
  lemma ListingRequestsShownPage(v: View, route: Route)
    ensures var r := Listed(v, route);
            var page := if KeepsPage(v, route) then v.thePageNumber else 1;
            && r.isLoading && r.errorMessage == "" && r.searchMode == route.keyword.Some?
            && r.thePageNumber == page && r.thePageSize == v.thePageSize
            && r.requests == v.requests + [RequestFor(route, page - 1, v.thePageSize)]
            && (route.keyword.Some? ==> r.previousKeyword == route.keyword.value)
            && (route.keyword.None? ==> r.currentCategoryId == CategoryOf(route) && r.previousCategoryId == CategoryOf(route))
            && r.products == v.products
  {
  }

  /** Answering the request just made for the page it asked for leaves the
      page number and size as they were. */
  lemma AnswerKeepsPage(v: View, route: Route, products: seq<CatalogProduct>, totalElements: int, totalPages: int)
    ensures var listed := Listed(v, route);
            var q := listed.requests[|listed.requests| - 1];
            var r := Succeeded(listed, ProductPage(products, PageInfo(q.size, totalElements, totalPages, q.page)));
            && r.thePageNumber == listed.thePageNumber && r.thePageSize == listed.thePageSize
            && r.products == products && r.theTotalElements == totalElements && !r.isLoading
  {
    ListingRequestsShownPage(v, route);
  }

  /** A page change shows the page holding row `first` (0 when missing),
      with `rows` rows (the current size when missing), unless the listing
      restarts at page 1. */
  lemma PageChangeShowsPage(v: View, event: PaginatorEvent, route: Route)
    requires RowsOf(v, event) != 0
    ensures var first := NumberOr(event.first, 0);
            var rows := RowsOf(v, event);
            var page := if KeepsPage(v, route) then PageContaining(first, rows) else 1;
            var r := PageChanged(v, event, route);
            && r.thePageNumber == page && r.thePageSize == rows
            && r.requests == v.requests + [RequestFor(route, page - 1, rows)]
  {
    var first := NumberOr(event.first, 0);
    var rows := RowsOf(v, event);
    ListingRequestsShownPage(v.(thePageNumber := PageContaining(first, rows), thePageSize := rows), route);
  }

  /** Changing the page size shows page 1 of the new size. */
  lemma PageSizeShowsFirstPage(v: View, pageSize: int, route: Route)
    ensures var r := PageSizeUpdated(v, pageSize, route);
            && r.thePageNumber == 1 && r.thePageSize == pageSize
            && r.requests == v.requests + [RequestFor(route, 0, pageSize)]
  {
    ListingRequestsShownPage(v.(thePageSize := pageSize, thePageNumber := 1), route);
  }

  // ---------------------------------------------------------------------
  // The component

  class ProductListComponent {
    var products: seq<CatalogProduct>
    var currentCategoryId: int
    var previousCategoryId: int
    var searchMode: bool
    var isLoading: bool
    var errorMessage: string
    var thePageNumber: int
    var thePageSize: int
    var theTotalElements: int
    var previousKeyword: string
    var requests: seq<Request>

    function Snapshot(): View
      reads this
    {
      View(products, currentCategoryId, previousCategoryId, searchMode, isLoading, errorMessage,
           thePageNumber, thePageSize, theTotalElements, previousKeyword, requests)
    }

    constructor()
      ensures Snapshot() == InitialView
    {
      products := [];
      currentCategoryId := 1;
      previousCategoryId := 1;
      searchMode := false;
      isLoading := true;
      errorMessage := "";
      thePageNumber := 1;
      thePageSize := 5;
      theTotalElements := 0;
      previousKeyword := "";
      requests := [];
    }

    method ListProducts(route: Route)
      modifies this
      ensures Snapshot() == Listed(old(Snapshot()), route)
    {
      isLoading := true;
      errorMessage := "";
      searchMode := route.keyword.Some?;
      if searchMode {
        HandleSearchProducts(route.keyword.value);
      } else {
        HandleListProducts(route);
      }
    }

    method HandleSearchProducts(keyword: string)
      modifies this
      ensures Snapshot() == SearchByKeyword(old(Snapshot()), keyword)
    {
      if previousKeyword != keyword {
        thePageNumber := 1;
      }
      previousKeyword := keyword;
      requests := requests + [SearchProductsPaginate(thePageNumber - 1, thePageSize, keyword)];
    }

    method HandleListProducts(route: Route)
      modifies this
      ensures Snapshot() == ListByCategory(old(Snapshot()), route)
    {
      if route.id.Some? {
        currentCategoryId := route.id.value;
      } else {
        currentCategoryId := 1;
      }
      if previousCategoryId != currentCategoryId {
        thePageNumber := 1;
      }
      previousCategoryId := currentCategoryId;
      requests := requests + [GetProductListPaginate(thePageNumber - 1, thePageSize, currentCategoryId)];
    }

    method UpdatePageSize(pageSize: int, route: Route)
      modifies this
      ensures Snapshot() == PageSizeUpdated(old(Snapshot()), pageSize, route)
    {
      thePageSize := pageSize;
      thePageNumber := 1;
      ListProducts(route);
    }

    method ProcessResult(data: ProductPage)
      modifies this
      ensures Snapshot() == Processed(old(Snapshot()), data)
    {
      products := data.products;
      thePageNumber := data.page.number + 1;
      thePageSize := data.page.size;
      theTotalElements := data.page.totalElements;
    }

    /** The `next` callback. */
    method OnFetchSuccess(data: ProductPage)
      modifies this
      ensures Snapshot() == Succeeded(old(Snapshot()), data)
    {
      ProcessResult(data);
      isLoading := false;
    }

    /** The `error` callback of `request`. */
    method OnFetchError(request: Request)
      modifies this
      ensures Snapshot() == Failed(old(Snapshot()), request)
    {
      if request.SearchProductsPaginate? {
        errorMessage := SearchFailedMessage;
      } else {
        errorMessage := LoadFailedMessage;
      }
      products := [];
      isLoading := false;
    }

    method OnPageChange(event: PaginatorEvent, route: Route)
      requires NumberOr(event.rows, thePageSize) != 0
      modifies this
      ensures Snapshot() == PageChanged(old(Snapshot()), event, route)
    {
      var first := NumberOr(event.first, 0);
      var rows := NumberOr(event.rows, thePageSize);
      thePageNumber := PageContaining(first, rows);
      thePageSize := rows;
      ListProducts(route);
    }
  }
}
