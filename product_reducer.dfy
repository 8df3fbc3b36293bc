/** The product slice: the listed products, the categories, the current
    category and keyword, and the one-based pagination shown to the user. */
module ProductReducer {
  import opened Js

  /** Product and category records come from `common/models/product` and
      `common/models/product-category`, which are not part of this model;
      only the fields the selectors and components read are kept. */
  datatype CatalogProduct = CatalogProduct(id: int, name: string, unitPrice: int)
  datatype ProductCategory = ProductCategory(id: int, categoryName: string)

  /** One-based page number, page size and the server's totals. */
  datatype Pagination = Pagination(pageNumber: int, pageSize: int, totalElements: int, totalPages: int)

  const DefaultPagination: Pagination := Pagination(1, 5, 0, 0)

  /** The server's page block: `number` is zero-based. */
  datatype PageInfo = PageInfo(size: int, totalElements: int, totalPages: int, number: int)

  /** A paged product response (`_embedded.products` and `page`). */
  datatype ProductPage = ProductPage(products: seq<CatalogProduct>, page: PageInfo)

  datatype ProductState = ProductState(
    products: seq<CatalogProduct>,
    categories: seq<ProductCategory>,
    currentCategoryId: Option<int>,
    searchKeyword: Option<string>,
    pagination: Pagination,
    loading: bool,
    categoriesLoading: bool,
    error: Option<string>)

  const InitialProductState: ProductState :=
    ProductState([], [], None, None, DefaultPagination, false, false, None)

  /** The product actions. `page` in the load and search requests is
      zero-based; reloadDataOnLanguageChange, loadProductDetails and its
      outcomes, and clearCurrentProduct have no reducer handler. */
  datatype Action =
    | LoadCategories(language: string)
    | LoadCategoriesSuccess(categories: seq<ProductCategory>)
    | LoadCategoriesFailure(error: string)
    | LoadProductsByCategory(categoryId: int, page: int, size: int, language: string)
    | LoadProductsByCategorySuccess(response: ProductPage)
    | LoadProductsByCategoryFailure(error: string)
    | SearchProducts(keyword: string, page: int, size: int, language: string)
    | SearchProductsSuccess(response: ProductPage)
    | SearchProductsFailure(error: string)
    | SetCurrentCategory(categoryId: int)
    | SetPagination(pageNumber: int, pageSize: int)
    | ClearProducts
    | ReloadDataOnLanguageChange(language: string, reloadCategoryId: Option<int>,
                                 reloadKeyword: Option<string>, reloadPage: Option<int>, reloadSize: Option<int>)
    | LoadProductDetails(productId: int, language: string)
    | LoadProductDetailsSuccess(product: CatalogProduct)
    | LoadProductDetailsFailure(error: string)
    | ClearCurrentProduct

  /** The pagination a paged response describes, in one-based terms. */
  function PaginationOf(page: PageInfo): (p: Pagination)
    ensures p.pageNumber - 1 == page.number
    ensures p.pageSize == page.size && p.totalElements == page.totalElements && p.totalPages == page.totalPages
  {
    Pagination(page.number + 1, page.size, page.totalElements, page.totalPages)
  }

  /** productReducer. */
  function Reduce(s: ProductState, a: Action): ProductState
  {
    match a
    case LoadCategories(_) => s.(categoriesLoading := true, error := None)
    case LoadCategoriesSuccess(categories) => s.(categories := categories, categoriesLoading := false, error := None)
    case LoadCategoriesFailure(e) => s.(categoriesLoading := false, error := Some(e))
    case LoadProductsByCategory(_, _, _, _) => s.(loading := true, error := None)
    case LoadProductsByCategorySuccess(response) =>
      s.(products := response.products, pagination := PaginationOf(response.page), loading := false, error := None)
    case LoadProductsByCategoryFailure(e) => s.(loading := false, error := Some(e))
    case SearchProducts(keyword, _, _, _) => s.(searchKeyword := Some(keyword), loading := true, error := None)
    case SearchProductsSuccess(response) =>
      s.(products := response.products, pagination := PaginationOf(response.page), loading := false, error := None)
    case SearchProductsFailure(e) => s.(loading := false, error := Some(e))
    case SetCurrentCategory(id) => s.(currentCategoryId := Some(id))
    case SetPagination(pageNumber, pageSize) =>
      s.(pagination := s.pagination.(pageNumber := pageNumber, pageSize := pageSize))
    case ClearProducts => s.(products := [], pagination := DefaultPagination)
    case ReloadDataOnLanguageChange(_, _, _, _, _) => s
    case LoadProductDetails(_, _) => s
    case LoadProductDetailsSuccess(_) => s
    case LoadProductDetailsFailure(_) => s
    case ClearCurrentProduct => s
  }

  function ReduceAll(s: ProductState, actions: seq<Action>): ProductState
    decreases |actions|
  {
    if actions == [] then s else ReduceAll(Reduce(s, actions[0]), actions[1..])
  }

  /** Both success handlers store the products and the one-based page. */
  lemma SuccessStoresPage(s: ProductState, response: ProductPage)
    ensures var r := Reduce(s, LoadProductsByCategorySuccess(response));
            r == Reduce(s, SearchProductsSuccess(response))
            && r.products == response.products
            && r.pagination.pageNumber == response.page.number + 1
            && r.pagination.pageSize == response.page.size
            && r.pagination.totalElements == response.page.totalElements
            && r.pagination.totalPages == response.page.totalPages
            && !r.loading && r.error == None
            && r.searchKeyword == s.searchKeyword && r.currentCategoryId == s.currentCategoryId
  {
  }

  /** setPagination changes only the page number and size. */
  lemma SetPaginationKeepsTotals(s: ProductState, pageNumber: int, pageSize: int)
    ensures var r := Reduce(s, SetPagination(pageNumber, pageSize));
            r.pagination == Pagination(pageNumber, pageSize, s.pagination.totalElements, s.pagination.totalPages)
            && r.(pagination := s.pagination) == s
  {
  }

  /** clearProducts empties the list and resets the pagination, keeping the
      categories, the current category and the keyword. */
  lemma ClearKeepsContext(s: ProductState)
    ensures var r := Reduce(s, ClearProducts);
            r.products == [] && r.pagination == Pagination(1, 5, 0, 0)
            && r.categories == s.categories && r.currentCategoryId == s.currentCategoryId
            && r.searchKeyword == s.searchKeyword
  {
  }

  /** searchProducts records the keyword; loadProductsByCategory leaves it;
      both start loading and clear the error. */
  lemma RequestsStartLoading(s: ProductState, a: Action)
    requires a.SearchProducts? || a.LoadProductsByCategory?
    ensures var r := Reduce(s, a);
            r.loading && r.error == None
            && r.searchKeyword == (if a.SearchProducts? then Some(a.keyword) else s.searchKeyword)
  {
  }

  /** The category handlers drive `categoriesLoading` and never `loading`. */
  lemma CategoryHandlersKeepLoading(s: ProductState, a: Action)
    requires a.LoadCategories? || a.LoadCategoriesSuccess? || a.LoadCategoriesFailure?
    ensures Reduce(s, a).loading == s.loading
    ensures Reduce(s, a).categoriesLoading == a.LoadCategories?
  {
  }

  /** Each failure clears its own loading flag and stores the error. */
  lemma FailuresStopLoading(s: ProductState, a: Action)
    requires a.LoadCategoriesFailure? || a.LoadProductsByCategoryFailure? || a.SearchProductsFailure?
    ensures var r := Reduce(s, a);
            r.error == Some(a.error)
            && (a.LoadCategoriesFailure? ==> !r.categoriesLoading && r.loading == s.loading)
            && (!a.LoadCategoriesFailure? ==> !r.loading && r.categoriesLoading == s.categoriesLoading)
  {
  }

  /** setCurrentCategory changes only the current category. */
  lemma SetCurrentCategoryOnly(s: ProductState, id: int)
    ensures Reduce(s, SetCurrentCategory(id)) == s.(currentCategoryId := Some(id))
  {
  }

  /** The product-detail actions and clearCurrentProduct have no handler:
      the slice holds no detail fields, and each returns the state as it was. */
  lemma DetailActionsUnhandled(s: ProductState, productId: int, language: string,
                               product: CatalogProduct, error: string)
    ensures Reduce(s, LoadProductDetails(productId, language)) == s
    ensures Reduce(s, LoadProductDetailsSuccess(product)) == s
    ensures Reduce(s, LoadProductDetailsFailure(error)) == s
    ensures Reduce(s, ClearCurrentProduct) == s
  {
  }

  /** The keyword of the last searchProducts in a run of actions, if any. */
  function LastKeyword(actions: seq<Action>, before: Option<string>): Option<string>
    decreases |actions|
  {
    if actions == [] then before
    else LastKeyword(actions[1..], if actions[0].SearchProducts? then Some(actions[0].keyword) else before)
  }

  /** No handler clears the keyword: after any run of actions it is the
      keyword of the last search, or the one held before when there was none. */
  lemma {:induction false} KeywordOnlyFromSearch(s: ProductState, actions: seq<Action>)
    ensures ReduceAll(s, actions).searchKeyword == LastKeyword(actions, s.searchKeyword)
    ensures s.searchKeyword.Some? ==> ReduceAll(s, actions).searchKeyword.Some?
    decreases |actions|
  {
    if actions != [] {
      KeywordOnlyFromSearch(Reduce(s, actions[0]), actions[1..]);
    }
  }
}
