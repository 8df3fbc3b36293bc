/** Views of the product slice, each tolerating a missing slice. */
module ProductSelectors {
  import opened Js
  import opened ProductReducer

  /** The `product` feature slice, which may be absent from the store. */
  type ProductSlice = Option<ProductState>

  function SelectProducts(slice: ProductSlice): seq<CatalogProduct>
  {
    if slice.Some? then slice.value.products else []
  }

  function SelectCategories(slice: ProductSlice): seq<ProductCategory>
  {
    if slice.Some? then slice.value.categories else []
  }

  /** `state?.currentCategoryId`: passed through (absent slice reads as nothing). */
  function SelectCurrentCategoryId(slice: ProductSlice): Option<int>
  {
    if slice.Some? then slice.value.currentCategoryId else None
  }

  /** `state?.searchKeyword`: passed through, the empty string included. */
  function SelectSearchKeyword(slice: ProductSlice): Option<string>
  {
    if slice.Some? then slice.value.searchKeyword else None
  }

  /** `state?.pagination || (1, 5, 0, 0)`: a stored pagination object is
      always truthy, so the default applies only to a missing slice. */
  function SelectPagination(slice: ProductSlice): Pagination
  {
    if slice.Some? then slice.value.pagination else DefaultPagination
  }

  function SelectProductsLoading(slice: ProductSlice): bool
  {
    slice.Some? && slice.value.loading
  }

  function SelectCategoriesLoading(slice: ProductSlice): bool
  {
    slice.Some? && slice.value.categoriesLoading
  }

  /** `state?.error || null`. */
  function SelectProductsError(slice: ProductSlice): (r: Option<string>)
    ensures r.Some? ==> r.value != ""
    ensures slice.Some? && Truthy(slice.value.error) ==> r == slice.value.error
    ensures slice.None? ==> r == None
  {
    if slice.Some? then OrNull(slice.value.error) else None
  }

  /** `products.find(product => product.id === id)`. */
  function SelectProductById(slice: ProductSlice, id: int): (r: Option<CatalogProduct>)
    ensures var ps := SelectProducts(slice);
            && (r.None? <==> forall k :: 0 <= k < |ps| ==> ps[k].id != id)
            && (r.Some? ==> exists k :: 0 <= k < |ps| && ps[k] == r.value && r.value.id == id
                                       && forall j :: 0 <= j < k ==> ps[j].id != id)
  {
    FindFirst(SelectProducts(slice), (p: CatalogProduct) => p.id, id)
  }

  /** `categories.find(category => category.id === id)`. */
  function SelectCategoryById(slice: ProductSlice, id: int): (r: Option<ProductCategory>)
    ensures var cs := SelectCategories(slice);
            && (r.None? <==> forall k :: 0 <= k < |cs| ==> cs[k].id != id)
            && (r.Some? ==> exists k :: 0 <= k < |cs| && cs[k] == r.value && r.value.id == id
                                       && forall j :: 0 <= j < k ==> cs[j].id != id)
  {
    FindFirst(SelectCategories(slice), (c: ProductCategory) => c.id, id)
  }

  /** selectCurrentProduct, selectProductDetailsLoading and
      selectProductDetailsError read `currentProduct`,
      `productDetailsLoading` and `productDetailsError`, which the product
      slice never holds; they always yield their fallbacks. */
  function SelectCurrentProduct(slice: ProductSlice): Option<CatalogProduct>
  {
    None
  }

  function SelectProductDetailsLoading(slice: ProductSlice): bool
  {
    false
  }

  function SelectProductDetailsError(slice: ProductSlice): Option<string>
  {
    None
  }

  /** Whatever the slice holds, the three detail views read their fallbacks. */
  lemma DetailsAlwaysFallBack(slice: ProductSlice)
    ensures SelectCurrentProduct(slice) == None
    ensures !SelectProductDetailsLoading(slice) && SelectProductDetailsError(slice) == None
  {
  }

  /** With no product slice every view reads its default. */
  lemma AbsentSliceDefaults()
    ensures SelectProducts(None) == [] && SelectCategories(None) == []
    ensures SelectPagination(None) == Pagination(1, 5, 0, 0)
    ensures !SelectProductsLoading(None) && !SelectCategoriesLoading(None) && SelectProductsError(None) == None
  {
  }

  /** After a successful page load, the pagination view shows the one-based
      page and a product of the page can be found by its id. */
  lemma SuccessVisible(s: ProductState, response: ProductPage, k: nat)
    requires k < |response.products|
    ensures var r := Some(Reduce(s, SearchProductsSuccess(response)));
            SelectPagination(r).pageNumber == response.page.number + 1
            && SelectProductById(r, response.products[k].id).Some?
  {
  }
}
