/** The two product effects that decide what to reload when the language
    changes. The request effects (categories, category page, search) only
    call the product service and map its outcome to the success or failure
    action. */
module ProductEffects {
  import opened Js
  import opened ProductReducer

  /** A category id is truthy when present and not 0. */
  predicate TruthyId(id: Option<int>)
  {
    id.Some? && id.value != 0
  }

  /** reloadDataOnLanguageChange$: always reload the categories; then search
      again when there is a keyword, else reload the category page when there
      is a category. Missing page and size default to 0 and 5. */
  function ReloadActions(language: string, categoryId: Option<int>, keyword: Option<string>,
                         page: Option<int>, size: Option<int>): (r: seq<Action>)
    ensures 1 <= |r| <= 2
    ensures r[0] == LoadCategories(language)
    ensures var p := if page.Some? then page.value else 0;
            var z := if size.Some? then size.value else 5;
            && (Truthy(keyword) ==> r == [LoadCategories(language), SearchProducts(keyword.value, p, z, language)])
            && (!Truthy(keyword) && TruthyId(categoryId) ==>
                  r == [LoadCategories(language), LoadProductsByCategory(categoryId.value, p, z, language)])
            && (!Truthy(keyword) && !TruthyId(categoryId) ==> r == [LoadCategories(language)])
  {
    var p := if page.Some? then page.value else 0;
    var z := if size.Some? then size.value else 5;
    var first := [LoadCategories(language)];
    if Truthy(keyword) then first + [SearchProducts(keyword.value, p, z, language)]
    else if TruthyId(categoryId) then first + [LoadProductsByCategory(categoryId.value, p, z, language)]
    else first
  }

  /** The reload effect applied to the action that carries its arguments:
      the categories are always reloaded; a product request follows exactly
      when the action carries a truthy keyword or category, and it asks for
      the carried page and size, or their defaults 0 and 5 when absent. */
  function OnReload(a: Action): (r: seq<Action>)
    requires a.ReloadDataOnLanguageChange?
    ensures 1 <= |r| <= 2 && r[0] == LoadCategories(a.language)
    ensures |r| == 2 <==> Truthy(a.reloadKeyword) || TruthyId(a.reloadCategoryId)
    ensures |r| == 2 ==> (r[1].SearchProducts? <==> Truthy(a.reloadKeyword))
                         && (r[1].SearchProducts? || r[1].LoadProductsByCategory?)
    ensures |r| == 2 ==> && r[1].page == (if a.reloadPage.Some? then a.reloadPage.value else 0)
                         && r[1].size == (if a.reloadSize.Some? then a.reloadSize.value else 5)
                         && r[1].language == a.language
  {
    ReloadActions(a.language, a.reloadCategoryId, a.reloadKeyword, a.reloadPage, a.reloadSize)
  }

  /** languageChanged$: on setLanguage or languageLoaded (both carry the
      language), ask for a reload with the stored category and keyword
      (falsy ones dropped) and the stored page turned zero-based (0 when the
      page number is 0) and size (5 when 0). */
  function OnLanguageChanged(language: string, categoryId: Option<int>, keyword: Option<string>,
                             pagination: Option<Pagination>): (r: Action)
    ensures r.ReloadDataOnLanguageChange? && r.language == language
    ensures r.reloadCategoryId == (if TruthyId(categoryId) then categoryId else None)
    ensures r.reloadKeyword == (if Truthy(keyword) then keyword else None)
    ensures r.reloadPage.Some? && r.reloadSize.Some?
    ensures pagination.Some? && pagination.value.pageNumber != 0 ==>
              r.reloadPage.value == pagination.value.pageNumber - 1
    ensures pagination.None? || pagination.value.pageNumber == 0 ==> r.reloadPage.value == 0
    ensures r.reloadSize.value
         == (if pagination.Some? && pagination.value.pageSize != 0 then pagination.value.pageSize else 5)
  {
    var page := if pagination.Some? && pagination.value.pageNumber != 0 then pagination.value.pageNumber - 1 else 0;
    var size := if pagination.Some? && pagination.value.pageSize != 0 then pagination.value.pageSize else 5;
    ReloadDataOnLanguageChange(language, if TruthyId(categoryId) then categoryId else None,
                               OrNull(keyword), Some(page), Some(size))
  }

  /** A language change re-requests the page the user was on: when the
      server echoes the requested zero-based page, the stored one-based page
      number comes back unchanged. */
  lemma LanguageReloadKeepsPage(s: ProductState, language: string, response: ProductPage)
    requires s.pagination.pageNumber != 0
    requires Truthy(s.searchKeyword) || TruthyId(s.currentCategoryId)
    ensures var reload := OnLanguageChanged(language, s.currentCategoryId, s.searchKeyword, Some(s.pagination));
            var actions := OnReload(reload);
            && |actions| == 2
            && (actions[1].SearchProducts? || actions[1].LoadProductsByCategory?)
            && (response.page.number == actions[1].page ==>
                  Reduce(s, SearchProductsSuccess(response)).pagination.pageNumber == s.pagination.pageNumber)
  {
  }
}
