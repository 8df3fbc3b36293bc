# Marketivo storefront state layer, in Dafny

This project models the client-side state layer of the Marketivo Angular/ngrx
storefront and proves properties of it:

- the **cart**: lines with per-language names, the `cartReducer` and its
  totals loop, the selectors, the cart service, and the decisions of the cart
  effects (load, persist, language change, missing-name fetch plan);
- the **checkout**, **auth**, **product**, **order-history** and **language**
  reducers, with their selectors and the decision logic of their effects;
- the **checkout form validators** (field predicates and rule chains) and the
  **fluent-validation service**, which walks dotted property paths and writes
  a validation result onto a form;
- the credit-card **month and year pickers** of the shop form service;
- the two **product list components**, which keep one-based page numbers and
  convert them to and from the zero-based pages of the product service.

Reducers, selectors and effect decisions are pure, so they are functions over
datatypes (`Reduce(state, action)`). An action without an `on(...)` handler
leaves the state unchanged. Code that changes state step by step keeps that
form:

- `computeTotals`, the month and year loops, and the path-building and
  path-walking loops of the validation service are methods with loop
  invariants;
- the two components and the form are classes whose methods update fields.
  Each method's postcondition ties the new fields to a specification function
  of the old ones, and lemmas prove what the source promises about that
  function.

Prices are integer cents. JavaScript truthiness (`a || b` on strings and
numbers, `!!x`, `?.`) is written out in module `Js`, together with `trim`,
`split('.')`, `toString`/`parseInt` on non-negative integers, and
`Math.floor` division.

## Model

| member | source | states |
|---|---|---|
| CartItems.CreateCartItem | src/app/common/models/cart-item.ts:14-24 | quantity 1; the id is the decimal string of the product id and parses back to it; name, image and price are copied; the names map has exactly one entry, the language (default `en-US`) mapped to the product name |
| CartItems.GetNameForLanguage | src/app/common/models/cart-item.ts:27-28 | the stored name for the language when it is non-empty, otherwise the line's name |
| CartItems.AddLocalizedName | src/app/common/models/cart-item.ts:31-38 | the entry for the language is set, so the name read back is the new one; the current name becomes it; every other language entry, the id, image, price and quantity are kept |
| CartItems.AddLocalizedNameIdempotent | src/app/common/models/cart-item.ts:31-38 | adding the same name twice equals adding it once |
| CartItems.CreatedItemName | src/app/common/models/cart-item.ts:14-28 | a created line reads back the product name in its language |
| Js.ParseDecimalRoundTrip | src/app/common/models/cart-item.ts:15 | `parseInt(n.toString(), 10) == n` for every non-negative integer, which the name fetch relies on to recover product ids |
| Js.TrimEmptyIffAllWhitespace | src/app/validators/checkout-form.validator.ts:68-70 | `trim()` leaves nothing exactly when every character is white space |
| Js.JoinSplit | src/app/services/fluent-validation.service.ts:38 | joining the parts of `split('.')` with '.' gives back the path |
| Js.SplitJoin | src/app/services/fluent-validation.service.ts:120 | splitting `parent.key` paths built from '.'-free keys gives back the keys |
| Js.FloorDiv | src/app/components/app-product-list/app-product-list.component.ts:171 | `Math.floor(a / b)`: the q with `b*q <= a < b*(q+1)` (reversed for negative b) |
| Js.FindFirst | src/app/store/product/product.selectors.ts:40-44 | `find` by a key: nothing exactly when no element has the key, otherwise the first element that has it; the product, category and language lookups all use it |
| CartReducer.ComputeTotals | src/app/store/cart/cart.reducer.ts:170-180 | the loop's totals are the sum of quantity times unit price and the sum of quantities over all lines |
| CartReducer.IndexOfId | src/app/store/cart/cart.reducer.ts:43 | `findIndex`: -1 exactly when no line has the id; otherwise the first index whose line has it |
| CartReducer.RemoveId | src/app/store/cart/cart.reducer.ts:77 | the filtered list is no longer than the original and has no line with the id |
| CartReducer.RemoveIdKeepsOthers | src/app/store/cart/cart.reducer.ts:77-102 | a line survives the filter exactly when it was in the cart with another id; distinct ids stay distinct |
| CartReducer.RemoveIdAppend | src/app/store/cart/cart.reducer.ts:77 | the filter of two carts joined is the filter of each, joined: kept lines stay in their original order |
| CartReducer.RemoveIdSnoc | src/app/store/cart/cart.reducer.ts:77 | a line added at the end survives the filter, after every kept earlier line, exactly when its id differs |
| CartReducer.SumsAgree | src/app/store/cart/cart.reducer.ts:133-166 | lists that agree position by position on quantity and price have equal totals |
| CartReducer.SumsAfterUpdate | src/app/store/cart/cart.reducer.ts:49-88 | replacing one line changes each total by the difference of that line's terms |
| CartReducer.InitialValid | src/app/store/cart/cart.state.ts:11-17 | the initial cart has distinct ids and consistent totals |
| CartReducer.AddItemKeepsUniqueIds | src/app/store/cart/cart.reducer.ts:42-61 | addToCart keeps line ids distinct |
| CartReducer.SetQuantityKeepsUniqueIds | src/app/store/cart/cart.reducer.ts:88 | a positive quantity update keeps line ids distinct |
| CartReducer.LanguageKeepsValid | src/app/store/cart/cart.reducer.ts:133-143 | renaming for a language keeps ids distinct and the stored totals correct |
| CartReducer.LocalizedNameKeepsValid | src/app/store/cart/cart.reducer.ts:146-166 | adding a localized name keeps ids distinct and the stored totals correct |
| CartReducer.MigrateKeepsUniqueIds | src/app/store/cart/cart.reducer.ts:18-21 | giving lines default names keeps their ids |
| CartReducer.ReducePreservesValid | src/app/store/cart/cart.reducer.ts:16-166 | every handler keeps "no two lines share an id" and both totals equal to the sums over the lines (loadCartSuccess when the loaded lines have distinct ids) |
| CartReducer.AddExisting | src/app/store/cart/cart.reducer.ts:42-51 | addToCart for an id in the cart raises that line's quantity by exactly 1; the length and every other line are unchanged |
| CartReducer.AddNew | src/app/store/cart/cart.reducer.ts:52-61 | addToCart for a new id appends one line at the end with quantity 1, whatever quantity the item carried, with names defaulting to `{'en-US': name}`; the earlier lines are unchanged |
| CartReducer.AddRaisesQuantity | src/app/store/cart/cart.reducer.ts:42-70 | on a consistent cart, addToCart raises totalQuantity by exactly 1 |
| CartReducer.UpdateNonPositiveIsRemove | src/app/store/cart/cart.reducer.ts:75-111 | updateCartItemQuantity with quantity <= 0 gives the same state as removeFromCart of the id |
| CartReducer.UpdatePositive | src/app/store/cart/cart.reducer.ts:88-97 | a positive update changes only the quantity of the matching lines; order, length and every other field are kept |
| CartReducer.UpdateAt | src/app/store/cart/cart.reducer.ts:88-97 | with distinct ids, updating line i's quantity replaces that one line and recomputes the totals |
| CartReducer.UpdatePositiveTotals | src/app/store/cart/cart.reducer.ts:88-97 | on a consistent cart, a positive update moves totalQuantity by the difference between the new and old quantity |
| CartReducer.ClearKeepsFlags | src/app/store/cart/cart.reducer.ts:114-119 | clearCart empties the lines and zeroes both totals; `loading` and `error` are kept |
| CartReducer.LoadSuccessMigrates | src/app/store/cart/cart.reducer.ts:16-33 | after loadCartSuccess every line has a names map and is otherwise the loaded line; loading is false, the error null, the totals match |
| CartReducer.LanguageRenames | src/app/store/cart/cart.reducer.ts:133-143 | each name becomes the stored name for the language when it is non-empty, else is kept; the other fields and the totals are unchanged |
| CartReducer.LocalizedNameOnMatching | src/app/store/cart/cart.reducer.ts:146-166 | matching lines get the entry and the name, keep their other languages and quantity; other lines and the totals are unchanged |
| CartSelectors.SelectCartError | src/app/store/cart/cart.selectors.ts:26-29 | `state?.error \|\| null`: never an empty string; a non-empty stored error passes through; no slice gives null |
| CartSelectors.SelectCartItemById | src/app/store/cart/cart.selectors.ts:36-39 | a line exactly when one has the id, and then the first such line |
| CartSelectors.AbsentSliceDefaults | src/app/store/cart/cart.selectors.ts:6-34 | with no cart slice: no items, both totals 0, not loading, no error, count 0 |
| CartSelectors.CountIsLines | src/app/store/cart/cart.selectors.ts:31-34 | the count is the number of lines; on a cart with consistent totals and at least one unit per line it is at most the total quantity, and equal to it exactly when every line holds one unit |
| CartSelectors.AddThenFind | src/app/store/cart/cart.selectors.ts:36-39 | after addToCart(item), looking up item's id finds a line |
| CartService.Dispatch | src/app/services/cart.service.ts:42-90 | each call dispatches one action carrying its arguments; increment asks for quantity + 1; decrement removes the line when quantity - 1 <= 0, else asks for quantity - 1 |
| CartService.DecrementLastUnitRemoves | src/app/services/cart.service.ts:62-70 | decrementing a line of quantity 1 removes it; the selector no longer finds it |
| CartService.DecrementLowersByOne | src/app/services/cart.service.ts:62-70 | decrementing a line of quantity q > 1 leaves q - 1 and lowers totalQuantity by 1 |
| CartService.IncrementThenDecrementRestores | src/app/services/cart.service.ts:57-70 | increment followed by decrement of the same line gives back the original cart |
| CartEffects.LoadCartOutcome | src/app/store/cart/cart.effects.ts:19-37 | nothing stored (missing key or empty text) loads an empty cart; stored lines load as they are; an exception gives loadCartFailure with its fixed message |
| CartEffects.PersistCartWrite | src/app/store/cart/cart.effects.ts:40-60 | after addToCart, updateCartItemQuantity, removeFromCart, clearCart or persistCart the reduced lines are written; a failing write or any other action leaves storage as it was |
| CartEffects.PersistThenLoad | src/app/store/cart/cart.effects.ts:19-60 | a cart written after a persisting action and loaded again has the same lines (given default names) and totals, not loading, no error |
| CartEffects.MissingNames | src/app/store/cart/cart.effects.ts:75-98 | a line is kept exactly when it is in the cart without a non-empty name for the language |
| CartEffects.OnLanguageChange | src/app/store/cart/cart.effects.ts:63-88 | an empty cart emits nothing; otherwise exactly one action: fetchMissingProductNames iff some line lacks a non-empty name, updateCartItemsLanguage iff every line has one |
| CartEffects.FetchedName | src/app/store/cart/cart.effects.ts:105-110 | the catalogue name for `parseInt(id)` when the request succeeds, else the line's current name |
| CartEffects.AddNameActions | src/app/store/cart/cart.effects.ts:115-117 | one addLocalizedNameToCartItem per missing line, in cart order, carrying its fetched name |
| CartEffects.FetchPlan | src/app/store/cart/cart.effects.ts:95-122 | k add-name actions for the k missing lines, then exactly one updateCartItemsLanguage |
| CartEffects.NothingMissingPlanIsRename | src/app/store/cart/cart.effects.ts:100-102 | with no line missing a name, the plan is only the rename the language effect would emit directly |
| CartEffects.AddNamesLine | src/app/store/cart/cart.effects.ts:115-121 | after the add-name actions, each line is renamed by the one action carrying its id, if any, else unchanged |
| CartEffects.MissingLineNamed | src/app/store/cart/cart.effects.ts:96-121 | a line that had a name is untouched by the add-name actions; a line that lacked one receives its fetched name |
| CartEffects.FetchPlanNamesEveryLine | src/app/store/cart/cart.effects.ts:95-122 | run through the reducer, the plan leaves every line with an entry for the language and its stored or fetched name; ids, quantities, prices, totals and flags are unchanged |
| CheckoutReducer.StatesGoToTheirAddress | src/app/store/checkout/checkout.reducer.ts:32-36 | loadStatesSuccess writes only the list of the named address type; the other list is unchanged |
| CheckoutReducer.ResetIsInitial | src/app/store/checkout/checkout.reducer.ts:90-92 | resetCheckout gives exactly the initial state, whatever the prior state |
| CheckoutReducer.PaymentStarts | src/app/store/checkout/checkout.reducer.ts:51-75 | createPaymentIntent and placeOrder set processing and clear the payment error, nothing else |
| CheckoutReducer.PaymentEnds | src/app/store/checkout/checkout.reducer.ts:57-87 | every payment-intent or order outcome ends processing; failures store their error, successes clear it |
| CheckoutReducer.ClientSecretOwner | src/app/store/checkout/checkout.reducer.ts:57-62 | only createPaymentIntentSuccess (and a reset) changes the client secret, to the one it carries |
| CheckoutReducer.ClearsOneField | src/app/store/checkout/checkout.reducer.ts:101-140 | each of the three clear actions nulls its one field and changes nothing else |
| CheckoutReducer.StripeOutcome | src/app/store/checkout/checkout.reducer.ts:118-130 | Stripe success: initialised, no error, not loading; failure: not initialised, the error, not loading |
| CheckoutReducer.MonthsHandlers | src/app/store/checkout/checkout.reducer.ts:45-48 | loadCreditCardMonths leaves the state unchanged; its success replaces only the months |
| CheckoutReducer.YearsUntouched | src/app/store/checkout/checkout.reducer.ts:5-141 | no action but a reset changes the year list |
| AuthReducer.LogoutSuccessResets | src/app/store/auth/auth.reducer.ts:91-94 | after logoutSuccess: not authenticated, no user, both tokens null, no error, not loading, not expired |
| AuthReducer.SetTokensKeepsIdToken | src/app/store/auth/auth.reducer.ts:38-44 | setTokens keeps the previous idToken unless a non-empty one is supplied; it clears expiry and error and keeps the user |
| AuthReducer.LoginFailureSignsOut | src/app/store/auth/auth.reducer.ts:75-83 | loginFailure leaves no user, no tokens, not authenticated, the error stored |
| AuthReducer.LoginSuccessSignsIn | src/app/store/auth/auth.reducer.ts:64-73 | loginSuccess signs the user in with the access token, the idToken (null when absent or empty) and a fresh expiry flag |
| AuthReducer.RefreshOutcomes | src/app/store/auth/auth.reducer.ts:108-121 | refresh success replaces only the access token (idToken kept) and clears expiry; failure marks expiry and stores the error |
| AuthReducer.ClearUserAndTokens | src/app/store/auth/auth.reducer.ts:32-51 | clearUser drops user and authentication but keeps the tokens; clearTokens drops the tokens but keeps the user |
| AuthReducer.ErrorHandlers | src/app/store/auth/auth.reducer.ts:123-132 | setError stores the error and stops loading; clearError changes only the error |
| AuthReducer.AuthenticationStatusOnly | src/app/store/auth/auth.reducer.ts:19-23 | setAuthenticationStatus changes only the flag and stops loading |
| AuthReducer.ExpiryCheckOnlyAsks | src/app/store/auth/auth.actions.ts:28-30 | checkTokenExpiration has no handler and leaves the state unchanged; only setTokenExpired sets the expiry flag |
| AuthSelectors.SelectUserEmail | src/app/store/auth/auth.selectors.ts:17 | an email exactly when there is a user with a non-empty email, and then that email |
| AuthSelectors.SelectUserName | src/app/store/auth/auth.selectors.ts:19-22 | the first non-empty of name, nickname and email, else null |
| AuthSelectors.SelectUserPicture | src/app/store/auth/auth.selectors.ts:24 | a picture exactly when there is a user with a non-empty picture, and then that picture |
| AuthSelectors.SelectIsEmailVerified | src/app/store/auth/auth.selectors.ts:26 | true exactly when the user's `email_verified` is true |
| AuthSelectors.SelectHasValidToken | src/app/store/auth/auth.selectors.ts:35-39 | true exactly when the access token is present, non-empty and not expired |
| AuthSelectors.ProfileAgreesWithSelectors | src/app/store/auth/auth.selectors.ts:55-62 | the profile's display name, email, picture and verified flag equal the individual selectors |
| AuthSelectors.NothingAfterLogout | src/app/store/auth/auth.selectors.ts:19-39 | after logoutSuccess there is no valid token and no user name |
| AuthSelectors.ValidAfterLogin | src/app/store/auth/auth.selectors.ts:35-39 | after a login with a non-empty token the token is valid, and it stops being valid once marked expired |
| ProductReducer.PaginationOf | src/app/store/product/product.reducer.ts:39-44 | the one-based page number is the response's zero-based page plus 1; size and totals are copied |
| ProductReducer.SuccessStoresPage | src/app/store/product/product.reducer.ts:35-73 | both success handlers store the products, page number + 1, size and totals, stop loading and clear the error |
| ProductReducer.SetPaginationKeepsTotals | src/app/store/product/product.reducer.ts:88-95 | setPagination changes only page number and size |
| ProductReducer.ClearKeepsContext | src/app/store/product/product.reducer.ts:98-107 | clearProducts empties the products and resets pagination to (1, 5, 0, 0); categories, category and keyword are kept |
| ProductReducer.RequestsStartLoading | src/app/store/product/product.reducer.ts:29-60 | searchProducts records the keyword and loadProductsByCategory keeps it; both start loading and clear the error |
| ProductReducer.CategoryHandlersKeepLoading | src/app/store/product/product.reducer.ts:9-26 | the category handlers set `categoriesLoading` (true only on the request) and never touch `loading` |
| ProductReducer.FailuresStopLoading | src/app/store/product/product.reducer.ts:22-79 | each failure clears its own loading flag and stores its error |
| ProductReducer.SetCurrentCategoryOnly | src/app/store/product/product.reducer.ts:82-85 | setCurrentCategory changes only the current category |
| ProductReducer.DetailActionsUnhandled | src/app/store/product/product.actions.ts:58-72 | loadProductDetails, its success and failure, and clearCurrentProduct leave the product slice unchanged |
| ProductReducer.KeywordOnlyFromSearch | src/app/store/product/product.reducer.ts:5-108 | after any run of actions the keyword is that of the last search (or the earlier one): once set it is never cleared |
| ProductSelectors.SelectProductsError | src/app/store/product/product.selectors.ts:38 | never an empty string; a non-empty stored error passes through; no slice gives null |
| ProductSelectors.SelectProductById | src/app/store/product/product.selectors.ts:40-41 | nothing exactly when no product has the id; otherwise the first product with it |
| ProductSelectors.SelectCategoryById | src/app/store/product/product.selectors.ts:43-44 | nothing exactly when no category has the id; otherwise the first category with it |
| ProductSelectors.DetailsAlwaysFallBack | src/app/store/product/product.selectors.ts:46-56 | the three detail selectors read fields the slice never holds, so they always give their fallbacks |
| ProductSelectors.AbsentSliceDefaults | src/app/store/product/product.selectors.ts:6-38 | with no slice: no products or categories, pagination (1, 5, 0, 0), not loading, no error |
| ProductSelectors.SuccessVisible | src/app/store/product/product.selectors.ts:17-41 | after a successful load the pagination shows the one-based page and each product of the page is found by id |
| ProductEffects.ReloadActions | src/app/store/product/product.effects.ts:57-72 | one or two actions: loadCategories first; then a search for a non-empty keyword, else a category load for a non-zero category, else nothing; page and size default to 0 and 5 |
| ProductEffects.OnReload | src/app/store/product/product.effects.ts:54-75 | the categories are always reloaded first; a second action follows exactly when the action carries a truthy keyword or category, a search exactly when the keyword is truthy, asking for the carried page and size or their defaults 0 and 5 |
| ProductEffects.OnLanguageChanged | src/app/store/product/product.effects.ts:78-98 | the reload keeps only a non-zero category and a non-empty keyword, sends page number - 1 (0 when the number is 0) and the size (5 when 0) |
| ProductEffects.LanguageReloadKeepsPage | src/app/store/product/product.effects.ts:89-95 | with a keyword or category, the reload re-requests the stored page; an answer for that page leaves the page number unchanged |
| OrderHistoryReducer.LoadKeepsOrders | src/app/store/order-history/order-history.reducer.ts:9-13 | loadOrderHistory starts loading, clears the error, keeps the orders |
| OrderHistoryReducer.SuccessStoresOrders | src/app/store/order-history/order-history.reducer.ts:15-20 | success stores `_embedded.orders`, or no orders when absent, and clears loading and error |
| OrderHistoryReducer.FailureKeepsOrders | src/app/store/order-history/order-history.reducer.ts:22-26 | failure stops loading, stores the error, keeps the orders |
| OrderHistoryReducer.ClearAndSetters | src/app/store/order-history/order-history.reducer.ts:29-45 | clearOrderHistory empties orders and error but keeps loading; the two setters each change one field |
| OrderHistoryEffects.ErrorMessage | src/app/store/order-history/order-history.effects.ts:20-39 | 401, 403 and 404 map to their fixed texts; another status gives the message when non-empty, else the default; no status but a message gives the message; anything else the default |
| OrderHistoryEffects.LoadFailure | src/app/store/order-history/order-history.effects.ts:20-41 | a failed load emits loadOrderHistoryFailure; its message is empty exactly when the thrown object has no status and an empty `message` |
| OrderHistoryEffects.StatusBeatsMessage | src/app/store/order-history/order-history.effects.ts:26-34 | a 401 carrying a message still reads "Authentication failed"; a 500 reads its message, or the default when it is empty |
| OrderHistoryEffects.FailureRecorded | src/app/store/order-history/order-history.effects.ts:20-41 | the reducer records the classified message, stops loading and keeps the orders; a status always gives a non-empty message |
| OrderHistoryEffects.OnAuthAction | src/app/store/order-history/order-history.effects.ts:49-53 | logoutSuccess and clearUser each map to exactly one clearOrderHistory; other auth actions to nothing |
| OrderHistoryEffects.SignOutClearsOrders | src/app/store/order-history/order-history.effects.ts:49-53 | signing out leaves no orders |
| LanguageReducer.Handlers | src/app/store/language/language.reducer.ts:7-19 | setLanguage changes only the language; loadLanguageFromStorage only sets loading; languageLoaded sets the language and stops loading |
| LanguageReducer.SetLanguageIdempotent | src/app/store/language/language.reducer.ts:7-10 | setLanguage twice equals once |
| LanguageReducer.AvailableLanguagesFixed | src/app/store/language/language.reducer.ts:5-20 | no run of actions changes the available languages |
| LanguageSelectors.SelectCurrentLanguageDetails | src/app/store/language/language.selectors.ts:16-21 | the details are an offered language with the current code, or nothing exactly when none has it |
| LanguageSelectors.InitialDetails | src/app/store/language/language.state.ts:13-28 | in the initial state the details are English, `en-US`, flag `us` |
| LanguageSelectors.UnknownCodeNoDetails | src/app/store/language/language.selectors.ts:16-21 | after choosing a code that is not offered there are no details |
| LanguageSelectors.OfferedCodeDetails | src/app/store/language/language.selectors.ts:16-21 | choosing any offered code shows an entry with that code: the first offered with it, which is the chosen entry when no earlier one shares the code |
| CheckoutValidator.NotOnlyWhitespace | src/app/validators/checkout-form.validator.ts:68-70 | true exactly when the value is not all white space (the empty string included) |
| CheckoutValidator.IsValidSelection | src/app/validators/checkout-form.validator.ts:114-124 | false exactly for null, undefined, '' and an object with no keys |
| CheckoutValidator.FirstFailureSpec | src/app/validators/checkout-form.validator.ts:43-107 | a chain passes iff every check holds; otherwise it reports the message of a failing check that all earlier checks passed |
| CheckoutValidator.ValidateRecordKeys | src/app/validators/checkout-form.validator.ts:39-125 | a record's errors are keyed only by its rules' fields |
| CheckoutValidator.ValidateRecordFields | src/app/validators/checkout-form.validator.ts:39-125 | a field is reported iff its chain fails, with the first failing check's message |
| CheckoutValidator.EmptyRecordIff | src/app/validators/checkout-form.validator.ts:39-125 | a record has no errors iff every field's chain passes |
| CheckoutValidator.TextChecks | src/app/validators/checkout-form.validator.ts:43-107 | the text-field chain is notEmpty, minLength(2), notOnlyWhitespace in that order |
| CheckoutValidator.RuleFieldsDistinct | src/app/validators/checkout-form.validator.ts:39-108 | no validator registers two rules for one field |
| CheckoutValidator.TwoSpacesRejected | src/app/validators/checkout-form.validator.ts:68-70 | two spaces have length 2 and are still rejected |
| CheckoutValidator.TextFieldOrder | src/app/validators/checkout-form.validator.ts:43-57 | an empty value reports "required" first; a value passing notEmpty and minLength that is all white space reports the whitespace message |
| CheckoutValidator.SelectionFields | src/app/validators/checkout-form.validator.ts:93-99 | state and country are reported exactly when isValidSelection fails, with their messages |
| CheckoutValidator.SingleCheckField | src/app/validators/checkout-form.validator.ts:93-99 | a one-check field is reported iff that check fails, with its message |
| CheckoutValidator.ValidateCheckoutForm | src/app/validators/checkout-form.validator.ts:127-140 | each section appears in the result iff its own validator reports errors, and then holds those errors |
| CheckoutValidator.Compose | src/app/validators/checkout-form.validator.ts:131-138 | the three nested results under their keys, each only when non-empty |
| CheckoutValidator.NestIfAny | src/app/validators/checkout-form.validator.ts:131-138 | a nested result is added under its key exactly when it has a key; other keys are kept |
| CheckoutValidator.SameAddressSameErrors | src/app/validators/checkout-form.validator.ts:134-138 | identical shipping and billing data get identical errors |
| CheckoutValidator.EmptyFormIff | src/app/validators/checkout-form.validator.ts:127-140 | the form has no errors iff none of its three records has |
| CheckoutValidator.FormValidIff | src/app/validators/checkout-form.validator.ts:39-140 | the form passes iff every field of the customer and both addresses passes its whole chain |
| FluentValidation.FluentError | src/app/services/fluent-validation.service.ts:68 | `{fluentValidation: message}` has that one key |
| FluentValidation.Nest | src/app/services/fluent-validation.service.ts:37-50 | a record whose only key is the first path segment |
| FluentValidation.ErrorAt | src/app/services/fluent-validation.service.ts:52-72 | `{fluentValidation: s}` exactly when the path reaches a string s; nothing for a missing segment or a non-string end |
| FluentValidation.CreateMockObjectFromPath | src/app/services/fluent-validation.service.ts:37-50 | the loop builds one nested record per dotted segment with the value at the last |
| FluentValidation.ExtractErrorForProperty | src/app/services/fluent-validation.service.ts:52-72 | the segment-by-segment walk gives the error at the path as specified |
| FluentValidation.WalkNest | src/app/services/fluent-validation.service.ts:37-72 | walking the nested record along its own path reaches the value |
| FluentValidation.MockThenExtract | src/app/services/fluent-validation.service.ts:37-72 | extracting a path from the record built for it with message s gives `{fluentValidation: s}` |
| FluentValidation.ValidatorFn | src/app/services/fluent-validation.service.ts:19-35 | both branches validate the value placed at the path and extract the error there; a result is a single string-valued key |
| FluentValidation.ValidatorFnSeesFieldError | src/app/services/fluent-validation.service.ts:19-35 | a validator whose result on the mock record holds a message at the field's path, whatever it reports for the other fields, makes the control's error `{fluentValidation: message}` |
| FluentValidation.HasFieldError | src/app/services/fluent-validation.service.ts:74-82 | true exactly for a present, invalid control with a fluentValidation entry that is touched or dirty |
| FluentValidation.GetFieldErrorMessage | src/app/services/fluent-validation.service.ts:84-93 | the translation of a truthy entry (both branches of line 89 give it), else '' |
| FluentValidation.WrittenErrorShows | src/app/services/fluent-validation.service.ts:74-137 | a message written by setControlError shows on an invalid, touched or dirty control and reads back as its translation |
| FluentValidation.NoEntryNoMessage | src/app/services/fluent-validation.service.ts:74-93 | without a fluentValidation entry there is no error and the message is '' |
| FluentValidation.ChildPath | src/app/services/fluent-validation.service.ts:120 | `parentPath ? parentPath + '.' + key : key` names the control at the parent's key path extended by the key |
| FluentValidation.FormGroup.constructor | src/app/services/fluent-validation.service.ts:95 | a form holding the given controls and groups |
| FluentValidation.FormGroup.SetControlError | src/app/services/fluent-validation.service.ts:131-137 | the control at the path, if it exists, holds `{fluentValidation: message}`; nothing else changes |
| FluentValidation.FormGroup.SetErrorsRecursively | src/app/services/fluent-validation.service.ts:118-129 | every string in the result is written to the existing control at its key path, nested records are walked, other values are skipped, and no other control changes |
| FluentValidation.FormGroup.ClearErrorsRecursively | src/app/services/fluent-validation.service.ts:139-155 | every control that is not a group has its errors set to null; groups are kept |
| FluentValidation.FormGroup.SetValidationErrorsOnForm | src/app/services/fluent-validation.service.ts:112-116 | after clearing, each leaf holds the message the result has at its path, or null |
| FluentValidation.FormGroup.ValidateAndSetErrors | src/app/services/fluent-validation.service.ts:95-106 | returns true iff the result has a key; the leaves then hold the result's messages; on false every leaf is cleared |
| FluentValidation.FormGroup.ValidateCheckoutForm | src/app/services/fluent-validation.service.ts:108-110 | true iff the checkout validator reports errors, which are then on the form |
| FluentValidation.CheckoutErrorsWellKeyed | src/app/validators/checkout-form.validator.ts:127-140 | the checkout result uses only non-empty, '.'-free keys, so every message reaches its control |
| ShopForm.Consecutive | src/app/services/lu2-shop-form.ts:37-39 | lo, lo+1, ..., hi: length hi - lo + 1 (0 when lo > hi), element i is lo + i |
| ShopForm.GetCreditCardMonths | src/app/services/lu2-shop-form.ts:34-42 | the months s, s+1, ..., 12; 13 - s of them for s <= 12, none after |
| ShopForm.GetCreditCardYears | src/app/services/lu2-shop-form.ts:44-55 | 11 consecutive years from the start year to start + 10 |
| ShopForm.MonthsAscendingInRange | src/app/services/lu2-shop-form.ts:37-39 | the months are strictly ascending and each lies in [s, 12] |
| ShopForm.FullYearOfMonths | src/app/services/lu2-shop-form.ts:34-42 | starting in January gives 1 to 12 |
| ShopForm.NoMonthsAfterDecember | src/app/services/lu2-shop-form.ts:37-39 | a start month after 12 gives no months |
| ShopForm.YearsConsecutive | src/app/services/lu2-shop-form.ts:50-52 | each year is the previous plus one; the last is start + 10 |
| Paging.NumberOr | src/app/components/app-product-list/app-product-list.component.ts:168-169 | `x \|\| d` on a number: x unless missing or 0, else d; never 0 when d is not |
| Paging.PageContaining | src/app/components/app-product-list/app-product-list.component.ts:171 | `floor(first / rows) + 1` is the one-based page whose rows include row `first`; at least 1 for first >= 0 |
| Paging.FirstRowOfPage | src/app/components/product-list/product-list.component.ts:166 | the page containing the first row of page p is p |
| AppProductList.ListRequest | src/app/components/app-product-list/app-product-list.component.ts:141-146 | the category request asks for the zero-based page: page + 1 is the stored page number |
| AppProductList.SearchRequestAsWritten | src/app/components/app-product-list/app-product-list.component.ts:117 | the search request as written sends the one-based page number as the page |
| AppProductList.SearchRequest | src/app/components/app-product-list/app-product-list.component.ts:117 | the corrected search request sends the zero-based page |
| AppProductList.ListAnswerKeepsPage | src/app/components/app-product-list/app-product-list.component.ts:141-146 | a category request answered for its page leaves the pagination where it was, with the new totals |
| AppProductList.SearchAnswerKeepsPage | src/app/components/app-product-list/app-product-list.component.ts:117 | with the corrected request, an answered search leaves the page unchanged |
| AppProductList.SearchAnswerAsWrittenSkipsPage | src/app/components/app-product-list/app-product-list.component.ts:117 | with the request as written, every answered search moves the user one page on |
| AppProductList.FirstSearchLandsOnPageTwo | src/app/components/app-product-list/app-product-list.component.ts:117 | searching "mug" from page 1 of 5 asks for server page 1 and the slice then shows page 2 |
| AppProductList.Restart | src/app/components/app-product-list/app-product-list.component.ts:109-133 | pagination restarted at page 1 of 5 when reset, else kept |
| AppProductList.Dispatched | src/app/components/app-product-list/app-product-list.component.ts:103-146 | dispatching applies the product reducer and logs the action; no component field changes |
| AppProductList.ListByCategoryOutcome | src/app/components/app-product-list/app-product-list.component.ts:122-149 | an absent id means category 1; a new category restarts at (1, 5); both category fields end equal; setCurrentCategory then the zero-based page request are dispatched |
| AppProductList.BlankKeywordLists | src/app/components/app-product-list/app-product-list.component.ts:96-107 | a missing, empty or white-space keyword leaves search mode, forgets the keyword, clears products and lists the category from page 1 of 5 |
| AppProductList.KeywordSearch | src/app/components/app-product-list/app-product-list.component.ts:109-119 | a keyword other than the previous one (compared untrimmed) restarts at (1, 5); a repeated one keeps the page; the keyword is remembered and searched for with the one-based page number as the page |
| AppProductList.ComponentSearchSkipsPage | src/app/components/app-product-list/app-product-list.component.ts:109-119 | the component's keyword search, answered for the page it asked for, leaves the slice one page past the page it was on |
| AppProductList.ListWithoutKeyword | src/app/components/app-product-list/app-product-list.component.ts:85-94 | listing without a keyword leaves search mode and forgets the keyword |
| AppProductList.PageChangeRequestsPage | src/app/components/app-product-list/app-product-list.component.ts:167-176 | a page change first sets the page holding row `first` (0 when missing) with `rows` rows (5 when missing); on the same category it requests that page, zero-based |
| AppProductList.PageSizeRequestsFirstPage | src/app/components/app-product-list/app-product-list.component.ts:151-157 | a page size change sets (1, size) before relisting; on the same category it requests page 0 |
| AppProductList.AppProductListComponent.constructor | src/app/components/app-product-list/app-product-list.component.ts:50-54 | category 1, previous category 1, not searching, no previous keyword |
| AppProductList.AppProductListComponent.Dispatch | src/app/facades/product.facade.ts:63-83 | a facade call dispatches one action to the product slice |
| AppProductList.AppProductListComponent.HandleListProducts | src/app/components/app-product-list/app-product-list.component.ts:122-149 | fields and slice afterwards are ListByCategory of those before |
| AppProductList.AppProductListComponent.HandleSearchProducts | src/app/components/app-product-list/app-product-list.component.ts:96-120 | fields and slice afterwards are SearchByKeyword of those before, the request carrying the one-based page number as line 117 sends it |
| AppProductList.AppProductListComponent.ListProducts | src/app/components/app-product-list/app-product-list.component.ts:85-94 | fields and slice afterwards are Listed of those before |
| AppProductList.AppProductListComponent.UpdatePageSize | src/app/components/app-product-list/app-product-list.component.ts:151-157 | fields and slice afterwards are PageSizeUpdated of those before |
| AppProductList.AppProductListComponent.OnPageChange | src/app/components/app-product-list/app-product-list.component.ts:167-176 | fields and slice afterwards are PageChanged of those before |
| ProductList.Processed | src/app/components/product-list/product-list.component.ts:147-154 | the stored page number is the answer's zero-based page + 1; products, size and total are copied; nothing else changes |
| ProductList.Failed | src/app/components/product-list/product-list.component.ts:103-137 | on an error: no products, the request's message, not loading; nothing else changes |
| ProductList.ListingRequestsShownPage | src/app/components/product-list/product-list.component.ts:76-139 | listing starts loading and clears the message; a new keyword or category (absent id meaning 1) restarts at page 1; the request asks for the shown page - 1 |
| ProductList.AnswerKeepsPage | src/app/components/product-list/product-list.component.ts:98-150 | answering the request just made for its page leaves page number and size unchanged |
| ProductList.PageChangeShowsPage | src/app/components/product-list/product-list.component.ts:162-169 | a page change shows the page holding row `first` with `rows` rows (the current size when missing), unless the listing restarts at page 1 |
| ProductList.PageSizeShowsFirstPage | src/app/components/product-list/product-list.component.ts:141-145 | a page size change shows page 1 of the new size and requests page 0 |
| ProductList.ProductListComponent.constructor | src/app/components/product-list/product-list.component.ts:47-58 | no products, category 1, loading, page 1 of 5, no total |
| ProductList.ProductListComponent.ListProducts | src/app/components/product-list/product-list.component.ts:76-87 | fields afterwards are Listed of those before |
| ProductList.ProductListComponent.HandleSearchProducts | src/app/components/product-list/product-list.component.ts:89-98 | fields afterwards are SearchByKeyword of those before |
| ProductList.ProductListComponent.HandleListProducts | src/app/components/product-list/product-list.component.ts:111-127 | fields afterwards are ListByCategory of those before |
| ProductList.ProductListComponent.UpdatePageSize | src/app/components/product-list/product-list.component.ts:141-145 | fields afterwards are PageSizeUpdated of those before |
| ProductList.ProductListComponent.ProcessResult | src/app/components/product-list/product-list.component.ts:147-154 | fields afterwards are Processed of those before |
| ProductList.ProductListComponent.OnFetchSuccess | src/app/components/product-list/product-list.component.ts:99-132 | the answer is processed and loading stops |
| ProductList.ProductListComponent.OnFetchError | src/app/components/product-list/product-list.component.ts:103-137 | fields afterwards are Failed of those before |
| ProductList.ProductListComponent.OnPageChange | src/app/components/product-list/product-list.component.ts:162-169 | fields afterwards are PageChanged of those before |

## Left out

- Browser storage, HTTP calls, Auth0 and the translation service are not modelled as I/O. The stored cart, the product catalogue, the validation library and the translation lookup are parameters of the functions that use them.
- rxjs timing (`switchMap` cancellation, `forkJoin`, `withLatestFrom`, `take(1)`) is not modelled. Each effect is a function of one action and one state snapshot. Each component handler reads the slice as it stands after its own dispatches.
- The facades are one-line `select`/`dispatch` pass-throughs. The product-list component dispatches straight to the product reducer.
- `auth.effects.ts`, `language.effects.ts` and the interceptors are Auth0 and storage I/O, so they are not part of this model. The same holds for the checkout components (Stripe, promises, floating-point amounts) and the HTTP services, including `getCountries`/`getStates` of the shop form service.
- Prices are integer cents, so `computeTotals` does no IEEE rounding.
- Records from outside the core keep only the fields the core reads: Country, Region, the catalogue product, an order, the Auth0 user.
- JSON encoding of the stored cart is not modelled. A stored value is either lines, nothing, empty text, or text that fails to parse.
- FetchMissingProductNamesFailure has no reducer handler. It is modelled as an action that leaves the cart unchanged. Each product request falls back to the line's name on its own, so the failure is not reached through the modelled plan.
- Paging.Route: the route's `id` is taken as already numeric, so `+id` of a non-numeric text (NaN) is not modelled.
- AppProductList.AppProductListComponent.UpdatePageSize: the page size is already a number, so `+pageSize` giving NaN is not modelled. The same holds for ProductList.ProductListComponent.UpdatePageSize.
- ProductList.ProductListComponent.OnPageChange: requires a non-zero row count. With a page size of 0 and no rows in the event, the source divides by zero and gets an Infinity or NaN page; that is not modelled. The same requirement is on ProductList.PageChanged and ProductList.PageChangeShowsPage.
- CartReducer.ReducePreservesValid: for loadCartSuccess it requires the loaded lines to have distinct ids. The source reads whatever storage holds, and a hand-edited store could break the invariant.
- CheckoutValidator.Holds: notEmpty, minLength and emailAddress of the validation library are abstract predicates, so the email pattern is not modelled.
- FluentValidation.GetFieldErrorMessage: the translation lookup is an abstract function, so translation tables are not modelled.
- FluentValidation.FormGroup.SetErrorsRecursively: requires every key of the result to be non-empty and free of '.'. For other keys `formGroup.get` would address a different control. The checkout validator's result meets this requirement (FluentValidation.CheckoutErrorsWellKeyed). The same requirement is on FluentValidation.FormGroup.SetValidationErrorsOnForm and FluentValidation.FormGroup.ValidateAndSetErrors.
- The Angular form is a map from key paths to each control's errors, plus the set of paths that are groups. Control values, validators and status recomputation are not modelled.
- FluentValidation.CreateMockObjectFromPath builds the nested record as a value. The source fills it by mutating a shared `current` reference; that aliasing is not modelled.
- JavaScript values are null, undefined, booleans, integers, strings and records. Arrays and non-integer numbers do not arise in the modelled paths.
- The product slice holds no product-detail fields, so the detail selectors always give their fallbacks (ProductSelectors.DetailsAlwaysFallBack).
- The checkout reducer is not registered in the root reducer. It is modelled on its own.
- The plain projection selectors (current language, tokens, loading flags and the like) read one stored field each. They are modelled as functions, and lemmas state their defaults and their agreement with the reducers.

## Findings

| source | as written | input that shows it | evidently intended | confidence | as-written member | corrected member |
|---|---|---|---|---|---|---|
| src/app/components/app-product-list/app-product-list.component.ts:117 | the keyword search sends the one-based `pagination.pageNumber` as the zero-based `page`; the category request (lines 141-146) and the language reload (src/app/store/product/product.effects.ts:93) send `pageNumber - 1`; the component model keeps the request as written | keyword "mug" from pagination (1, 5): the request asks for page 1, the server answers page 1, and the reducer stores page number 2 | send `pagination.pageNumber - 1`, so the answer shows the page the user was on | not executed | AppProductList.SearchRequestAsWritten, AppProductList.SearchAnswerAsWrittenSkipsPage, AppProductList.FirstSearchLandsOnPageTwo, AppProductList.ComponentSearchSkipsPage | AppProductList.SearchRequest, AppProductList.SearchAnswerKeepsPage |
