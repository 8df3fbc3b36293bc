/** A cart line and the three helpers that build it and read or add its
    per-language names. */
module CartItems {
  import opened Js

  /** A product as the catalogue returns it (only the fields a cart line copies). */
  datatype Product = Product(id: nat, name: string, imageUrl: string, unitPrice: int)

  /** One cart line. Prices are integer cents. `localizedNames` maps a language
      code to the product name in that language; lines read back from storage
      or built elsewhere may lack it, hence the `Option`. */
  datatype CartItem = CartItem(
    id: string,
    name: string,
    imageUrl: string,
    unitPrice: int,
    quantity: int,
    localizedNames: Option<map<string, string>>)

  const DefaultLanguage: string := "en-US"

  /** `cartItem.localizedNames?.[language]`: the stored name for a language,
      `None` when the map or the entry is missing. */
  function LocalizedName(item: CartItem, language: string): Option<string>
  {
    match item.localizedNames
    case None => None
    case Some(m) => if language in m then Some(m[language]) else None
  }

  /** The line has a truthy (non-empty) name for the language. */
  predicate HasName(item: CartItem, language: string)
  {
    Truthy(LocalizedName(item, language))
  }

  /** The line has an entry (possibly empty) for the language. */
  predicate HasEntry(item: CartItem, language: string)
  {
    item.localizedNames.Some? && language in item.localizedNames.value
  }

  /** createCartItem(product, language = 'en-US'): one unit of the product,
      named in the given language (the default applies when it is omitted). */
  function CreateCartItem(product: Product, language: Option<string>): (r: CartItem)
    ensures r.quantity == 1
    ensures r.id == DecimalString(product.id) && ParseInt(r.id) == Some(product.id)
    ensures r.name == product.name && r.imageUrl == product.imageUrl && r.unitPrice == product.unitPrice
    ensures r.localizedNames.Some?
    ensures var lang := if language.Some? then language.value else DefaultLanguage;
            r.localizedNames.value.Keys == {lang} && r.localizedNames.value[lang] == product.name
  {
    ParseDecimalRoundTrip(product.id);
    var lang := if language.Some? then language.value else DefaultLanguage;
    CartItem(DecimalString(product.id), product.name, product.imageUrl, product.unitPrice, 1,
             Some(map[lang := product.name]))
  }

  /** getNameForLanguage: the stored name when it is non-empty, else the
      line's current name. The source indexes `localizedNames` directly, so
      the line must carry the map. */
  function GetNameForLanguage(item: CartItem, language: string): (r: string)
    requires item.localizedNames.Some?
    ensures HasName(item, language) ==> r == item.localizedNames.value[language]
    ensures !HasName(item, language) ==> r == item.name
  {
    Or(LocalizedName(item, language), Some(item.name)).value
  }

  /** addLocalizedName: record `name` for `language` (a missing map counts as
      empty, as a spread of `undefined` does) and make it the current name. */
  function AddLocalizedName(item: CartItem, language: string, name: string): (r: CartItem)
    ensures r.localizedNames.Some? && HasEntry(r, language)
    ensures GetNameForLanguage(r, language) == name
    ensures r.name == name
    ensures r.id == item.id && r.imageUrl == item.imageUrl
    ensures r.unitPrice == item.unitPrice && r.quantity == item.quantity
    ensures forall l :: l != language ==> LocalizedName(r, l) == LocalizedName(item, l)
    ensures forall l :: HasEntry(item, l) ==> HasEntry(r, l)
  {
    var names := if item.localizedNames.Some? then item.localizedNames.value else map[];
    item.(localizedNames := Some(names[language := name]), name := name)
  }

  /** Adding the same name twice is the same as adding it once. */
  lemma AddLocalizedNameIdempotent(item: CartItem, language: string, name: string)
    ensures AddLocalizedName(AddLocalizedName(item, language, name), language, name)
         == AddLocalizedName(item, language, name)
  {
    var once := AddLocalizedName(item, language, name);
    assert once.localizedNames.value[language := name] == once.localizedNames.value;
  }

  /** A freshly created line reads back the product name in its language. */
  lemma CreatedItemName(product: Product, language: string)
    ensures GetNameForLanguage(CreateCartItem(product, Some(language)), language) == product.name
  {
  }
}
