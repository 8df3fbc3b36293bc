/** Views of the language slice. */
module LanguageSelectors {
  import opened Js
  import opened LanguageReducer

  function SelectCurrentLanguage(s: LanguageState): string { s.currentLanguage }
  function SelectAvailableLanguages(s: LanguageState): seq<Language> { s.availableLanguages }
  function SelectLanguageLoading(s: LanguageState): bool { s.loading }

  /** `availableLanguages.find(lang => lang.code === currentLanguage)`. */
  function SelectCurrentLanguageDetails(s: LanguageState): (r: Option<Language>)
    ensures r.Some? ==> r.value.code == s.currentLanguage && r.value in s.availableLanguages
    ensures r.None? <==> forall k :: 0 <= k < |s.availableLanguages| ==> s.availableLanguages[k].code != s.currentLanguage
  {
    FindFirst(s.availableLanguages, (l: Language) => l.code, s.currentLanguage)
  }

  /** In the initial state the details are the English entry. */
  lemma InitialDetails()
    ensures SelectCurrentLanguageDetails(InitialLanguageState) == Some(Language("English", "en-US", "us"))
  {
    var langs := InitialLanguageState.availableLanguages;
    assert langs[0] == English && langs != [] && langs[0].code == "en-US";
  }

  /** Choosing a code that is not on offer leaves no details. */
  lemma UnknownCodeNoDetails(s: LanguageState, l: string)
    requires forall k :: 0 <= k < |s.availableLanguages| ==> s.availableLanguages[k].code != l
    ensures SelectCurrentLanguageDetails(Reduce(s, SetLanguage(l))) == None
  {
  }

  /** Choosing an offered code shows an entry with that code: the first
      one offered with it, which is the entry chosen when no earlier entry
      shares its code. */
  lemma OfferedCodeDetails(s: LanguageState, i: nat)
    requires i < |s.availableLanguages|
    ensures var code := s.availableLanguages[i].code;
            var r := SelectCurrentLanguageDetails(Reduce(s, SetLanguage(code)));
            && r.Some? && r.value.code == code
            && ((forall j :: 0 <= j < i ==> s.availableLanguages[j].code != code) ==> r == Some(s.availableLanguages[i]))
  {
    var code := s.availableLanguages[i].code;
    var langs := s.availableLanguages;
    var r := SelectCurrentLanguageDetails(Reduce(s, SetLanguage(code)));
    if forall j :: 0 <= j < i ==> langs[j].code != code {
      var k :| 0 <= k < |langs| && langs[k] == r.value && r.value.code == code
               && forall j :: 0 <= j < k ==> langs[j].code != code;
      assert k == i;
    }
  }
}
