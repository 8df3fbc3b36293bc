/** The language slice: the current language code and the fixed list of
    languages on offer. */
module LanguageReducer {

  datatype Language = Language(name: string, code: string, countryCode: string)

  datatype LanguageState = LanguageState(currentLanguage: string, availableLanguages: seq<Language>, loading: bool)

  const English: Language := Language("English", "en-US", "us")
  const Turkish: Language := Language("Türkçe", "tr-TR", "tr")

  const InitialLanguageState: LanguageState := LanguageState("en-US", [English, Turkish], false)

  datatype Action =
    | SetLanguage(language: string)
    | LoadLanguageFromStorage
    | LanguageLoaded(language: string)

  /** languageReducer. */
  function Reduce(s: LanguageState, a: Action): LanguageState
  {
    match a
    case SetLanguage(l) => s.(currentLanguage := l)
    case LoadLanguageFromStorage => s.(loading := true)
    case LanguageLoaded(l) => s.(currentLanguage := l, loading := false)
  }

  function ReduceAll(s: LanguageState, actions: seq<Action>): LanguageState
    decreases |actions|
  {
    if actions == [] then s else ReduceAll(Reduce(s, actions[0]), actions[1..])
  }

  /** The three handlers. */
  lemma Handlers(s: LanguageState, l: string)
    ensures Reduce(s, SetLanguage(l)) == s.(currentLanguage := l)
    ensures Reduce(s, LoadLanguageFromStorage) == s.(loading := true)
    ensures Reduce(s, LanguageLoaded(l)) == s.(currentLanguage := l, loading := false)
  {
  }

  /** setLanguage is idempotent. */
  lemma SetLanguageIdempotent(s: LanguageState, l: string)
    ensures Reduce(Reduce(s, SetLanguage(l)), SetLanguage(l)) == Reduce(s, SetLanguage(l))
  {
  }

  /** No run of actions changes the available languages. */
  lemma {:induction false} AvailableLanguagesFixed(s: LanguageState, actions: seq<Action>)
    ensures ReduceAll(s, actions).availableLanguages == s.availableLanguages
    decreases |actions|
  {
    if actions != [] {
      AvailableLanguagesFixed(Reduce(s, actions[0]), actions[1..]);
    }
  }
}
