/** The interface-language store and its translation lookup `t`. */
module LangStore {

  datatype LangOption = EN | VI

  datatype LangState = LangState(selectedLang: LangOption)

  const Initial := LangState(EN)

  /** The translation tables, one per language. */
  datatype Translations = Translations(en: map<string, string>, vi: map<string, string>)

  function SetSelectedLang(s: LangState, lang: LangOption): (r: LangState)
    ensures r.selectedLang == lang
  {
    LangState(lang)
  }

  function ToggleLang(s: LangState): (r: LangState)
    ensures r.selectedLang != s.selectedLang
  {
    LangState(if s.selectedLang == EN then VI else EN)
  }

  lemma ToggleLangTwice(s: LangState)
    ensures ToggleLang(ToggleLang(s)) == s
  {
  }

  /** `t(key)`: the translation for the selected language when it is a
      non-empty string, otherwise the key itself. */
  function T(s: LangState, table: Translations, key: string): (r: string)
    ensures var m := if s.selectedLang == EN then table.en else table.vi;
      if key in m && m[key] != "" then r == m[key] else r == key
  {
    var m := if s.selectedLang == EN then table.en else table.vi;
    if key in m && m[key] != "" then m[key] else key
  }

  /** A missing key never yields an empty string unless the key is empty. */
  lemma TNeverBlank(s: LangState, table: Translations, key: string)
    requires key != ""
    ensures T(s, table, key) != ""
  {
  }
}
