/** The two interface languages, `'ru' | 'en'`. */
module Locale {

  datatype Language = Ru | En

  /** `lang === "ru" ? "en" : "ru"`, the language toggle of both presentations. */
  function Toggled(lang: Language): (r: Language)
    ensures r != lang
  {
    if lang == Ru then En else Ru
  }

  /** Toggling twice restores the language. */
  lemma ToggleInvolution(lang: Language)
    ensures Toggled(Toggled(lang)) == lang
  {
  }
}
