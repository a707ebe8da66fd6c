/**
 * The site language: English or Nepali, kept in local storage and mirrored
 * on the document element.
 */
module Language {
  import opened Wrappers

  const STORAGE_KEY := "driveLicense-lang"

  /** The stored value, or English when nothing (or the empty string) is stored. */
  function InitialLanguage(stored: Option<string>): (l: string)
    ensures stored.Some? && stored.value != "" ==> l == stored.value
    ensures stored.None? || stored.value == "" ==> l == "en"
    ensures l != ""
  {
    if stored.Some? && stored.value != "" then stored.value else "en"
  }

  /** English becomes Nepali; any other value becomes English. */
  function Toggled(l: string): (r: string)
    ensures l == "en" ==> r == "ne"
    ensures l != "en" ==> r == "en"
    ensures r == "en" || r == "ne"
  {
    if l == "en" then "ne" else "en"
  }

  /** Toggling twice returns to English or Nepali; an unknown stored value settles on English after two. */
  lemma ToggleTwice(l: string)
    ensures l == "en" || l == "ne" ==> Toggled(Toggled(l)) == l
    ensures l != "en" && l != "ne" ==> Toggled(Toggled(l)) == "ne"
  {
  }

  /** The document's `lang`: Nepali for 'ne', English for every other value. */
  function DocumentLang(l: string): (r: string)
    ensures r == "ne" <==> l == "ne"
    ensures r == "ne" || r == "en"
  {
    if l == "ne" then "ne" else "en"
  }

  class LanguageProvider {
    var language: string
    /** The browser's local storage. */
    var storage: map<string, string>
    var documentLang: string
    var documentDir: string

    /** What the effect keeps after every change: storage and document agree with the language. */
    ghost predicate Valid()
      reads this
    {
      && STORAGE_KEY in storage && storage[STORAGE_KEY] == language
      && documentLang == DocumentLang(language)
      && documentDir == "ltr"
    }

    /** The effect run after every language change. */
    method Persist()
      modifies this`storage, this`documentLang, this`documentDir
      ensures Valid()
      ensures storage == old(storage)[STORAGE_KEY := language]
    {
      storage := storage[STORAGE_KEY := language];
      documentLang := if language == "ne" then "ne" else "en";
      documentDir := "ltr";
    }

    /** Mounting over the given storage, then the effect's first run. */
    constructor (initialStorage: map<string, string>)
      ensures Valid()
      ensures language == InitialLanguage(if STORAGE_KEY in initialStorage then Some(initialStorage[STORAGE_KEY]) else None)
      ensures storage == initialStorage[STORAGE_KEY := language]
    {
      language := InitialLanguage(if STORAGE_KEY in initialStorage then Some(initialStorage[STORAGE_KEY]) else None);
      storage := initialStorage;
      documentLang := "";
      documentDir := "";
      new;
      Persist();
    }

    method ToggleLanguage()
      modifies this
      ensures Valid() && language == Toggled(old(language))
      ensures storage == old(storage)[STORAGE_KEY := language]
    {
      language := Toggled(language);
      Persist();
    }

    method SetLanguage(l: string)
      modifies this
      ensures Valid() && language == l
      ensures storage == old(storage)[STORAGE_KEY := l]
    {
      language := l;
      Persist();
    }
  }

  /** A fresh visit with nothing stored starts in English; a toggle then stores Nepali. */
  method FirstVisitToggle()
  {
    var provider := new LanguageProvider(map[]);
    assert provider.language == "en" && provider.documentLang == "en";
    provider.ToggleLanguage();
    assert provider.storage[STORAGE_KEY] == "ne" && provider.documentLang == "ne";
  }
}
