/**
 * The two-language message table. `Dictionary` maps a language code to its
 * table; a Localizer holds the current language (a static, settable property
 * in the node) and looks keys up in it.
 */
module Localization {

  const En: map<string, string> := map[
    "StatusOnline" := "ONLINE - RUNNING",
    "StatusOffline" := "OFFLINE - STOPPED",
    "Funds" := "Total Funds (USD)",
    "Clients" := "Active Clients",
    "Ip" := "IP Address",
    "Shutdown" := "SAFE SHUTDOWN",
    "ErrFormat" := "Invalid command format.",
    "ErrAccount" := "Account does not exist.",
    "ErrFunds" := "Insufficient funds (USD).",
    "ErrExists" := "Account already exists.",
    "ErrNotEmpty" := "Account is not empty.",
    "ErrInternal" := "Internal server error.",
    "MsgRobbery" := "To reach target, rob banks: {0}. Victims: {1}."
  ]

  const Cz: map<string, string> := map[
    "StatusOnline" := "ONLINE - BĚŽÍ",
    "StatusOffline" := "OFFLINE - ZASTAVENO",
    "Funds" := "Celkem peněz (USD)",
    "Clients" := "Počet klientů",
    "Ip" := "IP Adresa",
    "Shutdown" := "BEZPEČNÉ VYPNUTÍ",
    "ErrFormat" := "Neplatný formát příkazu.",
    "ErrAccount" := "Účet neexistuje.",
    "ErrFunds" := "Nedostatek prostředků (USD).",
    "ErrExists" := "Účet již existuje.",
    "ErrNotEmpty" := "Účet není prázdný.",
    "ErrInternal" := "Interní chyba serveru.",
    "MsgRobbery" := "K dosažení cíle vyloupit: {0}. Obětí: {1}."
  ]

  const Dictionary: map<string, map<string, string>> := map["EN" := En, "CZ" := Cz]

  /** No English text equals its own key. */
  lemma EnglishDiffersFromKeys()
    ensures forall key :: key in En ==> En[key] != key
  {
  }

  /** No Czech text equals its own key. */
  lemma CzechDiffersFromKeys()
    ensures forall key :: key in Cz ==> Cz[key] != key
  {
  }

  /** The language has a table and the table has the key. */
  predicate HasEntry(lang: string, key: string) {
    lang in Dictionary && key in Dictionary[lang]
  }

  /** The language ToggleLanguage switches to from `lang`. */
  function Toggled(lang: string): string {
    if lang == "EN" then "CZ" else "EN"
  }

  class Localizer {
    /** CurrentLanguage: settable to any code, "EN" at start-up. */
    var currentLanguage: string

    constructor ()
      ensures currentLanguage == "EN"
    {
      currentLanguage := "EN";
    }

    /** Get(key): the translation in the current language, or the key itself
        when the language or the key is unknown. No translation equals its key,
        so the key comes back exactly when there is no entry. */
    function Get(key: string): (r: string)
      reads this
      ensures HasEntry(currentLanguage, key) ==> r == Dictionary[currentLanguage][key]
      ensures r == key <==> !HasEntry(currentLanguage, key)
    {
      EnglishDiffersFromKeys();
      CzechDiffersFromKeys();
      if HasEntry(currentLanguage, key) then Dictionary[currentLanguage][key] else key
    }

    /** ToggleLanguage: "EN" becomes "CZ", every other value becomes "EN". */
    method ToggleLanguage()
      modifies this
      ensures currentLanguage == Toggled(old(currentLanguage))
    {
      currentLanguage := if currentLanguage == "EN" then "CZ" else "EN";
    }
  }

  /** Toggling twice from either known language restores it. */
  lemma ToggleTwiceRestores(lang: string)
    requires lang == "EN" || lang == "CZ"
    ensures Toggled(Toggled(lang)) == lang
    ensures Toggled(lang) != lang
  {
  }

  /** Whatever the current value, toggling selects a language that has a table. */
  lemma ToggleSelectsTable(lang: string)
    ensures Toggled(lang) in Dictionary
  {
  }

  /** The English and Czech tables define the same keys, so a key has a
      translation in one language exactly when it has one in the other. */
  lemma TablesHaveSameKeys(key: string)
    ensures En.Keys == Cz.Keys
    ensures HasEntry("EN", key) <==> HasEntry("CZ", key)
  {
  }
}
