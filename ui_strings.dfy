/**
 * The interface-string translator of components/LingoCompiler.tsx: the `T`
 * component shows a fixed label in the signed-in user's language when its
 * table has that label in that language, and the label itself otherwise.
 */
module UiStrings {
  import opened Common

  /** The table of interface labels: label, then language. */
  const UiTranslations: map<string, map<string, string>> := map[
    "Global Chat" := map[
      "es" := "Chat Global",
      "ne" := "ग्लोबल च्याट",
      "fr" := "Chat Global",
      "de" := "Globaler Chat",
      "ja" := "グローバルチャット"],
    "Project Plan" := map[
      "es" := "Plan del Proyecto",
      "ne" := "प्रोजेक्ट योजना",
      "fr" := "Plan du Projet",
      "de" := "Projektplan",
      "ja" := "プロジェクト計画"],
    "Type in" := map[
      "es" := "Escribe en",
      "fr" := "Écrivez en",
      "de" := "Schreiben Sie in",
      "ja" := "で入力"],
    "Saved" := map[
      "es" := "Guardado",
      "fr" := "Enregistré",
      "de" := "Gespeichert",
      "ja" := "保存されました"],
    "Saving..." := map[
      "es" := "Guardando...",
      "fr" := "Enregistrement...",
      "de" := "Speichern...",
      "ja" := "保存中..."]
  ]

  /** `uiTranslations[children]?.[lang]`, with a missing entry as "". */
  function Lookup(children: string, lang: string): string {
    if children in UiTranslations && lang in UiTranslations[children] then UiTranslations[children][lang] else ""
  }

  /** What `<T>{children}</T>` renders for `user`. */
  function T(user: Option<User>, children: string): (r: string)
    ensures r == children || (children in UiTranslations && r in UiTranslations[children].Values)
  {
    if user.None? || user.value.preferredLanguage == "en" then children
    else
      var translated := Lookup(children, user.value.preferredLanguage);
      if translated != "" then translated else children
  }

  /** Without a user, or for an English reader, every label is shown as written. */
  lemma EnglishOrAnonymousUnchanged(user: Option<User>, children: string)
    requires user.None? || user.value.preferredLanguage == "en"
    ensures T(user, children) == children
  {
  }

  /** A label the table holds in the reader's (non-English) language is shown translated. */
  lemma TranslatedWhenKnown(user: User, children: string)
    requires user.preferredLanguage != "en"
    requires children in UiTranslations && user.preferredLanguage in UiTranslations[children]
    requires UiTranslations[children][user.preferredLanguage] != ""
    ensures T(Some(user), children) == UiTranslations[children][user.preferredLanguage]
  {
  }

  /** A label missing from the table, or missing in the reader's language, falls back to itself. */
  lemma MissingFallsBack(user: User, children: string)
    requires children !in UiTranslations || user.preferredLanguage !in UiTranslations[children]
    ensures T(Some(user), children) == children
  {
  }

  /** "Type in" has no Nepali entry, so a Nepali reader sees it untranslated. */
  lemma TypeInNotInNepali()
    ensures T(Some(User("Asha", "ne")), "Type in") == "Type in"
  {
    assert "ne" !in UiTranslations["Type in"];
  }
}
