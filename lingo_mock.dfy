/**
 * The stand-in for the translation SDK used by the demo (lib/lingoMock.ts):
 * the list of supported languages, a small table of canned translations, and
 * `translateText`, which answers from the table (with two hard-wired
 * greetings) and otherwise tags the text with the target language.
 */
module LingoMock {
  import opened Common

  datatype Language = Language(code: string, name: string, flag: string)

  const Languages: seq<Language> := [
    Language("en", "English", "🇺🇸"),
    Language("es", "Spanish", "🇪🇸"),
    Language("fr", "French", "🇫🇷"),
    Language("de", "German", "🇩🇪"),
    Language("ja", "Japanese", "🇯🇵"),
    Language("ne", "Nepali", "🇳🇵")
  ]

  function Codes(languages: seq<Language>): (r: seq<string>)
    ensures |r| == |languages| && forall i :: 0 <= i < |languages| ==> r[i] == languages[i].code
  {
    seq(|languages|, i requires 0 <= i < |languages| => languages[i].code)
  }

  /** The six supported languages, in display order, with no code listed twice. */
  lemma LanguageCodes()
    ensures Codes(Languages) == ["en", "es", "fr", "de", "ja", "ne"]
    ensures forall i, j :: 0 <= i < j < |Languages| ==> Languages[i].code != Languages[j].code
  {
  }

  const SpanishGreeting := "Hola Rupesh"
  const NepaliGreeting := "नमस्ते रुपेश"
  const EnglishGreeting := "Hello Rupesh"

  /** The canned translations: source text, then target language. */
  const Translations: map<string, map<string, string>> := map[
    "Let's discuss the new feature" := map[
      "es" := "Hablemos sobre la nueva función",
      "ne" := "नयाँ फिचरको बारेमा छलफल गरौं",
      "fr" := "Discutons de la nouvelle fonctionnalité",
      "de" := "Lassen Sie uns über das neue Feature sprechen",
      "ja" := "新機能について話し合いましょう"],
    "Sounds good to me" := map[
      "es" := "Me parece bien",
      "fr" := "Ça me semble bien",
      "de" := "Das klingt gut für mich",
      "ja" := "私には良いですね"],
    "Project Requirements" := map[
      "es" := "Requisitos del Proyecto",
      "fr" := "Exigences du Projet",
      "de" := "Projektanforderungen",
      "ja" := "プロジェクト要件"],
    SpanishGreeting := map[
      "en" := EnglishGreeting,
      "fr" := "Bonjour Rupesh",
      "de" := "Hallo Rupesh",
      "ja" := "こんにちは Rupesh"],
    NepaliGreeting := map[
      "en" := EnglishGreeting,
      "es" := "Hola Rupesh",
      "fr" := "Bonjour Rupesh"]
  ]

  /** `translations[text]?.[targetLang]`, with a missing entry as "". */
  function Lookup(text: string, targetLang: string): string {
    if text in Translations && targetLang in Translations[text] then Translations[text][targetLang] else ""
  }

  /** The mock `translateText`; the simulated network delay is left out. */
  function MockTranslate(text: string, targetLang: string): string {
    if targetLang == "en" && text == SpanishGreeting then EnglishGreeting
    else if targetLang == "en" && text == NepaliGreeting then EnglishGreeting
    else
      var found := Lookup(text, targetLang);
      if found != "" then found else Tagged(targetLang, text)
  }

  /** Both greetings translate to "Hello Rupesh" in English. */
  lemma GreetingsInEnglish()
    ensures MockTranslate(SpanishGreeting, "en") == EnglishGreeting
    ensures MockTranslate(NepaliGreeting, "en") == EnglishGreeting
  {
  }

  /** The two hard-wired answers are the ones the table holds. */
  lemma SpecialCasesAgreeWithTable()
    ensures Lookup(SpanishGreeting, "en") == EnglishGreeting
    ensures Lookup(NepaliGreeting, "en") == EnglishGreeting
  {
    assert SpanishGreeting in Translations;
    assert NepaliGreeting in Translations;
  }

  /**
   * The special cases change nothing: the mock answers with the table's
   * entry when there is one, and with the tagged text otherwise.
   */
  lemma TableOrTagged(text: string, targetLang: string)
    ensures MockTranslate(text, targetLang) ==
      if Lookup(text, targetLang) != "" then Lookup(text, targetLang) else Tagged(targetLang, text)
  {
    SpecialCasesAgreeWithTable();
  }

  /** A text the table does not know comes back tagged: `[ES] hi` for "hi" into Spanish. */
  lemma UnknownTextTagged(text: string, targetLang: string)
    requires text !in Translations
    ensures MockTranslate(text, targetLang) == "[" + Upper(targetLang) + "] " + text
  {
    TableOrTagged(text, targetLang);
  }
}
