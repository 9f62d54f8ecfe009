/**
 * The file localiser of components/FileHub.tsx: the user drops (or picks) a
 * JSON file of interface strings, chooses a target language, has every value
 * translated, and downloads the result under a name carrying the language.
 * The parsed file is a map from keys to strings; the translator is a
 * function-valued parameter whose `None` stands for a call that threw.
 */
module FileHub {
  import opened Common

  datatype Status = Idle | Translating | Done

  /** The most values a file may have. */
  const MaxValues := 50

  const JsonSuffix := ".json"

  // ---------------------------------------------------------------------------
  // The download name

  /** The first position at which `pat` occurs in `s`, if any. */
  function IndexOfSub(s: string, pat: string): (r: Option<nat>)
    ensures r.Some? ==> r.value <= |s| - |pat| && OccursAt(s, pat, r.value)
    ensures r.Some? ==> forall j :: 0 <= j < r.value ==> !OccursAt(s, pat, j)
    ensures r.None? ==> forall j :: 0 <= j <= |s| - |pat| ==> !OccursAt(s, pat, j)
    decreases |s|
  {
    if |s| < |pat| then None
    else if OccursAt(s, pat, 0) then Some(0)
    else
      var rest := IndexOfSub(s[1..], pat);
      ShiftOccurs(s, pat);
      if rest.Some? then Some(rest.value + 1) else None
  }

  lemma ShiftOccurs(s: string, pat: string)
    requires |s| > 0
    ensures forall j :: 1 <= j <= |s| - |pat| ==> (OccursAt(s, pat, j) <==> OccursAt(s[1..], pat, j - 1))
  {
    forall j | 1 <= j <= |s| - |pat|
      ensures OccursAt(s, pat, j) <==> OccursAt(s[1..], pat, j - 1)
    {
      assert s[1..][j - 1..j - 1 + |pat|] == s[j..j + |pat|];
    }
  }

  /** `s.replace(pat, rep)` with a string pattern: only the first occurrence is replaced. */
  function ReplaceFirst(s: string, pat: string, rep: string): string {
    match IndexOfSub(s, pat)
    case None => s
    case Some(i) => s[..i] + rep + s[i + |pat|..]
  }

  /** `file.name.replace('.json', `.${targetLang}.json`)`. */
  function DownloadName(name: string, targetLang: string): string {
    ReplaceFirst(name, JsonSuffix, "." + targetLang + JsonSuffix)
  }

  /** A name whose only ".json" is its extension gets the language inserted before it. */
  lemma DownloadNameOfJson(stem: string, targetLang: string)
    requires !Contains(stem, JsonSuffix)
    ensures DownloadName(stem + JsonSuffix, targetLang) == stem + "." + targetLang + JsonSuffix
  {
    var s := stem + JsonSuffix;
    assert OccursAt(s, JsonSuffix, |stem|) by {
      assert s[|stem|..|stem| + 5] == JsonSuffix;
    }
    var r := IndexOfSub(s, JsonSuffix);
    assert r.Some?;
    var i := r.value;
    NoStraddle(stem);
    if i < |stem| {
      if i + 5 <= |stem| {
        assert stem[i..i + 5] == s[i..i + 5];
        assert OccursAt(stem, JsonSuffix, i);
        assert false;
      } else {
        assert false;
      }
    }
    assert s[..i] == stem && s[i + 5..] == [];
  }

  /** ".json" cannot start inside a name and run into its own ".json" extension: only its first character is a dot. */
  lemma NoStraddle(stem: string)
    ensures forall i :: 0 <= i < |stem| < i + |JsonSuffix| ==> !OccursAt(stem + JsonSuffix, JsonSuffix, i)
  {
    var s := stem + JsonSuffix;
    forall i | 0 <= i < |stem| < i + |JsonSuffix|
      ensures !OccursAt(s, JsonSuffix, i)
    {
      assert s[i..i + 5][|stem| - i] == s[|stem|] == '.';
    }
  }

  /** A name without ".json" is left as it is. */
  lemma DownloadNameWithoutJson(name: string, targetLang: string)
    requires !Contains(name, JsonSuffix)
    ensures DownloadName(name, targetLang) == name
  {
    var r := IndexOfSub(name, JsonSuffix);
    if r.Some? {
      assert false;
    }
  }

  // ---------------------------------------------------------------------------
  // The translation

  /**
   * The outcome of translating every value of `parsed` into `lang`: a map with
   * the same keys when every call succeeded, nothing when any call threw.
   */
  function TranslateAll(parsed: map<string, string>, lang: string, translate: (string, string) -> Option<string>): (r: Option<map<string, string>>)
  {
    if forall k :: k in parsed ==> translate(parsed[k], lang).Some? then
      Some(map k | k in parsed :: translate(parsed[k], lang).value)
    else None
  }

  /** A complete result keeps every key of the file and holds, for each, the translation of its value. */
  lemma TranslateAllSpec(parsed: map<string, string>, lang: string, translate: (string, string) -> Option<string>)
    ensures TranslateAll(parsed, lang, translate).Some? <==>
      forall k :: k in parsed ==> translate(parsed[k], lang).Some?
    ensures TranslateAll(parsed, lang, translate).Some? ==>
      var result := TranslateAll(parsed, lang, translate).value;
      result.Keys == parsed.Keys &&
      forall k :: k in result ==> Some(result[k]) == translate(parsed[k], lang)
  {
  }

  /**
   * The per-key loop of the translate button: each value is sent to the
   * translator in turn; one failed call makes the whole batch fail.
   */
  method TranslateEach(parsed: map<string, string>, lang: string, translate: (string, string) -> Option<string>)
    returns (r: Option<map<string, string>>)
    ensures r == TranslateAll(parsed, lang, translate)
  {
    var remaining := parsed.Keys;
    var result: map<string, string> := map[];
    var failed := false;
    while remaining != {}
      invariant remaining <= parsed.Keys
      invariant forall k :: k in result <==> k in parsed && k !in remaining && translate(parsed[k], lang).Some?
      invariant forall k :: k in result ==> Some(result[k]) == translate(parsed[k], lang)
      invariant failed <==> exists k :: k in parsed && k !in remaining && translate(parsed[k], lang).None?
      decreases |remaining|
    {
      var k :| k in remaining;
      var val := translate(parsed[k], lang);
      if val.Some? {
        result := result[k := val.value];
      } else {
        failed := true;
      }
      remaining := remaining - {k};
    }
    if failed {
      return None;
    }
    assert result == TranslateAll(parsed, lang, translate).value;
    r := Some(result);
  }

  // ---------------------------------------------------------------------------
  // The component's state

  class FileHub {
    var fileName: Option<string>
    var parsedContent: Option<map<string, string>>
    var translations: Option<map<string, string>>
    var status: Status
    var targetLang: string

    constructor ()
      ensures fileName.None? && parsedContent.None? && translations.None?
      ensures status == Idle && targetLang == "es"
    {
      fileName := None;
      parsedContent := None;
      translations := None;
      status := Idle;
      targetLang := "es";
    }

    /**
     * A file is taken in: its name is kept at once; when its text parsed as
     * JSON the content replaces the old one, any result is dropped and the
     * status returns to idle. Unparseable text leaves the rest as it was.
     */
    method HandleFile(name: string, parsed: Option<map<string, string>>)
      modifies this`fileName, this`parsedContent, this`translations, this`status
      ensures fileName == Some(name)
      ensures parsed.Some? ==> parsedContent == parsed && translations.None? && status == Idle
      ensures parsed.None? ==>
        parsedContent == old(parsedContent) && translations == old(translations) && status == old(status)
    {
      fileName := Some(name);
      if parsed.Some? {
        parsedContent := parsed;
        translations := None;
        status := Idle;
      }
    }

    /** A drop: the first dropped file is handled only if its name ends in ".json". */
    method Drop(name: Option<string>, parsed: Option<map<string, string>>) returns (accepted: bool)
      modifies this`fileName, this`parsedContent, this`translations, this`status
      ensures accepted <==> name.Some? && EndsWith(name.value, JsonSuffix)
      ensures accepted ==> fileName == name
      ensures accepted && parsed.Some? ==> parsedContent == parsed && translations.None? && status == Idle
      ensures !accepted || parsed.None? ==>
        parsedContent == old(parsedContent) && translations == old(translations) && status == old(status)
      ensures !accepted ==> fileName == old(fileName)
    {
      accepted := name.Some? && EndsWith(name.value, JsonSuffix);
      if accepted {
        HandleFile(name.value, parsed);
      }
    }

    /** A language button. */
    method SetTarget(lang: string)
      modifies this`targetLang
      ensures targetLang == lang
    {
      targetLang := lang;
    }

    /** The Reset button: file, content and result are cleared; status and language stay. */
    method Reset()
      modifies this`fileName, this`parsedContent, this`translations
      ensures fileName.None? && parsedContent.None? && translations.None?
    {
      fileName := None;
      parsedContent := None;
      translations := None;
    }

    /**
     * The translate button. Without content nothing happens. A file with more
     * than 50 values, a failure of the preliminary joined call, or any
     * failed per-key call sends the status back to idle with the result
     * untouched; otherwise the result holds the translation of every value
     * into the target language and the status is done.
     */
    method StartTranslation(translate: (string, string) -> Option<string>, joinedCallFails: bool)
      modifies this`translations, this`status
      ensures parsedContent.None? ==> translations == old(translations) && status == old(status)
      ensures parsedContent.Some? ==>
        var outcome := TranslateAll(parsedContent.value, targetLang, translate);
        if |parsedContent.value| > MaxValues || joinedCallFails || outcome.None?
        then status == Idle && translations == old(translations)
        else status == Done && translations == outcome
    {
      if parsedContent.None? {
        return;
      }
      status := Translating;
      var parsed := parsedContent.value;
      if |parsed| > MaxValues || joinedCallFails {
        status := Idle;
        return;
      }
      var result := TranslateEach(parsed, targetLang, translate);
      if result.None? {
        status := Idle;
        return;
      }
      translations := result;
      status := Done;
    }

    /** The download button: nothing without a result or a file, otherwise the name and content to save. */
    method Download() returns (saved: Option<(string, map<string, string>)>)
      ensures saved.Some? <==> translations.Some? && fileName.Some?
      ensures saved.Some? ==> saved.value == (DownloadName(fileName.value, targetLang), translations.value)
    {
      if translations.None? || fileName.None? {
        return None;
      }
      saved := Some((DownloadName(fileName.value, targetLang), translations.value));
    }
  }
}
