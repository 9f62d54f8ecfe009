/**
 * The shared document of components/DocumentEditor.tsx: one row (id 1) kept in
 * sync through a realtime channel. The editor's state is the text, the
 * translations last received, the save status, whether the channel has been
 * joined and the write that the debounce timer will perform. Every callback of
 * the component is a method of `DocumentEditor`; what a reader sees is the pure
 * function `View` of that state.
 */
module Document {
  import opened Common

  datatype Status = Saved | Saving

  /** The single-row read issued on load: the row, "no rows" (code PGRST116), or any other error. */
  datatype Fetch = Found(content: string, translations: Option<map<string, string>>) | Missing | Failed

  /** A write to the `documents` table. */
  datatype Write =
    | Insert(id: int, content: string)
    | Upsert(id: int, content: string, translations: map<string, string>)

  /** The id of the one document every client edits. */
  const DocId := 1

  /** What the text area shows, whether it refuses edits, and whether the "waiting for translation" badge is up. */
  datatype Display = Display(text: string, readOnly: bool, waiting: bool)

  /** Every user whose language is not English, and a visitor with no user, is a viewer. */
  predicate IsViewer(user: Option<User>) {
    user.None? || user.value.preferredLanguage != "en"
  }

  /** `translations && user && translations[user.preferredLanguage]`, with every falsy outcome as "". */
  function TranslatedText(user: Option<User>, translations: map<string, string>): string {
    if user.Some? && user.value.preferredLanguage in translations
    then translations[user.value.preferredLanguage]
    else ""
  }

  function View(user: Option<User>, content: string, translations: map<string, string>): Display {
    var translated := TranslatedText(user, translations);
    var showTranslation := IsViewer(user) && translated != "";
    Display(if showTranslation then translated else content,
            showTranslation,
            IsViewer(user) && translated == "" && content != "")
  }

  // ---------------------------------------------------------------------------
  // Properties of the view

  /** The text area is read-only exactly when it shows a non-empty translation into the reader's non-English language. */
  lemma ReadOnlyIffTranslated(user: Option<User>, content: string, translations: map<string, string>)
    ensures View(user, content, translations).readOnly <==>
      user.Some? && user.value.preferredLanguage != "en" &&
      user.value.preferredLanguage in translations && translations[user.value.preferredLanguage] != ""
    ensures View(user, content, translations).readOnly ==>
      View(user, content, translations).text == translations[user.value.preferredLanguage]
    ensures !View(user, content, translations).readOnly ==>
      View(user, content, translations).text == content
  {
  }

  /** The badge and the read-only flag never show together, and the badge needs some text. */
  lemma WaitingExcludesReadOnly(user: Option<User>, content: string, translations: map<string, string>)
    ensures var d := View(user, content, translations);
      !(d.waiting && d.readOnly) && (d.waiting ==> d.text == content && content != "")
  {
  }

  /** An English reader always edits the raw content. */
  lemma EnglishEditsContent(user: User, content: string, translations: map<string, string>)
    requires user.preferredLanguage == "en"
    ensures View(Some(user), content, translations) == Display(content, false, false)
  {
  }

  /** With no translations (the state after a typing broadcast) every reader sees the live text. */
  lemma NoTranslationsShowContent(user: Option<User>, content: string)
    ensures View(user, content, map[]).text == content
    ensures !View(user, content, map[]).readOnly
  {
  }

  // ---------------------------------------------------------------------------
  // The component's state

  class DocumentEditor {
    /** The demo mode chosen when the database URL is a placeholder; it keeps the text in browser storage. */
    const useFallback: bool
    var content: string
    var translations: map<string, string>
    var status: Status
    var channelJoined: bool
    /** The content the armed debounce timer will write, if a timer is armed. */
    var pendingWrite: Option<string>

    /** A write is pending only while the status says "Saving..."; the demo mode never joins or writes. */
    predicate Valid()
      reads this
    {
      (pendingWrite.Some? ==> status == Saving) &&
      (useFallback ==> !channelJoined && pendingWrite.None?)
    }

    constructor (useFallback: bool)
      ensures this.useFallback == useFallback
      ensures content == "" && translations == map[] && status == Saved
      ensures !channelJoined && pendingWrite.None?
      ensures Valid()
    {
      this.useFallback := useFallback;
      content := "";
      translations := map[];
      status := Saved;
      channelJoined := false;
      pendingWrite := None;
    }

    /**
     * The effect run when the user is known: load the row (or create it when
     * there is none) and join the channel if it is not joined yet. Without a
     * user, or in the demo mode, nothing happens. The returned write is the
     * insert of an empty document; `subscribed` says a new channel was opened,
     * which happens only when none is joined.
     */
    method Load(user: Option<User>, fetched: Fetch) returns (write: Option<Write>, subscribed: bool)
      requires Valid()
      modifies this`content, this`translations, this`channelJoined
      ensures Valid()
      ensures subscribed <==> user.Some? && !useFallback && !old(channelJoined)
      ensures user.None? || useFallback ==>
        write.None? && content == old(content) && translations == old(translations) && channelJoined == old(channelJoined)
      ensures user.Some? && !useFallback ==>
        channelJoined &&
        (fetched.Found? ==> content == fetched.content &&
                            translations == fetched.translations.GetOr(map[]) && write.None?) &&
        (fetched.Missing? ==> write == Some(Insert(DocId, "")) &&
                              content == old(content) && translations == old(translations)) &&
        (fetched.Failed? ==> write.None? && content == old(content) && translations == old(translations))
    {
      write, subscribed := None, false;
      if user.None? || useFallback {
        return;
      }
      match fetched {
        case Found(c, t) =>
          content := c;
          translations := t.GetOr(map[]);
        case Missing =>
          write := Some(Insert(DocId, ""));
        case Failed =>
      }
      if !channelJoined {
        channelJoined := true;
        subscribed := true;
      }
    }

    /** The effect's cleanup: the channel is removed, so a later `Load` joins again. */
    method Leave()
      requires Valid()
      modifies this`channelJoined
      ensures Valid() && !channelJoined
    {
      channelJoined := false;
    }

    /**
     * A `typing` broadcast from another client. A payload carrying content
     * replaces the text and clears the translations so the live text shows.
     * Broadcasts arrive only while the channel is joined.
     */
    method ReceiveTyping(payload: Option<string>)
      requires Valid()
      modifies this`content, this`translations
      ensures Valid()
      ensures channelJoined && payload.Some? ==> content == payload.value && translations == map[]
      ensures !(channelJoined && payload.Some?) ==> content == old(content) && translations == old(translations)
    {
      if channelJoined && payload.Some? {
        content := payload.value;
        translations := map[];
      }
    }

    /** An UPDATE of the row: only a present `translations` object is taken; the content is never touched. */
    method ReceiveUpdate(newTranslations: Option<map<string, string>>)
      requires Valid()
      modifies this`translations
      ensures Valid()
      ensures translations == if channelJoined && newTranslations.Some? then newTranslations.value else old(translations)
    {
      if channelJoined && newTranslations.Some? {
        translations := newTranslations.value;
      }
    }

    /**
     * A local keystroke. The text and status change at once; outside the demo
     * mode the new text is broadcast when the channel is joined, and the
     * pending write is replaced by one carrying the new text. The editor's
     * own translations are left alone.
     */
    method Edit(newContent: string) returns (broadcast: Option<string>)
      requires Valid()
      modifies this`content, this`status, this`pendingWrite
      ensures Valid()
      ensures content == newContent && status == Saving && translations == old(translations)
      ensures useFallback ==> broadcast.None? && pendingWrite.None?
      ensures !useFallback ==>
        pendingWrite == Some(newContent) &&
        broadcast == if channelJoined then Some(newContent) else None
    {
      content := newContent;
      status := Saving;
      broadcast := None;
      if !useFallback {
        if channelJoined {
          broadcast := Some(newContent);
        }
        pendingWrite := Some(newContent);
      }
    }

    /** The demo mode's half-second timer, which marks the text saved after it was stored locally. */
    method FireFallbackTimer()
      requires Valid() && useFallback
      modifies this`status
      ensures Valid() && status == Saved
    {
      status := Saved;
    }

    /**
     * The debounce timer fires: the pending text is upserted with empty
     * translations, and the status becomes "Saved" only if the write reported
     * no error. With no timer armed nothing happens.
     */
    method FireDebounce(error: bool) returns (write: Option<Write>)
      requires Valid()
      modifies this`status, this`pendingWrite
      ensures Valid() && pendingWrite.None?
      ensures write == if old(pendingWrite).Some? then Some(Upsert(DocId, old(pendingWrite).value, map[])) else None
      ensures status == if old(pendingWrite).Some? && !error then Saved else old(status)
    {
      write := None;
      if pendingWrite.Some? {
        write := Some(Upsert(DocId, pendingWrite.value, map[]));
        pendingWrite := None;
        if !error {
          status := Saved;
        }
      }
    }
  }

  // ---------------------------------------------------------------------------
  // What a save does to the readers

  /**
   * A debounced write reaches every reader as an UPDATE whose translations are
   * `{}`, which the UPDATE handler takes as present. That only clears the
   * reader's translations: each reader then sees its own current content,
   * untranslated and editable, and a non-English reader with some text sees
   * the waiting badge. The written text reaches a reader only through the
   * typing broadcast.
   */
  lemma WriteClearsTranslations(user: Option<User>, content: string, written: string)
    ensures var w := Upsert(DocId, written, map[]);
      View(user, content, w.translations) == Display(content, false, IsViewer(user) && content != "")
  {
  }
}
