# LingoLive core, modelled in Dafny

LingoLive is a real-time multilingual workspace: a global chat whose messages
are translated into six languages, one shared document that non-English readers
see translated, a JSON file localiser, a presence counter, a
translation-readiness "auditor" and a table of interface labels. This project
models the client-side state machines and the server-side translation pipeline
behind those features, and proves what each of them promises.

One Dafny module per source file:

- `Common` (common.dfy) holds the shared types. These are `Option` (for
  JavaScript's `null`/`undefined`) and the signed-in `User`. It also holds the
  string operations the components call (`trim`, `toLowerCase`, `toUpperCase`,
  `includes`, `endsWith`), the UTF-16 encoding that JavaScript's `length`
  counts, and a generic `Filter` with its lemmas.
- `Chat` (chat.dfy) models the chat history of components/ChatRoom.tsx. Its
  events are the optimistic send, the merge of a background translation, a
  realtime INSERT push and the three-second poll. Each is a method of the
  `ChatRoom` class, proved against a pure function on the history.
- `Lingo` (lingo.dfy) models app/actions/lingo.ts. It covers the glossary guard
  and the sorted-locale cache key. It also covers the three backend paths and
  the in-memory cache, which is the `cache` field of the `Translator` class.
  `BatchSpec` is the outcome of one call as a function, and the lemmas cover
  each path, the key set, the soundness of the cache and idempotence.
- `Document` (document.dfy) models the shared document of
  components/DocumentEditor.tsx. Its parts are the load/join effect, the two
  channel callbacks, local edits with the debounced save, and the `View` a
  reader sees.
- `Presence` (presence.dfy) models app/workspace/page.tsx: the session
  redirect and the online counter fed by presence `sync` events.
- `Auditor` (auditor.dfy) models `analyze` of components/LingoAuditor.tsx. It
  covers the case-insensitive glossary regexes, the sentence split on
  `/[.!?]+/`, the word-count penalty and the token estimate.
- `LingoMock` (lingo_mock.dfy) models lib/lingoMock.ts: the language list, the
  canned translation table and the mock `translateText`.
- `UiStrings` (ui_strings.dfy) models the `T` label component of
  components/LingoCompiler.tsx.
- `FileHub` (file_hub.dfy) models components/FileHub.tsx: file intake, the
  per-key translation of a JSON file, and the download name.

The network, the database and the translation services are parameters:

- A translation backend is a function value whose `None` stands for a call
  that threw.
- A database read is a value of a datatype naming its outcomes.
- A write is returned to the caller as a value.
- Timers and channel events are methods the environment calls.

## Model

| member | source | states |
|---|---|---|
| Common.BlankIffAllSpace | components/ChatRoom.tsx:157 | `!input.trim()` holds exactly when every character of the input is whitespace |
| Chat.AfterPush | components/ChatRoom.tsx:69-91 | a push leaves the history unchanged exactly when the message is from the local user (names compared trimmed and lower-cased) or repeats the last message's id, or its content and author; otherwise the message is appended |
| Chat.IsFromMe | components/ChatRoom.tsx:75 | the origin test: a user is signed in and the message's author equals the user's name once both are trimmed and lower-cased |
| Chat.IsDuplicateOfLast | components/ChatRoom.tsx:82-86 | the duplicate test consults only the last message: same id, or same content and author |
| Chat.AttachTranslations | components/ChatRoom.tsx:186-188 | the merged history, message by message; its meaning is `AttachTranslationsSpec` |
| Chat.AfterPoll | components/ChatRoom.tsx:100-132 | the history after a poll: unchanged when empty, otherwise followed by the fetched rows that pass the origin and known-id filter; its meaning is `PollSpec` |
| Chat.AttachTranslationsSpec | components/ChatRoom.tsx:186-188 | merging a translation keeps the length and order; each message whose id is the temporary id gets the new translations, every other message is unchanged |
| Chat.PollSpec | components/ChatRoom.tsx:100-132 | an empty history is left alone; otherwise the old history is a prefix of the new one, and a message is appended exactly when it was fetched, is not the user's own and has an id the history did not hold |
| Chat.OwnEchoIgnored | components/ChatRoom.tsx:69-125 | the local user's own message is dropped by the push handler and never appended by a poll |
| Chat.PushThenPollOnce | components/ChatRoom.tsx:116-128 | after a push that appends a message, any later poll keeps the pushed history as a prefix and appends nothing with the pushed message's id |
| Chat.PushLocalNoDuplicate | components/ChatRoom.tsx:80-89 | after a push that appends, the last two messages differ in id and in (content, author) |
| Chat.AttachAll | components/ChatRoom.tsx:186-188 | the `map` loop computes exactly the merged history |
| Chat.CollectForeign | components/ChatRoom.tsx:121-125 | the filter loop keeps exactly the fetched messages that pass the origin and known-id tests, in order |
| Chat.ChatRoom.constructor | components/ChatRoom.tsx:24-25 | the history and the input start empty |
| Chat.ChatRoom.Load | components/ChatRoom.tsx:55-62 | the initial fetch replaces the history when rows came back and leaves it otherwise |
| Chat.ChatRoom.SetInput | components/ChatRoom.tsx:340 | typing sets the input |
| Chat.ChatRoom.Send | components/ChatRoom.tsx:155-178 | a message is sent exactly when the input is not blank and a user is signed in; the input is then cleared and one optimistic message (temporary id, no translations) is appended; otherwise nothing changes |
| Chat.ChatRoom.ApplyTranslations | components/ChatRoom.tsx:184-188 | the history becomes the merged history of `AttachTranslationsSpec` |
| Chat.ChatRoom.ReceivePush | components/ChatRoom.tsx:69-91 | the history becomes `AfterPush` of the old history |
| Chat.ChatRoom.Poll | components/ChatRoom.tsx:100-132 | the history becomes `AfterPoll` of the old history, with the known ids taken before filtering |
| Lingo.CheckGlossary | app/actions/lingo.ts:15-20 | the result is "Lingo.dev" exactly when the lower-cased text contains "lingo.dev", "Hackathon" exactly when it contains "hackathon" but not "lingo.dev", and nothing otherwise |
| Lingo.CacheKey | app/actions/lingo.ts:26 | the key: the trimmed, lower-cased text, '-', and the sorted locales joined by ','; its properties are `KeyRoundTrip`, `CacheKeyShared` and `CacheKeyCollision` |
| Lingo.IsMockKey | app/actions/lingo.ts:25 | no API key, an empty one or "mock-lingo-key" selects the per-locale service |
| Lingo.MockEntry | app/actions/lingo.ts:52-65 | a locale's entry on the keyless path: the service's non-empty text, otherwise `[LANG] text` |
| Lingo.Pick | app/actions/lingo.ts:84 | the engine path's fallback per position: the array element when present and non-empty, otherwise the text |
| Lingo.Aligned | app/actions/lingo.ts:82-85 | the engine path's record, filled in locale order so that a later duplicate overwrites; its meaning is `AlignedKeys` and `AlignedAt` |
| Lingo.BatchSpec | app/actions/lingo.ts:24-99 | one call's result and new cache: glossary, then cache hit, then keyless service or engine, then the engine's failure fallback, caching only a non-empty result; its meaning is given by the path lemmas, `KeySet`, `KeySetSound` and `Idempotent` |
| Lingo.InsertSpec | app/actions/lingo.ts:26 | inserting a locale into a sorted list keeps it sorted and adds exactly that locale |
| Lingo.SortLocales | app/actions/lingo.ts:26 | `sort()` yields a sorted permutation of the locales |
| Lingo.SortedUnique | app/actions/lingo.ts:26 | two sorted lists with the same elements and counts are equal, so the sort does not depend on the request order |
| Lingo.SortedElems | app/actions/lingo.ts:26 | sorting keeps the set of locales |
| Lingo.KeyRoundTrip | app/actions/lingo.ts:26 | when every locale is a code with no '-' and no ',', the part of the cache key after its last '-', split on ',', gives back exactly the requested locales |
| Lingo.CacheKeyShared | app/actions/lingo.ts:26 | texts equal after trim and lower-casing, with locale lists that are permutations of each other, get the same key |
| Lingo.CacheKeySingle | app/actions/lingo.ts:26 | the key for one locale is the normalised text, '-', then the locale |
| Lingo.CacheKeyCollision | app/actions/lingo.ts:26 | for a text "t" and a piece "p" that trim and lower-casing leave unchanged, a request for "t-p" in locale "q" and one for "t" in locale "p-q" get the same key, although they ask for different locale sets |
| Lingo.MapOver | app/actions/lingo.ts:32-34 | the `forEach` fill maps exactly the given locales, each to the value computed for it |
| Lingo.AlignedKeys | app/actions/lingo.ts:82-85 | the engine path's result maps exactly the sorted locales |
| Lingo.AlignedAt | app/actions/lingo.ts:82-85 | the last occurrence of a locale takes the array element at its own position, or the text when that element is missing or empty |
| Lingo.GlossaryShortCircuit | app/actions/lingo.ts:29-35 | a glossary hit maps every requested locale to the protected term and leaves the cache unchanged |
| Lingo.CacheHit | app/actions/lingo.ts:38-41 | on a cache hit the stored mapping is returned whatever the backends would answer, and the cache is unchanged |
| Lingo.MockPath | app/actions/lingo.ts:45-72 | without a key, every requested locale gets the service's answer when that is a non-empty text and the tagged original exactly otherwise; the entry is cached exactly when a locale was requested |
| Lingo.EngineOutcome | app/actions/lingo.ts:74-90 | the engine path returns the aligned mapping and caches it exactly when it is non-empty |
| Lingo.EnginePath | app/actions/lingo.ts:74-90 | the engine path maps exactly the requested locales; each locale's entry is its own array element or the text; the entry is cached exactly when a locale was requested |
| Lingo.FailurePath | app/actions/lingo.ts:92-98 | when the engine throws, every requested locale maps to the unmodified text and nothing is cached |
| Lingo.KeySet | app/actions/lingo.ts:24-98 | when the glossary applies or the cache misses, the result maps exactly the requested locales |
| Lingo.KeySetSound | app/actions/lingo.ts:24-98 | with a sound cache and well-formed locale codes, every path, the hit included, maps exactly the requested locales, and the cache stays sound |
| Lingo.Idempotent | app/actions/lingo.ts:26-41 | once a call produced a cached entry (or a glossary hit), repeating it with the locales in any order and any backends gives the same result and cache |
| Lingo.FillConstant | app/actions/lingo.ts:32-34 | the loop maps every locale to one value; it is used for the glossary term and for the failure fallback |
| Lingo.FillFromService | app/actions/lingo.ts:50-66 | the per-locale loop gives each locale the service's text or the tagged original |
| Lingo.FillAligned | app/actions/lingo.ts:82-85 | the index loop gives each locale's last occurrence its own array element, or the text |
| Lingo.Translator.constructor | app/actions/lingo.ts:25 | a missing, empty or "mock-lingo-key" API key selects the per-locale service; the cache starts empty |
| Lingo.Translator.TranslateBatch | app/actions/lingo.ts:24-99 | the result and the new cache are exactly those `BatchSpec` gives for the old cache |
| Lingo.Translator.TranslateText | app/actions/lingo.ts:102-105 | returns the batch result's entry for the one locale; with a sound cache and a well-formed code that entry exists and the cache stays sound |
| Document.ReadOnlyIffTranslated | components/DocumentEditor.tsx:118-149 | the text area is read-only exactly when the reader's language is not English and a non-empty translation into it exists; it then shows that translation, and the raw content otherwise |
| Document.IsViewer | components/DocumentEditor.tsx:118 | `user?.preferredLanguage !== 'en'`: a reader with a non-English language, or no user, is a viewer |
| Document.TranslatedText | components/DocumentEditor.tsx:120 | the translation into the reader's language, with every falsy outcome as the empty text |
| Document.View | components/DocumentEditor.tsx:146-160 | the text shown, the read-only flag and the waiting badge; their meaning is `ReadOnlyIffTranslated` and `WaitingExcludesReadOnly` |
| Document.WaitingExcludesReadOnly | components/DocumentEditor.tsx:160 | the "waiting for translation" badge never shows with the read-only flag, and only over non-empty raw content |
| Document.EnglishEditsContent | components/DocumentEditor.tsx:118-149 | an English reader always edits the raw content, with no badge |
| Document.NoTranslationsShowContent | components/DocumentEditor.tsx:52 | with the translations cleared, every reader sees the live text, editable |
| Document.DocumentEditor.constructor | components/DocumentEditor.tsx:12-18 | empty text and translations, status "Saved", no channel and no write pending |
| Document.DocumentEditor.Load | components/DocumentEditor.tsx:21-67 | without a user or in the demo mode nothing happens; otherwise a found row sets the content and translations (missing translations as `{}`), a missing row ("PGRST116") yields the insert of an empty document 1, another error changes nothing, and the channel is joined, a new one being opened only when none was |
| Document.DocumentEditor.Leave | components/DocumentEditor.tsx:72-77 | the cleanup leaves no channel joined |
| Document.DocumentEditor.ReceiveTyping | components/DocumentEditor.tsx:48-54 | a broadcast with content replaces the text and clears the translations; one without content changes nothing |
| Document.DocumentEditor.ReceiveUpdate | components/DocumentEditor.tsx:55-61 | an UPDATE replaces the translations only when the row carries them, and never touches the content |
| Document.DocumentEditor.Edit | components/DocumentEditor.tsx:83-103 | a keystroke sets the text and "Saving..."; outside the demo mode it is broadcast when a channel is joined, and the pending write is replaced by one with the new text |
| Document.DocumentEditor.FireFallbackTimer | components/DocumentEditor.tsx:88-90 | the demo mode's timer marks the text saved |
| Document.DocumentEditor.FireDebounce | components/DocumentEditor.tsx:103-113 | the armed timer upserts document 1 with the pending text and empty translations; the status becomes "Saved" only when the write reported no error |
| Document.WriteClearsTranslations | components/DocumentEditor.tsx:55-61 | the debounced write's UPDATE carries `{}`, which only clears a reader's translations: every reader then sees its own current content, editable, with the waiting badge exactly for a non-English reader with some text |
| Presence.OnlineCount | app/workspace/page.tsx:41-42 | the count equals the number of presence keys when there is any, and is 1 for an empty state |
| Presence.CountsDistinctNames | app/workspace/page.tsx:29-43 | with connections keyed by user name, the counter shows the number of distinct names online, and 1 for none |
| Presence.SameNameCountsOnce | app/workspace/page.tsx:31-42 | a second connection under a name already online leaves the count unchanged |
| Presence.NewNameCountsOneMore | app/workspace/page.tsx:31-42 | a connection under a new name makes the count the old number of names plus one |
| Presence.RedirectIffBlank | app/workspace/page.tsx:18-64 | the page navigates to '/' exactly when it renders nothing, and it renders the workspace only with a user |
| Presence.ScreenOf | app/workspace/page.tsx:58-64 | a spinner while loading, nothing without a user, the workspace otherwise |
| Presence.Redirects | app/workspace/page.tsx:18-22 | the redirect effect fires when loading is over and there is no user |
| Presence.Workspace.constructor | app/workspace/page.tsx:16 | the counter starts at 1 with no channel |
| Presence.Workspace.Subscribe | app/workspace/page.tsx:25-35 | with a user, the channel is keyed by the user's name; without one nothing happens |
| Presence.Workspace.Unsubscribe | app/workspace/page.tsx:53-55 | the cleanup leaves no channel |
| Presence.Workspace.Sync | app/workspace/page.tsx:38-43 | a sync sets the counter to the number of keys, or 1 when there are none, and the counter stays at least 1 |
| Auditor.SplitSentences | components/LingoAuditor.tsx:48 | `split` yields at least one piece |
| Auditor.SplitSentencesConcat | components/LingoAuditor.tsx:48 | the pieces of the split, put back together, are the text with every '.', '!' and '?' removed |
| Auditor.SplitSentencesPlain | components/LingoAuditor.tsx:48 | no piece of the split contains a terminator |
| Auditor.SplitStep | components/LingoAuditor.tsx:48 | the first piece is the text before the first terminator, and the rest is the split of what follows that run of terminators |
| Auditor.CountGlossary | components/LingoAuditor.tsx:31-37 | the loop counts the glossary patterns that match the text's UTF-16 code units |
| Auditor.CountTooLong | components/LingoAuditor.tsx:49-55 | the loop counts the sentences that are too long, and the score has lost 10 points for each |
| Auditor.Analyze | components/LingoAuditor.tsx:19-65 | the audit is `AuditOf(text)`: 100, no log lines and no tokens for empty text; otherwise the glossary count over UTF-16 code units, the token estimate from the code-unit length, and the complexity result |
| Auditor.AuditOf | components/LingoAuditor.tsx:19-65 | the audit of a text: score, log lines and token count; its meaning is `AuditShape`, `ScoreIffOptimal` and `TokensRoundUp` |
| Auditor.RegexTest | components/LingoAuditor.tsx:34 | `new RegExp(term, 'i').test(text)`: the pattern matches at some code-unit position, with `.` any unit but a line terminator and ASCII letters compared without case |
| Auditor.TokenEstimate | components/LingoAuditor.tsx:43 | `Math.ceil(length / 4)` on a non-negative length |
| Auditor.Sentences | components/LingoAuditor.tsx:48 | the pieces of the split that are not blank after trimming |
| Auditor.WordCount | components/LingoAuditor.tsx:51 | `s.split(' ').length`: one more than the number of spaces |
| Auditor.TooLongCount | components/LingoAuditor.tsx:49-55 | the number of sentences with more than twenty parts; its meaning is `TooLongCountBound` |
| Auditor.MatchCountBound | components/LingoAuditor.tsx:31-40 | the glossary count is at most the number of terms, and positive exactly when some term matches |
| Auditor.TooLongCountBound | components/LingoAuditor.tsx:49-61 | the count of long sentences is at most the number of sentences, and zero exactly when none is too long |
| Auditor.AuditShape | components/LingoAuditor.tsx:19-64 | empty text gives score 100, no log and no tokens; otherwise the score is in [0, 100]; the log has the branding line (with at most 3 terms) exactly when some term matched, and then always ends with the complexity line |
| Auditor.ScoreIffOptimal | components/LingoAuditor.tsx:49-63 | the score is 100 exactly when no sentence is too long, and the last log line is "optimal" exactly then |
| Auditor.TokensRoundUp | components/LingoAuditor.tsx:43 | the token count is `text.length`, the number of UTF-16 code units, divided by four and rounded up; a character outside the Basic Multilingual Plane counts twice |
| Auditor.TooLongIffSpaces | components/LingoAuditor.tsx:51 | a sentence is too long exactly when it has at least twenty spaces |
| Auditor.WildcardMatches | components/LingoAuditor.tsx:34 | the unescaped '.' in 'Lingo.dev' is a wildcard: "lingo-dev" passes the test |
| Auditor.WildcardTakesOneUnit | components/LingoAuditor.tsx:34 | `.` consumes one UTF-16 code unit, half of a surrogate pair, so "lingo😀dev" fails the 'Lingo.dev' test |
| Auditor.AstralDefeatsWildcard | components/LingoAuditor.tsx:34 | for any five-character text inside the Basic Multilingual Plane whose second character is 'i', followed by a character outside it and three more characters, the 'Lingo.dev' test fails |
| Auditor.Summarize | components/LingoAuditor.tsx:38-64 | once both loops have run, the log lines, the score floored at 0 and the token estimate are `Report` of the two counts and the code-unit length |
| Auditor.TokensCountUnits | components/LingoAuditor.tsx:43 | three emoji are six code units, so the estimate is two tokens |
| Common.UnitsOf | components/LingoAuditor.tsx:43 | a character is one code unit below U+10000 and otherwise a high and a low surrogate from which it can be recovered |
| Common.Utf16Length | components/LingoAuditor.tsx:43 | `text.length` is the number of characters plus the number of characters outside the Basic Multilingual Plane |
| Common.Utf16After | components/LingoAuditor.tsx:34 | after a prefix inside the Basic Multilingual Plane, a character's code units start at the prefix's length |
| Common.Utf16Bmp | components/LingoAuditor.tsx:43 | a text inside the Basic Multilingual Plane has one code unit per character, its code point |
| LingoMock.LanguageCodes | lib/lingoMock.ts:3-10 | the languages are en, es, fr, de, ja and ne, in that order, with no code listed twice |
| LingoMock.Lookup | lib/lingoMock.ts:53 | `translations[text]?.[targetLang]`, with a missing entry as the empty text |
| LingoMock.MockTranslate | lib/lingoMock.ts:46-60 | the mock `translateText`: the two greeting fixes, then the table, then the tagged text; its meaning is `TableOrTagged` |
| LingoMock.GreetingsInEnglish | lib/lingoMock.ts:50-51 | both greetings translate to "Hello Rupesh" in English |
| LingoMock.SpecialCasesAgreeWithTable | lib/lingoMock.ts:12-43 | the table's English entries for the two greetings are the hard-wired answers |
| LingoMock.TableOrTagged | lib/lingoMock.ts:46-60 | the mock answers with the table's entry when there is one, and the tagged text otherwise, so the special cases change nothing |
| LingoMock.UnknownTextTagged | lib/lingoMock.ts:56-59 | a text the table lacks comes back as `[LANG] text`, with the language code upper-cased |
| UiStrings.T | components/LingoCompiler.tsx:40-48 | the label renders as itself or as one of that label's table entries |
| UiStrings.Lookup | components/LingoCompiler.tsx:46 | `uiTranslations[children]?.[lang]`, with a missing entry as the empty text |
| UiStrings.EnglishOrAnonymousUnchanged | components/LingoCompiler.tsx:43 | without a user, or for an English reader, the label is shown as written |
| UiStrings.TranslatedWhenKnown | components/LingoCompiler.tsx:46-47 | a label the table holds in the reader's language is shown translated |
| UiStrings.MissingFallsBack | components/LingoCompiler.tsx:46-47 | a label missing from the table, or missing in the reader's language, falls back to itself |
| UiStrings.TypeInNotInNepali | components/LingoCompiler.tsx:5-38 | "Type in" has no Nepali entry, so a Nepali reader sees it in English |
| FileHub.IndexOfSub | components/FileHub.tsx:126 | the position `replace` uses is the first occurrence of the pattern, and there is none when it is absent |
| FileHub.ReplaceFirst | components/FileHub.tsx:126 | `replace` with a string pattern: only the first occurrence is replaced, and a text without one is unchanged |
| FileHub.DownloadName | components/FileHub.tsx:126 | the saved name: the first ".json" replaced by `.<lang>.json`; its meaning is `DownloadNameOfJson` and `DownloadNameWithoutJson` |
| FileHub.DownloadNameOfJson | components/FileHub.tsx:126 | a name whose only ".json" is its extension is saved as `stem.<lang>.json` |
| FileHub.DownloadNameWithoutJson | components/FileHub.tsx:126 | a name without ".json" is saved unchanged |
| FileHub.TranslateAllSpec | components/FileHub.tsx:100-112 | the translation succeeds exactly when every per-key call succeeds; then it has the file's keys, each mapped to its value's translation |
| FileHub.TranslateAll | components/FileHub.tsx:100-112 | the per-key result: every value translated when every call succeeds, nothing otherwise; its meaning is `TranslateAllSpec` |
| FileHub.TranslateEach | components/FileHub.tsx:100-109 | the per-key loop gives exactly `TranslateAll` |
| FileHub.FileHub.constructor | components/FileHub.tsx:12-16 | no file, content or result; status idle; target "es" |
| FileHub.FileHub.HandleFile | components/FileHub.tsx:47-61 | the file is kept; parsed JSON replaces the content, clears the result and resets the status; unparseable text changes nothing else |
| FileHub.FileHub.Drop | components/FileHub.tsx:36-45 | a drop is accepted exactly when a file came with a name ending in ".json", and is then handled; otherwise nothing changes |
| FileHub.FileHub.SetTarget | components/FileHub.tsx:185 | the language button sets the target language |
| FileHub.FileHub.Reset | components/FileHub.tsx:172 | file, content and result are cleared |
| FileHub.FileHub.StartTranslation | components/FileHub.tsx:63-118 | without content nothing happens; more than 50 values, a failed joined call or any failed per-key call sends the status to idle with the result unchanged; otherwise the result is `TranslateAll` and the status is done |
| FileHub.FileHub.Download | components/FileHub.tsx:120-128 | something is saved exactly when a result and a file exist; it is the translated map under the download name |

## Left out

- Network, database, realtime channels, timers, `localStorage`, `FileReader`,
  `Blob` and DOM downloads are left out. Their outcomes are parameters or
  returned values, and timer and channel callbacks are methods the environment
  calls.
- Concurrency is not modelled. `Promise.all` over per-locale or per-key calls
  is a sequential loop. Since each call writes only its own key, the result is
  the same. Interleavings of asynchronous callbacks are not modelled either,
  e.g. a translation arriving after the history was replaced.
- The MyMemory service and the Lingo SDK engine are not modelled. They are
  function-valued oracles, and a thrown call is `None`.
- The mock's 300 ms delay, console logging, the `context` argument (used only
  in log lines) and the audit log's wording are not modelled. The log is a
  datatype carrying the counts.
- Common.Lower, Common.Upper: case mapping covers ASCII letters only, where
  JavaScript maps all of Unicode.
- Common.IsSpace: `trim` strips a fixed set of whitespace characters, not every
  Unicode space separator.
- Lingo.SortLocales: `targetLocales.sort()` sorts the caller's array in place;
  the model sorts a copy, so the reordering of the caller's array is not
  modelled. The callers in this core pass fresh arrays.
- Lingo.StrLe: the sort compares characters, not the UTF-16 code units of
  `Array.prototype.sort`. The two orders differ only outside the Basic
  Multilingual Plane.
- Lingo.KeySetSound: on a cache hit, the exact key set is proved only for locale
  codes with no '-' and no ','. Other codes can make two requests share a key,
  as Lingo.CacheKeyCollision shows.
- Chat.IsFromMe: a message whose `user_name` is null is not modelled. In the
  source, such a message from a visitor with no user compares equal. The push
  handler drops it, and so does the poll filter
  (components/ChatRoom.tsx:116, 122-123).
- Chat.ChatRoom.ApplyTranslations: the demo mode's local-storage copy
  (components/ChatRoom.tsx:190-194) is not modelled. That copy rebuilds the
  history from the send-time closure. The insert into the `messages` table is
  not modelled either.
- FileHub.FileHub.StartTranslation: the preliminary joined call is only a
  failure flag, because its result is discarded. A per-key batch missing the
  target locale (JavaScript `undefined`) is not modelled.
- FileHub.FileHub.HandleFile: parsed JSON is a map from keys to strings. Nested
  objects and non-string values are not modelled.
- The drag-highlight state, the cost estimate's `toFixed` text, and rendering
  other than the values `View` and `ScreenOf` compute are not modelled.
- The command-line scripts (scripts/), lib/lingo.ts, context/UserContext.tsx and
  lingo.config.js are not part of this model. The user context appears only as
  the `Option<User>` each operation receives.
