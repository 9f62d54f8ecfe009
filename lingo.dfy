/**
 * The server-side translation pipeline (app/actions/lingo.ts): a glossary
 * guard, then a memo cache keyed by a normalised fingerprint of the text and
 * the sorted locales, then one of three backend paths (the free per-locale
 * service used when no API key is configured, the batched engine, and the
 * engine's failure fallback). The cache is the `cache` field of `Translator`;
 * the two backends are function-valued parameters whose `None` stands for a
 * call that threw (or, for the per-locale service, answered without text).
 */
module Lingo {
  import opened Common

  // ---------------------------------------------------------------------------
  // Glossary guard

  /** Protected terms: a text mentioning one of them is never sent for translation. */
  function CheckGlossary(text: string): (r: Option<string>)
    ensures r == Some("Lingo.dev") <==> Contains(Lower(text), "lingo.dev")
    ensures r == Some("Hackathon") <==> !Contains(Lower(text), "lingo.dev") && Contains(Lower(text), "hackathon")
    ensures r.None? <==> !Contains(Lower(text), "lingo.dev") && !Contains(Lower(text), "hackathon")
  {
    var lower := Lower(text);
    if Contains(lower, "lingo.dev") then Some("Lingo.dev")
    else if Contains(lower, "hackathon") then Some("Hackathon")
    else None
  }

  // ---------------------------------------------------------------------------
  // Sorting locales as `Array.prototype.sort` does by default (code-unit order)

  predicate StrLe(a: string, b: string)
    decreases |a|
  {
    a == [] || (b != [] && (a[0] < b[0] || (a[0] == b[0] && StrLe(a[1..], b[1..]))))
  }

  lemma StrLeTotal(a: string, b: string)
    ensures StrLe(a, b) || StrLe(b, a)
  {
  }

  lemma StrLeAntisymmetric(a: string, b: string)
    requires StrLe(a, b) && StrLe(b, a)
    ensures a == b
  {
    if a != [] && b != [] {
      StrLeAntisymmetric(a[1..], b[1..]);
      assert a == [a[0]] + a[1..] && b == [b[0]] + b[1..];
    }
  }

  lemma StrLeTransitive(a: string, b: string, c: string)
    requires StrLe(a, b) && StrLe(b, c)
    ensures StrLe(a, c)
  {
    if a != [] && b != [] && c != [] && a[0] == b[0] == c[0] {
      StrLeTransitive(a[1..], b[1..], c[1..]);
    }
  }

  predicate Sorted(s: seq<string>) {
    forall i, j :: 0 <= i < j < |s| ==> StrLe(s[i], s[j])
  }

  /** Insertion of one locale into a sorted list. */
  function Insert(x: string, s: seq<string>): seq<string> {
    if s == [] then [x]
    else if StrLe(x, s[0]) then [x] + s
    else [s[0]] + Insert(x, s[1..])
  }

  lemma SortedCons(h: string, t: seq<string>)
    requires Sorted(t) && forall y :: y in t ==> StrLe(h, y)
    ensures Sorted([h] + t)
  {
    var r := [h] + t;
    forall i, j | 0 <= i < j < |r| ensures StrLe(r[i], r[j]) {
      assert r[j] == t[j - 1];
      if i > 0 {
        assert r[i] == t[i - 1];
      }
    }
  }

  /** Insertion keeps a list sorted and adds exactly the one element. */
  lemma {:induction false} InsertSpec(x: string, s: seq<string>)
    requires Sorted(s)
    ensures Sorted(Insert(x, s)) && multiset(Insert(x, s)) == multiset(s) + multiset{x}
  {
    if s == [] {
    } else if StrLe(x, s[0]) {
      forall y | y in s ensures StrLe(x, y) {
        SortedHeadIsLeast(s, y);
        StrLeTransitive(x, s[0], y);
      }
      SortedCons(x, s);
      assert multiset([x] + s) == multiset{x} + multiset(s);
    } else {
      StrLeTotal(x, s[0]);
      SortedTail(s);
      InsertSpec(x, s[1..]);
      var rest := Insert(x, s[1..]);
      assert s == [s[0]] + s[1..];
      forall y | y in rest ensures StrLe(s[0], y) {
        assert y in multiset(rest);
        if y != x {
          assert y in s[1..];
          SortedHeadIsLeast(s, y);
        }
      }
      SortedCons(s[0], rest);
      assert Insert(x, s) == [s[0]] + rest;
    }
  }

  /** `locales.sort()`: the same elements, in ascending order. */
  function SortLocales(s: seq<string>): (r: seq<string>)
    ensures Sorted(r) && multiset(r) == multiset(s)
  {
    if s == [] then []
    else
      assert s == [s[0]] + s[1..];
      InsertSpec(s[0], SortLocales(s[1..]));
      Insert(s[0], SortLocales(s[1..]))
  }

  lemma SortedHeadIsLeast(a: seq<string>, x: string)
    requires Sorted(a) && x in a
    ensures StrLe(a[0], x)
  {
    var i :| 0 <= i < |a| && a[i] == x;
    if i == 0 {
      StrLeTotal(x, x);
    }
  }

  lemma SortedTail(a: seq<string>)
    requires Sorted(a) && a != []
    ensures Sorted(a[1..])
  {
  }

  lemma TailMultiset(a: seq<string>, b: seq<string>)
    requires a != [] && b != [] && a[0] == b[0] && multiset(a) == multiset(b)
    ensures multiset(a[1..]) == multiset(b[1..])
  {
    assert a == [a[0]] + a[1..] && b == [b[0]] + b[1..];
    assert multiset(a[1..]) == multiset(a) - multiset{a[0]};
    assert multiset(b[1..]) == multiset(b) - multiset{b[0]};
  }

  /** A sorted arrangement of a multiset is unique. */
  lemma {:induction false} SortedUnique(a: seq<string>, b: seq<string>)
    requires Sorted(a) && Sorted(b) && multiset(a) == multiset(b)
    ensures a == b
  {
    if a == [] {
      assert |multiset(b)| == 0;
    } else {
      assert a[0] in multiset(b);
      assert b != [];
      assert b[0] in multiset(a);
      SortedHeadIsLeast(a, b[0]);
      SortedHeadIsLeast(b, a[0]);
      StrLeAntisymmetric(a[0], b[0]);
      TailMultiset(a, b);
      SortedTail(a);
      SortedTail(b);
      SortedUnique(a[1..], b[1..]);
      assert a == [a[0]] + a[1..] && b == [b[0]] + b[1..];
    }
  }

  lemma SortedElems(s: seq<string>)
    ensures Elems(SortLocales(s)) == Elems(s)
  {
    var r := SortLocales(s);
    assert forall x :: x in r <==> x in multiset(r);
    assert forall x :: x in s <==> x in multiset(s);
  }

  // ---------------------------------------------------------------------------
  // The cache key and what can be read back from it

  function Join(parts: seq<string>, sep: char): string {
    if |parts| == 0 then ""
    else if |parts| == 1 then parts[0]
    else parts[0] + [sep] + Join(parts[1..], sep)
  }

  /** `${text.trim().toLowerCase()}-${locales.sort().join(',')}` */
  function CacheKey(text: string, locales: seq<string>): string {
    Lower(Trim(text)) + "-" + Join(SortLocales(locales), ',')
  }

  function IndexOf(s: string, c: char): (i: nat)
    requires c in s
    ensures i < |s| && s[i] == c && c !in s[..i]
  {
    if s[0] == c then 0 else 1 + IndexOf(s[1..], c)
  }

  /** `s.split(c)` for a one-character separator. */
  function SplitOn(s: string, c: char): seq<string>
    decreases |s|
  {
    if c !in s then [s]
    else
      var i := IndexOf(s, c);
      [s[..i]] + SplitOn(s[i + 1..], c)
  }

  /** The part of `s` after its last `c` (all of `s` when it has none). */
  function AfterLast(s: string, c: char): string {
    if s == [] then []
    else if s[|s| - 1] == c then []
    else AfterLast(s[..|s| - 1], c) + [s[|s| - 1]]
  }

  /** The locale set a cache key was built from, when the locales were well-formed codes. */
  function LocalesOfKey(key: string): set<string> {
    var tail := AfterLast(key, '-');
    if tail == "" then {} else Elems(SplitOn(tail, ','))
  }

  /** Locale codes such as `en` or `ja`: non-empty, with neither of the key's separators. */
  predicate LocaleCode(l: string) {
    l != "" && '-' !in l && ',' !in l
  }

  lemma {:induction false} JoinAvoids(parts: seq<string>, sep: char, c: char)
    requires c != sep && forall p :: p in parts ==> c !in p
    ensures c !in Join(parts, sep)
  {
    if |parts| > 1 {
      JoinAvoids(parts[1..], sep, c);
    }
  }

  lemma {:induction false} AfterLastOf(t: string, c: char, tail: string)
    requires c !in tail
    ensures AfterLast(t + [c] + tail, c) == tail
  {
    var s := t + [c] + tail;
    if tail == [] {
    } else {
      var n := |tail|;
      assert s[|s| - 1] == tail[n - 1];
      assert s[..|s| - 1] == t + [c] + tail[..n - 1];
      AfterLastOf(t, c, tail[..n - 1]);
      assert tail == tail[..n - 1] + [tail[n - 1]];
    }
  }

  lemma {:induction false} SplitJoin(parts: seq<string>, c: char)
    requires |parts| > 0 && forall p :: p in parts ==> c !in p
    ensures SplitOn(Join(parts, c), c) == parts
  {
    if |parts| > 1 {
      var rest := Join(parts[1..], c);
      var s := parts[0] + [c] + rest;
      assert parts[0] in parts;
      assert s[|parts[0]|] == c;
      var i := IndexOf(s, c);
      assert s[..|parts[0]|] == parts[0];
      assert i == |parts[0]|;
      assert s[..i] == parts[0];
      assert s[i + 1..] == rest;
      SplitJoin(parts[1..], c);
      assert parts == [parts[0]] + parts[1..];
    } else {
      assert parts[0] in parts;
    }
  }

  /** With well-formed locale codes, the key determines the requested locale set. */
  lemma KeyRoundTrip(text: string, locales: seq<string>)
    requires forall l :: l in locales ==> LocaleCode(l)
    ensures LocalesOfKey(CacheKey(text, locales)) == Elems(locales)
  {
    var sorted := SortLocales(locales);
    SortedElems(locales);
    forall p | p in sorted ensures LocaleCode(p) {
      assert p in Elems(sorted);
    }
    JoinAvoids(sorted, ',', '-');
    var joined := Join(sorted, ',');
    AfterLastOf(Lower(Trim(text)), '-', joined);
    assert CacheKey(text, locales) == Lower(Trim(text)) + ['-'] + joined;
    if sorted == [] {
      assert Elems(locales) == {};
    } else {
      assert sorted[0] in sorted;
      assert joined != "" by {
        if |sorted| > 1 {
          assert |joined| >= |sorted[0]|;
        }
      }
      SplitJoin(sorted, ',');
    }
  }

  /** Texts equal up to surrounding whitespace and ASCII case, and locale lists equal up to order, share an entry. */
  lemma CacheKeyShared(t1: string, l1: seq<string>, t2: string, l2: seq<string>)
    requires Lower(Trim(t1)) == Lower(Trim(t2))
    requires multiset(l1) == multiset(l2)
    ensures CacheKey(t1, l1) == CacheKey(t2, l2)
  {
    SortedUnique(SortLocales(l1), SortLocales(l2));
  }

  lemma CacheKeySingle(text: string, locale: string)
    ensures CacheKey(text, [locale]) == Lower(Trim(text)) + "-" + locale
  {
    assert [locale][1..] == [];
  }

  /** A text that `trim().toLowerCase()` leaves as it is. */
  predicate Normalised(text: string) {
    |text| > 0 && !IsSpace(text[0]) && !IsSpace(text[|text| - 1]) &&
    forall i :: 0 <= i < |text| ==> !('A' <= text[i] <= 'Z')
  }

  lemma NormalisedAsIs(text: string)
    requires Normalised(text)
    ensures Lower(Trim(text)) == text
  {
    assert TrimStart(text) == text;
    assert TrimEnd(text) == text;
    LowerOfLowercase(text);
  }

  lemma NormalisedDashed(a: string, b: string)
    requires Normalised(a) && Normalised(b)
    ensures Normalised(a + "-" + b)
  {
    var t := a + "-" + b;
    forall i | 0 <= i < |t| ensures !('A' <= t[i] <= 'Z') {
      if i < |a| {
        assert t[i] == a[i];
      } else if i > |a| {
        assert t[i] == b[i - |a| - 1];
      }
    }
  }

  /**
   * Without well-formed locale codes the key is ambiguous: a request for
   * `text-p` in locale `q` and one for `text` in locale `p-q` (for instance
   * "hi-zh" in `cn` and "hi" in `zh-cn`) share an entry, although they ask
   * for different locale sets.
   */
  lemma CacheKeyCollision(text: string, p: string, q: string)
    requires Normalised(text) && Normalised(p)
    ensures CacheKey(text + "-" + p, [q]) == CacheKey(text, [p + "-" + q])
    ensures Elems([q]) != Elems([p + "-" + q])
  {
    var t := text + "-" + p;
    NormalisedDashed(text, p);
    NormalisedAsIs(t);
    NormalisedAsIs(text);
    CacheKeySingle(t, q);
    CacheKeySingle(text, p + "-" + q);
    assert t + "-" + q == text + "-" + (p + "-" + q);
    assert q in Elems([q]);
    assert |p + "-" + q| != |q|;
  }

  // ---------------------------------------------------------------------------
  // The backends and the result of each path

  /**
   * `myMemory(text, source, target)` is the per-locale service's translated
   * text; `engine(text, source, targets)` is the batched engine's array,
   * positionally aligned with `targets`. `None` is a call that threw.
   */
  datatype Backends = Backends(
    myMemory: (string, string, string) -> Option<string>,
    engine: (string, string, seq<string>) -> Option<seq<string>>)

  /** `!KEY || KEY === 'mock-lingo-key'`: no usable API key selects the per-locale service. */
  predicate IsMockKey(apiKey: Option<string>) {
    apiKey.None? || apiKey.value == "" || apiKey.value == "mock-lingo-key"
  }

  function MapOver(langs: seq<string>, f: string -> string): (r: map<string, string>)
    ensures r.Keys == Elems(langs)
    ensures forall l :: l in r ==> r[l] == f(l)
  {
    map l | l in langs :: f(l)
  }

  /** The per-locale service's entry: its text when it gave one, the tagged original otherwise. */
  function MockEntry(text: string, source: string, lang: string, myMemory: (string, string, string) -> Option<string>): string {
    var answer := myMemory(text, source, lang);
    if answer.Some? && answer.value != "" then answer.value else Tagged(lang, text)
  }

  /** `translationsArray[index] || text` */
  function Pick(arr: seq<string>, index: nat, text: string): string {
    if index < |arr| && arr[index] != "" then arr[index] else text
  }

  /** The engine path's `forEach`: locale `langs[i]` gets element `i`, a later duplicate overwriting. */
  function Aligned(langs: seq<string>, arr: seq<string>, text: string): map<string, string> {
    if langs == [] then map[]
    else
      var n := |langs| - 1;
      Aligned(langs[..n], arr, text)[langs[n] := Pick(arr, n, text)]
  }

  lemma {:induction false} AlignedKeys(langs: seq<string>, arr: seq<string>, text: string)
    ensures Aligned(langs, arr, text).Keys == Elems(langs)
  {
    if langs != [] {
      var n := |langs| - 1;
      AlignedKeys(langs[..n], arr, text);
      assert langs == langs[..n] + [langs[n]];
      assert Elems(langs) == Elems(langs[..n]) + {langs[n]};
    }
  }

  /** The last occurrence of a locale decides its entry. */
  lemma {:induction false} AlignedAt(langs: seq<string>, arr: seq<string>, text: string, i: nat)
    requires i < |langs| && langs[i] !in langs[i + 1..]
    ensures langs[i] in Aligned(langs, arr, text) && Aligned(langs, arr, text)[langs[i]] == Pick(arr, i, text)
  {
    var n := |langs| - 1;
    if i < n {
      assert langs[n] in langs[i + 1..];
      assert langs[..n][i + 1..] == langs[i + 1..n];
      AlignedAt(langs[..n], arr, text, i);
    }
  }

  datatype BatchOutcome = BatchOutcome(results: map<string, string>, cache: map<string, map<string, string>>)

  /** What one `translateTextBatchServer` call returns and leaves in the cache. */
  function BatchSpec(cache: map<string, map<string, string>>, isMock: bool, text: string, locales: seq<string>,
                     source: string, backends: Backends): BatchOutcome
  {
    var sorted := SortLocales(locales);
    var key := CacheKey(text, locales);
    var glossary := CheckGlossary(text);
    if glossary.Some? then
      BatchOutcome(MapOver(sorted, _ => glossary.value), cache)
    else if key in cache then
      BatchOutcome(cache[key], cache)
    else if isMock then
      var results := MapOver(sorted, l => MockEntry(text, source, l, backends.myMemory));
      BatchOutcome(results, if |results| > 0 then cache[key := results] else cache)
    else
      var answer := backends.engine(text, source, sorted);
      if answer.Some? then
        var results := Aligned(sorted, answer.value, text);
        BatchOutcome(results, if |results| > 0 then cache[key := results] else cache)
      else
        BatchOutcome(MapOver(sorted, _ => text), cache)
  }

  /** Every entry of the cache maps exactly the locales its key was built from. */
  ghost predicate CacheSound(cache: map<string, map<string, string>>) {
    forall k :: k in cache ==> cache[k].Keys == LocalesOfKey(k)
  }

  // ---------------------------------------------------------------------------
  // Properties of one call

  /** A glossary hit maps every requested locale to the protected term and leaves the cache alone. */
  lemma GlossaryShortCircuit(cache: map<string, map<string, string>>, isMock: bool, text: string, locales: seq<string>,
                             source: string, backends: Backends)
    requires CheckGlossary(text).Some?
    ensures var o := BatchSpec(cache, isMock, text, locales, source, backends);
      o.cache == cache && o.results.Keys == Elems(locales) &&
      forall l :: l in o.results ==> o.results[l] == CheckGlossary(text).value
  {
    SortedElems(locales);
  }

  /** A cache hit returns the stored mapping, whatever the backends would answer, and writes nothing. */
  lemma CacheHit(cache: map<string, map<string, string>>, isMock: bool, text: string, locales: seq<string>,
                 source: string, backends: Backends)
    requires CheckGlossary(text).None? && CacheKey(text, locales) in cache
    ensures BatchSpec(cache, isMock, text, locales, source, backends) == BatchOutcome(cache[CacheKey(text, locales)], cache)
  {
  }

  /**
   * Without a key, every locale gets the service's answer when it is a
   * non-empty text and the tagged original otherwise; the entry is cached iff
   * a locale was asked for.
   */
  lemma MockPath(cache: map<string, map<string, string>>, text: string, locales: seq<string>,
                 source: string, backends: Backends)
    requires CheckGlossary(text).None? && CacheKey(text, locales) !in cache
    ensures var o := BatchSpec(cache, true, text, locales, source, backends);
      o.results.Keys == Elems(locales) &&
      (forall l :: l in o.results ==>
        var answer := backends.myMemory(text, source, l);
        o.results[l] == if answer.Some? && answer.value != "" then answer.value else Tagged(l, text)) &&
      (CacheKey(text, locales) in o.cache <==> |locales| > 0) &&
      (|locales| > 0 ==> o.cache == cache[CacheKey(text, locales) := o.results])
  {
    SortedElems(locales);
    var o := BatchSpec(cache, true, text, locales, source, backends);
    if |locales| > 0 {
      assert locales[0] in Elems(locales);
    } else {
      assert Elems(locales) == {};
    }
  }

  lemma EngineOutcome(cache: map<string, map<string, string>>, text: string, locales: seq<string>,
                      source: string, backends: Backends, arr: seq<string>)
    requires CheckGlossary(text).None? && CacheKey(text, locales) !in cache
    requires backends.engine(text, source, SortLocales(locales)) == Some(arr)
    ensures var results := Aligned(SortLocales(locales), arr, text);
      BatchSpec(cache, false, text, locales, source, backends) ==
        BatchOutcome(results, if |results| > 0 then cache[CacheKey(text, locales) := results] else cache)
  {
  }

  /** The engine's answer is aligned with the sorted locales, an absent or empty element falling back to the text. */
  lemma EnginePath(cache: map<string, map<string, string>>, text: string, locales: seq<string>,
                   source: string, backends: Backends, arr: seq<string>)
    requires CheckGlossary(text).None? && CacheKey(text, locales) !in cache
    requires backends.engine(text, source, SortLocales(locales)) == Some(arr)
    ensures var o := BatchSpec(cache, false, text, locales, source, backends);
      var sorted := SortLocales(locales);
      o.results.Keys == Elems(locales) &&
      (forall i :: 0 <= i < |sorted| && sorted[i] !in sorted[i + 1..] ==>
        sorted[i] in o.results && o.results[sorted[i]] == Pick(arr, i, text)) &&
      (CacheKey(text, locales) in o.cache <==> |locales| > 0)
  {
    var sorted := SortLocales(locales);
    var results := Aligned(sorted, arr, text);
    EngineOutcome(cache, text, locales, source, backends, arr);
    SortedElems(locales);
    AlignedKeys(sorted, arr, text);
    assert results.Keys == Elems(locales);
    forall i | 0 <= i < |sorted| && sorted[i] !in sorted[i + 1..]
      ensures sorted[i] in results && results[sorted[i]] == Pick(arr, i, text)
    {
      AlignedAt(sorted, arr, text, i);
    }
    assert |results| > 0 <==> |locales| > 0 by {
      if |locales| > 0 {
        assert locales[0] in results;
      } else {
        assert results.Keys == {};
      }
    }
  }

  /** When the engine throws, every locale maps to the unmodified text and nothing is cached. */
  lemma FailurePath(cache: map<string, map<string, string>>, text: string, locales: seq<string>,
                    source: string, backends: Backends)
    requires CheckGlossary(text).None? && CacheKey(text, locales) !in cache
    requires backends.engine(text, source, SortLocales(locales)).None?
    ensures var o := BatchSpec(cache, false, text, locales, source, backends);
      o.cache == cache && o.results.Keys == Elems(locales) && forall l :: l in o.results ==> o.results[l] == text
  {
    SortedElems(locales);
  }

  /** When the cache is not consulted, or misses, every path answers exactly the requested locales. */
  lemma KeySet(cache: map<string, map<string, string>>, isMock: bool, text: string, locales: seq<string>,
               source: string, backends: Backends)
    requires CheckGlossary(text).Some? || CacheKey(text, locales) !in cache
    ensures BatchSpec(cache, isMock, text, locales, source, backends).results.Keys == Elems(locales)
  {
    if CheckGlossary(text).Some? {
      GlossaryShortCircuit(cache, isMock, text, locales, source, backends);
    } else if isMock {
      MockPath(cache, text, locales, source, backends);
    } else if backends.engine(text, source, SortLocales(locales)).Some? {
      EnginePath(cache, text, locales, source, backends, backends.engine(text, source, SortLocales(locales)).value);
    } else {
      FailurePath(cache, text, locales, source, backends);
    }
  }

  lemma CacheStoreSound(cache: map<string, map<string, string>>, key: string, entry: map<string, string>)
    requires CacheSound(cache) && entry.Keys == LocalesOfKey(key)
    ensures CacheSound(cache[key := entry])
  {
  }

  /**
   * With a sound cache and well-formed locale codes, a hit answers exactly the
   * requested locales too, and the call keeps the cache sound.
   */
  lemma KeySetSound(cache: map<string, map<string, string>>, isMock: bool, text: string, locales: seq<string>,
                    source: string, backends: Backends)
    requires CacheSound(cache) && forall l :: l in locales ==> LocaleCode(l)
    ensures var o := BatchSpec(cache, isMock, text, locales, source, backends);
      o.results.Keys == Elems(locales) && CacheSound(o.cache)
  {
    var key := CacheKey(text, locales);
    var o := BatchSpec(cache, isMock, text, locales, source, backends);
    KeyRoundTrip(text, locales);
    if CheckGlossary(text).None? && key in cache {
      CacheHit(cache, isMock, text, locales, source, backends);
    } else {
      KeySet(cache, isMock, text, locales, source, backends);
      assert o.cache == cache || o.cache == cache[key := o.results];
      if o.cache != cache {
        CacheStoreSound(cache, key, o.results);
      }
    }
  }

  /** Once an entry exists, the call is idempotent: the same text and locales in any order give the same mapping. */
  lemma Idempotent(cache: map<string, map<string, string>>, isMock: bool, text: string, locales: seq<string>,
                   source: string, backends: Backends,
                   locales2: seq<string>, source2: string, backends2: Backends)
    requires multiset(locales2) == multiset(locales)
    requires var o := BatchSpec(cache, isMock, text, locales, source, backends);
      CheckGlossary(text).Some? || CacheKey(text, locales) in o.cache
    ensures var o := BatchSpec(cache, isMock, text, locales, source, backends);
      BatchSpec(o.cache, isMock, text, locales2, source2, backends2) == o
  {
    CacheKeyShared(text, locales, text, locales2);
    SortedUnique(SortLocales(locales), SortLocales(locales2));
  }

  // ---------------------------------------------------------------------------
  // The module-level cache and the two exported actions

  /** The `forEach` of the glossary and failure paths: every locale gets `value`. */
  method FillConstant(langs: seq<string>, value: string) returns (results: map<string, string>)
    ensures results.Keys == Elems(langs) && forall l :: l in results ==> results[l] == value
    ensures results == MapOver(langs, _ => value)
  {
    results := map[];
    var i := 0;
    while i < |langs|
      invariant 0 <= i <= |langs|
      invariant results == MapOver(langs[..i], _ => value)
    {
      assert langs[..i + 1] == langs[..i] + [langs[i]];
      results := results[langs[i] := value];
      i := i + 1;
    }
    assert langs[..i] == langs;
  }

  /** The per-locale requests of the keyless path (run concurrently in the source, sequentially here). */
  method FillFromService(text: string, source: string, langs: seq<string>, myMemory: (string, string, string) -> Option<string>)
    returns (results: map<string, string>)
    ensures results.Keys == Elems(langs)
    ensures forall l :: l in results ==> results[l] == MockEntry(text, source, l, myMemory)
    ensures results == MapOver(langs, l => MockEntry(text, source, l, myMemory))
  {
    results := map[];
    var i := 0;
    while i < |langs|
      invariant 0 <= i <= |langs|
      invariant results == MapOver(langs[..i], l => MockEntry(text, source, l, myMemory))
    {
      assert langs[..i + 1] == langs[..i] + [langs[i]];
      var lang := langs[i];
      var answer := myMemory(text, source, lang);
      if answer.Some? && answer.value != "" {
        results := results[lang := answer.value];
      } else {
        results := results[lang := Tagged(lang, text)];
      }
      i := i + 1;
    }
    assert langs[..i] == langs;
  }

  /** The engine path's `forEach`: each locale takes the element at its own position, or the text. */
  method FillAligned(langs: seq<string>, translationsArray: seq<string>, text: string) returns (results: map<string, string>)
    ensures results.Keys == Elems(langs)
    ensures forall i :: 0 <= i < |langs| && langs[i] !in langs[i + 1..] ==> results[langs[i]] == Pick(translationsArray, i, text)
    ensures results == Aligned(langs, translationsArray, text)
  {
    results := map[];
    var i := 0;
    while i < |langs|
      invariant 0 <= i <= |langs|
      invariant results == Aligned(langs[..i], translationsArray, text)
    {
      assert langs[..i + 1][..i] == langs[..i];
      var lang := langs[i];
      var element := if i < |translationsArray| && translationsArray[i] != "" then translationsArray[i] else text;
      results := results[lang := element];
      i := i + 1;
    }
    assert langs[..i] == langs;
    AlignedKeys(langs, translationsArray, text);
    forall i | 0 <= i < |langs| && langs[i] !in langs[i + 1..]
      ensures results[langs[i]] == Pick(translationsArray, i, text)
    {
      AlignedAt(langs, translationsArray, text, i);
    }
  }

  class Translator {
    const isMock: bool
    var cache: map<string, map<string, string>>

    constructor (apiKey: Option<string>)
      ensures isMock == IsMockKey(apiKey) && cache == map[]
    {
      isMock := IsMockKey(apiKey);
      cache := map[];
    }

    /**
     * `translateTextBatchServer`. The caller's locale list is sorted while
     * the key is built, so every loop below and the engine see the sorted
     * order. `context` only labels log lines.
     */
    method TranslateBatch(text: string, locales: seq<string>, source: string, context: string, backends: Backends)
      returns (results: map<string, string>)
      modifies this`cache
      ensures BatchOutcome(results, cache) == BatchSpec(old(cache), isMock, text, locales, source, backends)
    {
      var sorted := SortLocales(locales);
      var key := Lower(Trim(text)) + "-" + Join(sorted, ',');
      var glossaryTerm := CheckGlossary(text);
      if glossaryTerm.Some? {
        results := FillConstant(sorted, glossaryTerm.value);
        return;
      }
      if key in cache {
        results := cache[key];
        return;
      }
      if isMock {
        results := FillFromService(text, source, sorted, backends.myMemory);
        if |results| > 0 {
          cache := cache[key := results];
        }
        return;
      }
      var answer := backends.engine(text, source, sorted);
      if answer.Some? {
        results := FillAligned(sorted, answer.value, text);
        if |results| > 0 {
          cache := cache[key := results];
        }
      } else {
        results := FillConstant(sorted, text);
      }
    }

    /** `translateTextServer`: the batch call for one locale, and that locale's entry (`undefined` when absent). */
    method TranslateText(text: string, locale: string, source: string, backends: Backends) returns (r: Option<string>)
      modifies this`cache
      ensures var o := BatchSpec(old(cache), isMock, text, [locale], source, backends);
        cache == o.cache && r == (if locale in o.results then Some(o.results[locale]) else None)
      ensures CacheSound(old(cache)) && LocaleCode(locale) ==> r.Some? && CacheSound(cache)
    {
      if CacheSound(cache) && LocaleCode(locale) {
        KeySetSound(cache, isMock, text, [locale], source, backends);
        assert locale in Elems([locale]);
      }
      var results := TranslateBatch(text, [locale], source, "General", backends);
      r := if locale in results then Some(results[locale]) else None;
    }
  }
}
