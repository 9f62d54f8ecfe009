/**
 * The live text audit of components/LingoAuditor.tsx: how many protected
 * brand terms occur, an estimate of the token count, how many sentences are
 * too long, a score and the log lines shown to the writer. `Analyze` is the
 * component's loop-based computation; `AuditOf` is its specification, and
 * the lemmas state what the audit means.
 *
 * The text's length and the brand-term regular expressions (compiled without
 * the `u` flag) work on UTF-16 code units, as JavaScript's do. Splitting at
 * '.', '!', '?' and ' ', and trimming, give the same pieces whether the text is
 * read as characters or as code units, since none of those characters is half
 * of a surrogate pair; the sentence functions therefore work on characters.
 */
module Auditor {
  import opened Common

  /** A line of the audit log; the rendered wording carries the count. */
  datatype LogLine = BrandingFound(terms: nat) | TooComplex(sentences: nat) | Optimal

  datatype Audit = Audit(score: int, log: seq<LogLine>, tokens: nat)

  /** The brand terms, each used as a case-insensitive regular expression. */
  const GlossaryTerms: seq<string> := ["Lingo.dev", "Hackathon", "API"]

  /** A sentence with more than this many space-separated parts is too long. */
  const MaxWords := 20

  /** The score lost for each sentence that is too long. */
  const Penalty := 10

  // ---------------------------------------------------------------------------
  // Pattern matching

  /** The code units a regular expression's `.` does not match. */
  predicate IsLineTerminator(u: int) {
    u == 0x0A || u == 0x0D || u == 0x2028 || u == 0x2029
  }

  /**
   * The `i` flag without `u` folds a unit only when its upper case is a single
   * unit and does not turn a non-ASCII unit into an ASCII one; for the ASCII
   * terms used here that leaves exactly the folding of ASCII letters.
   */
  function FoldUnit(u: int): int {
    if 'A' as int <= u <= 'Z' as int then u + 32 else u
  }

  /** One ASCII pattern character against one code unit of the text; `.` is a wildcard. */
  predicate CharMatches(p: char, u: int) {
    if p == '.' then !IsLineTerminator(u) else FoldUnit(p as int) == FoldUnit(u)
  }

  predicate MatchesAt(units: seq<int>, pattern: string, i: int)
    requires 0 <= i <= |units| - |pattern|
  {
    forall j :: 0 <= j < |pattern| ==> CharMatches(pattern[j], units[i + j])
  }

  /**
   * `new RegExp(pattern, 'i').test(text)` for an ASCII pattern whose only
   * special character is `.`. Without the `u` flag the regular expression
   * walks the text one UTF-16 code unit at a time.
   */
  predicate RegexTest(text: string, pattern: string) {
    var units := Utf16(text);
    exists i :: 0 <= i <= |units| - |pattern| && MatchesAt(units, pattern, i)
  }

  /** The number of patterns among `terms` that occur in `text`. */
  function MatchCount(text: string, terms: seq<string>): nat
  {
    if terms == [] then 0
    else MatchCount(text, terms[..|terms| - 1]) + (if RegexTest(text, terms[|terms| - 1]) then 1 else 0)
  }

  // ---------------------------------------------------------------------------
  // Sentences

  predicate IsTerminator(c: char) {
    c == '.' || c == '!' || c == '?'
  }

  function FirstTerminator(s: string): (i: nat)
    requires exists k :: 0 <= k < |s| && IsTerminator(s[k])
    ensures i < |s| && IsTerminator(s[i])
    ensures forall k :: 0 <= k < i ==> !IsTerminator(s[k])
  {
    if IsTerminator(s[0]) then 0
    else
      assert exists k :: 0 <= k < |s[1..]| && IsTerminator(s[1..][k]) by {
        var k :| 0 <= k < |s| && IsTerminator(s[k]);
        assert s[1..][k - 1] == s[k];
      }
      1 + FirstTerminator(s[1..])
  }

  /** The end of the run of terminators that starts at `i`. */
  function RunEnd(s: string, i: nat): (j: nat)
    requires i <= |s|
    ensures i <= j <= |s|
    ensures forall k :: i <= k < j ==> IsTerminator(s[k])
    ensures j == |s| || !IsTerminator(s[j])
    decreases |s| - i
  {
    if i < |s| && IsTerminator(s[i]) then RunEnd(s, i + 1) else i
  }

  /** `s.split(/[.!?]+/)`: the pieces between maximal runs of terminators, empty pieces included. */
  function SplitSentences(s: string): (r: seq<string>)
    ensures |r| >= 1
    decreases |s|
  {
    if exists k :: 0 <= k < |s| && IsTerminator(s[k]) then
      var i := FirstTerminator(s);
      var j := RunEnd(s, i);
      [s[..i]] + SplitSentences(s[j..])
    else [s]
  }

  /** `pieces.filter(s => s.trim().length > 0)`. */
  function NonBlank(pieces: seq<string>): (r: seq<string>)
  {
    if pieces == [] then []
    else (if IsBlank(pieces[0]) then [] else [pieces[0]]) + NonBlank(pieces[1..])
  }

  function Sentences(text: string): seq<string> {
    NonBlank(SplitSentences(text))
  }

  function CountChar(s: string, c: char): nat {
    if s == [] then 0 else (if s[0] == c then 1 else 0) + CountChar(s[1..], c)
  }

  /** `s.split(' ').length`: one part more than there are spaces. */
  function WordCount(s: string): nat {
    CountChar(s, ' ') + 1
  }

  predicate TooLong(s: string) {
    WordCount(s) > MaxWords
  }

  function TooLongCount(sentences: seq<string>): nat
  {
    if sentences == [] then 0
    else TooLongCount(sentences[..|sentences| - 1]) + (if TooLong(sentences[|sentences| - 1]) then 1 else 0)
  }

  // ---------------------------------------------------------------------------
  // The audit

  function Max(a: int, b: int): int {
    if a >= b then a else b
  }

  /** `Math.ceil(length / 4)` for a non-negative length. */
  function TokenEstimate(length: nat): nat {
    (length + 3) / 4
  }

  /** The audit of a non-empty text from its three counts. */
  function Report(found: nat, tooLong: nat, length: nat): Audit {
    Audit(Max(0, 100 - Penalty * tooLong),
          (if found > 0 then [BrandingFound(found)] else []) +
          [if tooLong > 0 then TooComplex(tooLong) else Optimal],
          TokenEstimate(length))
  }

  function AuditOf(text: string): Audit {
    if text == "" then Audit(100, [], 0)
    else Report(MatchCount(text, GlossaryTerms), TooLongCount(Sentences(text)), |Utf16(text)|)
  }

  /** The glossary loop: one increment for each term whose pattern occurs. */
  method CountGlossary(text: string) returns (glossaryFound: nat)
    ensures glossaryFound == MatchCount(text, GlossaryTerms)
  {
    glossaryFound := 0;
    var t := 0;
    while t < |GlossaryTerms|
      invariant 0 <= t <= |GlossaryTerms|
      invariant glossaryFound == MatchCount(text, GlossaryTerms[..t])
    {
      TakeSnoc(GlossaryTerms, t);
      if RegexTest(text, GlossaryTerms[t]) {
        glossaryFound := glossaryFound + 1;
      }
      t := t + 1;
    }
    assert GlossaryTerms[..t] == GlossaryTerms;
  }

  /** The sentence loop: each sentence that is too long is counted and costs the score ten points. */
  method CountTooLong(sentences: seq<string>) returns (tooLong: nat, tempScore: int)
    ensures tooLong == TooLongCount(sentences)
    ensures tempScore == 100 - Penalty * tooLong
  {
    tooLong, tempScore := 0, 100;
    var i := 0;
    while i < |sentences|
      invariant 0 <= i <= |sentences|
      invariant tooLong == TooLongCount(sentences[..i])
      invariant tempScore == 100 - Penalty * tooLong
    {
      TakeSnoc(sentences, i);
      if WordCount(sentences[i]) > MaxWords {
        tooLong := tooLong + 1;
        tempScore := tempScore - Penalty;
      }
      i := i + 1;
    }
    assert sentences[..i] == sentences;
  }

  /** The component's `analyze`. */
  method Analyze(text: string) returns (a: Audit)
    ensures a == AuditOf(text)
  {
    if text == "" {
      return Audit(100, [], 0);
    }
    var glossaryFound := CountGlossary(text);
    var tooLong, tempScore := CountTooLong(Sentences(text));
    a := Summarize(glossaryFound, tooLong, tempScore, |Utf16(text)|);
  }

  /** The log lines, score and token estimate that `analyze` sets once both loops have run. */
  method Summarize(glossaryFound: nat, tooLong: nat, tempScore: int, length: nat) returns (a: Audit)
    requires tempScore == 100 - Penalty * tooLong
    ensures a == Report(glossaryFound, tooLong, length)
  {
    var logs: seq<LogLine> := [];
    if glossaryFound > 0 {
      logs := logs + [BrandingFound(glossaryFound)];
    }
    var tokens := TokenEstimate(length);
    if tooLong > 0 {
      logs := logs + [TooComplex(tooLong)];
    } else {
      logs := logs + [Optimal];
    }
    a := Audit(Max(0, tempScore), logs, tokens);
  }

  // ---------------------------------------------------------------------------
  // What the audit means

  lemma {:induction false} MatchCountBound(text: string, terms: seq<string>)
    ensures MatchCount(text, terms) <= |terms|
    ensures MatchCount(text, terms) > 0 <==> exists k :: 0 <= k < |terms| && RegexTest(text, terms[k])
  {
    if terms != [] {
      var init := terms[..|terms| - 1];
      MatchCountBound(text, init);
      if exists k :: 0 <= k < |init| && RegexTest(text, init[k]) {
        var k :| 0 <= k < |init| && RegexTest(text, init[k]);
        assert terms[k] == init[k];
      }
      if exists k :: 0 <= k < |terms| && RegexTest(text, terms[k]) {
        var k :| 0 <= k < |terms| && RegexTest(text, terms[k]);
        if k < |init| {
          assert init[k] == terms[k];
        }
      }
    }
  }

  lemma {:induction false} TooLongCountBound(sentences: seq<string>)
    ensures TooLongCount(sentences) <= |sentences|
    ensures TooLongCount(sentences) == 0 <==> forall k :: 0 <= k < |sentences| ==> !TooLong(sentences[k])
  {
    if sentences != [] {
      var init := sentences[..|sentences| - 1];
      TooLongCountBound(init);
      assert forall k :: 0 <= k < |init| ==> init[k] == sentences[k];
    }
  }

  /**
   * Empty text scores 100 with no log and no tokens; otherwise the score lies
   * in 0..100, the log holds an optional branding line followed by exactly one
   * complexity line, and the branding line reports how many of the three
   * terms occur.
   */
  lemma AuditShape(text: string)
    ensures text == "" ==> AuditOf(text) == Audit(100, [], 0)
    ensures 0 <= AuditOf(text).score <= 100
    ensures text != "" ==> 1 <= |AuditOf(text).log| <= 2
    ensures text != "" ==> var log := AuditOf(text).log;
      (log[|log| - 1].TooComplex? || log[|log| - 1].Optimal?) &&
      (|log| == 2 <==> exists k :: 0 <= k < |GlossaryTerms| && RegexTest(text, GlossaryTerms[k])) &&
      (|log| == 2 ==> log[0] == BrandingFound(MatchCount(text, GlossaryTerms)) && log[0].terms <= 3)
  {
    if text != "" {
      MatchCountBound(text, GlossaryTerms);
    }
  }

  /** The score is 100 exactly when no sentence is too long, and the complexity line is the warning exactly then. */
  lemma ScoreIffOptimal(text: string)
    requires text != ""
    ensures AuditOf(text).score == 100 <==> forall s :: s in Sentences(text) ==> !TooLong(s)
    ensures AuditOf(text).log[|AuditOf(text).log| - 1] == Optimal <==> AuditOf(text).score == 100
  {
    TooLongCountBound(Sentences(text));
  }

  /**
   * The token estimate is `text.length`, the number of UTF-16 code units,
   * divided by four and rounded up: a character outside the Basic
   * Multilingual Plane counts twice.
   */
  lemma TokensRoundUp(text: string)
    ensures 4 * AuditOf(text).tokens >= |Utf16(text)|
    ensures text != "" ==> 4 * (AuditOf(text).tokens - 1) < |Utf16(text)|
    ensures AuditOf(text).tokens == TokenEstimate(|text| + AstralCount(text))
  {
    Utf16Length(text);
  }

  /** Three emoji are six code units, so two tokens. */
  lemma TokensCountUnits()
    ensures AuditOf("😀😀😀").tokens == 2
  {
    var e := "😀";
    assert "😀😀😀" == e + (e + e);
    Utf16Append(e, e + e);
    Utf16Append(e, e);
    assert Utf16(e) == UnitsOf('😀') + Utf16([]);
  }

  /** A sentence is too long exactly when it holds at least twenty spaces. */
  lemma TooLongIffSpaces(s: string)
    ensures TooLong(s) <==> CountChar(s, ' ') >= MaxWords
  {
  }

  /** The text with its terminators removed. */
  function Strip(s: string): string {
    if s == [] then [] else (if IsTerminator(s[0]) then [] else [s[0]]) + Strip(s[1..])
  }

  function Concat(pieces: seq<string>): string {
    if pieces == [] then [] else pieces[0] + Concat(pieces[1..])
  }

  lemma {:induction false} StripAppend(a: string, b: string)
    ensures Strip(a + b) == Strip(a) + Strip(b)
  {
    if a == [] {
      assert a + b == b;
    } else {
      assert (a + b)[0] == a[0];
      assert (a + b)[1..] == a[1..] + b;
      StripAppend(a[1..], b);
    }
  }

  lemma {:induction false} StripPlain(s: string)
    requires forall k :: 0 <= k < |s| ==> !IsTerminator(s[k])
    ensures Strip(s) == s
  {
    if s != [] {
      StripPlain(s[1..]);
    }
  }

  lemma {:induction false} StripRun(s: string)
    requires forall k :: 0 <= k < |s| ==> IsTerminator(s[k])
    ensures Strip(s) == []
  {
    if s != [] {
      StripRun(s[1..]);
    }
  }

  /** Splitting removes exactly the terminators: the pieces, put back together, are the text without them. */
  lemma {:induction false} SplitSentencesConcat(s: string)
    ensures Concat(SplitSentences(s)) == Strip(s)
    decreases |s|
  {
    if exists k :: 0 <= k < |s| && IsTerminator(s[k]) {
      var i := FirstTerminator(s);
      var j := RunEnd(s, i);
      SplitStep(s);
      SplitSentencesConcat(s[j..]);
      ConcatCons(s[..i], SplitSentences(s[j..]));
    } else {
      StripPlain(s);
      ConcatCons(s, []);
    }
  }

  /** One step of the split: the piece before the first run of terminators, then the split of what follows the run. */
  lemma SplitStep(s: string)
    requires exists k :: 0 <= k < |s| && IsTerminator(s[k])
    ensures var i := FirstTerminator(s); var j := RunEnd(s, i);
      i < j &&
      SplitSentences(s) == [s[..i]] + SplitSentences(s[j..]) &&
      Strip(s) == s[..i] + Strip(s[j..])
  {
    var i := FirstTerminator(s);
    var j := RunEnd(s, i);
    StripStep(s, i, j);
  }

  lemma StripStep(s: string, i: nat, j: nat)
    requires i <= j <= |s|
    requires forall k :: 0 <= k < i ==> !IsTerminator(s[k])
    requires forall k :: i <= k < j ==> IsTerminator(s[k])
    ensures Strip(s) == s[..i] + Strip(s[j..])
  {
    var pre, run, rest := s[..i], s[i..j], s[j..];
    SplitThree(s, i, j);
    assert forall k :: 0 <= k < |pre| ==> pre[k] == s[k];
    assert forall k :: 0 <= k < |run| ==> run[k] == s[i + k];
    StripThree(pre, run, rest);
  }

  lemma ConcatCons(p: string, tail: seq<string>)
    ensures Concat([p] + tail) == p + Concat(tail)
  {
    assert ([p] + tail)[1..] == tail;
  }

  lemma StripThree(a: string, b: string, c: string)
    requires forall k :: 0 <= k < |a| ==> !IsTerminator(a[k])
    requires forall k :: 0 <= k < |b| ==> IsTerminator(b[k])
    ensures Strip(a + (b + c)) == a + Strip(c)
  {
    StripPlainPrefix(a, b + c);
    StripRunPrefix(b, c);
  }

  lemma {:induction false} StripPlainPrefix(a: string, rest: string)
    requires forall k :: 0 <= k < |a| ==> !IsTerminator(a[k])
    ensures Strip(a + rest) == a + Strip(rest)
  {
    if a == [] {
      assert a + rest == rest;
    } else {
      assert (a + rest)[1..] == a[1..] + rest;
      StripPlainPrefix(a[1..], rest);
    }
  }

  lemma {:induction false} StripRunPrefix(b: string, rest: string)
    requires forall k :: 0 <= k < |b| ==> IsTerminator(b[k])
    ensures Strip(b + rest) == Strip(rest)
  {
    if b == [] {
      assert b + rest == rest;
    } else {
      assert (b + rest)[1..] == b[1..] + rest;
      StripRunPrefix(b[1..], rest);
    }
  }

  /** No piece of the split holds a terminator. */
  lemma {:induction false} SplitSentencesPlain(s: string)
    ensures forall p, k :: p in SplitSentences(s) && 0 <= k < |p| ==> !IsTerminator(p[k])
    decreases |s|
  {
    if exists k :: 0 <= k < |s| && IsTerminator(s[k]) {
      var i := FirstTerminator(s);
      var j := RunEnd(s, i);
      SplitSentencesPlain(s[j..]);
      assert SplitSentences(s) == [s[..i]] + SplitSentences(s[j..]);
    }
  }

  /** A wildcard in a brand term matches any character on a line: "lingo-dev" passes the 'Lingo.dev' test. */
  lemma WildcardMatches()
    ensures RegexTest("lingo-dev", "Lingo.dev")
  {
    Utf16Bmp("lingo-dev");
    assert MatchesAt(Utf16("lingo-dev"), "Lingo.dev", 0);
  }

  /**
   * The wildcard takes one code unit, half of a surrogate pair, so a character
   * outside the Basic Multilingual Plane in its place defeats the term:
   * "lingo😀dev" fails the 'Lingo.dev' test.
   */
  lemma WildcardTakesOneUnit()
    ensures !RegexTest("lingo😀dev", "Lingo.dev")
  {
    assert "lingo😀dev" == "lingo" + ['😀'] + "dev";
    AstralDefeatsWildcard("lingo", '😀', "dev");
  }

  /** Five units, an astral character and three units never pass the 'Lingo.dev' test when the second unit is an 'i'. */
  lemma AstralDefeatsWildcard(a: string, c: char, b: string)
    requires |a| == 5 && a[1] == 'i' && IsAstral(c) && |b| == 3
    requires forall i :: 0 <= i < |a| ==> !IsAstral(a[i])
    requires forall i :: 0 <= i < |b| ==> !IsAstral(b[i])
    ensures !RegexTest(a + [c] + b, "Lingo.dev")
  {
    Utf16After(a, c, b);
    Utf16Bmp(b);
    var units := Utf16(a + [c] + b);
    var pattern := "Lingo.dev";
    assert |units| - |pattern| == 1;
    assert !MatchesAt(units, pattern, 0) by {
      assert units[6] == UnitsOf(c)[1];
      assert pattern[6] == 'd';
    }
    assert !MatchesAt(units, pattern, 1) by {
      assert pattern[0] == 'L' && units[1] == 'i' as int;
    }
  }
}
