/**
 * Values shared by every component: the optional value used for JavaScript's
 * `null`/`undefined`, the signed-in user, and the handful of string operations
 * the components call (`trim`, `toLowerCase`, `toUpperCase`, `includes`,
 * `endsWith`). Case mapping is restricted to ASCII letters.
 */
module Common {

  datatype Option<T> = None | Some(value: T) {
    function GetOr(default: T): T {
      match this
      case Some(v) => v
      case None => default
    }
  }

  /** The session identity kept by the user context: a display name and a locale. */
  datatype User = User(name: string, preferredLanguage: string)

  /** The characters `String.prototype.trim` removes that this model knows about. */
  predicate IsSpace(c: char) {
    c == ' ' || c == '\t' || c == '\n' || c == '\r' || c == '\U{0B}' || c == '\U{0C}'
    || c == '\U{A0}' || c == '\U{FEFF}' || c == '\U{2028}' || c == '\U{2029}'
  }

  function TrimStart(s: string): (r: string)
    ensures |r| <= |s| && r == s[|s| - |r|..]
    ensures r == [] || !IsSpace(r[0])
    ensures forall i :: 0 <= i < |s| - |r| ==> IsSpace(s[i])
  {
    if |s| > 0 && IsSpace(s[0]) then TrimStart(s[1..]) else s
  }

  function TrimEnd(s: string): (r: string)
    ensures |r| <= |s| && r == s[..|r|]
    ensures r == [] || !IsSpace(r[|r| - 1])
    ensures forall i :: |r| <= i < |s| ==> IsSpace(s[i])
  {
    if |s| > 0 && IsSpace(s[|s| - 1]) then TrimEnd(s[..|s| - 1]) else s
  }

  function Trim(s: string): string {
    TrimEnd(TrimStart(s))
  }

  /** `!s.trim()`: the string is empty or made of whitespace only. */
  predicate IsBlank(s: string) {
    Trim(s) == ""
  }

  lemma {:induction false} BlankIffAllSpace(s: string)
    ensures IsBlank(s) <==> forall i :: 0 <= i < |s| ==> IsSpace(s[i])
  {
    if IsBlank(s) {
      assert TrimStart(s) == [];
    }
  }

  function LowerChar(c: char): char {
    if 'A' <= c <= 'Z' then (c as int + 32) as char else c
  }

  function UpperChar(c: char): char {
    if 'a' <= c <= 'z' then (c as int - 32) as char else c
  }

  function Lower(s: string): (r: string)
    ensures |r| == |s| && forall i :: 0 <= i < |s| ==> r[i] == LowerChar(s[i])
  {
    seq(|s|, i requires 0 <= i < |s| => LowerChar(s[i]))
  }

  lemma LowerOfLowercase(s: string)
    requires forall i :: 0 <= i < |s| ==> !('A' <= s[i] <= 'Z')
    ensures Lower(s) == s
  {
  }

  function Upper(s: string): (r: string)
    ensures |r| == |s| && forall i :: 0 <= i < |s| ==> r[i] == UpperChar(s[i])
  {
    seq(|s|, i requires 0 <= i < |s| => UpperChar(s[i]))
  }

  /** `s.includes(sub)`. */
  predicate Contains(s: string, sub: string) {
    exists i :: 0 <= i <= |s| - |sub| && OccursAt(s, sub, i)
  }

  predicate OccursAt(s: string, sub: string, i: int)
    requires 0 <= i <= |s| - |sub|
  {
    s[i..i + |sub|] == sub
  }

  /** `s.endsWith(suffix)`. */
  predicate EndsWith(s: string, suffix: string) {
    |suffix| <= |s| && s[|s| - |suffix|..] == suffix
  }

  /** The fallback text of the translation paths: `[${lang.toUpperCase()}] ${text}`. */
  function Tagged(lang: string, text: string): string {
    "[" + Upper(lang) + "] " + text
  }

  // ---------------------------------------------------------------------------
  // UTF-16: the unit of a JavaScript string's `length` and of a regular
  // expression compiled without the `u` flag

  /** A character outside the Basic Multilingual Plane, which UTF-16 stores as two units. */
  predicate IsAstral(c: char) {
    c as int >= 0x1_0000
  }

  /** The UTF-16 code units of one character: the character itself, or its surrogate pair, from which it can be recovered. */
  function UnitsOf(c: char): (r: seq<int>)
    ensures |r| == if IsAstral(c) then 2 else 1
    ensures !IsAstral(c) ==> r == [c as int]
    ensures IsAstral(c) ==> 0xD800 <= r[0] < 0xDC00 <= r[1] < 0xE000
    ensures IsAstral(c) ==> 0x1_0000 + (r[0] - 0xD800) * 0x400 + (r[1] - 0xDC00) == c as int
  {
    var v := c as int;
    if v < 0x1_0000 then [v]
    else [0xD800 + (v - 0x1_0000) / 0x400, 0xDC00 + (v - 0x1_0000) % 0x400]
  }

  /** The UTF-16 code units of a string. */
  function Utf16(s: string): seq<int> {
    if s == [] then [] else UnitsOf(s[0]) + Utf16(s[1..])
  }

  function AstralCount(s: string): nat {
    if s == [] then 0 else (if IsAstral(s[0]) then 1 else 0) + AstralCount(s[1..])
  }

  lemma {:induction false} Utf16Append(a: string, b: string)
    ensures Utf16(a + b) == Utf16(a) + Utf16(b)
  {
    if a != [] {
      assert (a + b)[0] == a[0] && (a + b)[1..] == a[1..] + b;
      Utf16Append(a[1..], b);
    } else {
      assert a + b == b;
    }
  }

  /** `s.length`: one unit per character, and a second one per character outside the Basic Multilingual Plane. */
  lemma {:induction false} Utf16Length(s: string)
    ensures |Utf16(s)| == |s| + AstralCount(s)
    ensures AstralCount(s) <= |s| <= |Utf16(s)|
  {
    if s != [] {
      Utf16Length(s[1..]);
    }
  }

  /** A string inside the Basic Multilingual Plane has one unit per character, its code point. */
  lemma {:induction false} Utf16Bmp(s: string)
    requires forall i :: 0 <= i < |s| ==> !IsAstral(s[i])
    ensures |Utf16(s)| == |s| && forall i :: 0 <= i < |s| ==> Utf16(s)[i] == s[i] as int
  {
    if s != [] {
      Utf16Bmp(s[1..]);
      assert Utf16(s) == [s[0] as int] + Utf16(s[1..]);
    }
  }

  /** The units of a character placed after a string inside the Basic Multilingual Plane start right after that string's units. */
  lemma Utf16After(a: string, c: char, b: string)
    requires forall i :: 0 <= i < |a| ==> !IsAstral(a[i])
    ensures var u := Utf16(a + [c] + b);
      |u| == |a| + |UnitsOf(c)| + |Utf16(b)| &&
      (forall i :: 0 <= i < |a| ==> u[i] == a[i] as int) &&
      u[|a|..|a| + |UnitsOf(c)|] == UnitsOf(c)
  {
    Utf16Append(a, [c] + b);
    assert a + [c] + b == a + ([c] + b);
    Utf16Append([c], b);
    assert Utf16([c]) == UnitsOf(c) + Utf16([]);
    Utf16Bmp(a);
  }

  lemma TakeSnoc<T>(s: seq<T>, i: nat)
    requires i < |s|
    ensures s[..i + 1] == s[..i] + [s[i]]
  {
  }

  lemma SplitThree<T>(s: seq<T>, i: nat, j: nat)
    requires i <= j <= |s|
    ensures s == s[..i] + (s[i..j] + s[j..])
  {
  }

  lemma ConcatAssoc<T>(a: seq<T>, b: seq<T>, c: seq<T>)
    ensures a + (b + c) == (a + b) + c
  {
  }

  /** `s.filter(keep)`: the elements `keep` accepts, in order. */
  function Filter<T>(s: seq<T>, keep: T -> bool): seq<T>
  {
    if s == [] then [] else (if keep(s[0]) then [s[0]] else []) + Filter(s[1..], keep)
  }

  lemma {:induction false} FilterAppend<T>(a: seq<T>, b: seq<T>, keep: T -> bool)
    ensures Filter(a + b, keep) == Filter(a, keep) + Filter(b, keep)
  {
    if a == [] {
      assert a + b == b;
    } else {
      var head := if keep(a[0]) then [a[0]] else [];
      assert (a + b)[0] == a[0];
      assert (a + b)[1..] == a[1..] + b;
      FilterAppend(a[1..], b, keep);
      ConcatAssoc(head, Filter(a[1..], keep), Filter(b, keep));
    }
  }

  lemma FilterSnoc<T>(a: seq<T>, x: T, keep: T -> bool)
    ensures Filter(a + [x], keep) == Filter(a, keep) + (if keep(x) then [x] else [])
  {
    FilterAppend(a, [x], keep);
    assert [x][1..] == [];
  }

  lemma {:induction false} FilterMembers<T>(s: seq<T>, keep: T -> bool)
    ensures forall x :: x in Filter(s, keep) <==> x in s && keep(x)
  {
    if s != [] {
      FilterMembers(s[1..], keep);
      assert s == [s[0]] + s[1..];
    }
  }

  /** The set of elements of a sequence, as JavaScript builds the key set of a dictionary. */
  function Elems<T>(s: seq<T>): set<T> {
    set x | x in s
  }
}
