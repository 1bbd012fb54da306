/**
 * The JavaScript string built-ins the core relies on: `trim`, `includes`,
 * `startsWith`, `endsWith`, and `length` (which counts UTF-16 code units).
 */
module Strings {

  /** The characters `String.prototype.trim` removes: WhiteSpace and LineTerminator of ECMAScript. */
  predicate IsJsWhitespace(c: char) {
    c == ' ' || c == '\t' || c == '\n' || c == '\r' || c == '\U{000B}' || c == '\U{000C}'
    || c == '\U{00A0}' || c == '\U{1680}' || ('\U{2000}' <= c <= '\U{200A}')
    || c == '\U{2028}' || c == '\U{2029}' || c == '\U{202F}' || c == '\U{205F}'
    || c == '\U{3000}' || c == '\U{FEFF}'
  }

  const JS_WHITESPACE: iset<char> := iset c: char | IsJsWhitespace(c)

  /** Every character of `s` is in `ws`. */
  predicate AllIn(s: string, ws: iset<char>) {
    forall i :: 0 <= i < |s| ==> s[i] in ws
  }

  predicate AllWhitespace(s: string) {
    AllIn(s, JS_WHITESPACE)
  }

  // The trimming functions take the set of characters to drop as a parameter, so that
  // their properties are proved once for any set; `Trim` fixes it to `JS_WHITESPACE`.

  /** Drops leading characters of `ws`: the result is a suffix of `s` and what was dropped is in `ws`. */
  function DropLeading(s: string, ws: iset<char>): (r: string)
    ensures |r| <= |s| && r == s[|s| - |r|..]
    ensures forall i :: 0 <= i < |s| - |r| ==> s[i] in ws
    ensures r == [] || r[0] !in ws
  {
    if |s| > 0 && s[0] in ws then
      var r := DropLeading(s[1..], ws);
      assert s[1..][|s| - 1 - |r|..] == s[|s| - |r|..];
      assert forall i :: 0 < i < |s| - |r| ==> s[1..][i - 1] == s[i];
      r
    else
      s
  }

  /** Drops trailing characters of `ws`: the result is a prefix of `s` and what was dropped is in `ws`. */
  function DropTrailing(s: string, ws: iset<char>): (r: string)
    ensures |r| <= |s| && r == s[..|r|]
    ensures forall i :: |r| <= i < |s| ==> s[i] in ws
    ensures r == [] || r[|r| - 1] !in ws
  {
    if |s| > 0 && s[|s| - 1] in ws then
      var r := DropTrailing(s[..|s| - 1], ws);
      assert s[..|s| - 1][..|r|] == s[..|r|];
      assert forall i :: |r| <= i < |s| - 1 ==> s[..|s| - 1][i] == s[i];
      r
    else
      s
  }

  function DropBoth(s: string, ws: iset<char>): string {
    DropTrailing(DropLeading(s, ws), ws)
  }

  /** `s.trim()`: leading whitespace dropped, then trailing whitespace. */
  function Trim(s: string): (r: string)
    ensures |r| <= |s|
    ensures r == [] <==> AllWhitespace(s)
    ensures r == [] || (r[0] !in JS_WHITESPACE && r[|r| - 1] !in JS_WHITESPACE)
  {
    TrimEmptyIff(s, JS_WHITESPACE);
    TrimEdges(s, JS_WHITESPACE);
    DropBoth(s, JS_WHITESPACE)
  }

  /** The trimmed string is the slice of `s` that starts where the dropped prefix ends. */
  lemma TrimIsSlice(s: string, ws: iset<char>)
    ensures var k := |s| - |DropLeading(s, ws)|; var r := DropBoth(s, ws);
      k + |r| <= |s| && r == s[k..k + |r|]
  {
    var t := DropLeading(s, ws);
    PrefixOfSuffix(s, t, DropTrailing(t, ws));
  }

  /** A prefix of a suffix of `s` is a slice of `s`. */
  lemma PrefixOfSuffix(s: string, t: string, r: string)
    requires |t| <= |s| && t == s[|s| - |t|..]
    requires |r| <= |t| && r == t[..|r|]
    ensures var k := |s| - |t|; k + |r| <= |s| && r == s[k..k + |r|]
  {
    var k := |s| - |t|;
    forall i | 0 <= i < |r| ensures r[i] == s[k..k + |r|][i] {
      assert r[i] == t[i] == s[k + i];
    }
  }

  /** Everything outside that slice is in `ws`. */
  lemma TrimDropsOnly(s: string, ws: iset<char>)
    ensures var k := |s| - |DropLeading(s, ws)|; var r := DropBoth(s, ws);
      && (forall i :: 0 <= i < k ==> s[i] in ws)
      && (forall i :: k + |r| <= i < |s| ==> s[i] in ws)
  {
    var t := DropLeading(s, ws);
    var r := DropTrailing(t, ws);
    var k := |s| - |t|;
    assert t == s[k..];
    forall i | k + |r| <= i < |s| ensures s[i] in ws {
      var j := i - k;
      assert |r| <= j < |t| && t[j] == s[i];
    }
  }

  /** The trimmed string neither starts nor ends with a character of `ws`. */
  lemma TrimEdges(s: string, ws: iset<char>)
    ensures var r := DropBoth(s, ws);
      r == [] || (r[0] !in ws && r[|r| - 1] !in ws)
  {
    var t := DropLeading(s, ws);
    var r := DropTrailing(t, ws);
    if r != [] {
      assert r[0] == t[0];
    }
  }

  /** Trimming leaves nothing exactly when every character is in `ws`. */
  lemma TrimEmptyIff(s: string, ws: iset<char>)
    ensures DropBoth(s, ws) == [] <==> AllIn(s, ws)
  {
    var t := DropLeading(s, ws);
    var r := DropTrailing(t, ws);
    if r != [] {
      TrimIsSlice(s, ws);
      assert s[|s| - |t|] == r[0];
      TrimEdges(s, ws);
    } else {
      TrimDropsOnly(s, ws);
    }
  }

  predicate StartsWith(s: string, prefix: string) {
    |prefix| <= |s| && s[..|prefix|] == prefix
  }

  predicate EndsWith(s: string, suffix: string) {
    |suffix| <= |s| && s[|s| - |suffix|..] == suffix
  }

  /** `sub` occurs in `s` starting at index `i`. */
  ghost predicate OccursAt(s: string, sub: string, i: int) {
    0 <= i && i + |sub| <= |s| && s[i..i + |sub|] == sub
  }

  /** `s.includes(sub)`: true exactly when `sub` occurs somewhere in `s`. */
  function Includes(s: string, sub: string): (r: bool)
    ensures r <==> exists i :: OccursAt(s, sub, i)
  {
    if StartsWith(s, sub) then
      assert OccursAt(s, sub, 0);
      true
    else if |s| == 0 then
      false
    else
      OccurrenceShift(s, sub);
      Includes(s[1..], sub)
  }

  /** An occurrence past the first index of `s` is an occurrence in `s[1..]`, and back. */
  lemma OccurrenceShift(s: string, sub: string)
    requires |s| > 0 && !StartsWith(s, sub)
    ensures (exists i :: OccursAt(s, sub, i)) <==> (exists j :: OccursAt(s[1..], sub, j))
  {
    if i :| OccursAt(s, sub, i) {
      assert i != 0;
      assert s[1..][i - 1..i - 1 + |sub|] == s[i..i + |sub|];
      assert OccursAt(s[1..], sub, i - 1);
    }
    if j :| OccursAt(s[1..], sub, j) {
      assert s[j + 1..j + 1 + |sub|] == s[1..][j..j + |sub|];
      assert OccursAt(s, sub, j + 1);
    }
  }

  /** The number of UTF-16 code units of `s`, which is what JavaScript's `length` reports. */
  function Utf16Length(s: string): (n: nat)
    ensures |s| <= n <= 2 * |s|
    ensures (forall i :: 0 <= i < |s| ==> s[i] as int <= 0xFFFF) ==> n == |s|
  {
    if s == [] then 0 else (if s[0] as int > 0xFFFF then 2 else 1) + Utf16Length(s[1..])
  }
}
