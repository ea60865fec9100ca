/**
  The string operations of JavaScript that the backend relies on:
  `toUpperCase`, `toLowerCase` (restricted to ASCII letters), `length`
  and `String.prototype.replace` with a string pattern, which replaces the
  FIRST occurrence only.
 */
module Text {
  import opened Common

  predicate IsLower(c: char) { 'a' <= c <= 'z' }
  predicate IsUpper(c: char) { 'A' <= c <= 'Z' }
  predicate IsDigit(c: char) { '0' <= c <= '9' }

  function UpperChar(c: char): (r: char)
    ensures IsLower(c) ==> IsUpper(r)
    ensures !IsLower(c) ==> r == c
  {
    if IsLower(c) then (c as int - 32) as char else c
  }

  function LowerChar(c: char): (r: char)
    ensures IsUpper(c) ==> IsLower(r)
    ensures !IsUpper(c) ==> r == c
  {
    if IsUpper(c) then (c as int + 32) as char else c
  }

  function ToUpper(s: string): (r: string)
    ensures |r| == |s|
    ensures forall i :: 0 <= i < |s| ==> r[i] == UpperChar(s[i])
  {
    seq(|s|, i requires 0 <= i < |s| => UpperChar(s[i]))
  }

  function ToLower(s: string): (r: string)
    ensures |r| == |s|
    ensures forall i :: 0 <= i < |s| ==> r[i] == LowerChar(s[i])
  {
    seq(|s|, i requires 0 <= i < |s| => LowerChar(s[i]))
  }

  /** Two characters that upper-case alike also lower-case alike. */
  lemma SameUpperSameLower(a: char, b: char)
    requires UpperChar(a) == UpperChar(b)
    ensures LowerChar(a) == LowerChar(b)
  {
  }

  lemma ToUpperIdempotent(s: string)
    ensures ToUpper(ToUpper(s)) == ToUpper(s)
  {
  }

  lemma ToLowerOfToLower(s: string)
    ensures ToLower(ToLower(s)) == ToLower(s)
  {
  }

  /** The characters of `s` above U+FFFF, in order. */
  function AstralChars(s: string): (r: string)
    decreases |s|
    ensures |r| <= |s|
    ensures forall i :: 0 <= i < |r| ==> r[i] as int > 0xFFFF
    ensures forall c :: c in s && c as int > 0xFFFF ==> c in r
  {
    if s == [] then []
    else
      assert s == s[..|s| - 1] + [s[|s| - 1]];
      AstralChars(s[..|s| - 1]) + (if s[|s| - 1] as int > 0xFFFF then [s[|s| - 1]] else [])
  }

  /**
    JavaScript's `s.length`: the number of UTF-16 code units, so a
    character above U+FFFF (a surrogate pair) counts twice.
   */
  function Utf16Length(s: string): (n: nat)
    decreases |s|
    ensures n == |s| + |AstralChars(s)|
    ensures |s| <= n <= 2 * |s|
    ensures (forall i :: 0 <= i < |s| ==> s[i] as int <= 0xFFFF) ==> n == |s|
  {
    if s == [] then 0
    else Utf16Length(s[..|s| - 1]) + (if s[|s| - 1] as int > 0xFFFF then 2 else 1)
  }

  /** Joi's `alphanum()`: only ASCII letters and digits. */
  predicate IsAlphanumeric(s: string)
  {
    forall i :: 0 <= i < |s| ==> IsLower(s[i]) || IsUpper(s[i]) || IsDigit(s[i])
  }

  /** `pat` occurs in `s` starting at index `i`. */
  predicate OccursAt(s: string, pat: string, i: int)
  {
    0 <= i && i + |pat| <= |s| && s[i..i + |pat|] == pat
  }

  /** The first index at or after `k` where `pat` occurs in `s`. */
  function IndexFrom(s: string, pat: string, k: nat): (r: Option<nat>)
    requires k <= |s|
    decreases |s| - k
    ensures r.Some? ==> k <= r.value && OccursAt(s, pat, r.value)
    ensures r.Some? ==> forall j :: k <= j < r.value ==> !OccursAt(s, pat, j)
    ensures r.None? ==> forall j :: k <= j ==> !OccursAt(s, pat, j)
  {
    if k + |pat| > |s| then None
    else if s[k..k + |pat|] == pat then Some(k)
    else if k < |s| then IndexFrom(s, pat, k + 1)
    else None
  }

  /** The search inside `replace`: the first index where `pat` occurs in `s`, or `None`. */
  function IndexOf(s: string, pat: string): (r: Option<nat>)
    ensures r.Some? ==> OccursAt(s, pat, r.value)
    ensures r.Some? ==> forall j :: 0 <= j < r.value ==> !OccursAt(s, pat, j)
    ensures r.None? ==> forall j :: !OccursAt(s, pat, j)
  {
    IndexFrom(s, pat, 0)
  }

  /**
    JavaScript's `s.replace(pat, rep)` for a string pattern: the first
    occurrence of `pat` is replaced by `rep`; without one, `s` is returned.
    Replacement patterns (`$&`, `$1`, ...) in `rep` are not interpreted.
   */
  function ReplaceFirst(s: string, pat: string, rep: string): (r: string)
    ensures IndexOf(s, pat).None? ==> r == s
    ensures IndexOf(s, pat).Some? ==> |r| == |s| - |pat| + |rep|
  {
    match IndexOf(s, pat)
    case None => s
    case Some(i) => s[..i] + rep + s[i + |pat|..]
  }

  /** Only the first occurrence is replaced; text before and after it is kept. */
  lemma ReplaceFirstAt(s: string, pat: string, rep: string, i: nat)
    requires OccursAt(s, pat, i)
    requires forall j :: 0 <= j < i ==> !OccursAt(s, pat, j)
    ensures ReplaceFirst(s, pat, rep) == s[..i] + rep + s[i + |pat|..]
  {
  }

  /** Without an occurrence of the pattern the string is returned unchanged. */
  lemma ReplaceFirstAbsent(s: string, pat: string, rep: string)
    requires forall j :: !OccursAt(s, pat, j)
    ensures ReplaceFirst(s, pat, rep) == s
  {
  }

  /** A string that starts with the pattern keeps everything after it. */
  lemma ReplaceFirstPrefix(pat: string, rest: string, rep: string)
    ensures ReplaceFirst(pat + rest, pat, rep) == rep + rest
  {
    var s := pat + rest;
    assert s[0..|pat|] == pat;
    ReplaceFirstAt(s, pat, rep, 0);
    assert s[|pat|..] == rest;
  }
}
