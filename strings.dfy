/**
 * The string operations the app applies to cell values: Python's
 * `str.strip()` and `str.lower()`, and the two four-digit extractions
 * `^[0-9]{4}` and `[0-9]{4}` that pandas' `str.extract` performs on dates.
 */
module Strings {
  import opened Basics

  /** The characters for which Python's `str.isspace()` holds. */
  predicate IsSpace(c: char) {
    var n := c as int;
    (9 <= n <= 13) || (28 <= n <= 32) || n == 0x85 || n == 0xA0 || n == 0x1680
    || (0x2000 <= n <= 0x200A) || n == 0x2028 || n == 0x2029 || n == 0x202F
    || n == 0x205F || n == 0x3000
  }

  /** The end of the run of whitespace that starts at index `i` of `s`. */
  function LeadingEnd(s: string, i: nat): (n: nat)
    requires i <= |s|
    decreases |s| - i
    ensures i <= n <= |s|
    ensures forall k :: i <= k < n ==> IsSpace(s[k])
    ensures n == |s| || !IsSpace(s[n])
  {
    if i < |s| && IsSpace(s[i]) then LeadingEnd(s, i + 1) else i
  }

  /** The start of the run of whitespace that ends just before index `j` of `s`, looking no further left than `lo`. */
  function TrailingStart(s: string, lo: nat, j: nat): (n: nat)
    requires lo <= j <= |s|
    decreases j - lo
    ensures lo <= n <= j
    ensures forall k :: n <= k < j ==> IsSpace(s[k])
    ensures n == lo || !IsSpace(s[n - 1])
  {
    if lo < j && IsSpace(s[j - 1]) then TrailingStart(s, lo, j - 1) else j
  }

  /** `r` occurs in `s` at index `i`, with only whitespace before and after it. */
  predicate PaddedAt(s: string, r: string, i: nat) {
    i + |r| <= |s| && s[i..i + |r|] == r
    && (forall k :: 0 <= k < i ==> IsSpace(s[k]))
    && (forall k :: i + |r| <= k < |s| ==> IsSpace(s[k]))
  }

  /** `r` is `s` without some whitespace at its two ends. */
  ghost predicate Unpadded(s: string, r: string) {
    exists i: nat :: PaddedAt(s, r, i)
  }

  /** Neither end of `s` is whitespace. */
  predicate Trimmed(s: string) {
    s == [] || (!IsSpace(s[0]) && !IsSpace(s[|s| - 1]))
  }

  /** Python's `str.strip()`: `s` without its leading and trailing whitespace. */
  function Strip(s: string): (r: string)
    ensures Unpadded(s, r)
    ensures Trimmed(r)
  {
    var i := LeadingEnd(s, 0);
    var e := TrailingStart(s, i, |s|);
    assert PaddedAt(s, s[i..e], i);
    s[i..e]
  }

  /** Stripping a string that has no whitespace at its ends leaves it as it is. */
  lemma StripTrimmed(s: string)
    requires Trimmed(s)
    ensures Strip(s) == s
  {
    if s != [] {
      assert LeadingEnd(s, 0) == 0;
      assert TrailingStart(s, 0, |s|) == |s|;
      assert s[0..|s|] == s;
    }
  }

  /** Stripping twice is stripping once. */
  lemma StripIdempotent(s: string)
    ensures Strip(Strip(s)) == Strip(s)
  {
    StripTrimmed(Strip(s));
  }

  predicate IsUpper(c: char) {
    'A' <= c <= 'Z'
  }

  function LowerChar(c: char): char {
    if IsUpper(c) then (c as int + 32) as char else c
  }

  /** Python's `str.lower()` on the ASCII letters: every capital is replaced by its small letter. */
  function Lower(s: string): (r: string)
    ensures |r| == |s|
    ensures forall k :: 0 <= k < |s| ==> !IsUpper(r[k])
    ensures forall k :: 0 <= k < |s| && !IsUpper(s[k]) ==> r[k] == s[k]
    ensures forall k :: 0 <= k < |s| && IsUpper(s[k]) ==> r[k] as int == s[k] as int + 32
  {
    seq(|s|, k requires 0 <= k < |s| => LowerChar(s[k]))
  }

  /** Lowering a stripped string keeps it stripped: no letter is whitespace. */
  lemma LowerKeepsTrimmed(s: string)
    requires Trimmed(s)
    ensures Trimmed(Lower(s))
  {
  }

  /** Lowering twice is lowering once. */
  lemma LowerIdempotent(s: string)
    ensures Lower(Lower(s)) == Lower(s)
  {
  }

  predicate IsDigit(c: char) {
    '0' <= c <= '9'
  }

  /** Four ASCII digits start at index `i` of `s`. */
  predicate DigitRunAt(s: string, i: int) {
    0 <= i && i + 4 <= |s| && IsDigit(s[i]) && IsDigit(s[i + 1]) && IsDigit(s[i + 2]) && IsDigit(s[i + 3])
  }

  /** A four-character string of ASCII digits. */
  predicate IsYear(y: string) {
    DigitRunAt(y, 0) && |y| == 4
  }

  /** The match of `^[0-9]{4}`: the leading four digits of `s`, if it starts with four digits. */
  function LeadingYear(s: string): (r: Option<string>)
    ensures r.Some? <==> DigitRunAt(s, 0)
    ensures r.Some? ==> IsYear(r.value) && s == r.value + s[4..]
  {
    if DigitRunAt(s, 0) then Some(s[..4]) else None
  }

  /** The index of the leftmost run of four digits in `s` at or after `from`. */
  function FirstRunFrom(s: string, from: nat): (r: Option<nat>)
    decreases |s| - from
    ensures r.Some? ==> from <= r.value && DigitRunAt(s, r.value)
    ensures r.Some? ==> forall k :: from <= k < r.value ==> !DigitRunAt(s, k)
    ensures r.None? ==> forall k :: from <= k ==> !DigitRunAt(s, k)
  {
    if from + 4 > |s| then None
    else if DigitRunAt(s, from) then Some(from)
    else FirstRunFrom(s, from + 1)
  }

  /** The match of `[0-9]{4}`: the leftmost four consecutive digits anywhere in `s`, if any. */
  function EmbeddedYear(s: string): (r: Option<string>)
    ensures r.None? <==> forall k :: !DigitRunAt(s, k)
    ensures r.Some? ==> IsYear(r.value)
  {
    match FirstRunFrom(s, 0)
    case None => None
    case Some(i) => Some(s[i..i + 4])
  }

  /** `EmbeddedYear` picks the run that starts at the leftmost possible index. */
  lemma EmbeddedYearIsLeftmost(s: string, i: nat)
    requires DigitRunAt(s, i)
    requires forall k :: 0 <= k < i ==> !DigitRunAt(s, k)
    ensures EmbeddedYear(s) == Some(s[i..i + 4])
  {
    var r := FirstRunFrom(s, 0);
    assert r.Some?;
    assert !(r.value < i) && !(i < r.value);
  }

  /** When `s` starts with four digits both extractions agree: the anchored match is the leftmost one. */
  lemma LeadingYearIsEmbeddedYear(s: string)
    requires LeadingYear(s).Some?
    ensures EmbeddedYear(s) == LeadingYear(s)
  {
    EmbeddedYearIsLeftmost(s, 0);
  }
}
