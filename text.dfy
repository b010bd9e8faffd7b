/**
 * Text helpers of the certificate generator: Python's `str.strip()`,
 * `str.lower()` and `safe_text` (run1.py:51).
 *
 * Whitespace is the fixed set of characters `IsSpace` names and lower-casing
 * maps only ASCII capitals; Python's full Unicode tables are approximated.
 */
module Text {
  import opened Wrappers

  /** The characters `str.strip()` removes (ASCII whitespace and separators). */
  predicate IsSpace(c: char) {
    c == ' ' || c == '\t' || c == '\n' || c == '\r' ||
    c == '\U{0B}' || c == '\U{0C}' ||
    c == '\U{1C}' || c == '\U{1D}' || c == '\U{1E}' || c == '\U{1F}'
  }

  /** No leading and no trailing whitespace. */
  predicate Trimmed(s: string) {
    s == [] || (!IsSpace(s[0]) && !IsSpace(s[|s| - 1]))
  }

  /** How many whitespace characters `s` starts with: the index of its first non-space character. */
  function LeadingSpaces(s: string): (n: nat)
    ensures n <= |s|
    ensures forall k :: 0 <= k < n ==> IsSpace(s[k])
    ensures n < |s| ==> !IsSpace(s[n])
  {
    if |s| > 0 && IsSpace(s[0]) then 1 + LeadingSpaces(s[1..]) else 0
  }

  /** Where the trailing whitespace of `s` begins: one past its last non-space character. */
  function TrailingStart(s: string): (e: nat)
    ensures e <= |s|
    ensures forall k :: e <= k < |s| ==> IsSpace(s[k])
    ensures e > 0 ==> !IsSpace(s[e - 1])
  {
    if |s| > 0 && IsSpace(s[|s| - 1]) then TrailingStart(s[..|s| - 1]) else |s|
  }

  /**
   * Python's `str.strip()`: the result is the part of `s` between its leading
   * and its trailing whitespace, unchanged.
   */
  function Strip(s: string): (r: string)
    ensures Trimmed(r)
    ensures |r| <= |s|
    ensures LeadingSpaces(s) + |r| <= |s| && r == s[LeadingSpaces(s)..LeadingSpaces(s) + |r|]
    ensures forall k :: 0 <= k < LeadingSpaces(s) ==> IsSpace(s[k])
    ensures forall k :: LeadingSpaces(s) + |r| <= k < |s| ==> IsSpace(s[k])
    ensures r == [] <==> forall k :: 0 <= k < |s| ==> IsSpace(s[k])
  {
    var b, e := LeadingSpaces(s), TrailingStart(s);
    if b < e then s[b..e] else []
  }

  /** A string with no whitespace at either end is left alone by `Strip`. */
  lemma StripTrimmed(s: string)
    requires Trimmed(s)
    ensures Strip(s) == s
  {
  }

  /** `Strip` is idempotent. */
  lemma StripIdempotent(s: string)
    ensures Strip(Strip(s)) == Strip(s)
  {
    StripTrimmed(Strip(s));
  }

  /** `safe_text`: `None` becomes the empty string, anything else is stripped. */
  function SafeText(v: Option<string>): (r: string)
    ensures Trimmed(r)
    ensures v.None? ==> r == []
    ensures v.Some? ==> r == Strip(v.value)
  {
    match v
    case None => ""
    case Some(s) => Strip(s)
  }

  /** Re-applying `safe_text` to its own result changes nothing. */
  lemma SafeTextIdempotent(v: Option<string>)
    ensures SafeText(Some(SafeText(v))) == SafeText(v)
  {
    StripTrimmed(SafeText(v));
  }

  /** `str.lower()` on one character, ASCII only. */
  function LowerChar(c: char): char {
    if 'A' <= c <= 'Z' then (c as int + 32) as char else c
  }

  /** `str.lower()`: maps every ASCII capital to its small letter. */
  function Lower(s: string): (r: string)
    ensures |r| == |s|
    ensures forall k :: 0 <= k < |s| ==> r[k] == LowerChar(s[k])
  {
    if s == [] then [] else [LowerChar(s[0])] + Lower(s[1..])
  }

  /** Lower-casing twice is lower-casing once. */
  lemma LowerIdempotent(s: string)
    ensures Lower(Lower(s)) == Lower(s)
  {
    assert forall k :: 0 <= k < |s| ==> LowerChar(LowerChar(s[k])) == LowerChar(s[k]);
  }
}
