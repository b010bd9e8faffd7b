/**
 * `normalize_mobile` (run1.py:59-66): reduces any mobile-number input to at
 * most ten decimal digits. Digits are the ASCII characters '0'..'9' (Python's
 * `str.isdigit` also accepts other Unicode digits; that is approximated).
 */
module Mobile {
  import opened Wrappers

  predicate IsDigit(c: char) {
    '0' <= c <= '9'
  }

  predicate AllDigits(s: string) {
    forall k :: 0 <= k < |s| ==> IsDigit(s[k])
  }

  /** The digits of `s` in order: the comprehension at run1.py:61. */
  function Digits(s: string): (r: string)
    ensures AllDigits(r)
    ensures |r| <= |s|
  {
    if s == [] then []
    else (if IsDigit(s[0]) then [s[0]] else []) + Digits(s[1..])
  }

  /** A string of digits is its own digit string. */
  lemma {:induction false} DigitsOfDigits(s: string)
    requires AllDigits(s)
    ensures Digits(s) == s
  {
    if s != [] {
      DigitsOfDigits(s[1..]);
    }
  }

  /** The last `n` characters of `s`, or all of `s` when it is shorter. */
  function LastN(s: string, n: nat): (r: string)
    ensures |r| == if |s| <= n then |s| else n
    ensures r == s[|s| - |r|..]
  {
    if |s| <= n then s else s[|s| - n..]
  }

  const MAX_MOBILE_DIGITS: nat := 10
  const COUNTRY_CODE: string := "91"

  /**
   * `normalize_mobile`: `None` and the empty string give "", otherwise the
   * digits are kept, a leading "91" is dropped when there are at least twelve
   * digits, and only the last ten digits remain.
   */
  function NormalizeMobile(m: Option<string>): (r: string)
    ensures AllDigits(r)
    ensures |r| <= MAX_MOBILE_DIGITS
  {
    if m.None? || m.value == "" then ""
    else
      var s := Digits(m.value);
      var s' := if |s| >= 12 && s[..2] == COUNTRY_CODE then s[2..] else s;
      if |s'| > MAX_MOBILE_DIGITS then s'[|s'| - MAX_MOBILE_DIGITS..] else s'
  }

  /**
   * The result is always the last (up to) ten digits of the input: dropping
   * the "91" prefix only ever happens when at least ten digits remain after
   * it, so it never changes which ten digits are kept.
   */
  lemma NormalizeMobileIsLastTenDigits(m: Option<string>)
    ensures NormalizeMobile(m) == if m.None? then "" else LastN(Digits(m.value), MAX_MOBILE_DIGITS)
  {
    if m.Some? && m.value != "" {
      var s := Digits(m.value);
      if |s| >= 12 && s[..2] == COUNTRY_CODE {
        var s' := s[2..];
        assert s'[|s'| - MAX_MOBILE_DIGITS..] == s[|s| - MAX_MOBILE_DIGITS..];
      }
    }
  }

  /** The result is a suffix of the digits of the input, and empty exactly when there are none. */
  lemma NormalizeMobileIsDigitSuffix(m: Option<string>)
    requires m.Some?
    ensures var d := Digits(m.value); var r := NormalizeMobile(m);
      |r| <= |d| && r == d[|d| - |r|..] && (r == "" <==> d == "")
  {
    NormalizeMobileIsLastTenDigits(m);
  }

  /** A string of at most ten digits is already normalised. */
  lemma NormalizeMobileFixesShortDigits(s: string)
    requires AllDigits(s) && |s| <= MAX_MOBILE_DIGITS
    ensures NormalizeMobile(Some(s)) == s
  {
    DigitsOfDigits(s);
    NormalizeMobileIsLastTenDigits(Some(s));
  }

  /** Normalising an already normalised number changes nothing. */
  lemma NormalizeMobileIdempotent(m: Option<string>)
    ensures NormalizeMobile(Some(NormalizeMobile(m))) == NormalizeMobile(m)
  {
    NormalizeMobileFixesShortDigits(NormalizeMobile(m));
  }

  /**
   * Worked example: "+91 98765 43210" (or with hyphens) normalises to its ten
   * national digits.
   */
  lemma NormalizeMobileFormattedExample(sep: char)
    requires sep == ' ' || sep == '-'
    ensures NormalizeMobile(Some("+91" + [sep] + "98765" + [sep] + "43210")) == "9876543210"
  {
    var d1, d2, d3 := "91", "98765", "43210";
    assert AllDigits(d1) && AllDigits(d2) && AllDigits(d3);
    GroupedDigits('+', sep, d1, d2, d3);
    assert "+91" == ['+'] + d1;
    var s := d1 + d2 + d3;
    assert |s| == 12 && s[..2] == COUNTRY_CODE && s[2..] == d2 + d3;
    assert d2 + d3 == "9876543210";
  }

  /** The digits of a number written as three digit groups behind a sign and between separators. */
  lemma GroupedDigits(p: char, sep: char, a: string, b: string, c: string)
    requires !IsDigit(p) && !IsDigit(sep)
    requires AllDigits(a) && AllDigits(b) && AllDigits(c)
    ensures Digits([p] + a + [sep] + b + [sep] + c) == a + b + c
  {
    var t1 := [p] + a;
    assert Digits(t1) == a by { DigitsSkip([p], a); DigitsOfDigits(a); }
    var t2 := t1 + [sep];
    assert Digits(t2) == a by { DigitsAppendSkip(t1, sep); }
    var t3 := t2 + b;
    assert Digits(t3) == a + b by { DigitsAppendKeep(t2, b); }
    var t4 := t3 + [sep];
    assert Digits(t4) == a + b by { DigitsAppendSkip(t3, sep); }
    assert Digits(t4 + c) == a + b + c by { DigitsAppendKeep(t4, c); }
  }

  /** A non-digit at the end contributes nothing. */
  lemma DigitsAppendSkip(s: string, c: char)
    requires !IsDigit(c)
    ensures Digits(s + [c]) == Digits(s)
  {
    DigitsConcat(s, [c]);
  }

  /** A run of digits at the end is kept whole. */
  lemma DigitsAppendKeep(s: string, t: string)
    requires AllDigits(t)
    ensures Digits(s + t) == Digits(s) + t
  {
    DigitsConcat(s, t);
    DigitsOfDigits(t);
  }

  /** Dropping a run of non-digits in front of `b` does not change its digits. */
  lemma DigitsSkip(a: string, b: string)
    requires Digits(a) == []
    ensures Digits(a + b) == Digits(b)
  {
    DigitsConcat(a, b);
  }

  /** Worked examples: a short number is kept whole; absent or empty input gives "". */
  lemma NormalizeMobileShortExamples()
    ensures NormalizeMobile(Some("12345")) == "12345"
    ensures NormalizeMobile(Some("")) == "" && NormalizeMobile(None) == ""
  {
    NormalizeMobileFixesShortDigits("12345");
  }

  /** Filtering digits distributes over concatenation. */
  lemma {:induction false} DigitsConcat(a: string, b: string)
    ensures Digits(a + b) == Digits(a) + Digits(b)
  {
    if a == [] {
      assert a + b == b;
    } else {
      assert (a + b)[1..] == a[1..] + b;
      DigitsConcat(a[1..], b);
    }
  }
}
