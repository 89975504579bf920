/**
  The two string clean-ups the pages apply to user input:
  `String.prototype.trim` (tag entry) and `value.replace(/\D/g, "").slice(0, n)`
  (mobile number and OTP entry). Strings are sequences of Unicode scalar values.
 */
module Text {

  /** A character ECMAScript's `trim` strips: a WhiteSpace (including every Zs
      space separator) or a LineTerminator code point. */
  predicate IsWhitespace(c: char)
  {
    || c == '\t' || c == '\n' || c == '\U{000B}' || c == '\U{000C}' || c == '\r'
    || c == ' ' || c == '\U{00A0}' || c == '\U{1680}'
    || ('\U{2000}' <= c <= '\U{200A}')
    || c == '\U{2028}' || c == '\U{2029}' || c == '\U{202F}' || c == '\U{205F}'
    || c == '\U{3000}' || c == '\U{FEFF}'
  }

  /** Every position of `s` in `[lo, hi)` holds whitespace. */
  predicate WhitespaceBetween(s: string, lo: nat, hi: nat)
    requires lo <= hi <= |s|
  {
    forall k :: lo <= k < hi ==> IsWhitespace(s[k])
  }

  predicate AllWhitespace(s: string)
  {
    WhitespaceBetween(s, 0, |s|)
  }

  /** Neither end of `s` is whitespace (the empty string is trimmed). */
  predicate IsTrimmed(s: string)
  {
    s == [] || (!IsWhitespace(s[0]) && !IsWhitespace(s[|s| - 1]))
  }

  /** The first position at or after `i` that is not whitespace, or `|s|`. */
  function SkipForward(s: string, i: nat): (r: nat)
    requires i <= |s|
    ensures i <= r <= |s| && WhitespaceBetween(s, i, r)
    ensures r < |s| ==> !IsWhitespace(s[r])
    decreases |s| - i
  {
    if i < |s| && IsWhitespace(s[i]) then SkipForward(s, i + 1) else i
  }

  /** The position just past the last non-whitespace character in `[lo, j)`, or `lo`. */
  function SkipBackward(s: string, lo: nat, j: nat): (r: nat)
    requires lo <= j <= |s|
    ensures lo <= r <= j && WhitespaceBetween(s, r, j)
    ensures r > lo ==> !IsWhitespace(s[r - 1])
    decreases j
  {
    if j > lo && IsWhitespace(s[j - 1]) then SkipBackward(s, lo, j - 1) else j
  }

  /** Where the trimmed text starts. */
  function Lead(s: string): nat
    ensures Lead(s) <= |s|
  {
    SkipForward(s, 0)
  }

  /** Where the trimmed text ends. */
  function Tail(s: string): nat
    ensures Lead(s) <= Tail(s) <= |s|
  {
    SkipBackward(s, Lead(s), |s|)
  }

  /** `String.prototype.trim`: the part of `s` between a whitespace prefix and
      a whitespace suffix, starting and ending with a non-whitespace character. */
  function Trim(s: string): (r: string)
    ensures IsTrimmed(r)
    ensures Lead(s) + |r| <= |s| && r == s[Lead(s)..Lead(s) + |r|]
    ensures WhitespaceBetween(s, 0, Lead(s)) && WhitespaceBetween(s, Lead(s) + |r|, |s|)
  {
    s[Lead(s)..Tail(s)]
  }

  /** Trimming leaves a string alone exactly when it is already trimmed. */
  lemma TrimFixedPoint(s: string)
    ensures Trim(s) == s <==> IsTrimmed(s)
  {
    if IsTrimmed(s) && s != [] {
      assert Lead(s) == 0;
      assert Tail(s) == |s|;
    }
  }

  /** `trim` is idempotent. */
  lemma TrimIdempotent(s: string)
    ensures Trim(Trim(s)) == Trim(s)
  {
    TrimFixedPoint(Trim(s));
  }

  /** `trim` yields the empty string exactly for blank input. */
  lemma TrimEmptyIffBlank(s: string)
    ensures Trim(s) == [] <==> AllWhitespace(s)
  {
    if Trim(s) == [] {
      assert Lead(s) == Tail(s);
    }
  }

  predicate IsDigit(c: char)
  {
    '0' <= c <= '9'
  }

  predicate AllDigits(s: string)
  {
    forall i :: 0 <= i < |s| ==> IsDigit(s[i])
  }

  /** `s.replace(/\D/g, "")`: the digits of `s`, in order. */
  function DigitsOnly(s: string): (r: string)
    ensures AllDigits(r) && |r| <= |s|
    ensures AllDigits(s) ==> r == s
  {
    if s == [] then []
    else (if IsDigit(s[0]) then [s[0]] else []) + DigitsOnly(s[1..])
  }

  /** `replace(/\D/g, "")` removes every non-digit and nothing else: each
      digit occurs in the result as often as in the input, and no other
      character occurs at all. */
  lemma {:induction false} DigitsOnlyCounts(s: string)
    ensures forall c :: multiset(DigitsOnly(s))[c] == if IsDigit(c) then multiset(s)[c] else 0
  {
    if s != [] {
      DigitsOnlyCounts(s[1..]);
      assert s == [s[0]] + s[1..];
    }
  }

  /** Removing the non-digits of a concatenation works piecewise, so the
      digits keep their relative order. */
  lemma {:induction false} DigitsOnlyConcat(a: string, b: string)
    ensures DigitsOnly(a + b) == DigitsOnly(a) + DigitsOnly(b)
  {
    if a == [] {
      assert a + b == b;
    } else {
      assert (a + b)[1..] == a[1..] + b;
      DigitsOnlyConcat(a[1..], b);
    }
  }

  /** `DigitsOnly(s).slice(0, max)`: the normaliser of the mobile number and
      OTP inputs. */
  function KeepDigits(s: string, max: nat): (r: string)
    ensures AllDigits(r) && |r| <= max
    ensures |DigitsOnly(s)| <= max ==> r == DigitsOnly(s)
    ensures |DigitsOnly(s)| > max ==> r == DigitsOnly(s)[..max]
  {
    var d := DigitsOnly(s);
    if |d| <= max then d else d[..max]
  }

  /** Normalising an already normalised value changes nothing. */
  lemma KeepDigitsIdempotent(s: string, max: nat)
    ensures KeepDigits(KeepDigits(s, max), max) == KeepDigits(s, max)
  {
  }

  /** The values the normaliser leaves alone are exactly the digit strings of
      length at most `max`. */
  lemma KeepDigitsFixedPoint(s: string, max: nat)
    ensures KeepDigits(s, max) == s <==> AllDigits(s) && |s| <= max
  {
  }
}
