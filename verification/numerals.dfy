/** Character classes of the lexer's patterns and the numeric conversions of Go's
    `strconv.ParseInt` and `fmt.Sprintf("%d", …)`. */
module Numerals {
  import opened GoInt

  predicate IsDigit(c: char) {
    '0' <= c <= '9'
  }

  predicate IsLetter(c: char) {
    'a' <= c <= 'z' || 'A' <= c <= 'Z'
  }

  predicate IsHexDigit(c: char) {
    IsDigit(c) || 'a' <= c <= 'f' || 'A' <= c <= 'F'
  }

  /** The characters of `\w`, whose edges are the word boundaries `\b` of Go's regexp. */
  predicate IsWordChar(c: char) {
    IsLetter(c) || IsDigit(c) || c == '_'
  }

  /** A digit of the given base as `strconv` accepts it (10 or 16). */
  predicate IsDigitOf(c: char, base: nat) {
    if base == 16 then IsHexDigit(c) else IsDigit(c)
  }

  /** A non-empty run of digits of the base, with no sign. */
  predicate IsNumeral(s: string, base: nat) {
    |s| > 0 && forall k :: 0 <= k < |s| ==> IsDigitOf(s[k], base)
  }

  function DigitValue(c: char): (v: nat)
    requires IsHexDigit(c)
    ensures v < 16
    ensures IsDigit(c) <==> v < 10
  {
    if IsDigit(c) then c as nat - '0' as nat
    else if 'a' <= c <= 'f' then c as nat - 'a' as nat + 10
    else c as nat - 'A' as nat + 10
  }

  /** The value of a numeral read most-significant digit first. */
  function NumeralValue(s: string, base: nat): nat
    requires forall k :: 0 <= k < |s| ==> IsDigitOf(s[k], base)
    decreases |s|
  {
    if s == [] then 0
    else
      assert IsDigitOf(s[|s| - 1], base);
      NumeralValue(s[..|s| - 1], base) * base + DigitValue(s[|s| - 1])
  }

  function DigitChar(d: nat): (c: char)
    requires d < 10
    ensures IsDigit(c) && DigitValue(c) == d
  {
    ('0' as nat + d) as char
  }

  /** `fmt.Sprintf("%d", n)` for a non-negative n: the shortest decimal numeral of n. */
  function DecimalString(n: nat): (s: string)
    ensures IsNumeral(s, 10)
    ensures NumeralValue(s, 10) == n
    ensures s[0] == '0' ==> s == "0"
  {
    if n < 10 then [DigitChar(n)]
    else
      var s := DecimalString(n / 10) + [DigitChar(n % 10)];
      assert s[..|s| - 1] == DecimalString(n / 10);
      s
  }

  /** `fmt.Sprintf("%d", n)` for any integer. */
  function FormatInt(n: int): (s: string)
    ensures |s| > 0
    ensures n >= 0 ==> s == DecimalString(n)
    ensures n < 0 ==> s[0] == '-' && s[1..] == DecimalString(-n)
  {
    if n < 0 then "-" + DecimalString(-n) else DecimalString(n)
  }

  /** The length of a leading `+` or `-`: 1 or 0. */
  function SignLength(s: string): (n: nat)
    ensures n <= |s|
    ensures n == 1 <==> 0 < |s| && (s[0] == '+' || s[0] == '-')
  {
    if 0 < |s| && (s[0] == '+' || s[0] == '-') then 1 else 0
  }

  /** The length of the longest run of digits of the base at the start of s. */
  function DigitPrefix(s: string, base: nat): (n: nat)
    ensures n <= |s|
    ensures forall k :: 0 <= k < n ==> IsDigitOf(s[k], base)
    ensures n < |s| ==> !IsDigitOf(s[n], base)
    decreases |s|
  {
    if 0 < |s| && IsDigitOf(s[0], base) then
      var n := 1 + DigitPrefix(s[1..], base);
      assert forall k :: 1 <= k < n ==> s[k] == s[1..][k - 1];
      n
    else 0
  }

  /** `strconv.ParseInt(s, base, 64)` with its error discarded, as every caller in the
      interpreter does. After an optional sign, `strconv.ParseUint` reads the digits
      from the left: it gives up with a syntax error (and 0) at the first character
      that is not a digit of the base, unless the digits read so far already exceed
      the uint64 range, in which case it gives up with a range error first and the
      result saturates at the int64 bound of the sign. A well-formed numeral
      saturates at the int64 bounds. */
  function ParseInt(s: string, base: nat): (r: int)
    requires base == 10 || base == 16
    ensures IsInt64(r)
    ensures IsNumeral(s[SignLength(s)..], base) ==>
      var v := NumeralValue(s[SignLength(s)..], base);
      r == Clamp(if 0 < |s| && s[0] == '-' then -(v as int) else v)
  {
    var digits := s[SignLength(s)..];
    if IsNumeral(digits, base) then
      var v := NumeralValue(digits, base);
      Clamp(if 0 < |s| && s[0] == '-' then -(v as int) else v)
    else if LeadingDigitsOverflow(digits, base) then
      (if s[0] == '-' then MinInt64 else MaxInt64)
    else
      0
  }

  /** Whether the digits before the first character that is not a digit of the
      base already exceed the uint64 range. */
  predicate LeadingDigitsOverflow(s: string, base: nat) {
    var n := DigitPrefix(s, base);
    NumeralValue(s[..n], base) >= TwoTo64
  }

  /** A numeral's value never decreases as digits are appended. */
  lemma {:induction false} NumeralValueGrows(s: string, base: nat, i: nat)
    requires base == 10 || base == 16
    requires i <= |s| && forall k :: 0 <= k < |s| ==> IsDigitOf(s[k], base)
    ensures NumeralValue(s[..i], base) <= NumeralValue(s, base)
    decreases |s|
  {
    if i < |s| {
      var t := s[..|s| - 1];
      assert t[..i] == s[..i];
      NumeralValueGrows(t, base, i);
    } else {
      assert s[..i] == s;
    }
  }

  /** Reading back a rendered natural gives the natural, up to int64 saturation. */
  lemma ParseDecimalString(n: nat)
    ensures ParseInt(DecimalString(n), 10) == Clamp(n)
    ensures n <= MaxInt64 ==> ParseInt(DecimalString(n), 10) == n
  {
    var s := DecimalString(n);
    assert IsDigit(s[0]);
  }

  /** Reading back any rendered int64 gives it back: `ParseInt` inverts `FormatInt`. */
  lemma ParseFormatInt(n: int)
    requires IsInt64(n)
    ensures ParseInt(FormatInt(n), 10) == n
  {
    if n < 0 {
      var s := FormatInt(n);
      assert s[1..] == DecimalString(-n);
    } else {
      ParseDecimalString(n);
    }
  }

  /** A string whose first character past the sign that is not a digit of the base
      comes before the digits leave the uint64 range reads as 0: `strconv` reports a
      syntax error, which the interpreter discards. */
  lemma ParseIntRejectsForeignDigit(s: string, base: nat, k: nat)
    requires base == 10 || base == 16
    requires SignLength(s) <= k < |s| && !IsDigitOf(s[k], base)
    requires forall j :: SignLength(s) <= j < k ==> IsDigitOf(s[j], base)
    requires NumeralValue(s[SignLength(s)..k], base) < TwoTo64
    ensures ParseInt(s, base) == 0
  {
    var digits := s[SignLength(s)..];
    var n := DigitPrefix(digits, base);
    assert n == k - SignLength(s) by {
      assert forall j :: 0 <= j < k - SignLength(s) ==> digits[j] == s[SignLength(s) + j];
      assert digits[k - SignLength(s)] == s[k];
    }
    assert digits[..n] == s[SignLength(s)..k];
  }

  /** Digits that leave the uint64 range before any foreign character make the
      read saturate at the bound of the sign, whatever follows: `strconv.ParseUint`
      returns its range error without looking further. */
  lemma ParseIntOverflowsFirst(s: string, base: nat, k: nat)
    requires base == 10 || base == 16
    requires SignLength(s) <= k <= |s|
    requires forall j :: SignLength(s) <= j < k ==> IsDigitOf(s[j], base)
    requires NumeralValue(s[SignLength(s)..k], base) >= TwoTo64
    ensures ParseInt(s, base) == if s[0] == '-' then MinInt64 else MaxInt64
  {
    var digits := s[SignLength(s)..];
    var n := DigitPrefix(digits, base);
    var m := k - SignLength(s);
    assert m <= n by {
      assert forall j :: 0 <= j < m ==> digits[j] == s[SignLength(s) + j];
    }
    assert digits[..n][..m] == s[SignLength(s)..k] by {
      assert |digits[..n][..m]| == |s[SignLength(s)..k]|;
      forall j | 0 <= j < m
        ensures digits[..n][..m][j] == s[SignLength(s)..k][j]
      {
        assert digits[j] == s[SignLength(s) + j];
      }
    }
    NumeralValueGrows(digits[..n], base, m);
    if IsNumeral(digits, base) {
      assert digits[..n] == digits;
    }
  }
}
