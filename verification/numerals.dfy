/**
 * Decimal integers as the extractor reads and the export writes them:
 * Go's `strconv.Atoi` with its error discarded, and the `%d` verb of `fmt`.
 * Go's `int` is taken to be 64 bits wide.
 */
module Numerals {
  import opened Wrappers

  const MaxInt: int := 0x7FFF_FFFF_FFFF_FFFF
  const MinInt: int := -0x8000_0000_0000_0000

  predicate IsDigit(c: char) {
    '0' <= c <= '9'
  }

  predicate AllDigits(s: string) {
    forall i :: 0 <= i < |s| ==> IsDigit(s[i])
  }

  function DigitValue(c: char): nat
    requires IsDigit(c)
  {
    (c as int) - ('0' as int)
  }

  function DigitChar(d: nat): (c: char)
    requires d < 10
    ensures IsDigit(c) && DigitValue(c) == d
  {
    ('0' as int + d) as char
  }

  /** The value of a string of decimal digits, most significant first. */
  function DigitsValue(s: string): nat
    requires AllDigits(s)
    decreases |s|
  {
    if |s| == 0 then 0 else DigitsValue(s[..|s| - 1]) * 10 + DigitValue(s[|s| - 1])
  }

  /** A value outside Go's `int` range is replaced by the nearest bound. */
  function Clamp(n: int): (r: int)
    ensures MinInt <= r <= MaxInt
    ensures MinInt <= n <= MaxInt ==> r == n
    ensures n > MaxInt ==> r == MaxInt
    ensures n < MinInt ==> r == MinInt
  {
    if n > MaxInt then MaxInt else if n < MinInt then MinInt else n
  }

  /** The largest value of Go's `uint64`. */
  const MaxUint64: int := 0xFFFF_FFFF_FFFF_FFFF

  /** The two errors of `strconv`'s number parsers. */
  datatype NumError = ErrSyntax | ErrRange

  /** The decimal digits at the start of `s`, up to the first other character. */
  function DigitRun(s: string): (r: string)
    ensures |r| <= |s| && r == s[..|r|] && AllDigits(r)
    ensures |r| < |s| ==> !IsDigit(s[|r|])
    decreases |s|
  {
    if |s| > 0 && IsDigit(s[0]) then [s[0]] + DigitRun(s[1..]) else []
  }

  /**
   * `strconv.ParseUint(s, 10, 64)`. Go reads the text left to right: a
   * character that is not a digit is a syntax error with value 0, and the
   * first digit that takes the running value past the `uint64` maximum is a
   * range error with the maximum as value, whatever follows it. Only the
   * leading run of digits decides the range error (`ParseUintRange`).
   */
  function ParseUint(s: string): (r: (int, Option<NumError>))
    ensures 0 <= r.0 <= MaxUint64
    ensures r.1 == None ==> |s| > 0 && AllDigits(s) && r.0 == DigitsValue(s)
    ensures |s| > 0 && AllDigits(s) && DigitsValue(s) <= MaxUint64 ==> r == (DigitsValue(s), None)
    ensures r.1 == Some(ErrRange) ==> r.0 == MaxUint64
    ensures r.1 == Some(ErrSyntax) ==> r.0 == 0
  {
    var run := DigitRun(s);
    DigitRunOfDigits(s);
    if DigitsValue(run) > MaxUint64 then (MaxUint64, Some(ErrRange))
    else if |s| == 0 || |run| < |s| then (0, Some(ErrSyntax))
    else assert run == s[..|s|] == s; (DigitsValue(run), None)
  }

  /**
   * `strconv.ParseInt(s, 10, 64)`: an optional sign, then `ParseUint` of the
   * rest. A syntax error gives 0; a magnitude beyond the signed range gives
   * the bound on that side with a range error.
   */
  function ParseInt(s: string): (r: (int, Option<NumError>))
    ensures MinInt <= r.0 <= MaxInt
    ensures r.1 == Some(ErrSyntax) ==> r.0 == 0
  {
    if |s| == 0 then (0, Some(ErrSyntax))
    else Signed(s[0] == '-', ParseUint(Unsigned(s)))
  }

  /** The text after an optional leading sign. */
  function Unsigned(s: string): (u: string)
    requires |s| > 0
    ensures s[0] != '+' && s[0] != '-' ==> u == s
  {
    if s[0] == '+' || s[0] == '-' then s[1..] else s
  }

  /**
   * The second half of `ParseInt`: a syntax error stays one with value 0, a
   * magnitude beyond the signed range becomes the bound on the sign's side
   * with a range error, and any other magnitude takes the sign.
   */
  function Signed(neg: bool, u: (int, Option<NumError>)): (r: (int, Option<NumError>))
    requires 0 <= u.0 <= MaxUint64
    requires u.1 == Some(ErrSyntax) ==> u.0 == 0
    ensures MinInt <= r.0 <= MaxInt
    ensures r.1 == Some(ErrSyntax) <==> u.1 == Some(ErrSyntax)
    ensures u.1 != Some(ErrSyntax) ==> r.0 == Clamp(if neg then -u.0 else u.0)
  {
    if u.1 == Some(ErrSyntax) then (0, u.1)
    else if !neg && u.0 > MaxInt then (MaxInt, Some(ErrRange))
    else if neg && u.0 > -MinInt then (MinInt, Some(ErrRange))
    else (if neg then -u.0 else u.0, u.1)
  }

  /**
   * `strconv.Atoi(s)` when the caller ignores its error. Go defines it as
   * `ParseInt(s, 10, 0)` on a 64-bit `int`; its fast path for texts shorter
   * than 19 characters cannot overflow and returns the same value. So: an
   * optional sign and decimal digits give their value, a leading digit run
   * beyond the `uint64` range gives the bound on the sign's side, and any
   * other text gives 0.
   */
  function Atoi(s: string): (n: int)
    ensures MinInt <= n <= MaxInt
    ensures '-' !in s ==> n >= 0
    ensures (|s| == 0 || !(IsDigit(s[0]) || s[0] == '+' || s[0] == '-')) ==> n == 0
  {
    ParseInt(s).0
  }

  /** The value of a prefix of a digit string is at most the value of the whole. */
  lemma {:induction false} DigitsValuePrefix(s: string, j: int)
    requires AllDigits(s) && 0 <= j <= |s|
    ensures DigitsValue(s[..j]) <= DigitsValue(s)
    decreases |s|
  {
    if j < |s| {
      var init := s[..|s| - 1];
      assert init[..j] == s[..j];
      DigitsValuePrefix(init, j);
      assert DigitsValue(s) == DigitsValue(init) * 10 + DigitValue(s[|s| - 1]);
    } else {
      assert s[..j] == s;
    }
  }

  /**
   * `ParseUint` reports a range error exactly when some all-digit prefix of
   * the text, however short, already exceeds the `uint64` maximum: the
   * characters after the first overflowing digit are never read.
   */
  lemma ParseUintRange(s: string)
    ensures ParseUint(s).1 == Some(ErrRange) <==>
            exists j :: 0 < j <= |s| && AllDigits(s[..j]) && DigitsValue(s[..j]) > MaxUint64
  {
    var run := DigitRun(s);
    if ParseUint(s).1 == Some(ErrRange) {
      assert |run| > 0;
      assert s[..|run|] == run;
    }
    if exists j :: 0 < j <= |s| && AllDigits(s[..j]) && DigitsValue(s[..j]) > MaxUint64 {
      var j :| 0 < j <= |s| && AllDigits(s[..j]) && DigitsValue(s[..j]) > MaxUint64;
      assert run[..j] == s[..j];
      DigitsValuePrefix(run, j);
    }
  }

  /**
   * Digits whose value exceeds the `uint64` maximum make `Atoi` return the
   * bound on the sign's side, whatever text follows them.
   */
  lemma AtoiOverflow(digits: string, rest: string)
    requires |digits| > 0 && AllDigits(digits) && DigitsValue(digits) > MaxUint64
    ensures Atoi(digits + rest) == MaxInt
    ensures Atoi("+" + digits + rest) == MaxInt
    ensures Atoi("-" + digits + rest) == MinInt
  {
    var s := digits + rest;
    ParseUintOverflow(digits, rest);
    var u := ParseUint(s);
    assert Signed(false, u).0 == MaxInt;
    assert Signed(true, u).0 == MinInt;
    AtoiUnsigned(s);
    AtoiAfterSign('+', s);
    AtoiAfterSign('-', s);
    Regroup("+", digits, rest);
    Regroup("-", digits, rest);
  }

  /**
   * An optional sign followed by decimal digits within the `uint64` range
   * reads as the signed value of the digits, clamped to the `int` range;
   * leading zeros and a `+` change nothing.
   */
  lemma AtoiOfDigits(digits: string)
    requires |digits| > 0 && AllDigits(digits) && DigitsValue(digits) <= MaxUint64
    ensures Atoi(digits) == Clamp(DigitsValue(digits))
    ensures Atoi("+" + digits) == Clamp(DigitsValue(digits))
    ensures Atoi("-" + digits) == Clamp(-(DigitsValue(digits) as int))
  {
    assert ParseUint(digits) == (DigitsValue(digits), None);
    AtoiUnsigned(digits);
    AtoiAfterSign('+', digits);
    AtoiAfterSign('-', digits);
  }

  /** Concatenation regroups. */
  lemma Regroup(a: string, b: string, c: string)
    ensures a + b + c == a + (b + c)
  {
  }

  /** Without a sign, `Atoi` is `ParseUint` clamped to the `int` range. */
  lemma AtoiUnsigned(s: string)
    requires |s| > 0 && IsDigit(s[0])
    ensures Atoi(s) == Signed(false, ParseUint(s)).0
  {
  }

  /** After a sign, `Atoi` reads the rest as `ParseUint` and applies the sign. */
  lemma AtoiAfterSign(c: char, s: string)
    requires c == '+' || c == '-'
    ensures Atoi([c] + s) == Signed(c == '-', ParseUint(s)).0
  {
    assert ([c] + s)[1..] == s;
  }

  /** Decimal digits of `n` without leading zeros. */
  function FormatNat(n: nat): (s: string)
    ensures |s| >= 1 && AllDigits(s)
    ensures |s| > 1 ==> s[0] != '0'
    decreases n
  {
    if n < 10 then [DigitChar(n)] else FormatNat(n / 10) + [DigitChar(n % 10)]
  }

  /** The `%d` verb: a minus sign for negative values, then the digits. */
  function FormatInt(n: int): (s: string)
    ensures |s| >= 1 && (n < 0 <==> s[0] == '-')
    ensures '-' !in s[1..]
  {
    if n < 0 then "-" + FormatNat(-n) else FormatNat(n)
  }

  /** Reading the digits of `n` back gives `n`. */
  lemma {:induction false} DigitsValueOfFormatNat(n: nat)
    ensures DigitsValue(FormatNat(n)) == n
    decreases n
  {
    if n >= 10 {
      var s := FormatNat(n);
      var high := FormatNat(n / 10);
      assert s[..|s| - 1] == high;
      DigitsValueOfFormatNat(n / 10);
    }
  }

  /** `Atoi` undoes `%d` for every value of Go's `int`. */
  lemma AtoiOfFormatInt(n: int)
    requires MinInt <= n <= MaxInt
    ensures Atoi(FormatInt(n)) == n
  {
    var d := FormatNat(if n < 0 then -n else n);
    DigitsValueOfFormatNat(if n < 0 then -n else n);
    DigitRunOfDigits(d);
    assert ParseUint(d) == (if n < 0 then -n else n, None);
    assert Unsigned(FormatInt(n)) == d;
  }

  /** Digits beyond the `uint64` range are a range error, whatever follows them. */
  lemma ParseUintOverflow(digits: string, rest: string)
    requires |digits| > 0 && AllDigits(digits) && DigitsValue(digits) > MaxUint64
    ensures ParseUint(digits + rest) == (MaxUint64, Some(ErrRange))
  {
    var s := digits + rest;
    assert s[..|digits|] == digits;
    ParseUintRange(s);
  }

  /** A digit string is its own leading digit run. */
  lemma DigitRunOfDigits(s: string)
    ensures AllDigits(s) ==> DigitRun(s) == s
  {
  }
}
