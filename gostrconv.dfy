/**
 * Go's strconv.ParseBool and strconv.Atoi (with Go's `int` taken as 64 bits),
 * written out digit by digit the way the library scans them.
 */
module GoStrconv {
  import opened Wrappers

  /** The error kinds of strconv.NumError. */
  datatype NumErr = NoErr | ErrSyntax | ErrRange

  /** A parsed number together with its error; Go returns both. */
  datatype Num = Num(value: int, err: NumErr)

  const MaxUint64: int := 0xFFFF_FFFF_FFFF_FFFF
  const MaxInt64: int := 0x7FFF_FFFF_FFFF_FFFF
  const MinInt64: int := -0x8000_0000_0000_0000

  /** ParseUint's cutoff: the smallest n for which n * 10 overflows 64 bits. */
  const Cutoff: int := MaxUint64 / 10 + 1

  predicate IsDigit(c: char) {
    '0' <= c <= '9'
  }

  function DigitValue(c: char): int
    requires IsDigit(c)
  {
    c as int - '0' as int
  }

  predicate AllDigits(s: string) {
    forall i :: 0 <= i < |s| ==> IsDigit(s[i])
  }

  /** strconv.ParseBool's accepted spellings. */
  predicate IsBoolSpelling(s: string) {
    s in {"1", "t", "T", "TRUE", "true", "True", "0", "f", "F", "FALSE", "false", "False"}
  }

  /** strconv.ParseBool: Some(b) for the accepted spellings, None (a syntax error) otherwise. */
  function ParseBool(s: string): (r: Option<bool>)
    ensures r.Some? <==> IsBoolSpelling(s)
    ensures r == Some(true) <==> s in {"1", "t", "T", "TRUE", "true", "True"}
  {
    match s
    case "1" => Some(true)
    case "t" => Some(true)
    case "T" => Some(true)
    case "TRUE" => Some(true)
    case "true" => Some(true)
    case "True" => Some(true)
    case "0" => Some(false)
    case "f" => Some(false)
    case "F" => Some(false)
    case "FALSE" => Some(false)
    case "false" => Some(false)
    case "False" => Some(false)
    case _ => None
  }

  /** The decimal value of s[i..] accumulated onto n, left to right: n * 10^k + digits. */
  function Accumulate(s: string, i: nat, n: int): int
    requires i <= |s| && AllDigits(s)
    decreases |s| - i
  {
    if i == |s| then n else Accumulate(s, i + 1, n * 10 + DigitValue(s[i]))
  }

  /** The decimal value of a string of digits. */
  function DecimalValue(s: string): int
    requires AllDigits(s)
  {
    Accumulate(s, 0, 0)
  }

  /**
   * The digit loop of strconv.ParseUint for base 10 and 64 bits, from position
   * i with n accumulated so far: a non-digit is a syntax error (value 0); an
   * accumulation past 2^64 - 1 is a range error with the value clamped.
   */
  function ScanUint(s: string, i: nat, n: int): (r: Num)
    requires i <= |s|
    ensures r.err == ErrRange ==> r.value == MaxUint64
    ensures r.err == ErrSyntax ==> r.value == 0
    decreases |s| - i
  {
    if i == |s| then Num(n, NoErr)
    else if !IsDigit(s[i]) then Num(0, ErrSyntax)
    else if n >= Cutoff then Num(MaxUint64, ErrRange)
    else
      var n1 := n * 10 + DigitValue(s[i]);
      if n1 > MaxUint64 then Num(MaxUint64, ErrRange)
      else ScanUint(s, i + 1, n1)
  }

  /** strconv.ParseUint(s, 10, 64). */
  function ParseUint(s: string): Num {
    if s == "" then Num(0, ErrSyntax) else ScanUint(s, 0, 0)
  }

  /** strconv.ParseInt(s, 10, 64): an optional sign, then ParseUint, then the signed range check. */
  function ParseInt(s: string): Num {
    if s == "" then Num(0, ErrSyntax)
    else
      var neg := s[0] == '-';
      var digits := if s[0] == '+' || s[0] == '-' then s[1..] else s;
      var u := ParseUint(digits);
      if u.err == ErrSyntax then Num(0, ErrSyntax)
      else if !neg && u.value > MaxInt64 then Num(MaxInt64, ErrRange)
      else if neg && u.value > -MinInt64 then Num(MinInt64, ErrRange)
      else Num(if neg then -u.value else u.value, NoErr)
  }

  /**
   * strconv.Atoi on a 64-bit platform. Its fast path for strings shorter than
   * 19 bytes gives the same results as ParseInt, so Atoi is ParseInt.
   */
  function Atoi(s: string): Num {
    ParseInt(s)
  }

  /** Decimal integer syntax: an optional sign, then at least one digit. */
  predicate IsDecimalSyntax(s: string) {
    if |s| > 0 && (s[0] == '+' || s[0] == '-') then |s| > 1 && AllDigits(s[1..])
    else |s| > 0 && AllDigits(s)
  }

  /** The mathematical value of a string in decimal integer syntax. */
  function SignedValue(s: string): int
    requires IsDecimalSyntax(s)
  {
    if s[0] == '-' then -DecimalValue(s[1..])
    else if s[0] == '+' then DecimalValue(s[1..])
    else DecimalValue(s)
  }

  lemma {:induction false} AccumulateGrows(s: string, i: nat, n: int)
    requires i <= |s| && AllDigits(s) && n >= 0
    ensures Accumulate(s, i, n) >= n
    ensures i < |s| ==> Accumulate(s, i, n) >= n * 10
    decreases |s| - i
  {
    if i < |s| {
      AccumulateGrows(s, i + 1, n * 10 + DigitValue(s[i]));
    }
  }

  /** On digits, the scan yields the decimal value when it fits in 64 bits and a clamped range error otherwise. */
  lemma {:induction false} ScanDigits(s: string, i: nat, n: int)
    requires i <= |s| && AllDigits(s) && 0 <= n <= MaxUint64
    ensures Accumulate(s, i, n) <= MaxUint64 ==> ScanUint(s, i, n) == Num(Accumulate(s, i, n), NoErr)
    ensures Accumulate(s, i, n) > MaxUint64 ==> ScanUint(s, i, n) == Num(MaxUint64, ErrRange)
    decreases |s| - i
  {
    if i < |s| {
      var n1 := n * 10 + DigitValue(s[i]);
      AccumulateGrows(s, i, n);
      AccumulateGrows(s, i + 1, n1);
      if n < Cutoff && n1 <= MaxUint64 {
        ScanDigits(s, i + 1, n1);
      }
    }
  }

  /** A non-digit makes the scan fail unless the value overflowed before reaching it. */
  lemma {:induction false} ScanNonDigit(s: string, i: nat, n: int)
    requires i <= |s| && !AllDigits(s[i..]) && n >= 0
    ensures ScanUint(s, i, n).err != NoErr
    decreases |s| - i
  {
    assert i < |s|;
    if IsDigit(s[i]) && n < Cutoff && n * 10 + DigitValue(s[i]) <= MaxUint64 {
      assert !AllDigits(s[i + 1..]) by {
        var k :| 0 <= k < |s[i..]| && !IsDigit(s[i..][k]);
        assert k > 0 && s[i + 1..][k - 1] == s[i..][k];
      }
      ScanNonDigit(s, i + 1, n * 10 + DigitValue(s[i]));
    }
  }

  lemma ParseUintDigits(s: string)
    requires |s| > 0 && AllDigits(s)
    ensures DecimalValue(s) <= MaxUint64 ==> ParseUint(s) == Num(DecimalValue(s), NoErr)
    ensures DecimalValue(s) > MaxUint64 ==> ParseUint(s) == Num(MaxUint64, ErrRange)
  {
    ScanDigits(s, 0, 0);
  }

  lemma ParseUintNotDigits(s: string)
    requires !(|s| > 0 && AllDigits(s))
    ensures ParseUint(s).err != NoErr
  {
    if s != "" {
      assert s[0..] == s;
      ScanNonDigit(s, 0, 0);
    }
  }

  /**
   * Atoi succeeds exactly on decimal syntax whose value fits in 64 signed bits,
   * and then returns that value.
   */
  lemma {:induction false} AtoiCorrect(s: string)
    ensures Atoi(s).err == NoErr <==> IsDecimalSyntax(s) && MinInt64 <= SignedValue(s) <= MaxInt64
    ensures Atoi(s).err == NoErr ==> Atoi(s).value == SignedValue(s)
    ensures Atoi(s).err == ErrSyntax ==> Atoi(s).value == 0
    ensures Atoi(s).err == ErrRange ==> s != "" && Atoi(s).value == (if s[0] == '-' then MinInt64 else MaxInt64)
    ensures IsDecimalSyntax(s) && !(MinInt64 <= SignedValue(s) <= MaxInt64) ==> Atoi(s).err == ErrRange
  {
    if s != "" {
      var digits := if s[0] == '+' || s[0] == '-' then s[1..] else s;
      if |digits| > 0 && AllDigits(digits) {
        ParseUintDigits(digits);
        AccumulateGrows(digits, 0, 0);
      } else {
        ParseUintNotDigits(digits);
        assert !IsDecimalSyntax(s);
      }
    }
  }

  /** A scan that overflows on a prefix of `s` overflows on `s` too, at the same point. */
  lemma {:induction false} ScanPrefixRange(s: string, t: string, i: nat, n: int)
    requires i <= |t| <= |s| && s[..|t|] == t
    requires ScanUint(t, i, n).err == ErrRange
    ensures ScanUint(s, i, n) == ScanUint(t, i, n)
    decreases |t| - i
  {
    assert i < |t| && s[i] == t[i];
    if IsDigit(t[i]) && n < Cutoff && n * 10 + DigitValue(t[i]) <= MaxUint64 {
      ScanPrefixRange(s, t, i + 1, n * 10 + DigitValue(t[i]));
    }
  }

  /**
   * The digit loop reports an overflow as soon as it happens, before it looks
   * at the characters after it: digits whose value passes 2^64 - 1 give a
   * range error whatever follows them, letters included.
   */
  lemma ParseUintOverflowFirst(s: string, k: nat)
    requires 0 < k <= |s| && AllDigits(s[..k]) && DecimalValue(s[..k]) > MaxUint64
    ensures ParseUint(s) == Num(MaxUint64, ErrRange)
  {
    var t := s[..k];
    ScanDigits(t, 0, 0);
    ScanPrefixRange(s, t, 0, 0);
  }

  function Pow10(k: nat): nat {
    if k == 0 then 1 else 10 * Pow10(k - 1)
  }

  lemma {:induction false} Pow10Add(a: nat, b: nat)
    ensures Pow10(a + b) == Pow10(a) * Pow10(b)
  {
    if a > 0 {
      Pow10Add(a - 1, b);
    }
  }

  lemma {:induction false} AccumulateAtLeast(s: string, i: nat, n: int)
    requires i <= |s| && AllDigits(s) && n >= 0
    ensures Accumulate(s, i, n) >= n * Pow10(|s| - i)
    decreases |s| - i
  {
    if i < |s| {
      var n1 := n * 10 + DigitValue(s[i]);
      var p := Pow10(|s| - i - 1);
      AccumulateAtLeast(s, i + 1, n1);
      assert Pow10(|s| - i) == 10 * p;
      assert n1 * p >= (n * 10) * p by {
        assert n1 - n * 10 >= 0 && p >= 0;
        assert (n1 - n * 10) * p >= 0;
      }
    }
  }

  /** Twenty-one digits without a leading zero are past 2^64 - 1. */
  lemma TwentyOneDigits(d: string)
    requires |d| == 21 && AllDigits(d) && d[0] != '0'
    ensures DecimalValue(d) > MaxUint64
  {
    AccumulateAtLeast(d, 1, DigitValue(d[0]));
    assert Pow10(5) == 100000;
    Pow10Add(5, 5);
    Pow10Add(10, 10);
  }

  /** "1" and twenty zeros, then a letter: a range error, clamped by sign, and not a syntax error. */
  lemma AtoiRangeBeforeSyntax()
    ensures Atoi("100000000000000000000x") == Num(MaxInt64, ErrRange)
    ensures Atoi("-100000000000000000000x") == Num(MinInt64, ErrRange)
  {
    var s := "100000000000000000000x";
    var d := s[..21];
    assert |d| == 21 && AllDigits(d) && d[0] == '1';
    TwentyOneDigits(d);
    ParseUintOverflowFirst(s, 21);
    assert "-100000000000000000000x"[1..] == s;
  }

  /** The Go form of a strconv syntax or range error for function `fn` on input `s`. */
  function NumErrorText(fn: string, s: string, err: NumErr): string {
    "strconv." + fn + ": parsing \"" + s + "\": " + (if err == ErrRange then "value out of range" else "invalid syntax")
  }
}
