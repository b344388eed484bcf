/**
 * Go's `strconv.Atoi` on a 64-bit platform, with the error result thrown away
 * as the checkers do (`rv, _ := strconv.Atoi(...)`): a syntax error yields 0,
 * a value out of range yields the nearest representable int.
 */
module Numbers {

  const MaxInt64: int := 0x7fff_ffff_ffff_ffff
  const MinInt64: int := -0x8000_0000_0000_0000
  const MaxUint64: int := 0xffff_ffff_ffff_ffff

  /** The outcome of Go's unsigned decimal scan (`strconv.ParseUint(s, 10, 64)`). */
  datatype UintScan = Value(n: nat) | SyntaxError | RangeError

  predicate IsDigit(c: char) {
    '0' <= c <= '9'
  }

  /** Scans the digits left to right; the first non-digit is a syntax error and the
      first prefix whose value exceeds 64 bits is a range error, whichever comes first. */
  function ScanDigits(s: string): (r: UintScan)
    ensures r.Value? ==> r.n <= MaxUint64
  {
    if |s| == 0 then Value(0)
    else
      var c := s[|s| - 1];
      match ScanDigits(s[..|s| - 1])
      case Value(n) =>
        if !IsDigit(c) then SyntaxError
        else if n * 10 + (c as int - '0' as int) > MaxUint64 then RangeError
        else Value(n * 10 + (c as int - '0' as int))
      case other => other
  }

  /** `strconv.ParseUint(s, 10, 64)`: the empty string is a syntax error. */
  function ParseUint(s: string): UintScan {
    if |s| == 0 then SyntaxError else ScanDigits(s)
  }

  /** The part of `s` that `Atoi` scans as digits: `s` without one leading sign. */
  function Unsigned(s: string): (d: string)
    ensures |d| <= |s|
  {
    if |s| > 0 && (s[0] == '-' || s[0] == '+') then s[1..] else s
  }

  /** `strconv.Atoi(s)` with its error discarded. */
  function Atoi(s: string): (n: int)
    ensures MinInt64 <= n <= MaxInt64
  {
    var negative := |s| > 0 && s[0] == '-';
    var digits := Unsigned(s);
    match ParseUint(digits)
    case SyntaxError => 0
    case RangeError => if negative then MinInt64 else MaxInt64
    case Value(u) =>
      if negative then (if u > -MinInt64 then MinInt64 else -(u as int))
      else (if u > MaxInt64 then MaxInt64 else u)
  }

  function DigitChar(d: nat): (c: char)
    requires d < 10
    ensures IsDigit(c)
  {
    ('0' as int + d) as char
  }

  /** Decimal notation of a natural number, no sign and no leading zeros. */
  function Itoa(n: nat): (s: string)
    ensures |s| >= 1
    ensures forall i :: 0 <= i < |s| ==> IsDigit(s[i])
  {
    if n < 10 then [DigitChar(n)] else Itoa(n / 10) + [DigitChar(n % 10)]
  }

  /** The scan of a written number is its value, or a range error once it exceeds 64 bits. */
  lemma {:induction false} ScanItoa(n: nat)
    ensures ScanDigits(Itoa(n)) == if n <= MaxUint64 then Value(n) else RangeError
  {
    var s := Itoa(n);
    if n < 10 {
      assert s[..|s| - 1] == [];
    } else {
      assert s[..|s| - 1] == Itoa(n / 10);
      ScanItoa(n / 10);
    }
  }

  /** Atoi reads back every resourceVersion Itoa writes, up to the 64-bit limit. */
  lemma AtoiItoa(n: nat)
    requires n <= MaxInt64
    ensures Atoi(Itoa(n)) == n
  {
    ScanItoa(n);
  }

  /** A leading sign is read as such: "-" followed by a written number is its negation. */
  lemma AtoiNegative(n: nat)
    requires n <= MaxInt64
    ensures Atoi("-" + Itoa(n)) == -(n as int)
  {
    ScanItoa(n);
    assert ("-" + Itoa(n))[1..] == Itoa(n);
  }

  function Pow10(k: nat): (p: nat)
    ensures p >= 1
  {
    if k == 0 then 1 else 10 * Pow10(k - 1)
  }

  /** Up to 19 digits never overflow, so their scan is a value below 10^k. */
  lemma {:induction false} ScanShortDigits(t: string)
    requires Pow10(|t|) <= MaxUint64 + 1
    requires forall k :: 0 <= k < |t| ==> IsDigit(t[k])
    ensures ScanDigits(t).Value? && ScanDigits(t).n < Pow10(|t|)
  {
    if |t| > 0 {
      var init := t[..|t| - 1];
      assert forall k :: 0 <= k < |init| ==> IsDigit(init[k]);
      Pow10Monotone(|init|, |t|);
      ScanShortDigits(init);
    }
  }

  lemma Pow10Of19()
    ensures Pow10(19) == 10_000_000_000_000_000_000
  {
    assert Pow10(3) == 1000;
    assert Pow10(6) == 1000 * Pow10(3);
    assert Pow10(9) == 1000 * Pow10(6);
    assert Pow10(12) == 1000 * Pow10(9);
    assert Pow10(15) == 1000 * Pow10(12);
    assert Pow10(18) == 1000 * Pow10(15);
  }

  lemma {:induction false} Pow10Monotone(i: nat, j: nat)
    requires i <= j
    ensures Pow10(i) <= Pow10(j)
  {
    if i < j {
      Pow10Monotone(i, j - 1);
    }
  }

  /** Once the scan of a prefix has failed, the scan of the whole string fails the same way. */
  lemma {:induction false} ScanErrorSticks(s: string, j: nat)
    requires j <= |s|
    requires !ScanDigits(s[..j]).Value?
    ensures ScanDigits(s) == ScanDigits(s[..j])
    decreases |s| - j
  {
    if j < |s| {
      var init := s[..|s| - 1];
      assert init[..j] == s[..j];
      ScanErrorSticks(init, j);
    } else {
      assert s[..j] == s;
    }
  }

  /** An unparseable resourceVersion reads as 0: no digits at all after an optional
      sign (the empty version, a lone `+` or `-`), or a non-digit met before the
      digits scanned so far exceed 64 bits, is a syntax error whatever follows it. */
  lemma AtoiSyntaxError(s: string, i: nat)
    requires |Unsigned(s)| == 0 ||
      (i < |Unsigned(s)| && !IsDigit(Unsigned(s)[i]) && ScanDigits(Unsigned(s)[..i]).Value?)
    ensures Atoi(s) == 0
  {
    var d := Unsigned(s);
    if |d| > 0 {
      var t := d[..i + 1];
      assert t[..|t| - 1] == d[..i];
      assert ScanDigits(t) == SyntaxError;
      ScanErrorSticks(d, i + 1);
    }
  }

  /** Nineteen digits never exceed 64 bits, so a non-digit after at most nineteen
      digits (and an optional sign) makes the version read as 0. */
  lemma AtoiShortSyntaxError(s: string, i: nat)
    requires i < |Unsigned(s)| && i <= 19 && !IsDigit(Unsigned(s)[i])
    requires forall k :: 0 <= k < i ==> IsDigit(Unsigned(s)[k])
    ensures Atoi(s) == 0
  {
    var d := Unsigned(s);
    Pow10Monotone(i, 19);
    Pow10Of19();
    ScanShortDigits(d[..i]);
    AtoiSyntaxError(s, i);
  }

  /** A range error comes first: once the digits scanned exceed 64 bits the version is
      clamped, even if a non-digit follows. */
  lemma AtoiOverflowFirst(s: string, j: nat)
    requires j <= |Unsigned(s)| && ScanDigits(Unsigned(s)[..j]).RangeError?
    ensures Atoi(s) == if |s| > 0 && s[0] == '-' then MinInt64 else MaxInt64
  {
    ScanErrorSticks(Unsigned(s), j);
  }

  /** 64-bit overflow is not an error to the checkers: a numeral of any value beyond
      int64 is clamped to the nearest bound. */
  lemma AtoiClamps(n: nat)
    requires MaxInt64 < n
    ensures Atoi(Itoa(n)) == MaxInt64
    ensures Atoi("-" + Itoa(n)) == MinInt64
  {
    ScanItoa(n);
    assert ("-" + Itoa(n))[1..] == Itoa(n);
  }
}
