/**
 * Decimal text as Go's `strconv` and `fmt` packages read and write it:
 * `strconv.Itoa`, `strconv.ParseUint(s, 10, 64)` and `fmt.Sscanf(s, "%d", &v)`
 * into an `int64` or a `uint64`.
 */
module Decimal {
  import opened Wrappers
  import opened Text

  const MaxInt64: int := 0x7FFF_FFFF_FFFF_FFFF
  const MinInt64: int := -0x8000_0000_0000_0000
  const MaxUint64: int := 0xFFFF_FFFF_FFFF_FFFF

  predicate IsDigit(c: char) { '0' <= c <= '9' }

  predicate AllDigits(s: string) { forall i :: 0 <= i < |s| ==> IsDigit(s[i]) }

  function DigitValue(c: char): (d: nat)
    requires IsDigit(c)
    ensures d < 10
  {
    c as int - '0' as int
  }

  function DigitChar(d: nat): (c: char)
    requires d < 10
    ensures IsDigit(c) && DigitValue(c) == d
  {
    ('0' as int + d) as char
  }

  /** The number an all-digit string denotes (leading zeros allowed). */
  function Value(s: string): nat
    requires AllDigits(s)
    decreases |s|
  {
    if s == [] then 0 else 10 * Value(s[..|s| - 1]) + DigitValue(s[|s| - 1])
  }

  /** The shortest decimal spelling of `n`. */
  function NatDigits(n: nat): (r: string)
    ensures |r| > 0 && AllDigits(r)
    decreases n
  {
    if n < 10 then [DigitChar(n)] else NatDigits(n / 10) + [DigitChar(n % 10)]
  }

  /** `strconv.Itoa`. */
  function Itoa(n: int): (r: string)
    ensures |r| > 0
    ensures n >= 0 ==> r == NatDigits(n)
    ensures n < 0 ==> r == "-" + NatDigits(-n)
  {
    if n < 0 then "-" + NatDigits(-n) else NatDigits(n)
  }

  lemma {:induction false} NatDigitsValue(n: nat)
    ensures Value(NatDigits(n)) == n
    decreases n
  {
    if n >= 10 {
      NatDigitsValue(n / 10);
      var d := NatDigits(n);
      assert d[..|d| - 1] == NatDigits(n / 10);
    }
  }

  lemma {:induction false} NatDigitsLeading(n: nat)
    ensures (NatDigits(n)[0] == '0') <==> n == 0
    decreases n
  {
    if n >= 10 {
      NatDigitsLeading(n / 10);
    }
  }

  /**
   * The length of the run of digits that starts `s`: for `%d` the scanner
   * accepts the ten decimal digits only (the `_` separator is accepted by
   * `%v` alone), and stops at the first other character.
   */
  function NumberRun(s: string): (n: nat)
    ensures n <= |s|
    ensures forall i :: 0 <= i < n ==> IsDigit(s[i])
    ensures n < |s| ==> !IsDigit(s[n])
  {
    if s == [] || !IsDigit(s[0]) then 0
    else
      var k := NumberRun(s[1..]);
      assert forall i :: 0 < i <= k ==> s[i] == s[1..][i - 1];
      k + 1
  }

  lemma {:induction false} NumberRunOfDigits(s: string, t: string)
    requires AllDigits(s)
    requires t == [] || !IsDigit(t[0])
    ensures NumberRun(s + t) == |s|
    decreases |s|
  {
    if s != [] {
      assert (s + t)[1..] == s[1..] + t;
      NumberRunOfDigits(s[1..], t);
    }
  }

  /** `strconv.ParseUint(s, 10, 64)`: digits only, nothing else, no overflow. */
  function ParseUint64(s: string): (r: Option<nat>)
    ensures r.Some? <==> s != [] && AllDigits(s) && Value(s) <= MaxUint64
    ensures r.Some? ==> r.value == Value(s) && r.value <= MaxUint64
  {
    if s != [] && AllDigits(s) && Value(s) <= MaxUint64 then Some(Value(s)) else None
  }

  /**
   * The white space that `fmt`'s scanner skips before a number; a newline
   * stops `Sscanf` with an error (None).
   */
  function SkipScanSpace(s: string): (r: Option<string>)
    ensures r.Some? ==> |r.value| <= |s| && (r.value == [] || !IsSpace(r.value[0]))
    decreases |s|
  {
    if s == [] then Some(s)
    else if s[0] == '\n' then None
    else if IsSpace(s[0]) then SkipScanSpace(s[1..])
    else Some(s)
  }

  /**
   * `fmt.Sscanf(s, "%d", &v)` with `v` an `int64`: optional sign, then a
   * run of decimal digits that must be non-empty and in range; the text
   * after the run, whatever it is, is ignored.
   */
  function ScanInt64(s: string): (r: Option<int>)
    ensures r.Some? ==> MinInt64 <= r.value <= MaxInt64
  {
    match SkipScanSpace(s)
    case None => None
    case Some(t) =>
      if t == [] then None
      else
        var neg := t[0] == '-';
        var u := if t[0] == '-' || t[0] == '+' then t[1..] else t;
        var n := NumberRun(u);
        if n == 0 then None
        else
          var v: int := if neg then -(Value(u[..n]) as int) else Value(u[..n]);
          if MinInt64 <= v <= MaxInt64 then Some(v) else None
  }

  /**
   * `fmt.Sscanf(s, "%d", &v)` with `v` a `uint64`: no sign is accepted.
   */
  function ScanUint64(s: string): (r: Option<nat>)
    ensures r.Some? ==> r.value <= MaxUint64
  {
    match SkipScanSpace(s)
    case None => None
    case Some(t) =>
      var n := NumberRun(t);
      if n == 0 then None
      else if Value(t[..n]) <= MaxUint64 then Some(Value(t[..n])) else None
  }

  /**
   * Reading back the decimal spelling of a number gives the number,
   * whatever non-digit text follows it.
   */
  lemma ScanNatDigits(n: nat, rest: string)
    requires rest == [] || !IsDigit(rest[0])
    ensures n <= MaxInt64 ==> ScanInt64(NatDigits(n) + rest) == Some(n)
    ensures n <= MaxUint64 ==> ScanUint64(NatDigits(n) + rest) == Some(n)
    ensures n <= MaxUint64 ==> ParseUint64(NatDigits(n)) == Some(n)
  {
    var d := NatDigits(n);
    var s := d + rest;
    assert s[0] == d[0] && IsDigit(s[0]);
    assert SkipScanSpace(s) == Some(s);
    NumberRunOfDigits(d, rest);
    assert s[..|d|] == d;
    NatDigitsValue(n);
  }

  /** A minus sign and a digit run read as the negated value, if it fits. */
  lemma ScanNegative(m: nat, rest: string)
    requires m > 0
    requires rest == [] || !IsDigit(rest[0])
    ensures ScanInt64("-" + NatDigits(m) + rest) == if m <= -MinInt64 then Some(-(m as int)) else None
  {
    var d := NatDigits(m);
    var s := "-" + d + rest;
    assert SkipScanSpace(s) == Some(s);
    assert s[1..] == d + rest;
    NumberRunOfDigits(d, rest);
    assert (d + rest)[..|d|] == d;
    NatDigitsValue(m);
  }

  /**
   * `%d` stops at the digit separator: `12_3` reads as 12 into an `int64`
   * and into a `uint64`, the `_3` being left unread.
   */
  lemma ScanStopsAtUnderscore()
    ensures ScanInt64("12_3") == Some(12)
    ensures ScanUint64("12_3") == Some(12)
  {
    assert NatDigits(12) == "12";
    assert "12_3" == NatDigits(12) + "_3";
    ScanNatDigits(12, "_3");
  }

  lemma ScanLarge(n: nat)
    requires n > MaxInt64
    ensures ScanInt64(NatDigits(n)) == None
  {
    var d := NatDigits(n);
    assert d[0] == d[0];
    assert SkipScanSpace(d) == Some(d);
    NumberRunOfDigits(d, []);
    assert d + [] == d;
    assert d[..|d|] == d;
    NatDigitsValue(n);
  }

  /** `strconv.Itoa` and `Sscanf`'s `%d` are inverse on the `int64` range. */
  lemma ItoaRoundTrip(n: int)
    ensures ScanInt64(Itoa(n)) == if MinInt64 <= n <= MaxInt64 then Some(n) else None
  {
    if n < 0 {
      ScanNegative(-n, []);
      assert "-" + NatDigits(-n) + [] == Itoa(n);
    } else if n <= MaxInt64 {
      ScanNatDigits(n, []);
      assert NatDigits(n) + [] == NatDigits(n);
    } else {
      ScanLarge(n);
    }
  }
}
