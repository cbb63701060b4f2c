/** Decimal text for 64-bit integers, as the Go standard library's strconv.Itoa
    and strconv.Atoi treat it on a 64-bit platform. The persisted house state is
    stored as such text, and the codec reads it back with Atoi, discarding the
    error: text whose digit scan meets a non-digit (or no digit at all) before
    the value passes 2^64 - 1 yields 0; once the digits pass 2^64 - 1 the text
    yields the nearest int64 bound, whatever follows them. */
module Decimal {

  const MaxInt64: int := 0x7fff_ffff_ffff_ffff
  const MinInt64: int := -0x8000_0000_0000_0000
  const MaxUint64: int := 0xffff_ffff_ffff_ffff

  predicate IsDigit(c: char) {
    '0' <= c <= '9'
  }

  function DigitValue(c: char): (d: nat)
    requires IsDigit(c)
    ensures d < 10
  {
    c as int - '0' as int
  }

  function DigitChar(d: nat): (c: char)
    requires d < 10
    ensures IsDigit(c) && DigitValue(c) == d
  {
    ('0' as int + d) as char
  }

  predicate AllDigits(s: string) {
    forall i :: 0 <= i < |s| ==> IsDigit(s[i])
  }

  function Pow10(k: nat): (p: nat)
    ensures p >= 1
  {
    if k == 0 then 1 else 10 * Pow10(k - 1)
  }

  /** Reference definition: the number a string of decimal digits denotes,
      most significant digit first. */
  function NumeralValue(s: string): nat
    requires AllDigits(s)
  {
    if s == [] then 0 else DigitValue(s[0]) * Pow10(|s| - 1) + NumeralValue(s[1..])
  }

  /** Outcome of scanning an unsigned base-10 number. */
  datatype Scan = Value(n: nat) | SyntaxError | RangeError

  /** The digit loop of ParseUint(s, 10, 64): characters are taken left to
      right onto the accumulator `acc`; a non-digit is a syntax error, and a
      digit that would take the value past 2^64 - 1 is a range error at once,
      before any later character is looked at. */
  function ScanDigits(s: string, acc: nat): (r: Scan)
    requires acc <= MaxUint64
    ensures r.Value? ==> acc <= r.n <= MaxUint64
    ensures AllDigits(s) || !r.Value?
  {
    if s == [] then Value(acc)
    else if !IsDigit(s[0]) then SyntaxError
    else if acc * 10 + DigitValue(s[0]) > MaxUint64 then RangeError
    else ScanDigits(s[1..], acc * 10 + DigitValue(s[0]))
  }

  /** ParseUint(s, 10, 64): the empty string is a syntax error. */
  function ParseUint(s: string): Scan {
    if s == [] then SyntaxError else ScanDigits(s, 0)
  }

  /** The text after an optional leading '+' or '-'. */
  function Unsigned(s: string): string {
    if s != [] && (s[0] == '+' || s[0] == '-') then s[1..] else s
  }

  /** True when Atoi reports a syntax error for `s`. */
  predicate IsSyntaxError(s: string) {
    s == [] || ParseUint(Unsigned(s)).SyntaxError?
  }

  /** The value strconv.Atoi returns for `s`, its error ignored. */
  function Atoi(s: string): (r: int)
    ensures MinInt64 <= r <= MaxInt64
    ensures IsSyntaxError(s) ==> r == 0
    ensures ParseUint(Unsigned(s)).RangeError? && s[0] != '-' ==> r == MaxInt64
    ensures ParseUint(Unsigned(s)).RangeError? && s[0] == '-' ==> r == MinInt64
    ensures (var p := ParseUint(Unsigned(s));
             p.Value? && s[0] != '-' ==> r == if p.n > MaxInt64 then MaxInt64 else p.n)
    ensures (var p := ParseUint(Unsigned(s));
             p.Value? && s[0] == '-' ==> r == if p.n > -MinInt64 then MinInt64 else -(p.n as int))
  {
    if s == [] then 0
    else
      var neg := s[0] == '-';
      match ParseUint(Unsigned(s))
      case SyntaxError => 0
      case RangeError => if neg then MinInt64 else MaxInt64
      case Value(un) =>
        if !neg && un > MaxInt64 then MaxInt64
        else if neg && un > -MinInt64 then MinInt64
        else if neg then -(un as int)
        else un as int
  }

  /** Scanning digits from accumulator acc yields acc followed by the numeral,
      or a range error exactly when that number exceeds 2^64 - 1. */
  lemma {:induction false} ScanDigitsValue(s: string, acc: nat)
    requires acc <= MaxUint64 && AllDigits(s)
    ensures var v := acc * Pow10(|s|) + NumeralValue(s);
      ScanDigits(s, acc) == if v <= MaxUint64 then Value(v) else RangeError
  {
    if s != [] {
      var d := DigitValue(s[0]);
      var t := s[1..];
      var next := acc * 10 + d;
      var p := Pow10(|t|);
      var rest := NumeralValue(t);
      assert Pow10(|s|) == 10 * p;
      assert NumeralValue(s) == d * p + rest;
      ShiftDigit(acc, d, p, rest);
      if next > MaxUint64 {
        MulAtLeast(next, p);
      } else {
        ScanDigitsValue(t, next);
      }
    }
  }

  /** Taking one digit onto the accumulator keeps the number denoted. */
  lemma ShiftDigit(acc: nat, d: nat, p: nat, rest: nat)
    ensures acc * (10 * p) + (d * p + rest) == (acc * 10 + d) * p + rest
  {
    assert acc * (10 * p) == (acc * 10) * p;
    assert (acc * 10) * p + d * p == (acc * 10 + d) * p;
  }

  lemma MulAtLeast(x: nat, p: nat)
    requires p >= 1
    ensures x * p >= x
  {
    assert x * p == x * (p - 1) + x;
  }

  /** A well-formed numeral after the optional sign: Atoi yields its value with
      the sign applied, clamped to the int64 range. */
  lemma AtoiNumeral(s: string)
    requires Unsigned(s) != [] && AllDigits(Unsigned(s))
    ensures var v := NumeralValue(Unsigned(s));
      Atoi(s) == if s[0] == '-' then (if v > -MinInt64 then MinInt64 else -(v as int))
                 else (if v > MaxInt64 then MaxInt64 else v)
  {
    ScanDigitsValue(Unsigned(s), 0);
  }

  /** Overflow is decided before anything after the digits is looked at: once
      the digits pass 2^64 - 1, Atoi gives the int64 bound of the sign even when
      a non-digit follows. */
  lemma AtoiOverflowFirst(s: string, t: string)
    requires ParseUint(s).RangeError?
    ensures Atoi(s + t) == MaxInt64
    ensures Atoi("-" + s + t) == MinInt64
  {
    ScanDigitsAppend(s, t, 0);
    assert (s + t)[0] == s[0];
    assert Unsigned(s + t) == s + t;
    assert Unsigned("-" + s + t) == s + t;
  }

  /** Decimal digits of a natural number, most significant first. */
  function NatDigits(n: nat): (s: string)
    ensures |s| >= 1 && forall i :: 0 <= i < |s| ==> IsDigit(s[i])
  {
    if n < 10 then [DigitChar(n)] else NatDigits(n / 10) + [DigitChar(n % 10)]
  }

  /** strconv.Itoa: the decimal text of `n`, with '-' in front of a negative value. */
  function Itoa(n: int): (s: string)
    ensures |s| >= 1
    ensures s[0] == '-' <==> n < 0
    ensures AllDigits(Unsigned(s))
  {
    if n < 0 then "-" + NatDigits(-n) else NatDigits(n)
  }

  /** Scanning a concatenation scans the first part, then the second from there. */
  lemma {:induction false} ScanDigitsAppend(s: string, t: string, acc: nat)
    requires acc <= MaxUint64
    ensures ScanDigits(s + t, acc) ==
              match ScanDigits(s, acc)
              case Value(v) => ScanDigits(t, v)
              case other => other
  {
    if s == [] {
      assert s + t == t;
    } else {
      assert (s + t)[0] == s[0];
      assert (s + t)[1..] == s[1..] + t;
      if IsDigit(s[0]) && acc * 10 + DigitValue(s[0]) <= MaxUint64 {
        ScanDigitsAppend(s[1..], t, acc * 10 + DigitValue(s[0]));
      }
    }
  }

  /** Scanning the digits of n gives n back, for every n that fits 64 bits. */
  lemma {:induction false} ScanNatDigits(n: nat)
    requires n <= MaxUint64
    ensures ScanDigits(NatDigits(n), 0) == Value(n)
  {
    if n >= 10 {
      ScanNatDigits(n / 10);
      ScanDigitsAppend(NatDigits(n / 10), [DigitChar(n % 10)], 0);
    }
  }

  /** The text Itoa writes is read back by Atoi as the same number, for the
      whole int64 range. */
  lemma AtoiItoa(n: int)
    requires MinInt64 <= n <= MaxInt64
    ensures Atoi(Itoa(n)) == n
  {
    if n < 0 {
      ScanNatDigits(-n);
      assert Unsigned(Itoa(n)) == NatDigits(-n);
    } else {
      ScanNatDigits(n);
      assert Unsigned(Itoa(n)) == NatDigits(n);
    }
  }
}
