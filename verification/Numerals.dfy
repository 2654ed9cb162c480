/** Printing and reading whole numbers: strconv.Itoa, ParseUint and the fixed-width hexadecimal of fmt. */
module Numerals {
  import opened Basics

  predicate IsDigit(c: char) { '0' <= c <= '9' }

  /** The value of a digit in any base up to 16, either case, and 16 for anything else. */
  function DigitValue(c: char): nat {
    if '0' <= c <= '9' then (c - '0') as nat
    else if 'A' <= c <= 'F' then (c - 'A') as nat + 10
    else if 'a' <= c <= 'f' then (c - 'a') as nat + 10
    else 16
  }

  function Digit(d: nat): (c: char)
    requires d < 16
    ensures DigitValue(c) == d
    ensures d < 10 ==> IsDigit(c)
    ensures d >= 10 ==> 'A' <= c <= 'F'
  {
    if d < 10 then '0' + d as char else 'A' + (d - 10) as char
  }

  function Natural(n: nat, base: nat): (s: string)
    requires 2 <= base <= 16
    ensures s != "" && forall i :: 0 <= i < |s| ==> DigitValue(s[i]) < base
    decreases n
  {
    if n < base then [Digit(n)] else Natural(n / base, base) + [Digit(n % base)]
  }

  predicate AllDigits(s: string, base: nat) { forall i :: 0 <= i < |s| ==> DigitValue(s[i]) < base }

  /** The number a string of digits denotes. */
  function Value(s: string, base: nat): nat
    requires AllDigits(s, base)
    decreases |s|
  {
    if s == "" then 0 else Value(s[..|s| - 1], base) * base + DigitValue(s[|s| - 1])
  }

  /** The value of a string with one more digit. */
  lemma ValueAppend(s: string, c: char, base: nat)
    requires AllDigits(s + [c], base)
    ensures AllDigits(s, base) && Value(s + [c], base) == Value(s, base) * base + DigitValue(c)
  {
    var t := s + [c];
    assert t[..|t| - 1] == s;
    assert forall i :: 0 <= i < |s| ==> s[i] == t[i];
  }

  lemma DivMod(n: nat, base: nat)
    requires base > 0
    ensures n / base * base + n % base == n
  {
  }

  lemma {:induction false} ValueNatural(n: nat, base: nat)
    requires 2 <= base <= 16
    ensures Value(Natural(n, base), base) == n
    decreases n
  {
    if n < base {
      OneDigit(n, base);
    } else {
      QuotientShrinks(n, base);
      ValueNatural(n / base, base);
      OneMoreDigit(n, base, n / base, n % base);
    }
  }

  lemma QuotientShrinks(n: nat, base: nat)
    requires base > 1 && n > 0
    ensures n / base < n
  {
    DivMod(n, base);
    TwiceAtLeast(n / base, base);
  }

  lemma TwiceAtLeast(q: nat, base: nat)
    requires base > 1
    ensures q * base >= 2 * q
  {
    assert q * base == 2 * q + q * (base - 2);
  }

  lemma OneDigit(n: nat, base: nat)
    requires 2 <= base <= 16 && n < base
    ensures Value(Natural(n, base), base) == n
  {
    ValueAppend("", Digit(n), base);
    assert "" + [Digit(n)] == [Digit(n)];
  }

  lemma OneMoreDigit(n: nat, base: nat, q: nat, r: nat)
    requires 2 <= base <= 16 && n >= base && q == n / base && r == n % base && Value(Natural(q, base), base) == q
    ensures Value(Natural(n, base), base) == n
  {
    ValueAppend(Natural(q, base), Digit(r), base);
    DivMod(n, base);
  }

  /** Decimal printing uses decimal digits only. */
  lemma {:induction false} NaturalDecimal(n: nat)
    ensures forall i :: 0 <= i < |Natural(n, 10)| ==> IsDigit(Natural(n, 10)[i])
    decreases n
  {
    if n >= 10 {
      NaturalDecimal(n / 10);
    }
  }

  /** strconv.Itoa and %d. */
  function Decimal(n: int): string {
    if n < 0 then "-" + Natural(-n, 10) else Natural(n, 10)
  }

  lemma DecimalInjective(m: int, n: int)
    requires Decimal(m) == Decimal(n)
    ensures m == n
  {
    NaturalDecimal(if m < 0 then -m else m);
    NaturalDecimal(if n < 0 then -n else n);
    assert m < 0 <==> Decimal(m)[0] == '-';
    assert n < 0 <==> Decimal(n)[0] == '-';
    if m < 0 {
      assert Natural(-m, 10) == Decimal(m)[1..] && Natural(-n, 10) == Decimal(n)[1..];
    }
    ValueNatural(if m < 0 then -m else m, 10);
    ValueNatural(if n < 0 then -n else n, 10);
  }

  function Pow(base: nat, n: nat): (p: nat)
    ensures base > 0 ==> p > 0
  {
    if n == 0 then 1 else base * Pow(base, n - 1)
  }

  /** %0*X: exactly `width` digits. */
  function Padded(n: nat, base: nat, width: nat): (s: string)
    requires 2 <= base <= 16
    ensures |s| == width && AllDigits(s, base)
    decreases width
  {
    if width == 0 then "" else Padded(n / base, base, width - 1) + [Digit(n % base)]
  }

  lemma Scale(a: int, b: int, c: nat)
    ensures a >= b ==> a * c >= b * c
  {
  }

  lemma QuotientBelow(n: nat, base: nat, p: nat)
    requires base > 0 && n < base * p
    ensures n / base < p
  {
    DivMod(n, base);
    Scale(n / base, p, base);
  }

  lemma {:induction false} ValuePadded(n: nat, base: nat, width: nat)
    requires 2 <= base <= 16 && n < Pow(base, width)
    ensures Value(Padded(n, base, width), base) == n
    decreases width
  {
    if width > 0 {
      QuotientBelow(n, base, Pow(base, width - 1));
      ValuePadded(n / base, base, width - 1);
      ValueAppend(Padded(n / base, base, width - 1), Digit(n % base), base);
      DivMod(n, base);
    }
  }

  /** strconv.ParseUint: an error for anything but digits, and beyond the bit size. */
  function ParseUint(s: string, base: nat, limit: nat): Option<nat>
    requires 2 <= base <= 16
  {
    if s == "" || !AllDigits(s, base) then None
    else if Value(s, base) >= limit then None
    else Some(Value(s, base))
  }

  const UINT64 := 0x1_0000_0000_0000_0000
}
