/**
 The jitter of a fake nvidia-smi: numeric cells are rewritten in their own shape and the memory cells kept consistent.
 The draw n of a field's source is roll(field, n), any number from 0 up to but not including 1. Values are exact.
 */
module Fluctuation {
  import opened Basics
  import opened Text
  import opened Numerals
  import opened Decimals
  import opened Transform

  /** A cell of a number and a unit tail, the tail verbatim. */
  datatype NumCell = NumCell(number: Fixed, suffix: string)

  /** Where the number at the front of a cell ends: digits come before any point, unlike in the exporter's extractor. */
  function PrefixEnd(cell: string): (e: nat)
    ensures e <= |cell|
  {
    var q := SignEnd(cell);
    var r := RunEnd(cell, q);
    if r == q then 0 else if Fraction(cell, r) then RunEnd(cell, r + 1) else r
  }

  predicate AnyX(s: string) { s != "" && (s[0] == 'x' || s[0] == 'X') }

  /** parseNumericCell. */
  function ParseNumeric(cell: string): Option<NumCell> {
    var e := PrefixEnd(cell);
    if e == 0 then None
    else
      var suffix := cell[e..];
      if !NoDigits(suffix) || AnyX(suffix) then None else Some(NumCell(Read(cell[..e]), suffix))
  }

  /** FormatFloat with verb f; a value below zero keeps its sign even when it rounds to zero. */
  function FixedText(v: real, d: nat): string {
    if v < 0.0 then "-" + Print(Nearest(-v, d), d) else Print(Nearest(v, d), d)
  }

  function Nearest(v: real, d: nat): (n: nat)
    requires v >= 0.0
  {
    RoundedIsNat(v, d);
    Rounded(v, d)
  }

  /** numericCell.format. */
  function Rewrite(c: NumCell, v: real): string { FixedText(v, c.number.decimals) + c.suffix }

  function Max(a: real, b: real): real { if a < b then b else a }

  function Min(a: real, b: real): real { if b < a then b else a }

  predicate IsPercent(c: NumCell) { Trim(c.suffix) == "%" }

  function Abs(v: real): real { if v < 0.0 then -v else v }

  function Spread(v: real): real { Max(0.1 * Abs(v), 1.0) }

  /** A value moved by the draw u within a spread, and clamped. */
  function Moved(v: real, spread: real, u: real, percent: bool): real {
    Clamped(v + (2.0 * u - 1.0) * spread, percent)
  }

  function Clamped(v: real, percent: bool): real {
    var moved := Max(v, 0.0);
    if percent then Min(moved, 100.0) else moved
  }

  /** jitter, for the draw u. */
  function Jitter(c: NumCell, u: real): real {
    var v := c.number.Value();
    Moved(v, Spread(v), u, IsPercent(c))
  }

  // ---------------------------------------------------------------- rounding

  lemma RoundedIsNat(v: real, d: nat)
    requires v >= 0.0
    ensures Rounded(v, d) >= 0
  {
    var x := v * Pow(10, d) as real;
    assert x >= 0.0;
    RoundMonotone(0.0, x);
  }

  /** Rounding to d decimals moves nothing past a number that has d decimals. */
  lemma NearestBelow(v: real, m: nat, d: nat)
    requires 0.0 <= v && v * Pow(10, d) as real <= m as real
    ensures Nearest(v, d) <= m
  {
    RoundMonotone(v * Pow(10, d) as real, m as real);
    RoundWhole(m);
  }

  lemma MovedBounds(v: real, spread: real, u: real, percent: bool)
    requires 0.0 <= u < 1.0 && spread >= 1.0
    ensures 0.0 <= Moved(v, spread, u, percent) <= Max(v + spread, 0.0)
    ensures percent ==> Moved(v, spread, u, percent) <= 100.0
    ensures !percent || v <= 100.0 ==> Moved(v, spread, u, percent) >= v - spread
  {
    SpreadBounds(u, spread);
    ClampedBounds(v, (2.0 * u - 1.0) * spread, spread, percent);
  }

  lemma ClampedBounds(v: real, shift: real, spread: real, percent: bool)
    requires -spread <= shift <= spread && spread >= 1.0
    ensures 0.0 <= Clamped(v + shift, percent) <= Max(v + spread, 0.0)
    ensures percent ==> Clamped(v + shift, percent) <= 100.0
    ensures !percent || v <= 100.0 ==> Clamped(v + shift, percent) >= v - spread
  {
  }

  /**
   What a jitter is: a move by at most a tenth of the value, and at least by up to one, in proportion to the draw, kept
   from going below zero or, for a percentage, above 100.
   */
  lemma JitterIs(c: NumCell, u: real)
    ensures var v := c.number.Value();
            var spread := if (if v < 0.0 then -v else v) > 10.0 then 0.1 * (if v < 0.0 then -v else v) else 1.0;
            var moved := v + (2.0 * u - 1.0) * spread;
            Jitter(c, u) == if moved < 0.0 then 0.0 else if Trim(c.suffix) == "%" && moved > 100.0 then 100.0 else moved
  {
    var v := c.number.Value();
    SpreadIs(v);
    MovedIs(v, Spread(v), u, IsPercent(c));
  }

  lemma SpreadIs(v: real)
    ensures Spread(v) == if (if v < 0.0 then -v else v) > 10.0 then 0.1 * (if v < 0.0 then -v else v) else 1.0
  {
  }

  lemma MovedIs(v: real, spread: real, u: real, percent: bool)
    ensures var moved := v + (2.0 * u - 1.0) * spread;
            Moved(v, spread, u, percent) == if moved < 0.0 then 0.0 else if percent && moved > 100.0 then 100.0 else moved
  {
  }

  /**
   A jittered value stays within its spread of the captured one, is never negative, and as a percentage still reads as
   at most 100 after rounding.
   */
  lemma JitterStaysPlausible(c: NumCell, u: real)
    requires 0.0 <= u < 1.0
    ensures 0.0 <= Jitter(c, u) <= Max(c.number.Value() + Spread(c.number.Value()), 0.0)
    ensures !IsPercent(c) || c.number.Value() <= 100.0 ==> Jitter(c, u) >= c.number.Value() - Spread(c.number.Value())
    ensures IsPercent(c) ==> Nearest(Jitter(c, u), c.number.decimals) <= 100 * Pow(10, c.number.decimals)
  {
    var v, percent, d := c.number.Value(), IsPercent(c), c.number.decimals;
    MovedBounds(v, Spread(v), u, percent);
    if percent {
      Hundred(Jitter(c, u), d);
      NearestBelow(Jitter(c, u), 100 * Pow(10, d), d);
    }
  }

  lemma SpreadBounds(u: real, spread: real)
    requires 0.0 <= u < 1.0 && spread >= 1.0
    ensures -spread <= (2.0 * u - 1.0) * spread <= spread
  {
    var t := 2.0 * u - 1.0;
    assert -1.0 <= t <= 1.0;
    Products(t, spread);
  }

  lemma Products(t: real, s: real)
    requires -1.0 <= t <= 1.0 && s >= 0.0
    ensures -s <= t * s <= s
  {
    assert (1.0 - t) * s >= 0.0;
    assert (1.0 + t) * s >= 0.0;
  }

  lemma Hundred(v: real, d: nat)
    requires v <= 100.0
    ensures v * Pow(10, d) as real <= (100 * Pow(10, d)) as real
  {
    var p := Pow(10, d) as real;
    assert (100.0 - v) * p >= 0.0;
  }

  // ---------------------------------------------------------------- cells

  lemma PrefixShape(cell: string) returns (sign: string, whole: string, fraction: string)
    requires PrefixEnd(cell) > 0
    ensures Shaped(cell[..PrefixEnd(cell)], sign, whole, fraction)
  {
    var q := SignEnd(cell);
    var r := RunEnd(cell, q);
    var e := PrefixEnd(cell);
    RunIsDigits(cell, q);
    sign, whole := cell[..q], cell[q..r];
    assert cell[..r] == sign + whole;
    if Fraction(cell, r) {
      RunIsDigits(cell, r + 1);
      RunGoesOn(cell, r + 1);
      fraction := cell[r + 1..e];
      assert cell[r..e] == "." + fraction;
      assert cell[..e] == cell[..r] + cell[r..e];
    } else {
      fraction := "";
      assert cell[..r] == cell[..r] + "";
    }
  }

  lemma ParsedShape(cell: string) returns (sign: string, whole: string, fraction: string)
    requires ParseNumeric(cell).Some?
    ensures var e := PrefixEnd(cell);
            && Shaped(cell[..e], sign, whole, fraction) && cell == cell[..e] + ParseNumeric(cell).value.suffix
            && |fraction| == ParseNumeric(cell).value.number.decimals
  {
    sign, whole, fraction := PrefixShape(cell);
    ShapedReads(cell[..PrefixEnd(cell)], sign, whole, fraction);
  }

  lemma RunGoesOn(s: string, p: nat)
    requires p < |s| && IsDigit(s[p])
    ensures RunEnd(s, p) > p
  {
  }

  /** A text of a shaped number and a digitless tail parses as exactly those. */
  lemma ShapedParses(token: string, sign: string, whole: string, fraction: string, suffix: string)
    requires Shaped(token, sign, whole, fraction) && whole != "" && NoDigits(suffix) && !AnyX(suffix)
    ensures ParseNumeric(token + suffix) == Some(NumCell(Read(token), suffix))
  {
    ShapedMatches(token, sign, whole, fraction, suffix);
    var cell := token + suffix;
    assert |token| == |sign + whole| + if fraction == "" then 0 else 1 + |fraction|;
    assert PrefixEnd(cell) == |token|;
    assert cell[..|token|] == token && cell[|token|..] == suffix;
  }

  /** Rewriting keeps a cell's shape: read again, it has the same decimals and the same tail. */
  lemma RewriteKeepsShape(cell: string, v: real)
    requires ParseNumeric(cell).Some? && v >= 0.0
    ensures var c := ParseNumeric(cell).value;
            ParseNumeric(Rewrite(c, v)) == Some(NumCell(Fixed(Nearest(v, c.number.decimals), c.number.decimals), c.suffix))
  {
    var c := ParseNumeric(cell).value;
    var d := c.number.decimals;
    var whole, fraction := PrintReads(Nearest(v, d), d);
    ShapedParses(Print(Nearest(v, d), d), "", whole, fraction, c.suffix);
  }

  /** A cell the fake can jitter is one the exporter reads, with the same value. */
  lemma JitteredCellsAreRead(cell: string, scale: real)
    requires ParseNumeric(cell).Some?
    ensures TransformRaw(cell, scale) == Ok(ParseNumeric(cell).value.number.Times(scale))
  {
    var sign, whole, fraction := ParsedShape(cell);
    var e := PrefixEnd(cell);
    NumberWithUnit(cell[..e], sign, whole, fraction, cell[e..], scale);
  }

  /** And the exporter reads the rewritten cell as the rounded new value. */
  lemma RewriteIsRead(cell: string, v: real, scale: real)
    requires ParseNumeric(cell).Some? && v >= 0.0
    ensures var c := ParseNumeric(cell).value; var d := c.number.decimals;
            TransformRaw(Rewrite(c, v), scale) == Ok(Fixed(Nearest(v, d), d).Times(scale))
  {
    RewriteKeepsShape(cell, v);
    var c := ParseNumeric(cell).value;
    JitteredCellsAreRead(Rewrite(c, v), scale);
  }
}
