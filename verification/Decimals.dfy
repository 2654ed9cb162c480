/**
 Plain decimal numbers inside text: finding them, as the regular expression [+-]?(\d*[.])?\d+ does, reading them, and
 printing them with a fixed number of decimals. Values are exact.
 */
module Decimals {
  import opened Basics
  import opened Numerals

  /** mantissa / 10^decimals. */
  datatype Fixed = Fixed(mantissa: int, decimals: nat) {
    function Value(): real { mantissa as real / Pow(10, decimals) as real }

    function Times(multiplier: real): real { Value() * multiplier }
  }

  predicate NoDigits(s: string) { forall i :: 0 <= i < |s| ==> !IsDigit(s[i]) }

  predicate Digits(s: string) { forall i :: 0 <= i < |s| ==> IsDigit(s[i]) }

  predicate IsSign(c: char) { c == '+' || c == '-' }

  /** Where the digits that start at p end. */
  function RunEnd(s: string, p: nat): (e: nat)
    requires p <= |s|
    ensures p <= e <= |s|
    decreases |s| - p
  {
    if p < |s| && IsDigit(s[p]) then RunEnd(s, p + 1) else p
  }

  lemma {:induction false} RunIsDigits(s: string, p: nat)
    requires p <= |s|
    ensures Digits(s[p..RunEnd(s, p)])
    decreases |s| - p
  {
    if p < |s| && IsDigit(s[p]) {
      RunIsDigits(s, p + 1);
      assert s[p..RunEnd(s, p)] == [s[p]] + s[p + 1..RunEnd(s, p)];
    }
  }

  /** The length of a leading sign. */
  function SignEnd(s: string): (q: nat)
    ensures q <= |s| && q <= 1
  {
    if s != "" && IsSign(s[0]) then 1 else 0
  }

  /** Whether a point with a digit behind it stands at r. */
  predicate Fraction(s: string, r: nat) { r + 1 < |s| && s[r] == '.' && IsDigit(s[r + 1]) }

  /** The length of the longest number a text starts with, if it starts with one. */
  function MatchEnd(s: string): (e: Option<nat>)
    ensures e.Some? ==> 0 < e.value <= |s|
  {
    var q := SignEnd(s);
    var r := RunEnd(s, q);
    if Fraction(s, r) then Some(RunEnd(s, r + 1)) else if r > q then Some(r) else None
  }

  /** FindAllString: the numbers in a text, left to right, none overlapping. */
  function FindAll(s: string): seq<string>
    decreases |s|
  {
    if s == "" then []
    else
      var e := MatchEnd(s);
      if e.None? then FindAll(s[1..]) else [s[..e.value]] + FindAll(s[e.value..])
  }

  function Signed(sign: string, m: int): int { if sign == "-" then -m else m }

  /** The digits of whole and fraction read as one number. */
  function Mantissa(whole: string, fraction: string): nat
    requires Digits(whole) && Digits(fraction)
  {
    DigitsAreValues(whole);
    DigitsAreValues(fraction);
    Value(whole, 10) * Pow(10, |fraction|) + Value(fraction, 10)
  }

  /** What a matched token denotes. */
  function Read(token: string): Fixed {
    var q := SignEnd(token);
    var r := RunEnd(token, q);
    RunIsDigits(token, q);
    RunIsDigits(token, if r < |token| then r + 1 else r);
    var fraction := if Fraction(token, r) then token[r + 1..RunEnd(token, r + 1)] else "";
    Fixed(Signed(token[..q], Mantissa(token[q..r], fraction)), |fraction|)
  }

  lemma DigitsAreValues(s: string)
    requires Digits(s)
    ensures AllDigits(s, 10)
  {
  }

  lemma ValuesAreDigits(s: string)
    requires AllDigits(s, 10)
    ensures Digits(s)
  {
  }

  // ---------------------------------------------------------------- printing

  /** FormatFloat with verb f of the number m / 10^d. */
  function Print(m: nat, d: nat): string {
    if d == 0 then Natural(m, 10) else Natural(m / Pow(10, d), 10) + "." + Padded(m % Pow(10, d), 10, d)
  }

  /** The nearest whole number, ties to even. */
  function Round(x: real): int {
    var f := x.Floor;
    var rest := x - f as real;
    if rest < 0.5 || (rest == 0.5 && f % 2 == 0) then f else f + 1
  }

  /** Rounding goes to a nearest whole number, and from half way between two to the even one. */
  lemma RoundIsNearest(x: real)
    ensures Round(x) as real - 0.5 <= x <= Round(x) as real + 0.5
    ensures x == x.Floor as real + 0.5 ==> Round(x) % 2 == 0
  {
  }

  /** A value in fixed point with d decimals. */
  function Rounded(x: real, d: nat): (n: int)
    ensures n as real - 0.5 <= x * Pow(10, d) as real <= n as real + 0.5
  {
    RoundIsNearest(x * Pow(10, d) as real);
    Round(x * Pow(10, d) as real)
  }

  lemma RoundWhole(n: int)
    ensures Round(n as real) == n
  {
  }

  lemma RoundMonotone(x: real, y: real)
    requires x <= y
    ensures Round(x) <= Round(y)
  {
    assert x.Floor <= y.Floor;
  }

  lemma RunOf(s: string, p: nat, e: nat)
    requires p <= e <= |s| && Digits(s[p..e]) && (e < |s| ==> !IsDigit(s[e]))
    ensures RunEnd(s, p) == e
    decreases e - p
  {
    if p < e {
      assert s[p] == s[p..e][0];
      assert s[p + 1..e] == s[p..e][1..];
      RunOf(s, p + 1, e);
    }
  }

  /** A text without digits holds no number. */
  lemma {:induction false} NothingFound(s: string)
    requires NoDigits(s)
    ensures FindAll(s) == []
    decreases |s|
  {
    if s != "" {
      var q := SignEnd(s);
      RunOf(s, q, q);
      NothingFound(s[1..]);
    }
  }

  predicate Plain(c: char) { !IsDigit(c) && !IsSign(c) && c != '.' }

  /** Text without digits, signs and points in front of a number is skipped. */
  lemma {:induction false} FrontSkipped(pre: string, s: string)
    requires forall i :: 0 <= i < |pre| ==> Plain(pre[i])
    ensures FindAll(pre + s) == FindAll(s)
    decreases |pre|
  {
    if pre == "" {
      assert pre + s == s;
    } else {
      assert (pre + s)[0] == pre[0] && Plain(pre[0]);
      RunOf(pre + s, 0, 0);
      assert (pre + s)[1..] == pre[1..] + s;
      FrontSkipped(pre[1..], s);
    }
  }

  predicate SignText(sign: string) { |sign| <= 1 && (sign != "" ==> IsSign(sign[0])) }

  /** The shapes of a number: its whole digits and its fraction digits, one of the two if not both. */
  predicate Shaped(token: string, sign: string, whole: string, fraction: string) {
    && SignText(sign) && Digits(whole) && Digits(fraction) && whole + fraction != ""
    && token == sign + whole + if fraction == "" then "" else "." + fraction
  }

  lemma SignOf(sign: string, t: string)
    requires SignText(sign) && t != "" && !IsSign(t[0])
    ensures SignEnd(sign + t) == |sign|
  {
    var s := sign + t;
    assert s[|sign|] == t[0];
    assert sign != "" ==> s[0] == sign[0];
  }

  lemma RunFrom(pre: string, run: string, post: string)
    requires Digits(run) && (post != "" ==> !IsDigit(post[0]))
    ensures RunEnd(pre + run + post, |pre|) == |pre| + |run|
  {
    var s := pre + run + post;
    assert s[|pre|..|pre| + |run|] == run;
    assert post != "" ==> s[|pre| + |run|] == post[0];
    RunOf(s, |pre|, |pre| + |run|);
  }

  lemma NoFraction(pre: string, rest: string)
    requires NoDigits(rest)
    ensures !Fraction(pre + rest, |pre|)
  {
    var s := pre + rest;
    assert |rest| > 1 ==> s[|pre| + 1] == rest[1];
  }

  lemma WholeMatches(sign: string, whole: string, rest: string)
    requires SignText(sign) && Digits(whole) && whole != "" && NoDigits(rest)
    ensures var s, r := sign + whole + rest, |sign| + |whole|;
            SignEnd(s) == |sign| && RunEnd(s, |sign|) == r && !Fraction(s, r)
  {
    RunFrom(sign, whole, rest);
    NoFraction(sign + whole, rest);
    SignInFront(sign, whole, rest);
  }

  lemma SignInFront(sign: string, whole: string, rest: string)
    requires SignText(sign) && Digits(whole) && whole != ""
    ensures SignEnd(sign + whole + rest) == |sign|
  {
    assert (whole + rest)[0] == whole[0];
    SignOf(sign, whole + rest);
    Assoc(sign, whole, rest);
  }

  lemma Assoc(a: string, b: string, c: string)
    ensures a + b + c == a + (b + c)
  {
  }

  lemma Assoc4(a: string, b: string, c: string, d: string)
    ensures a + (b + c + d) == a + b + c + d
  {
  }

  lemma FrontMatches(sign: string, whole: string, tail: string)
    requires SignText(sign) && Digits(whole) && tail != "" && tail[0] == '.'
    ensures SignEnd(sign + whole + tail) == |sign| && RunEnd(sign + whole + tail, |sign|) == |sign| + |whole|
  {
    RunFrom(sign, whole, tail);
    SignOf(sign, whole + tail);
    Assoc(sign, whole, tail);
  }

  lemma PointMatches(front: string, fraction: string, rest: string)
    requires Digits(fraction) && fraction != "" && NoDigits(rest)
    ensures var s := front + "." + fraction + rest;
            Fraction(s, |front|) && RunEnd(s, |front| + 1) == |front| + 1 + |fraction|
  {
    RunFrom(front + ".", fraction, rest);
    var s := front + "." + fraction + rest;
    assert s[|front|] == '.' && s[|front| + 1] == fraction[0];
  }

  lemma FractionMatches(s: string, sign: string, whole: string, fraction: string, rest: string)
    requires SignText(sign) && Digits(whole)
    requires Digits(fraction) && fraction != "" && NoDigits(rest)
    requires s == sign + whole + "." + fraction + rest
    ensures SignEnd(s) == |sign| && RunEnd(s, |sign|) == |sign + whole|
    ensures Fraction(s, |sign + whole|) && RunEnd(s, |sign + whole| + 1) == |sign + whole| + 1 + |fraction|
  {
    Assoc4(sign + whole, ".", fraction, rest);
    FrontMatches(sign, whole, "." + fraction + rest);
    PointMatches(sign + whole, fraction, rest);
  }

  lemma WholeToken(token: string, sign: string, whole: string, rest: string)
    requires SignText(sign) && Digits(whole) && whole != "" && NoDigits(rest) && token == sign + whole
    ensures SignEnd(token + rest) == |sign| && RunEnd(token + rest, |sign|) == |token|
    ensures !Fraction(token + rest, |token|) && MatchEnd(token + rest) == Some(|token|)
  {
    WholeMatches(sign, whole, rest);
  }

  lemma FractionToken(token: string, sign: string, whole: string, fraction: string, rest: string)
    requires SignText(sign) && Digits(whole) && Digits(fraction) && fraction != "" && NoDigits(rest)
    requires token == sign + whole + ("." + fraction)
    ensures SignEnd(token + rest) == |sign| && RunEnd(token + rest, |sign|) == |sign + whole|
    ensures Fraction(token + rest, |sign + whole|) && RunEnd(token + rest, |sign + whole| + 1) == |token|
    ensures MatchEnd(token + rest) == Some(|token|)
  {
    Assoc(sign + whole, ".", fraction);
    FractionMatches(token + rest, sign, whole, fraction, rest);
  }

  /** The number at the front of a text is found whole, whatever digitless text follows it. */
  lemma ShapedMatches(token: string, sign: string, whole: string, fraction: string, rest: string)
    requires Shaped(token, sign, whole, fraction) && NoDigits(rest)
    ensures SignEnd(token + rest) == |sign| && RunEnd(token + rest, |sign|) == |sign + whole|
    ensures Fraction(token + rest, |sign + whole|) <==> fraction != ""
    ensures fraction != "" ==> RunEnd(token + rest, |sign + whole| + 1) == |token|
    ensures MatchEnd(token + rest) == Some(|token|)
  {
    if fraction == "" {
      assert token == sign + whole;
      WholeToken(token, sign, whole, rest);
    } else {
      FractionToken(token, sign, whole, fraction, rest);
    }
  }

  /** The one number of such a text is the number at its front. */
  lemma ShapedIsAlone(token: string, sign: string, whole: string, fraction: string, rest: string)
    requires Shaped(token, sign, whole, fraction) && NoDigits(rest)
    ensures FindAll(token + rest) == [token]
  {
    var s := token + rest;
    ShapedMatches(token, sign, whole, fraction, rest);
    assert s[..|token|] == token && s[|token|..] == rest;
    NothingFound(rest);
  }

  /** What a shaped number denotes. */
  lemma ShapedReads(token: string, sign: string, whole: string, fraction: string)
    requires Shaped(token, sign, whole, fraction)
    ensures Read(token) == Fixed(Signed(sign, Mantissa(whole, fraction)), |fraction|)
  {
    ShapedMatches(token, sign, whole, fraction, "");
    assert token + "" == token;
    var r := |sign| + |whole|;
    assert token[..|sign|] == sign;
    assert token[|sign|..r] == whole;
    if fraction != "" {
      assert token[r + 1..|token|] == fraction;
    }
  }

  lemma DivModPow(m: nat, d: nat)
    ensures m / Pow(10, d) * Pow(10, d) + m % Pow(10, d) == m && m % Pow(10, d) < Pow(10, d)
  {
    DivMod(m, Pow(10, d));
  }

  lemma PrintWhole(m: nat)
    ensures Print(m, 0) == Natural(m / Pow(10, 0), 10)
  {
    assert Pow(10, 0) == 1;
  }

  lemma PrintShape(m: nat, d: nat, whole: string, fraction: string)
    requires whole == Natural(m / Pow(10, d), 10) && fraction == Padded(m % Pow(10, d), 10, d)
    ensures Shaped(Print(m, d), "", whole, fraction)
  {
    ValuesAreDigits(whole);
    ValuesAreDigits(fraction);
    if d == 0 {
      PrintWhole(m);
      assert Print(m, d) == "" + whole + "";
    } else {
      assert Print(m, d) == whole + "." + fraction;
      assert Print(m, d) == "" + whole + ("." + fraction);
    }
  }

  lemma PrintMantissa(m: nat, d: nat)
    requires Digits(Natural(m / Pow(10, d), 10)) && Digits(Padded(m % Pow(10, d), 10, d))
    ensures Mantissa(Natural(m / Pow(10, d), 10), Padded(m % Pow(10, d), 10, d)) == m
  {
    var p := Pow(10, d);
    DivModPow(m, d);
    ValueNatural(m / p, 10);
    ValuePadded(m % p, 10, d);
  }

  /** A printed number has the shape of one, and reads back as itself with its own decimals. */
  lemma PrintReads(m: nat, d: nat) returns (whole: string, fraction: string)
    ensures Shaped(Print(m, d), "", whole, fraction) && whole != "" && |fraction| == d
    ensures Read(Print(m, d)) == Fixed(m, d)
  {
    whole, fraction := Natural(m / Pow(10, d), 10), Padded(m % Pow(10, d), 10, d);
    PrintShape(m, d, whole, fraction);
    PrintMantissa(m, d);
    ShapedReads(Print(m, d), "", whole, fraction);
  }
}
