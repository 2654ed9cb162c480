/** Turning a raw cell into the number a metric carries. */
module Transform {
  import opened Basics
  import opened Text
  import opened Numerals
  import opened Decimals

  /** Absent: an expected gap, skipped quietly. */
  datatype Unusable = Absent | UnknownState | NotOneNumber | NotHex

  /** strings.ReplaceAll of a two-character string by nothing. */
  function RemoveAll(s: string, a: char, b: char): string
    decreases |s|
  {
    if |s| < 2 then s else if s[0] == a && s[1] == b then RemoveAll(s[2..], a, b) else [s[0]] + RemoveAll(s[1..], a, b)
  }

  /** Removing goes on behind each place where the two characters stand. */
  lemma {:induction false} FirstRemoved(pre: string, a: char, b: char, post: string)
    requires b !in pre && a != b
    ensures RemoveAll(pre + [a, b] + post, a, b) == pre + RemoveAll(post, a, b)
    decreases |pre|
  {
    var s := pre + [a, b] + post;
    if pre == "" {
      assert s[2..] == post;
    } else {
      assert s[1..] == pre[1..] + [a, b] + post;
      assert s[1] == if |pre| > 1 then pre[1] else a;
      assert forall c :: c in pre[1..] ==> c in pre;
      assert |pre| > 1 ==> pre[1] in pre;
      FirstRemoved(pre[1..], a, b, post);
      assert [pre[0]] + (pre[1..] + RemoveAll(post, a, b)) == pre + RemoveAll(post, a, b);
    }
  }

  /** HexToDecimal. */
  function HexToDecimal(hex: string): Option<nat> {
    ParseUint(RemoveAll(RemoveAll(hex, '0', 'x'), '0', 'X'), 16, UINT64)
  }

  const P52 := 0x10_0000_0000_0000

  /** The distance of the float64 numbers around `n`, a power of two: 53 bits of `n` count. */
  function Ulp(n: nat): (u: nat)
    ensures u >= 1 && (n < 2 * P52 ==> u == 1)
    ensures n >= P52 ==> P52 * u <= n < 2 * P52 * u
  {
    if n < 2 * P52 then 1 else 2 * Ulp(n / 2)
  }

  /** The conversion of an unsigned integer to float64: to the nearest number of 53 bits, ties to even. */
  function Float64(n: nat): nat {
    var u := Ulp(n);
    var q, r := n / u, n % u;
    if 2 * r < u || (2 * r == u && q % 2 == 0) then q * u else (q + 1) * u
  }

  lemma FloatCases(n: nat, q: nat, u: nat, r: nat)
    requires u == Ulp(n) && q == n / u && r == n % u
    ensures n == q * u + r && r < u
    ensures Float64(n) == if 2 * r < u || (2 * r == u && q % 2 == 0) then q * u else (q + 1) * u
  {
  }

  function Gap(a: int, b: int): nat { if a < b then b - a else a - b }

  lemma Scaled(a: nat, b: nat, u: nat)
    requires a <= b
    ensures a * u <= b * u
  {
  }

  lemma MultiplesAround(m: nat, q: nat, u: nat, r: nat, n: nat)
    requires n == q * u + r && r < u
    ensures r <= Gap(m * u, n) || u - r <= Gap(m * u, n)
  {
    NextMultiple(q, u);
    if m <= q {
      Scaled(m, q, u);
    } else {
      Scaled(q + 1, m, u);
    }
  }

  lemma NearestMultiple(f: nat, gap: nat, down: nat, up: nat, r: nat, u: nat, even: bool, n: nat)
    requires r < u && down == n - r && up == down + u && (r <= gap || u - r <= gap)
    requires f == if 2 * r < u || (2 * r == u && even) then down else up
    ensures Gap(f, n) <= gap && (f == n <==> r == 0)
  {
  }

  /** No number of 53 bits is closer, and the conversion is exact if and only if the integer is such a number. */
  lemma FloatIsNearest(n: nat, m: nat)
    ensures Gap(Float64(n), n) <= Gap(m * Ulp(n), n)
    ensures Float64(n) == n <==> n % Ulp(n) == 0
  {
    var r, u, even := FloatParts(n);
    var gap := MultipleIsAway(n, m, u, r);
    NearestMultiple(Float64(n), gap, n - r, n - r + u, r, u, even, n);
  }

  lemma FloatParts(n: nat) returns (r: nat, u: nat, even: bool)
    ensures u == Ulp(n) && r == n % u && r < u && r <= n
    ensures Float64(n) == if 2 * r < u || (2 * r == u && even) then n - r else n - r + u
  {
    u := Ulp(n);
    r := n % u;
    even := n / u % 2 == 0;
    FloatCases(n, n / u, u, r);
    NextMultiple(n / u, u);
  }

  lemma NextMultiple(q: nat, u: nat)
    ensures (q + 1) * u == q * u + u
  {
  }

  lemma MultipleIsAway(n: nat, m: nat, u: nat, r: nat) returns (gap: nat)
    requires u >= 1 && r == n % u
    ensures gap == Gap(m * u, n) && (r <= gap || u - r <= gap)
  {
    gap := Gap(m * u, n);
    MultiplesAround(m, n / u, u, r, n);
  }

  /** It is a number of 53 bits, and from half way between two the even one. */
  lemma FloatIsEven(n: nat) returns (k: nat)
    ensures Float64(n) == k * Ulp(n) && (2 * (n % Ulp(n)) == Ulp(n) ==> k % 2 == 0)
  {
    var u := Ulp(n);
    var q, r := n / u, n % u;
    FloatCases(n, q, u, r);
    k := if 2 * r < u || (2 * r == u && q % 2 == 0) then q else q + 1;
  }

  datatype Entry = Entry(key: string, value: int)

  /** The value of the first entry for a key. */
  function Lookup(table: seq<Entry>, key: string): Option<int>
    decreases |table|
  {
    if table == [] then None
    else if table[0].key == key then Some(table[0].value)
    else Lookup(table[1..], key)
  }

  /** The states spelled out in words. */
  const WORDS: seq<Entry> := [
    Entry("enabled", 1), Entry("yes", 1), Entry("active", 1), Entry("disabled", 0), Entry("no", 0),
    Entry("not active", 0), Entry("default", 0), Entry("exclusive_thread", 1), Entry("prohibited", 2),
    Entry("exclusive_process", 3)]

  /** parseSanitizedValueWithBestEffort: exactly one number, scaled. */
  function OneNumber(val: string, multiplier: real): Result<real, Unusable> {
    var numbers := FindAll(val);
    if |numbers| != 1 then Err(NotOneNumber) else Ok(Read(numbers[0]).Times(multiplier))
  }

  predicate StartsWithX(s: string) { s != "" && s[0] == 'x' }

  predicate LooksHexadecimal(s: string) { |s| > 1 && s[0] == '0' && s[1] == 'x' }

  /** TransformRawValue. */
  function TransformRaw(raw: string, multiplier: real): Result<real, Unusable> {
    var trimmed := Trim(raw);
    if LooksHexadecimal(trimmed) then
      var n := HexToDecimal(trimmed);
      if n.Some? then Ok(Float64(n.value) as real) else Err(NotHex)
    else
      var word := Lookup(WORDS, ToLower(trimmed));
      if word.Some? then Ok(word.value as real) else OneNumber(ToLower(trimmed), multiplier)
  }

  const RECOVERY_ACTION := "gpu_recovery_action"
  const FABRIC_STATE := "fabric.state"

  const RECOVERY_ACTIONS: seq<Entry> := [
    Entry("none", 0), Entry("gpu reset", 1), Entry("reset", 1), Entry("node reboot", 2), Entry("reboot", 2),
    Entry("drain p2p", 3), Entry("drain and reset", 4)]

  const FABRIC_STATES: seq<Entry> := [
    Entry("not supported", 0), Entry("not started", 1), Entry("in progress", 2), Entry("completed", 3)]

  const ABSENT_TOKENS: seq<Entry> := [
    Entry("", 0), Entry("n/a", 0), Entry("[n/a]", 0), Entry("[not supported]", 0), Entry("[insufficient permissions]", 0)]

  function Enum(raw: string, table: seq<Entry>): Result<real, Unusable> {
    var key := ToLower(Trim(raw));
    if Lookup(ABSENT_TOKENS, key).Some? then Err(Absent)
    else
      var value := Lookup(table, key);
      if value.Some? then Ok(value.value as real) else Err(UnknownState)
  }

  /** TransformFieldValue. */
  function TransformField(field: string, raw: string, multiplier: real): Result<real, Unusable> {
    if field == RECOVERY_ACTION then Enum(raw, RECOVERY_ACTIONS)
    else if field == FABRIC_STATE then Enum(raw, FABRIC_STATES)
    else TransformRaw(raw, multiplier)
  }

  lemma {:induction false} Found(table: seq<Entry>, key: string, i: nat)
    requires i < |table| && table[i].key == key && forall k :: 0 <= k < i ==> table[k].key != key
    ensures Lookup(table, key) == Some(table[i].value)
    decreases |table|
  {
    if i > 0 {
      assert table[0].key != key;
      Found(table[1..], key, i - 1);
    }
  }

  lemma {:induction false} NotFound(table: seq<Entry>, key: string)
    requires forall k :: 0 <= k < |table| ==> table[k].key != key
    ensures Lookup(table, key) == None
    decreases |table|
  {
    if table != [] {
      NotFound(table[1..], key);
    }
  }

  predicate NumberChar(c: char) { IsDigit(c) || IsSign(c) || c == '.' }

  lemma ShapedChars(token: string, sign: string, whole: string, fraction: string)
    requires Shaped(token, sign, whole, fraction)
    ensures forall i :: 0 <= i < |token| ==> NumberChar(token[i])
  {
    assert token == sign + whole + if fraction == "" then "" else "." + fraction;
  }

  lemma TrimRightOf(token: string, rest: string)
    requires token != "" && !IsSpace(token[|token| - 1])
    ensures TrimRight(token + rest) == token + TrimRight(rest)
  {
    if Blank(rest) {
      TrimRightSkips(token, rest);
      BlankTrims(rest);
      assert token + TrimRight(rest) == token;
    } else {
      TrimRightKeeps(token, rest);
    }
  }

  /** Trimming and lower-casing leave a number at the front of a cell alone. */
  lemma NumberIsStable(token: string, rest: string)
    requires token != "" && (forall i :: 0 <= i < |token| ==> NumberChar(token[i])) && NoDigits(rest)
    ensures NoDigits(ToLower(TrimRight(rest)))
    ensures Trim(token + rest) == token + TrimRight(rest)
    ensures ToLower(token + TrimRight(rest)) == token + ToLower(TrimRight(rest))
  {
    assert (token + rest)[0] == token[0] && NumberChar(token[0]) && NumberChar(token[|token| - 1]);
    TrimRightOf(token, rest);
    var k := TrimRightAt(rest);
    assert forall i :: 0 <= i < k ==> TrimRight(rest)[i] == rest[i];
    LowerKeepsNumber(token, TrimRight(rest));
  }

  lemma LowerKeepsNumber(token: string, rest: string)
    requires forall i :: 0 <= i < |token| ==> NumberChar(token[i])
    ensures ToLower(token + rest) == token + ToLower(rest)
  {
  }

  lemma NotHexadecimal(token: string, rest: string)
    requires token != "" && (forall i :: 0 <= i < |token| ==> NumberChar(token[i]))
    requires token == "0" ==> !StartsWithX(rest)
    ensures !LooksHexadecimal(token + TrimRight(rest))
  {
    var k := TrimRightAt(rest);
    var s := token + TrimRight(rest);
    assert s[0] == token[0];
    if |token| > 1 {
      assert s[1] == token[1] && NumberChar(token[1]);
    } else if |s| > 1 {
      assert s[1] == rest[0];
    }
  }

  lemma WordsAreWords(k: nat)
    requires k < |WORDS|
    ensures WORDS[k].key != "" && !NumberChar(WORDS[k].key[0])
  {
  }

  lemma NumberIsNoWord(val: string)
    requires val != "" && NumberChar(val[0])
    ensures Lookup(WORDS, val) == None
  {
    forall k: nat | k < |WORDS|
      ensures WORDS[k].key != val
    {
      WordsAreWords(k);
    }
    NotFound(WORDS, val);
  }

  /** A cell of a number and a digitless unit is that number, unless it reads as hexadecimal. */
  lemma NumberWithUnit(token: string, sign: string, whole: string, fraction: string, rest: string, multiplier: real)
    requires Shaped(token, sign, whole, fraction) && NoDigits(rest)
    requires token == "0" ==> !StartsWithX(rest)
    ensures TransformRaw(token + rest, multiplier) == Ok(Read(token).Times(multiplier))
  {
    ShapedChars(token, sign, whole, fraction);
    NumberIsStable(token, rest);
    NotHexadecimal(token, rest);
    var unit := ToLower(TrimRight(rest));
    assert (token + unit)[0] == token[0];
    NumberIsNoWord(token + unit);
    OneNumberIs(token, sign, whole, fraction, unit, multiplier);
  }

  lemma OneNumberIs(token: string, sign: string, whole: string, fraction: string, rest: string, multiplier: real)
    requires Shaped(token, sign, whole, fraction) && NoDigits(rest)
    ensures OneNumber(token + rest, multiplier) == Ok(Read(token).Times(multiplier))
  {
    ShapedIsAlone(token, sign, whole, fraction, rest);
  }

  // ---------------------------------------------------------------- absent readings

  /** What nvidia-smi prints for a reading that cannot be taken. */
  const ABSENT: seq<string> := ["", "n/a", "[n/a]", "[not supported]", "[insufficient permissions]", "[unknown error]"]

  /** IsKnownAbsentValue. */
  predicate KnownAbsent(raw: string) { ToLower(Trim(raw)) in ABSENT }

  predicate TokenLike(key: string) { NoDigits(key) && (key == "" || key[0] == '[' || (|key| == 3 && key[1] == '/')) }

  predicate WordLike(key: string) { |key| > 1 && key[0] != '[' && key[1] != '/' }

  lemma AbsentTokensAreNoWords(key: string)
    requires key in ABSENT
    ensures TokenLike(key)
  {
  }

  lemma WordTableIsWords()
    ensures forall k :: 0 <= k < |WORDS| ==> WordLike(WORDS[k].key)
  {
  }

  lemma StatesAreWords()
    ensures forall k :: 0 <= k < |RECOVERY_ACTIONS| ==> WordLike(RECOVERY_ACTIONS[k].key)
    ensures forall k :: 0 <= k < |FABRIC_STATES| ==> WordLike(FABRIC_STATES[k].key)
  {
  }

  lemma NoSuchWord(table: seq<Entry>, key: string)
    requires TokenLike(key) && forall k :: 0 <= k < |table| ==> WordLike(table[k].key)
    ensures Lookup(table, key) == None
  {
    forall k | 0 <= k < |table|
      ensures table[k].key != key
    {
      assert WordLike(table[k].key);
    }
    NotFound(table, key);
  }

  lemma DigitsStay(s: string)
    ensures forall i :: 0 <= i < |s| && IsDigit(s[i]) ==> ToLower(s)[i] == s[i]
  {
  }

  /** A known absent value is never turned into a number, whatever its field and scale. */
  lemma AbsentIsNoNumber(field: string, raw: string, multiplier: real)
    requires KnownAbsent(raw)
    ensures TransformField(field, raw, multiplier).Err?
  {
    var trimmed := Trim(raw);
    var key := ToLower(trimmed);
    AbsentTokensAreNoWords(key);
    WordTableIsWords();
    StatesAreWords();
    if field == RECOVERY_ACTION {
      NoSuchWord(RECOVERY_ACTIONS, key);
    } else if field == FABRIC_STATE {
      NoSuchWord(FABRIC_STATES, key);
    } else {
      DigitsStay(trimmed);
      NoSuchWord(WORDS, key);
      NothingFound(key);
    }
  }
}
