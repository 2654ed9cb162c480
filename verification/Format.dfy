/** How the NVML backend prints its readings, and what the value transform makes of them. */
module Format {
  import opened Basics
  import opened Text
  import opened Numerals
  import opened Decimals
  import opened Transform

  const MIB := 1_048_576

  /** mib: whole mebibytes, rounded up. */
  function Mib(bytes: nat): string { Decimal(Mebibytes(bytes)) + " MiB" }

  function Mebibytes(bytes: nat): nat {
    var quotient := bytes / MIB;
    if bytes % MIB != 0 then quotient + 1 else quotient
  }

  function OnOff(enabled: bool): string { if enabled then "Enabled" else "Disabled" }

  function YesNo(b: bool): string { if b then "Yes" else "No" }

  function Unknown(n: int): string { "Unknown(" + Decimal(n) + ")" }

  /** computeModeStr. */
  function ComputeMode(mode: int): string {
    if mode == 0 then "Default"
    else if mode == 1 then "Exclusive_Thread"
    else if mode == 2 then "Prohibited"
    else if mode == 3 then "Exclusive_Process"
    else Unknown(mode)
  }

  /** fabricStateStr. */
  function FabricStateText(state: nat): string {
    if state == 1 then "Not Started" else if state == 2 then "In Progress" else if state == 3 then "Completed" else "N/A"
  }

  /** recoveryActionStr. */
  function RecoveryActionText(action: nat): string {
    if action == 0 then "None"
    else if action == 1 then "GPU Reset"
    else if action == 2 then "Node Reboot"
    else if action == 3 then "Drain P2P"
    else if action == 4 then "Drain and Reset"
    else Unknown(action)
  }

  /** %016X behind 0x, as the event-reason masks print. */
  function Mask(bits: nat): string { "0x" + Padded(bits, 16, 16) }

  // ---------------------------------------------------------------- numbers with units

  /** A printed whole number is a shaped one. */
  lemma DecimalShape(n: int) returns (sign: string, whole: string)
    ensures Shaped(Decimal(n), sign, whole, "")
    ensures Read(Decimal(n)) == Fixed(n, 0)
  {
    var m := if n < 0 then -n else n;
    sign, whole := if n < 0 then "-" else "", Natural(m, 10);
    NaturalDecimal(m);
    assert Decimal(n) == sign + whole + "";
    DecimalMantissa(m);
    ShapedReads(Decimal(n), sign, whole, "");
  }

  lemma DecimalMantissa(m: nat)
    requires Digits(Natural(m, 10))
    ensures Mantissa(Natural(m, 10), "") == m
  {
    ValueNatural(m, 10);
    assert Pow(10, 0) == 1;
  }

  /** A printed whole number with a digitless unit transforms to itself, scaled. */
  lemma PrintedNumber(n: int, unit: string, multiplier: real)
    requires NoDigits(unit) && !StartsWithX(unit)
    ensures TransformRaw(Decimal(n) + unit, multiplier) == Ok(n as real * multiplier)
  {
    var sign, whole := DecimalShape(n);
    NumberWithUnit(Decimal(n), sign, whole, "", unit, multiplier);
    WholeTimes(n, multiplier);
  }

  lemma WholeTimes(n: int, multiplier: real)
    ensures Fixed(n, 0).Times(multiplier) == n as real * multiplier
  {
    assert Pow(10, 0) == 1;
    assert Fixed(n, 0).Value() == n as real;
  }

  lemma LeastMultiple(bytes: nat, other: nat)
    ensures bytes <= Mebibytes(bytes) * MIB < bytes + MIB && Mebibytes(bytes) * MIB % MIB == 0
    ensures other % MIB == 0 && other >= bytes ==> other >= Mebibytes(bytes) * MIB
  {
  }

  lemma ScaleWhole(n: int, factor: int, scale: real)
    requires scale == factor as real
    ensures n as real * scale == (n * factor) as real
  {
  }

  /** The same, for a scale that is a whole number. */
  lemma PrintedWhole(n: int, unit: string, factor: int, scale: real)
    requires NoDigits(unit) && !StartsWithX(unit) && scale == factor as real
    ensures TransformRaw(Decimal(n) + unit, scale) == Ok((n * factor) as real)
  {
    var sign, whole := DecimalShape(n);
    NumberWithUnit(Decimal(n), sign, whole, "", unit, scale);
    WholeProduct(n, factor, scale);
  }

  lemma WholeProduct(n: int, factor: int, scale: real)
    requires scale == factor as real
    ensures Fixed(n, 0).Times(scale) == (n * factor) as real
  {
    WholeTimes(n, scale);
    ScaleWhole(n, factor, scale);
  }

  lemma MibReturns(bytes: nat, scale: real)
    requires scale == MIB as real
    ensures TransformRaw(Mib(bytes), scale) == Ok((Mebibytes(bytes) * MIB) as real)
  {
    PrintedWhole(Mebibytes(bytes), " MiB", MIB, scale);
  }

  /** A printed byte count comes back as the least multiple of a mebibyte that holds it. */
  lemma MibRoundsUp(bytes: nat, scale: real) returns (back: int)
    requires scale == MIB as real
    ensures TransformRaw(Mib(bytes), scale) == Ok(back as real)
    ensures back >= bytes && back % MIB == 0
    ensures forall other: nat :: other % MIB == 0 && other >= bytes ==> other >= back
  {
    back := Mebibytes(bytes) * MIB;
    MibReturns(bytes, scale);
    forall other: nat | other % MIB == 0 && other >= bytes
      ensures other >= back
    {
      LeastMultiple(bytes, other);
    }
    LeastMultiple(bytes, 0);
  }

  // ---------------------------------------------------------------- words

  /** A word of the table, however it is capitalized, is its entry's value. */
  lemma WordReturns(raw: string, i: nat, multiplier: real)
    requires i < |WORDS| && ToLower(raw) == WORDS[i].key
    requires raw != "" && !IsSpace(raw[0]) && !IsSpace(raw[|raw| - 1]) && !LooksHexadecimal(raw)
    requires forall k :: 0 <= k < i ==> WORDS[k].key != WORDS[i].key
    ensures TransformRaw(raw, multiplier) == Ok(WORDS[i].value as real)
  {
    TightTrims(raw);
    Found(WORDS, ToLower(raw), i);
  }

  /** The words the formatters print, by their place in the table. */
  function Spelled(i: nat): string
    requires i < |WORDS|
  {
    if i == 0 then "Enabled" else if i == 1 then "Yes" else if i == 2 then "Active"
    else if i == 3 then "Disabled" else if i == 4 then "No" else if i == 5 then "Not Active"
    else if i == 6 then "Default" else if i == 7 then "Exclusive_Thread" else if i == 8 then "Prohibited"
    else "Exclusive_Process"
  }

  lemma SwitchesLower(i: nat)
    requires i < 6
    ensures ToLower(Spelled(i)) == WORDS[i].key
  {
  }

  lemma ModesLower(i: nat)
    requires 6 <= i < 8
    ensures ToLower(Spelled(i)) == WORDS[i].key
  {
  }

  lemma LastModesLower(i: nat)
    requires 8 <= i < |WORDS|
    ensures ToLower(Spelled(i)) == WORDS[i].key
  {
  }

  lemma SpelledLower(i: nat)
    requires i < |WORDS|
    ensures ToLower(Spelled(i)) == WORDS[i].key
  {
    if i < 6 {
      SwitchesLower(i);
    } else if i < 8 {
      ModesLower(i);
    } else {
      LastModesLower(i);
    }
  }

  lemma SpelledTight(i: nat)
    requires i < |WORDS|
    ensures var s := Spelled(i); s != "" && !IsSpace(s[0]) && !IsSpace(s[|s| - 1]) && !LooksHexadecimal(s)
  {
  }

  lemma WordsDiffer(i: nat, k: nat)
    requires k < i < |WORDS|
    ensures WORDS[k].key != WORDS[i].key
  {
    assert |WORDS[k].key| == |WORDS[i].key| ==> WORDS[k].key[0] != WORDS[i].key[0];
  }

  /** A word a formatter prints is its entry's value, whatever the multiplier. */
  lemma SpelledReturns(i: nat, scale: real)
    requires i < |WORDS|
    ensures TransformRaw(Spelled(i), scale) == Ok(WORDS[i].value as real)
  {
    SpelledLower(i);
    SpelledTight(i);
    forall k: nat | k < i
      ensures WORDS[k].key != WORDS[i].key
    {
      WordsDiffer(i, k);
    }
    WordReturns(Spelled(i), i, scale);
  }

  lemma SwitchIsWord(b: bool)
    ensures OnOff(b) == Spelled(if b then 0 else 3) && YesNo(b) == Spelled(if b then 1 else 4)
    ensures WORDS[0].value == WORDS[1].value == 1 && WORDS[3].value == WORDS[4].value == 0
  {
  }

  lemma SwitchReturns(b: bool, scale: real)
    ensures TransformRaw(OnOff(b), scale) == Ok((if b then 1 else 0) as real)
    ensures TransformRaw(YesNo(b), scale) == Ok((if b then 1 else 0) as real)
  {
    SwitchIsWord(b);
    SpelledReturns(if b then 0 else 3, scale);
    SpelledReturns(if b then 1 else 4, scale);
  }

  lemma ActivityIsWord(b: bool)
    ensures (if b then "Active" else "Not Active") == Spelled(if b then 2 else 5)
    ensures WORDS[2].value == 1 && WORDS[5].value == 0
  {
  }

  /** The words of an event reason. */
  lemma ActivityReturns(b: bool, scale: real)
    ensures TransformRaw(if b then "Active" else "Not Active", scale) == Ok((if b then 1 else 0) as real)
  {
    ActivityIsWord(b);
    SpelledReturns(if b then 2 else 5, scale);
  }

  lemma LowerUnknown(n: int)
    ensures ToLower(Unknown(n)) == "unknown(" + (Decimal(n) + ")")
  {
    var s, t := Unknown(n), "unknown(" + (Decimal(n) + ")");
    var sign, whole := DecimalShape(n);
    ShapedChars(Decimal(n), sign, whole, "");
    assert s == "Unknown(" + (Decimal(n) + ")");
    forall i | 0 <= i < |s|
      ensures ToLowerChar(s[i]) == t[i]
    {
      if i >= 8 {
        assert s[i] == (Decimal(n) + ")")[i - 8] && t[i] == s[i];
      } else {
        assert s[i] == "Unknown("[i] && t[i] == "unknown("[i];
      }
    }
  }

  lemma UnknownIsTight(n: int)
    ensures Trim(Unknown(n)) == Unknown(n) && !LooksHexadecimal(Unknown(n))
  {
    var s := Unknown(n);
    assert s == ("Unknown(" + Decimal(n)) + ")";
    assert s[0] == 'U' && s[|s| - 1] == ')';
    TightTrims(s);
  }

  /** A key that starts with u is in none of the tables. */
  lemma NoWordStartsWithU(key: string)
    requires key != "" && key[0] == 'u'
    ensures Lookup(WORDS, key) == None
  {
    NotFound(WORDS, key);
  }

  lemma NoActionStartsWithU(key: string)
    requires key != "" && key[0] == 'u'
    ensures Lookup(ABSENT_TOKENS, key) == None && Lookup(RECOVERY_ACTIONS, key) == None
  {
    NotFound(ABSENT_TOKENS, key);
    NotFound(RECOVERY_ACTIONS, key);
  }

  lemma UnknownStartsWithU(n: int)
    ensures ToLower(Unknown(n)) != "" && ToLower(Unknown(n))[0] == 'u'
  {
    assert Unknown(n)[0] == 'U';
  }

  lemma UnknownNumber(n: int)
    ensures FindAll(ToLower(Unknown(n))) == [Decimal(n)]
  {
    LowerUnknown(n);
    var sign, whole := DecimalShape(n);
    UnknownFront(Decimal(n) + ")");
    ShapedIsAlone(Decimal(n), sign, whole, "", ")");
  }

  lemma UnknownFront(s: string)
    ensures FindAll("unknown(" + s) == FindAll(s)
  {
    FrontSkipped("unknown(", s);
  }

  lemma ModeIsWord(mode: nat)
    requires mode <= 3
    ensures ComputeMode(mode) == Spelled(mode + 6) && WORDS[mode + 6].value == mode
  {
  }

  lemma KnownModeReturns(mode: int, scale: real)
    requires 0 <= mode <= 3
    ensures TransformRaw(ComputeMode(mode), scale) == Ok(mode as real)
  {
    ModeIsWord(mode);
    SpelledReturns(mode + 6, scale);
  }

  lemma UnknownReturns(n: int, scale: real)
    requires scale == 1.0
    ensures TransformRaw(Unknown(n), scale) == Ok(n as real)
  {
    UnknownIsTight(n);
    UnknownStartsWithU(n);
    NoWordStartsWithU(ToLower(Unknown(n)));
    UnknownNumber(n);
    assert [Decimal(n)][0] == Decimal(n);
    var sign, whole := DecimalShape(n);
    WholeProduct(n, 1, scale);
  }

  lemma UnknownTextReturns(text: string, n: int, scale: real)
    requires scale == 1.0 && text == Unknown(n)
    ensures TransformRaw(text, scale) == Ok(n as real)
  {
    UnknownReturns(n, scale);
  }

  /** Every compute mode, known or not, comes back as its own number; the field has no unit to scale by. */
  lemma ComputeModeReturns(mode: int, scale: real)
    requires scale == 1.0
    ensures TransformRaw(ComputeMode(mode), scale) == Ok(mode as real)
  {
    if 0 <= mode <= 3 {
      KnownModeReturns(mode, scale);
    } else {
      UnknownTextReturns(ComputeMode(mode), mode, scale);
    }
  }

  /** A state of an enum's table, however it is capitalized, is its entry's value. */
  lemma StateReturns(raw: string, table: seq<Entry>, i: nat)
    requires i < |table| && ToLower(raw) == table[i].key
    requires raw != "" && !IsSpace(raw[0]) && !IsSpace(raw[|raw| - 1])
    requires forall k :: 0 <= k < i ==> table[k].key != table[i].key
    requires forall k :: 0 <= k < |ABSENT_TOKENS| ==> ABSENT_TOKENS[k].key != table[i].key
    ensures Enum(raw, table) == Ok(table[i].value as real)
  {
    TightTrims(raw);
    Found(table, ToLower(raw), i);
    NotFound(ABSENT_TOKENS, ToLower(raw));
  }

  /** The entry an action prints. */
  function ActionEntry(action: nat): nat
    requires action <= 4
  {
    if action <= 1 then action else if action == 2 then 3 else action + 2
  }

  lemma ActionIsWord(action: nat)
    requires action <= 4
    ensures var i := ActionEntry(action);
            ToLower(RecoveryActionText(action)) == RECOVERY_ACTIONS[i].key && RECOVERY_ACTIONS[i].value == action
  {
  }

  lemma ActionsDiffer(i: nat, k: nat)
    requires k < i < |RECOVERY_ACTIONS|
    ensures RECOVERY_ACTIONS[k].key != RECOVERY_ACTIONS[i].key
  {
    assert |RECOVERY_ACTIONS[k].key| == |RECOVERY_ACTIONS[i].key| ==> RECOVERY_ACTIONS[k].key[0] != RECOVERY_ACTIONS[i].key[0];
  }

  lemma ActionsArePresent(i: nat, k: nat)
    requires i < |RECOVERY_ACTIONS| && k < |ABSENT_TOKENS|
    ensures ABSENT_TOKENS[k].key != RECOVERY_ACTIONS[i].key
  {
    assert |ABSENT_TOKENS[k].key| == |RECOVERY_ACTIONS[i].key| ==> ABSENT_TOKENS[k].key[0] != RECOVERY_ACTIONS[i].key[0];
  }

  lemma KnownRecoveryReturns(action: nat)
    requires action <= 4
    ensures Enum(RecoveryActionText(action), RECOVERY_ACTIONS) == Ok(action as real)
  {
    var i := ActionEntry(action);
    ActionIsWord(action);
    forall k: nat | k < i
      ensures RECOVERY_ACTIONS[k].key != RECOVERY_ACTIONS[i].key
    {
      ActionsDiffer(i, k);
    }
    forall k: nat | k < |ABSENT_TOKENS|
      ensures ABSENT_TOKENS[k].key != RECOVERY_ACTIONS[i].key
    {
      ActionsArePresent(i, k);
    }
    StateReturns(RecoveryActionText(action), RECOVERY_ACTIONS, i);
  }

  /** A recovery action comes back exactly when it is one of the five known; any other is reported, never guessed. */
  lemma RecoveryActionReturns(action: nat, multiplier: real)
    ensures action <= 4 ==> TransformField(RECOVERY_ACTION, RecoveryActionText(action), multiplier) == Ok(action as real)
    ensures action > 4 ==> TransformField(RECOVERY_ACTION, RecoveryActionText(action), multiplier) == Err(UnknownState)
  {
    if action <= 4 {
      KnownRecoveryReturns(action);
    } else {
      UnknownIsTight(action);
      UnknownStartsWithU(action);
      NoActionStartsWithU(ToLower(Unknown(action)));
    }
  }

  lemma ShortActionIsWord(reset: bool)
    ensures var i := if reset then 2 else 4;
            && ToLower(if reset then "Reset" else "Reboot") == RECOVERY_ACTIONS[i].key
            && RECOVERY_ACTIONS[i].value == if reset then 1 else 2
  {
  }

  /** The short names of a reset and a reboot read as the long ones do. */
  lemma ShortActionReturns(reset: bool, multiplier: real)
    ensures TransformField(RECOVERY_ACTION, if reset then "Reset" else "Reboot", multiplier) == Ok((if reset then 1 else 2) as real)
  {
    var i := if reset then 2 else 4;
    ShortActionIsWord(reset);
    forall k: nat | k < i
      ensures RECOVERY_ACTIONS[k].key != RECOVERY_ACTIONS[i].key
    {
      ActionsDiffer(i, k);
    }
    forall k: nat | k < |ABSENT_TOKENS|
      ensures ABSENT_TOKENS[k].key != RECOVERY_ACTIONS[i].key
    {
      ActionsArePresent(i, k);
    }
    StateReturns(if reset then "Reset" else "Reboot", RECOVERY_ACTIONS, i);
  }

  /** A fabric that is not supported reads as state 0. */
  lemma NoFabricReturns(multiplier: real)
    ensures TransformField(FABRIC_STATE, "Not Supported", multiplier) == Ok(0.0)
  {
    assert FABRIC_STATE[0] != RECOVERY_ACTION[0];
    assert ToLower("Not Supported") == FABRIC_STATES[0].key;
    StateReturns("Not Supported", FABRIC_STATES, 0);
  }

  lemma KnownFabricReturns(state: nat)
    requires 1 <= state <= 3
    ensures Enum(FabricStateText(state), FABRIC_STATES) == Ok(state as real)
  {
    if state == 1 {
      assert ToLower("Not Started") == FABRIC_STATES[1].key;
      StateReturns("Not Started", FABRIC_STATES, 1);
    } else if state == 2 {
      assert ToLower("In Progress") == FABRIC_STATES[2].key;
      StateReturns("In Progress", FABRIC_STATES, 2);
    } else {
      assert ToLower("Completed") == FABRIC_STATES[3].key;
      StateReturns("Completed", FABRIC_STATES, 3);
    }
  }

  /** A fabric state comes back exactly from 1 to 3; state 0 and unknown states read as an expected gap. */
  lemma FabricStateReturns(state: nat, multiplier: real)
    ensures var r := TransformField(FABRIC_STATE, FabricStateText(state), multiplier);
            if 1 <= state <= 3 then r == Ok(state as real) else r == Err(Absent)
  {
    assert FABRIC_STATE[0] != RECOVERY_ACTION[0];
    if 1 <= state <= 3 {
      KnownFabricReturns(state);
    } else {
      TightTrims("N/A");
      assert ToLower("N/A") == ABSENT_TOKENS[1].key;
      Found(ABSENT_TOKENS, ToLower("N/A"), 1);
    }
  }

  // ---------------------------------------------------------------- masks

  lemma {:induction false} NothingRemoved(s: string, a: char, b: char)
    requires b !in s
    ensures RemoveAll(s, a, b) == s
    decreases |s|
  {
    if |s| >= 2 {
      assert s[1] in s;
      assert forall c :: c in s[1..] ==> c in s;
      NothingRemoved(s[1..], a, b);
      assert s == [s[0]] + s[1..];
    }
  }

  lemma {:induction false} PaddedUpper(n: nat, width: nat)
    ensures forall i :: 0 <= i < width ==> var c := Padded(n, 16, width)[i]; IsDigit(c) || 'A' <= c <= 'F'
    decreases width
  {
    if width > 0 {
      PaddedUpper(n / 16, width - 1);
    }
  }

  lemma Pow16()
    ensures Pow(16, 16) == UINT64
  {
    assert Pow(16, 4) == 65536;
    assert Pow(16, 8) == 65536 * 65536;
    assert Pow(16, 12) == 65536 * 65536 * 65536;
  }

  lemma MaskIsTight(bits: nat)
    ensures Trim(Mask(bits)) == Mask(bits) && LooksHexadecimal(Mask(bits))
  {
    var digits, s := Padded(bits, 16, 16), Mask(bits);
    PaddedUpper(bits, 16);
    assert s[0] == '0' && s[1] == 'x' && s[|s| - 1] == digits[15];
    TightTrims(s);
  }

  lemma MaskDigits(bits: nat)
    ensures RemoveAll(RemoveAll(Mask(bits), '0', 'x'), '0', 'X') == Padded(bits, 16, 16)
  {
    var digits, s := Padded(bits, 16, 16), Mask(bits);
    PaddedUpper(bits, 16);
    assert 'x' !in digits && 'X' !in digits;
    assert s[0] == '0' && s[1] == 'x' && s[2..] == digits;
    NothingRemoved(digits, '0', 'x');
    NothingRemoved(digits, '0', 'X');
  }

  lemma MaskIsRead(bits: nat)
    requires bits < UINT64
    ensures HexToDecimal(Mask(bits)) == Some(bits)
  {
    MaskDigits(bits);
    Pow16();
    ValuePadded(bits, 16, 16);
    assert Padded(bits, 16, 16) != "";
  }

  lemma HexadecimalReads(raw: string, bits: nat, multiplier: real)
    requires Trim(raw) == raw && LooksHexadecimal(raw) && HexToDecimal(raw) == Some(bits)
    ensures TransformRaw(raw, multiplier) == Ok(Float64(bits) as real)
  {
  }

  /** A 64-bit mask comes back as the float64 nearest to it, and as itself if and only if 53 bits hold it. */
  lemma MaskReturns(bits: nat, multiplier: real)
    requires bits < UINT64
    ensures TransformRaw(Mask(bits), multiplier) == Ok(Float64(bits) as real)
    ensures TransformRaw(Mask(bits), multiplier) == Ok(bits as real) <==> bits % Ulp(bits) == 0
  {
    MaskIsTight(bits);
    MaskIsRead(bits);
    HexadecimalReads(Mask(bits), bits, multiplier);
    FloatIsNearest(bits, 0);
  }
}
