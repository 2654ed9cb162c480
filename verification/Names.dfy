/**
 Metric names: the families the exporter owns, and the names derived from returned column names. The snake-case regular
 expressions are a parameter, any function on text.
 */
module Names {
  import opened Basics
  import opened Text

  // ---------------------------------------------------------------- legal text

  predicate Legal(c: char) { 'a' <= c <= 'z' || 'A' <= c <= 'Z' || '0' <= c <= '9' || c == '_' || c == ':' }

  predicate LegalText(s: string) { forall i :: 0 <= i < |s| ==> Legal(s[i]) }

  function SkipIllegal(s: string): (t: string)
    ensures |t| <= |s|
  {
    if s != "" && !Legal(s[0]) then SkipIllegal(s[1..]) else s
  }

  /** Every run of illegal characters becomes one underscore. */
  function Legalize(s: string): (t: string)
    ensures LegalText(t)
    ensures LegalText(s) ==> t == s
    decreases |s|
  {
    if s == "" then ""
    else if Legal(s[0]) then
      assert LegalText(s) ==> LegalText(s[1..]);
      [s[0]] + Legalize(s[1..])
    else "_" + Legalize(SkipIllegal(s[1..]))
  }

  /** strings.ReplaceAll of one character. */
  function Replace(s: string, c: char, by_: string): string {
    if s == "" then "" else (if s[0] == c then by_ else [s[0]]) + Replace(s[1..], c, by_)
  }

  /** strings.ReplaceAll of a blank and an opening bracket. */
  function ReplaceUnitStart(s: string): string
    decreases |s|
  {
    if |s| < 2 then s
    else if s[0] == ' ' && s[1] == '[' then "_" + ReplaceUnitStart(s[2..])
    else [s[0]] + ReplaceUnitStart(s[1..])
  }

  // ---------------------------------------------------------------- derived names

  datatype Unit = Unit(suffix: string, nameSuffix: string, multiplier: real)

  const UNITS: seq<Unit> := [
    Unit(" [W]", "_watts", 1.0), Unit(" [MHz]", "_clock_hz", 1000000.0), Unit(" [MiB]", "_bytes", 1048576.0),
    Unit(" [%]", "_ratio", 0.01), Unit(" [us]", "_seconds", 0.000001), Unit(" [ms]", "_seconds", 0.001),
    Unit(" [seconds]", "_seconds", 1.0), Unit(" [W/s]", "_watts_per_second", 1.0)]

  predicate HasSuffix(s: string, suffix: string) { |suffix| <= |s| && s[|s| - |suffix|..] == suffix }

  function UnitOf(units: seq<Unit>, s: string): Option<Unit> {
    if units == [] then None else if HasSuffix(s, units[0].suffix) then Some(units[0]) else UnitOf(units[1..], s)
  }

  /** The last two characters inside the brackets. */
  function Tail(suffix: string): string
    requires |suffix| >= 3
  {
    suffix[|suffix| - 3..|suffix| - 1]
  }

  lemma TailsDiffer(i: nat, k: nat)
    requires i < k < |UNITS|
    ensures |UNITS[i].suffix| >= 3 && |UNITS[k].suffix| >= 3 && Tail(UNITS[i].suffix) != Tail(UNITS[k].suffix)
  {
    var a, b := UNITS[i].suffix, UNITS[k].suffix;
    assert Tail(a)[0] != Tail(b)[0] || Tail(a)[1] != Tail(b)[1];
  }

  lemma TailIs(s: string, suffix: string)
    requires HasSuffix(s, suffix) && |suffix| >= 3
    ensures |s| >= 3 && Tail(s) == Tail(suffix)
  {
    assert s == s[..|s| - |suffix|] + suffix;
  }

  lemma UnitsDiffer(s: string, i: nat, k: nat)
    requires i < k < |UNITS| && HasSuffix(s, UNITS[k].suffix)
    ensures !HasSuffix(s, UNITS[i].suffix)
  {
    TailsDiffer(i, k);
    TailIs(s, UNITS[k].suffix);
    if HasSuffix(s, UNITS[i].suffix) {
      TailIs(s, UNITS[i].suffix);
    }
  }

  lemma {:induction false} FirstUnit(units: seq<Unit>, s: string, k: nat)
    requires k < |units| && HasSuffix(s, units[k].suffix) && forall i :: 0 <= i < k ==> !HasSuffix(s, units[i].suffix)
    ensures UnitOf(units, s) == Some(units[k])
    decreases |units|
  {
    if k > 0 {
      FirstUnit(units[1..], s, k - 1);
    }
  }

  /** A column's unit is the one in its brackets. */
  lemma UnitIs(base: string, k: nat)
    requires k < |UNITS|
    ensures UnitOf(UNITS, base + UNITS[k].suffix) == Some(UNITS[k])
  {
    var s := base + UNITS[k].suffix;
    assert HasSuffix(s, UNITS[k].suffix);
    forall i: nat | i < k
      ensures !HasSuffix(s, UNITS[i].suffix)
    {
      UnitsDiffer(s, i, k);
    }
    FirstUnit(UNITS, s, k);
  }

  /** prometheus.BuildFQName without a subsystem. */
  function FqName(prefix: string, name: string): string {
    if name == "" then "" else if prefix == "" then name else prefix + "_" + name
  }

  datatype Derived = Derived(name: string, multiplier: real)

  /** BuildFQNameAndMultiplier. */
  function Derive(prefix: string, rField: string, snake: string -> string): Derived {
    var unit := UnitOf(UNITS, rField);
    var text := if unit.Some? then Split(rField, ' ')[0] + unit.value.nameSuffix else rField;
    var cased := snake(Replace(text, '.', "_"));
    var bare := Replace(ReplaceUnitStart(cased), ']', "");
    Derived(FqName(prefix, Legalize(bare)), if unit.Some? then unit.value.multiplier else 1.0)
  }

  /** Whatever a driver calls a column, the derived name is legal under a legal prefix, so no scraper escapes it. */
  lemma DerivedNamesAreLegal(prefix: string, rField: string, snake: string -> string)
    requires LegalText(prefix)
    ensures LegalText(Derive(prefix, rField, snake).name)
    ensures var name := Derive(prefix, rField, snake).name;
            forall i :: 0 <= i < |name| ==>
              'a' <= name[i] <= 'z' || 'A' <= name[i] <= 'Z' || '0' <= name[i] <= '9' || name[i] == '_' || name[i] == ':'
  {
  }

  /** Letters, digits, underscores and colons are legal, so a name of these stays as it is. */
  lemma LegalNamesStay(s: string)
    requires forall i :: 0 <= i < |s| ==>
               'a' <= s[i] <= 'z' || 'A' <= s[i] <= 'Z' || '0' <= s[i] <= '9' || s[i] == '_' || s[i] == ':'
    ensures Legalize(s) == s
  {
    assert LegalText(s);
  }

  /** A blank and an opening bracket become one underscore, everything else stays. */
  lemma {:induction false} UnitStartReplaced(a: string, b: string)
    requires '[' !in a
    ensures ReplaceUnitStart(a + " [" + b) == a + "_" + ReplaceUnitStart(b)
    decreases |a|
  {
    var s := a + " [" + b;
    if a == "" {
      assert s[2..] == b;
    } else {
      assert s[1..] == a[1..] + " [" + b;
      assert |a| > 1 ==> s[1] == a[1];
      UnitStartReplaced(a[1..], b);
      assert [a[0]] + (a[1..] + "_" + ReplaceUnitStart(b)) == a + "_" + ReplaceUnitStart(b);
    }
  }

  lemma {:induction false} NoUnitStart(s: string)
    requires '[' !in s
    ensures ReplaceUnitStart(s) == s
    decreases |s|
  {
    if |s| >= 2 {
      NoUnitStart(s[1..]);
    }
  }

  lemma {:induction false} NoSuffixNoUnit(units: seq<Unit>, s: string)
    requires forall k :: 0 <= k < |units| ==> !HasSuffix(s, units[k].suffix)
    ensures UnitOf(units, s).None?
    decreases |units|
  {
    if units != [] {
      NoSuffixNoUnit(units[1..], s);
    }
  }

  lemma SuffixEnds(s: string, suffix: string)
    requires suffix != "" && HasSuffix(s, suffix)
    ensures s != "" && s[|s| - 1] == suffix[|suffix| - 1]
  {
    assert s == s[..|s| - |suffix|] + suffix;
  }

  /** A column without a unit in brackets is exported as it is. */
  lemma NoUnitNoScale(rField: string, prefix: string, snake: string -> string)
    requires rField == "" || rField[|rField| - 1] != ']'
    ensures Derive(prefix, rField, snake).multiplier == 1.0
  {
    forall k: nat | k < |UNITS|
      ensures !HasSuffix(rField, UNITS[k].suffix)
    {
      var suffix := UNITS[k].suffix;
      assert suffix[|suffix| - 1] == ']';
      if HasSuffix(rField, suffix) {
        SuffixEnds(rField, suffix);
      }
    }
    NoSuffixNoUnit(UNITS, rField);
  }

  /** What each unit a column names is worth: its values are exported in watts, hertz, bytes, ratios and seconds. */
  lemma UnitsScale(base: string, prefix: string, snake: string -> string)
    ensures Derive(prefix, base + " [W]", snake).multiplier == 1.0 && Derive(prefix, base + " [MHz]", snake).multiplier == 1000000.0
    ensures Derive(prefix, base + " [MiB]", snake).multiplier == 1048576.0 && Derive(prefix, base + " [%]", snake).multiplier == 0.01
    ensures Derive(prefix, base + " [us]", snake).multiplier == 0.000001 && Derive(prefix, base + " [ms]", snake).multiplier == 0.001
    ensures Derive(prefix, base + " [seconds]", snake).multiplier == 1.0 && Derive(prefix, base + " [W/s]", snake).multiplier == 1.0
  {
    UnitIs(base, 0);
    UnitIs(base, 1);
    UnitIs(base, 2);
    UnitIs(base, 3);
    UnitIs(base, 4);
    UnitIs(base, 5);
    UnitIs(base, 6);
    UnitIs(base, 7);
  }

  lemma FqNameInjective(prefix: string, a: string, b: string)
    requires a != "" && b != "" && FqName(prefix, a) == FqName(prefix, b)
    ensures a == b
  {
    if prefix != "" {
      assert FqName(prefix, a)[|prefix| + 1..] == a && FqName(prefix, b)[|prefix| + 1..] == b;
    }
  }

  // ---------------------------------------------------------------- the families the exporter owns

  datatype Family =
    | FailedScrapes | CollectSuccess | CollectTimestamp | CollectDuration | ExitCode
    | GpuInfo | AppInfo | AppMemory | AppCount | AppsSuccess
    | PcieTx | PcieRx | EnergyTotal
    | MigInfo | MigTotal | MigUsed | MigFree | MigReserved
    | MigGraphics | MigSm | MigOccupancy | MigTensor | MigTx | MigRx
    | XidCount | XidTime
    | FieldOf(qField: string)

  /** A fixed family's name behind the prefix. */
  function BaseName(f: Family): (name: string)
    requires !f.FieldOf? && !f.ExitCode?
    ensures |name| > 4
  {
    match f
    case FailedScrapes => "failed_scrapes_total"
    case CollectSuccess => "last_collect_success"
    case CollectTimestamp => "last_collect_success_timestamp_seconds"
    case CollectDuration => "last_collect_duration_seconds"
    case GpuInfo => "gpu_info"
    case AppInfo => "compute_app_info"
    case AppMemory => "compute_app_used_memory_bytes"
    case AppCount => "compute_apps"
    case AppsSuccess => "compute_apps_last_collect_success"
    case PcieTx => "pcie_throughput_tx_bytes_per_second"
    case PcieRx => "pcie_throughput_rx_bytes_per_second"
    case EnergyTotal => "energy_joules_total"
    case MigInfo => "mig_info"
    case MigTotal => "mig_memory_total_bytes"
    case MigUsed => "mig_memory_used_bytes"
    case MigFree => "mig_memory_free_bytes"
    case MigReserved => "mig_memory_reserved_bytes"
    case MigGraphics => "mig_graphics_activity_ratio"
    case MigSm => "mig_sm_activity_ratio"
    case MigOccupancy => "mig_sm_occupancy_ratio"
    case MigTensor => "mig_tensor_activity_ratio"
    case MigTx => "mig_pcie_throughput_tx_bytes_per_second"
    case MigRx => "mig_pcie_throughput_rx_bytes_per_second"
    case XidCount => "xid_errors_total"
    case XidTime => "xid_last_timestamp_seconds"
  }

  const FIXED: seq<Family> := [
    FailedScrapes, CollectSuccess, CollectTimestamp, CollectDuration, GpuInfo, AppInfo, AppMemory, AppCount, AppsSuccess,
    PcieTx, PcieRx, EnergyTotal, MigInfo, MigTotal, MigUsed, MigFree, MigReserved, MigGraphics, MigSm, MigOccupancy,
    MigTensor, MigTx, MigRx, XidCount, XidTime]

  /** A family's rank among the exporter's own. */
  function Rank(f: Family): (n: nat)
    requires !f.FieldOf? && !f.ExitCode?
    ensures n < 25
  {
    match f
    case FailedScrapes => 0
    case CollectSuccess => 1
    case CollectTimestamp => 2
    case CollectDuration => 3
    case GpuInfo => 4
    case AppInfo => 5
    case AppMemory => 6
    case AppCount => 7
    case AppsSuccess => 8
    case PcieTx => 9
    case PcieRx => 10
    case EnergyTotal => 11
    case MigInfo => 12
    case MigTotal => 13
    case MigUsed => 14
    case MigFree => 15
    case MigReserved => 16
    case MigGraphics => 17
    case MigSm => 18
    case MigOccupancy => 19
    case MigTensor => 20
    case MigTx => 21
    case MigRx => 22
    case XidCount => 23
    case XidTime => 24
  }

  lemma FixedAreAll(f: Family)
    requires !f.FieldOf? && !f.ExitCode?
    ensures f in FIXED
  {
    assert FIXED[Rank(f)] == f;
  }

  /** Length and a letter or two tell the names apart. */
  function Owner(name: string): Family
    requires |name| > 4
  {
    var n := |name|;
    if n == 8 then if name[0] == 'g' then GpuInfo else MigInfo
    else if n == 12 then AppCount
    else if n == 16 then if name[0] == 'c' then AppInfo else XidCount
    else if n == 19 then EnergyTotal
    else if n == 20 then if name[0] == 'f' then FailedScrapes else CollectSuccess
    else if n == 21 then if name[4] == 's' then MigSm else if name[11] == 'u' then MigUsed else MigFree
    else if n == 22 then if name[4] == 's' then MigOccupancy else MigTotal
    else if n == 25 then if name[4] == 't' then MigTensor else MigReserved
    else if n == 26 then XidTime
    else if n == 27 then MigGraphics
    else if n == 29 then if name[0] == 'l' then CollectDuration else AppMemory
    else if n == 33 then AppsSuccess
    else if n == 35 then if name[16] == 't' then PcieTx else PcieRx
    else if n == 38 then CollectTimestamp
    else if n == 39 then if name[20] == 't' then MigTx else MigRx
    else ExitCode
  }

  predicate IsMig(f: Family) {
    f.MigInfo? || f.MigTotal? || f.MigUsed? || f.MigFree? || f.MigReserved? || f.MigGraphics? || f.MigSm?
    || f.MigOccupancy? || f.MigTensor? || f.MigTx? || f.MigRx?
  }

  lemma OwnerOfMigMemory(f: Family)
    requires f.MigInfo? || f.MigTotal? || f.MigUsed? || f.MigFree? || f.MigReserved?
    ensures Owner(BaseName(f)) == f
  {
  }

  lemma OwnerOfMigSm(f: Family)
    requires f.MigSm? || f.MigOccupancy?
    ensures Owner(BaseName(f)) == f
  {
  }

  lemma OwnerOfMigActivity(f: Family)
    requires f.MigGraphics? || f.MigTensor?
    ensures Owner(BaseName(f)) == f
  {
  }

  lemma OwnerOfMigTraffic(f: Family)
    requires f.MigTx? || f.MigRx?
    ensures Owner(BaseName(f)) == f
  {
  }

  predicate IsApp(f: Family) { f.AppInfo? || f.AppMemory? || f.AppCount? || f.AppsSuccess? || f.PcieTx? || f.PcieRx? }

  lemma OwnerOfApp(f: Family)
    requires IsApp(f)
    ensures Owner(BaseName(f)) == f
  {
  }

  lemma OwnerOfOther(f: Family)
    requires !f.FieldOf? && !f.ExitCode? && !IsMig(f) && !IsApp(f)
    ensures Owner(BaseName(f)) == f
  {
  }

  lemma OwnerOfOwn(f: Family)
    requires !f.FieldOf? && !f.ExitCode?
    ensures Owner(BaseName(f)) == f
  {
    if f.MigTx? || f.MigRx? {
      OwnerOfMigTraffic(f);
    } else if f.MigSm? || f.MigOccupancy? {
      OwnerOfMigSm(f);
    } else if f.MigGraphics? || f.MigTensor? {
      OwnerOfMigActivity(f);
    } else if IsMig(f) {
      OwnerOfMigMemory(f);
    } else if IsApp(f) {
      OwnerOfApp(f);
    } else {
      OwnerOfOther(f);
    }
  }

  /** No two families share a name. */
  lemma OwnNamesDiffer(f: Family, g: Family)
    requires !f.FieldOf? && !f.ExitCode? && !g.FieldOf? && !g.ExitCode? && f != g
    ensures BaseName(f) != BaseName(g)
  {
    OwnerOfOwn(f);
    OwnerOfOwn(g);
  }
}
