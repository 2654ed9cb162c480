/**
 The identities of the simulated GPUs and how one is stamped onto a data row. Generated uuids are a parameter: any
 function of the index, its distinctness checked by the code.
 */
module Identity {
  import opened Basics
  import opened Text
  import opened Numerals
  import opened ComputeApps
  import opened Fluctuator

  const MAX_GPUS := 255

  datatype Id = Id(uuid: string, serial: string)

  datatype BadId = Unclean(gpu: nat) | Shared(previous: nat, gpu: nat)

  /** validateSetValue: nothing that would break the CSV. */
  predicate Clean(value: string) { ',' !in value && '\r' !in value && '\n' !in value }

  /** GPU `index`'s identity: its entry's own uuid when given, a generated one otherwise. */
  function IdFor(entries: seq<Id>, generated: nat -> string, index: nat): Id {
    if index < |entries| then
      Id(if entries[index].uuid != "" then entries[index].uuid else generated(index), entries[index].serial)
    else Id(generated(index), "")
  }

  predicate CleanId(id: Id) { Clean(id.uuid) && Clean(id.serial) }

  /** buildIdentities. */
  method BuildIdentities(count: nat, entries: seq<Id>, generated: nat -> string) returns (r: Result<seq<Id>, BadId>)
    ensures r.Ok? <==>
              && (forall i: nat :: i < count ==> CleanId(IdFor(entries, generated, i)))
              && forall i: nat, j: nat :: i < j < count ==>
                   NormalizeUuid(IdFor(entries, generated, i).uuid) != NormalizeUuid(IdFor(entries, generated, j).uuid)
    ensures r.Ok? ==> |r.value| == count && forall i: nat :: i < count ==> r.value[i] == IdFor(entries, generated, i)
    ensures r.Ok? ==> forall i: nat :: i < count ==>
              && r.value[i].uuid == (if i < |entries| && entries[i].uuid != "" then entries[i].uuid else generated(i))
              && r.value[i].serial == (if i < |entries| then entries[i].serial else "")
    ensures r.Err? && r.error.Shared? ==>
              && r.error.previous < r.error.gpu < count
              && NormalizeUuid(IdFor(entries, generated, r.error.previous).uuid)
                 == NormalizeUuid(IdFor(entries, generated, r.error.gpu).uuid)
    ensures r.Err? && r.error.Unclean? ==> r.error.gpu < count && !CleanId(IdFor(entries, generated, r.error.gpu))
  {
    var ids: seq<Id> := [];
    var seen: map<string, nat> := map[];
    for index := 0 to count
      invariant |ids| == index
      invariant forall i: nat :: i < index ==> ids[i] == IdFor(entries, generated, i) && CleanId(ids[i])
      invariant forall i: nat :: i < index ==> NormalizeUuid(ids[i].uuid) in seen && seen[NormalizeUuid(ids[i].uuid)] == i
      invariant forall u :: u in seen ==> seen[u] < index && NormalizeUuid(ids[seen[u]].uuid) == u
    {
      var id := IdFor(entries, generated, index);
      if !Clean(id.uuid) || !Clean(id.serial) {
        return Err(Unclean(index));
      }
      var normalized := NormalizeUuid(id.uuid);
      if normalized in seen {
        return Err(Shared(seen[normalized], index));
      }
      seen := seen[normalized := index];
      ids := ids + [id];
    }
    return Ok(ids);
  }

  // ---------------------------------------------------------------- bus ids

  /** %02X. */
  function HexByte(n: nat): string
    requires n < 256
  {
    Padded(n, 16, 2)
  }

  /** rewriteBusID. */
  function RewriteBusId(captured: string, bus: nat): string
    requires bus < 256
  {
    var parts := Split(captured, ':');
    if |parts| != 3 then "00000000:" + HexByte(bus) + ":00.0"
    else parts[0] + ":" + HexByte(bus) + ":" + parts[2]
  }

  lemma HexByteInjective(m: nat, n: nat)
    requires m < 256 && n < 256 && HexByte(m) == HexByte(n)
    ensures m == n
  {
    assert Pow(16, 2) == 256;
    ValuePadded(m, 16, 2);
    ValuePadded(n, 16, 2);
  }

  lemma HexByteIsHex(n: nat)
    requires n < 256
    ensures ':' !in HexByte(n) && ',' !in HexByte(n) && '\n' !in HexByte(n) && |HexByte(n)| == 2
  {
    var s := HexByte(n);
    assert forall i :: 0 <= i < |s| ==> DigitValue(s[i]) < 16;
  }

  function BusFront(captured: string): string {
    var parts := Split(captured, ':');
    if |parts| != 3 then "00000000:" else parts[0] + ":"
  }

  function BusBack(captured: string): string {
    var parts := Split(captured, ':');
    if |parts| != 3 then ":00.0" else ":" + parts[2]
  }

  lemma RewriteParts(captured: string, bus: nat)
    requires bus < 256
    ensures RewriteBusId(captured, bus) == BusFront(captured) + HexByte(bus) + BusBack(captured)
  {
  }

  /** Two buses never rewrite one captured id alike, not even after the exporter's trimming. */
  lemma BusIdsDiffer(captured: string, m: nat, n: nat)
    requires m < 256 && n < 256 && Trim(captured) == captured
    requires Trim(RewriteBusId(captured, m)) == Trim(RewriteBusId(captured, n))
    ensures m == n
  {
    RewriteIsTight(captured, m);
    RewriteIsTight(captured, n);
    RewriteParts(captured, m);
    RewriteParts(captured, n);
    Middle(BusFront(captured), HexByte(m), HexByte(n), BusBack(captured));
    HexByteInjective(m, n);
  }

  lemma Middle(front: string, a: string, b: string, back: string)
    requires |a| == |b| && front + a + back == front + b + back
    ensures a == b
  {
    assert (front + a + back)[|front|..|front| + |a|] == a;
    assert (front + b + back)[|front|..|front| + |b|] == b;
  }

  lemma TrimmedIsTight(s: string)
    ensures Tight(Trim(s))
  {
    var k := TrimLeftAt(s);
    var t := s[k..];
    var j := TrimRightAt(t);
    assert j > 0 ==> t[..j][0] == s[k] && t[..j][j - 1] == t[j - 1];
  }

  lemma RewriteIsTight(captured: string, bus: nat)
    requires bus < 256 && Trim(captured) == captured
    ensures Trim(RewriteBusId(captured, bus)) == RewriteBusId(captured, bus)
  {
    var parts := Split(captured, ':');
    var s := RewriteBusId(captured, bus);
    TrimmedIsTight(captured);
    if |parts| == 3 {
      JoinSplit(captured, ':');
      JoinThree(parts);
      assert captured == parts[0] + ":" + parts[1] + ":" + parts[2];
      Ends(parts[0] + ":", parts[1], ":" + parts[2]);
      Ends(parts[0] + ":", HexByte(bus), ":" + parts[2]);
      assert s == parts[0] + ":" + HexByte(bus) + (":" + parts[2]);
    }
    TightTrims(s);
  }

  lemma JoinThree(parts: seq<string>)
    requires |parts| == 3
    ensures Join(parts, ":") == parts[0] + ":" + parts[1] + ":" + parts[2]
  {
    var tail := parts[1..];
    assert tail[1..] == [parts[2]];
    assert Join(tail, ":") == parts[1] + ":" + parts[2];
    assert Join(parts, ":") == parts[0] + ":" + (parts[1] + ":" + parts[2]);
  }

  lemma Ends(front: string, middle: string, back: string)
    requires front != "" && back != ""
    ensures var s := front + middle + back; s[0] == front[0] && s[|s| - 1] == back[|back| - 1]
  {
  }

  // ---------------------------------------------------------------- stamping a row

  /** What becomes of a named cell. */
  function Stamp(field: string, cell: string, id: Id, index: nat, total: nat): string
    requires index < MAX_GPUS
  {
    if field == "uuid" || field == "gpu_uuid" then id.uuid
    else if field == "serial" || field == "gpu_serial" then if id.serial != "" then id.serial else cell
    else if field == "index" then Decimal(index)
    else if field == "count" then Decimal(total)
    else if field == "pci.bus" then "0x" + HexByte(index + 1)
    else if field == "pci.bus_id" || field == "gpu_bus_id" then RewriteBusId(cell, index + 1)
    else cell
  }

  /** What each identity cell becomes: the GPU's own uuid, its serial if it has one, its place, and its bus. */
  lemma StampIs(cell: string, id: Id, index: nat, total: nat)
    requires index < MAX_GPUS
    ensures Stamp("uuid", cell, id, index, total) == id.uuid && Stamp("gpu_uuid", cell, id, index, total) == id.uuid
    ensures Stamp("serial", cell, id, index, total) == (if id.serial == "" then cell else id.serial)
    ensures Stamp("gpu_serial", cell, id, index, total) == (if id.serial == "" then cell else id.serial)
    ensures Stamp("index", cell, id, index, total) == Decimal(index)
    ensures Stamp("count", cell, id, index, total) == Decimal(total)
  {
  }

  lemma BusStampIs(cell: string, id: Id, index: nat, total: nat)
    requires index < MAX_GPUS
    ensures Stamp("pci.bus", cell, id, index, total) == "0x" + Padded(index + 1, 16, 2)
    ensures Stamp("pci.bus_id", cell, id, index, total) == RewriteBusId(cell, index + 1)
    ensures Stamp("gpu_bus_id", cell, id, index, total) == RewriteBusId(cell, index + 1)
  {
  }

  /** A rewritten bus id names its bus in the middle part, as two hexadecimal digits, and keeps the captured outer parts. */
  lemma BusIdNamesItsBus(captured: string, bus: nat)
    requires bus < 256
    ensures var parts, was := Split(RewriteBusId(captured, bus), ':'), Split(captured, ':');
            && |parts| == 3 && |parts[1]| == 2 && AllDigits(parts[1], 16) && Value(parts[1], 16) == bus
            && parts[0] == (if |was| == 3 then was[0] else "00000000")
            && parts[2] == (if |was| == 3 then was[2] else "00.0")
  {
    var was := Split(captured, ':');
    var outer := if |was| == 3 then [was[0], was[2]] else ["00000000", "00.0"];
    HexByteIsHex(bus);
    assert Pow(16, 2) == 256;
    ValuePadded(bus, 16, 2);
    SplitClean(captured, ':');
    var parts := [outer[0], HexByte(bus), outer[1]];
    JoinThree(parts);
    assert RewriteBusId(captured, bus) == Join(parts, ":");
    SplitJoin(parts, ':');
  }

  /** A row with the named cells of an identity replaced: each recorded name has one column, its last. */
  function Stamped(cells: seq<string>, recorded: seq<string>, columnOf: map<string, nat>, id: Id, index: nat, total: nat)
    : (r: seq<string>)
    requires |cells| == |recorded| && index < MAX_GPUS
    ensures |r| == |cells|
  {
    seq(|cells|, c requires 0 <= c < |cells| =>
      if recorded[c] in columnOf && columnOf[recorded[c]] == c then Stamp(recorded[c], cells[c], id, index, total)
      else cells[c])
  }

  /** A row with the fields of `done` stamped. */
  function StampedUpTo(cells: seq<string>, recorded: seq<string>, columnOf: map<string, nat>, id: Id, index: nat, total: nat,
                       done: set<string>) : (r: seq<string>)
    requires |cells| == |recorded| && index < MAX_GPUS
    ensures |r| == |cells|
  {
    seq(|cells|, c requires 0 <= c < |cells| =>
      if recorded[c] in columnOf && columnOf[recorded[c]] == c && recorded[c] in done
      then Stamp(recorded[c], cells[c], id, index, total) else cells[c])
  }

  /** Setting one field is stamping it too. */
  lemma SetStamps(cells: seq<string>, recorded: seq<string>, columnOf: map<string, nat>, id: Id, index: nat, total: nat,
                  done: set<string>, field: string)
    requires |cells| == |recorded| && index < MAX_GPUS && Names(columnOf, recorded)
    ensures var before := StampedUpTo(cells, recorded, columnOf, id, index, total, done);
            var after := StampedUpTo(cells, recorded, columnOf, id, index, total, done + {field});
            if field in columnOf then
              after == before[columnOf[field] := Stamp(field, cells[columnOf[field]], id, index, total)]
            else after == before
    ensures field in columnOf && field !in done ==>
              StampedUpTo(cells, recorded, columnOf, id, index, total, done)[columnOf[field]] == cells[columnOf[field]]
  {
  }

  /** Writes one cell, if the capture records the field. */
  method Set(cells: array<string>, columnOf: map<string, nat>, field: string, value: string)
    requires field in columnOf ==> columnOf[field] < cells.Length
    modifies cells
    ensures cells[..] == if field in columnOf then old(cells[..])[columnOf[field] := value] else old(cells[..])
  {
    if field in columnOf {
      cells[columnOf[field]] := value;
    }
  }

  /** The part of a stamp that does not look at the cell. */
  method SetPlain(cells: array<string>, recorded: seq<string>, columnOf: map<string, nat>, id: Id, index: nat, total: nat,
                  ghost was: seq<string>, ghost done: set<string>, field: string, value: string)
    requires |was| == |recorded| == cells.Length && index < MAX_GPUS && Names(columnOf, recorded)
    requires cells[..] == StampedUpTo(was, recorded, columnOf, id, index, total, done)
    requires field in columnOf ==> value == Stamp(field, was[columnOf[field]], id, index, total)
    modifies cells
    ensures cells[..] == StampedUpTo(was, recorded, columnOf, id, index, total, done + {field})
  {
    SetStamps(was, recorded, columnOf, id, index, total, done, field);
    Set(cells, columnOf, field, value);
  }

  /** A field whose cell an identity leaves alone counts as stamped. */
  lemma SkipStamps(cells: seq<string>, recorded: seq<string>, columnOf: map<string, nat>, id: Id, index: nat, total: nat,
                   done: set<string>, field: string)
    requires |cells| == |recorded| && index < MAX_GPUS
    requires forall cell :: Stamp(field, cell, id, index, total) == cell
    ensures StampedUpTo(cells, recorded, columnOf, id, index, total, done + {field})
            == StampedUpTo(cells, recorded, columnOf, id, index, total, done)
  {
  }

  lemma NothingStamped(cells: seq<string>, recorded: seq<string>, columnOf: map<string, nat>, id: Id, index: nat, total: nat)
    requires |cells| == |recorded| && index < MAX_GPUS
    ensures StampedUpTo(cells, recorded, columnOf, id, index, total, {}) == cells
  {
  }

  lemma AllStamped(cells: seq<string>, recorded: seq<string>, columnOf: map<string, nat>, id: Id, index: nat, total: nat,
                   done: set<string>)
    requires |cells| == |recorded| && index < MAX_GPUS
    requires forall field, cell :: field !in done ==> Stamp(field, cell, id, index, total) == cell
    ensures StampedUpTo(cells, recorded, columnOf, id, index, total, done)
            == Stamped(cells, recorded, columnOf, id, index, total)
  {
  }

  const NAMED: set<string> := {"uuid", "gpu_uuid", "serial", "gpu_serial"}

  const COUNTED: set<string> := {"index", "count", "pci.bus"}

  method StampNames(cells: array<string>, recorded: seq<string>, columnOf: map<string, nat>, id: Id, index: nat, total: nat)
    requires cells.Length == |recorded| && index < MAX_GPUS && Names(columnOf, recorded)
    modifies cells
    ensures cells[..] == StampedUpTo(old(cells[..]), recorded, columnOf, id, index, total, NAMED)
  {
    ghost var was := cells[..];
    NothingStamped(was, recorded, columnOf, id, index, total);
    SetPlain(cells, recorded, columnOf, id, index, total, was, {}, "uuid", id.uuid);
    ghost var done: set<string> := {} + {"uuid"};
    SetPlain(cells, recorded, columnOf, id, index, total, was, done, "gpu_uuid", id.uuid);
    done := done + {"gpu_uuid"};
    if id.serial != "" {
      SetPlain(cells, recorded, columnOf, id, index, total, was, done, "serial", id.serial);
      SetPlain(cells, recorded, columnOf, id, index, total, was, done + {"serial"}, "gpu_serial", id.serial);
    } else {
      SkipStamps(was, recorded, columnOf, id, index, total, done, "serial");
      SkipStamps(was, recorded, columnOf, id, index, total, done + {"serial"}, "gpu_serial");
    }
    assert done + {"serial"} + {"gpu_serial"} == NAMED;
  }

  method StampCounts(cells: array<string>, recorded: seq<string>, columnOf: map<string, nat>, id: Id, index: nat, total: nat,
                     ghost was: seq<string>, ghost done: set<string>)
    requires |was| == cells.Length == |recorded| && index < MAX_GPUS && Names(columnOf, recorded)
    requires cells[..] == StampedUpTo(was, recorded, columnOf, id, index, total, done)
    modifies cells
    ensures cells[..] == StampedUpTo(was, recorded, columnOf, id, index, total, done + COUNTED)
  {
    SetPlain(cells, recorded, columnOf, id, index, total, was, done, "index", Decimal(index));
    SetPlain(cells, recorded, columnOf, id, index, total, was, done + {"index"}, "count", Decimal(total));
    SetPlain(cells, recorded, columnOf, id, index, total, was, done + {"index"} + {"count"}, "pci.bus", "0x" + HexByte(index + 1));
    assert done + {"index"} + {"count"} + {"pci.bus"} == done + COUNTED;
  }

  method StampBusIds(cells: array<string>, recorded: seq<string>, columnOf: map<string, nat>, ghost id: Id, index: nat, ghost total: nat,
                     ghost was: seq<string>, ghost before: set<string>)
    requires |was| == cells.Length == |recorded| && index < MAX_GPUS && Names(columnOf, recorded)
    requires cells[..] == StampedUpTo(was, recorded, columnOf, id, index, total, before)
    requires "pci.bus_id" !in before && "gpu_bus_id" !in before
    modifies cells
    ensures cells[..] == StampedUpTo(was, recorded, columnOf, id, index, total, before + {"pci.bus_id"} + {"gpu_bus_id"})
  {
    ghost var done := before;
    var busFields: seq<string> := ["pci.bus_id", "gpu_bus_id"];
    for n := 0 to 2
      invariant cells[..] == StampedUpTo(was, recorded, columnOf, id, index, total, done)
      invariant n == 0 ==> done == before
      invariant n == 1 ==> done == before + {busFields[0]}
      invariant n == 2 ==> done == before + {busFields[0]} + {busFields[1]}
    {
      assert busFields[n] !in done by { assert "pci.bus_id"[0] != "gpu_bus_id"[0]; }
      SetStamps(was, recorded, columnOf, id, index, total, done, busFields[n]);
      if busFields[n] in columnOf {
        cells[columnOf[busFields[n]]] := RewriteBusId(cells[columnOf[busFields[n]]], index + 1);
      }
      done := done + {busFields[n]};
    }
  }

  lemma BusIdsComeLast()
    ensures "pci.bus_id" !in NAMED + COUNTED && "gpu_bus_id" !in NAMED + COUNTED
  {
  }

  /** rewriteIdentity. */
  method RewriteIdentity(cells: array<string>, recorded: seq<string>, columnOf: map<string, nat>, id: Id, index: nat, total: nat)
    requires cells.Length == |recorded| && index < MAX_GPUS && Names(columnOf, recorded)
    modifies cells
    ensures cells[..] == Stamped(old(cells[..]), recorded, columnOf, id, index, total)
  {
    ghost var was := cells[..];
    StampNames(cells, recorded, columnOf, id, index, total);
    StampCounts(cells, recorded, columnOf, id, index, total, was, NAMED);
    BusIdsComeLast();
    StampBusIds(cells, recorded, columnOf, id, index, total, was, NAMED + COUNTED);
    AllStamped(was, recorded, columnOf, id, index, total, NAMED + COUNTED + {"pci.bus_id"} + {"gpu_bus_id"});
  }
}
