/** What the demo's overlay reads from a cycle's own table: who is served, and how much power each GPU draws. */
module DemoTable {
  import opened Basics
  import opened Text
  import opened Transform
  import opened ComputeApps
  import opened Synth
  import Csv
  import Identity

  const UUID := "uuid"
  const POWER := "power.draw"

  function RawOf(row: Csv.Row, field: string): string { if field in row.byField then row.byField[field].raw else "" }

  function UuidIn(row: Csv.Row): string { NormalizeUuid(RawOf(row, UUID)) }

  function WattsIn(raw: string): Option<real> {
    var w := TransformField(POWER, raw, 1.0);
    if w.Ok? then Some(w.value) else None
  }

  /** A GPU's power draw. */
  datatype Draw = Draw(uuid: string, watts: real)

  function DrawOf(uuid: string, watts: Option<real>): Option<Draw> { if watts.Some? then Some(Draw(uuid, watts.value)) else None }

  /** The power draw a row shows. */
  function Shown(row: Csv.Row): Option<Draw> {
    if POWER in row.byField then DrawOf(UuidIn(row), WattsIn(row.byField[POWER].raw)) else None
  }

  function UuidsOf(rows: seq<Csv.Row>): (uuids: seq<string>)
    ensures |uuids| == |rows|
  {
    seq(|rows|, i requires 0 <= i < |rows| => UuidIn(rows[i]))
  }

  /** The power draws a table shows; of two rows with one uuid the later one counts. */
  function PowerOf(rows: seq<Csv.Row>): map<string, real>
    decreases |rows|
  {
    if rows == [] then map[]
    else
      var power, last := PowerOf(rows[..|rows| - 1]), Shown(rows[|rows| - 1]);
      if last.Some? then power[last.value.uuid := last.value.watts] else power
  }

  function RowsOf(table: Option<Csv.Table>): seq<Csv.Row> { if table.Some? then table.value.rows else [] }

  /** tableIdentity. */
  method TableIdentity(table: Option<Csv.Table>) returns (uuids: seq<string>, power: map<string, real>)
    ensures uuids == UuidsOf(RowsOf(table)) && power == PowerOf(RowsOf(table))
  {
    uuids, power := [], map[];
    if table.None? {
      return;
    }
    var rows := table.value.rows;
    for n := 0 to |rows|
      invariant uuids == UuidsOf(rows)[..n] && power == PowerOf(rows[..n])
    {
      assert rows[..n + 1][..n] == rows[..n];
      var uuid := UuidIn(rows[n]);
      uuids := uuids + [uuid];
      if POWER in rows[n].byField {
        var watts := TransformField(POWER, rows[n].byField[POWER].raw, 1.0);
        if watts.Ok? {
          power := power[uuid := watts.value];
        }
      }
    }
    assert rows[..|rows|] == rows;
  }

  // ---------------------------------------------------------------- the power draws a table leaves out

  datatype Halves = Halves(before: string, after: string)

  /** strings.Cut at the first comma followed by a blank. */
  function Cut(s: string): Option<Halves>
    decreases |s|
  {
    if |s| < 2 then None
    else if s[0] == ',' && s[1] == ' ' then Some(Halves("", s[2..]))
    else
      var rest := Cut(s[1..]);
      if rest.None? then None else Some(Halves([s[0]] + rest.value.before, rest.value.after))
  }

  /** The power draw a line of the private query tells. */
  function Told(line: string): Option<Draw> {
    var halves := Cut(Trim(line));
    if halves.None? then None else DrawOf(NormalizeUuid(halves.value.before), WattsIn(halves.value.after))
  }

  /** A draw added where the GPU has none yet. */
  function Filled(power: map<string, real>, d: Option<Draw>): map<string, real> {
    if d.None? || d.value.uuid in power then power else power[d.value.uuid := d.value.watts]
  }

  function FillAll(power: map<string, real>, lines: seq<string>): map<string, real>
    decreases |lines|
  {
    if lines == [] then power else Filled(FillAll(power, lines[..|lines| - 1]), Told(lines[|lines| - 1]))
  }

  /** The lines behind the header line, None if there is no second line. */
  function DataLines(output: string): Option<seq<string>> {
    var lines := Split(output, '\n');
    if |lines| < 2 then None else Some(lines[1..])
  }

  predicate Complete(uuids: seq<string>, power: map<string, real>) { forall i :: 0 <= i < |uuids| ==> uuids[i] in power }

  /** What the private query, None if it fails, adds to the power draws. */
  function Private(uuids: seq<string>, power: map<string, real>, output: Option<string>): map<string, real> {
    if Complete(uuids, power) || output.None? || DataLines(output.value).None? then power
    else FillAll(power, DataLines(output.value).value)
  }

  /** privatePower. */
  method PrivatePower(uuids: seq<string>, power: map<string, real>, output: Option<string>) returns (all: map<string, real>)
    ensures all == Private(uuids, power, output)
  {
    all := power;
    var missing := false;
    for n := 0 to |uuids|
      invariant missing <==> exists i :: 0 <= i < n && uuids[i] !in power
    {
      if uuids[n] !in power {
        missing := true;
      }
    }
    if !missing || output.None? {
      return;
    }
    var lines := Split(output.value, '\n');
    if |lines| < 2 {
      return;
    }
    var rest := lines[1..];
    for n := 0 to |rest|
      invariant all == FillAll(power, rest[..n])
    {
      assert rest[..n + 1][..n] == rest[..n];
      all := ReadLine(all, rest[n]);
    }
    assert rest[..|rest|] == rest;
  }

  method ReadLine(power: map<string, real>, line: string) returns (more: map<string, real>)
    ensures more == Filled(power, Told(line))
  {
    var halves := Cut(Trim(line));
    if halves.None? {
      return power;
    }
    var uuid := NormalizeUuid(halves.value.before);
    if uuid in power {
      return power;
    }
    var watts := TransformField(POWER, halves.value.after, 1.0);
    return if watts.Ok? then power[uuid := watts.value] else power;
  }

  /** The samples of one cycle: its table's GPUs and their draws; the configured fallback is the snapshot's to give. */
  function SamplesIn(table: Option<Csv.Table>, answer: Option<string>, now: int): Sampled {
    var rows := RowsOf(table);
    Sampled(UuidsOf(rows), Private(UuidsOf(rows), PowerOf(rows), answer), 0.0, now)
  }

  method ReadSamples(table: Option<Csv.Table>, answer: Option<string>, now: int) returns (c: Sampled)
    ensures c == SamplesIn(table, answer, now)
  {
    var uuids, shown := TableIdentity(table);
    var power := PrivatePower(uuids, shown, answer);
    return Sampled(uuids, power, 0.0, now);
  }

  // ---------------------------------------------------------------- what it promises

  lemma {:induction false} CutFirst(a: string, b: string)
    requires ',' !in a
    ensures Cut(a + ", " + b) == Some(Halves(a, b))
    decreases |a|
  {
    var s := a + ", " + b;
    if a == "" {
      assert s[2..] == b;
    } else {
      assert s[1..] == a[1..] + ", " + b;
      CutFirst(a[1..], b);
      assert [a[0]] + a[1..] == a;
    }
  }

  lemma {:induction false} CutNone(a: string)
    requires ',' !in a
    ensures Cut(a + ",").None?
    decreases |a|
  {
    if a != "" {
      assert (a + ",")[1..] == a[1..] + ",";
      CutNone(a[1..]);
    }
  }

  lemma BlankCellTells(uuid: string)
    requires ',' !in uuid && Tight(uuid)
    ensures Told(uuid + ", ").None?
  {
    var line := uuid + ", ";
    assert line[..|line| - 1] == uuid + "," && Tight(uuid + ",");
    TightTrims(uuid + ",");
    assert TrimLeft(line) == line;
    assert Trim(line) == uuid + ",";
    CutNone(uuid);
  }

  /** A line of the private query tells what the two cells tell. */
  lemma LineTells(uuid: string, raw: string)
    requires ',' !in uuid && Tight(uuid) && Tight(raw)
    ensures Told(uuid + ", " + raw) == DrawOf(NormalizeUuid(uuid), WattsIn(raw))
  {
    if raw == "" {
      AbsentIsNoNumber(POWER, raw, 1.0);
      BlankCellTells(uuid);
      assert uuid + ", " + raw == uuid + ", ";
    } else {
      assert Tight(uuid + ", " + raw);
      TightTrims(uuid + ", " + raw);
      CutFirst(uuid, raw);
    }
  }

  /** The private query's line for a row. */
  function PrivateLine(row: Csv.Row): string { RawOf(row, UUID) + ", " + RawOf(row, POWER) }

  function PrivateLines(rows: seq<Csv.Row>): (lines: seq<string>)
    ensures |lines| == |rows|
  {
    seq(|rows|, i requires 0 <= i < |rows| => PrivateLine(rows[i]))
  }

  /** A row with both cells, as they come out of a table. */
  predicate Plain(row: Csv.Row) {
    && UUID in row.byField && POWER in row.byField && PlainCell(RawOf(row, UUID)) && PlainCell(RawOf(row, POWER))
  }

  predicate PlainCell(raw: string) { Tight(raw) && ',' !in raw && '\n' !in raw }

  lemma CellIsPlain(line: string, c: nat)
    requires '\n' !in line && c < |Fields(line)|
    ensures PlainCell(Fields(line)[c])
  {
    SplitClean(line, ',');
    var part := Split(line, ',')[c];
    Identity.TrimmedIsTight(part);
    TrimSubset(part, ',');
    TrimSubset(part, '\n');
  }

  /** Every row that is read with both fields is plain. */
  lemma ReadRowsArePlain(output: string, qFields: seq<string>, t: Csv.Table, n: nat)
    requires Csv.Reads(output, qFields, t) && n < |t.rows| && UUID in qFields && POWER in qFields
    ensures Plain(t.rows[n])
  {
    assert Csv.Fits(output, |qFields|, n + 1);
    var lines := Csv.Lines(output);
    var row := Csv.RowAt(output, qFields, n);
    assert t.rows[n] == row;
    SplitClean(Trim(output), '\n');
    FieldIsPlain(qFields, Fields(lines[0]), lines[n + 1], UUID);
    FieldIsPlain(qFields, Fields(lines[0]), lines[n + 1], POWER);
  }

  lemma FieldIsPlain(qFields: seq<string>, rFields: seq<string>, line: string, q: string)
    requires |qFields| == |rFields| == |Fields(line)| && q in qFields && '\n' !in line
    ensures var row := Csv.RowOf(Csv.CellsOf(qFields, rFields, Fields(line)));
            q in row.byField && PlainCell(row.byField[q].raw)
  {
    var cells := Csv.CellsOf(qFields, rFields, Fields(line));
    Csv.ByFieldLast(cells, q);
    var i :| 0 <= i < |qFields| && qFields[i] == q;
    assert cells[i].qField == q;
    var c :| 0 <= c < |cells| && Csv.ByField(cells)[q] == cells[c];
    CellIsPlain(line, c);
  }

  /** A later row of the same GPU shows a number. */
  ghost predicate ShownLater(rows: seq<Csv.Row>, i: nat, uuid: string) {
    exists k :: i < k < |rows| && Shown(rows[k]).Some? && Shown(rows[k]).value.uuid == uuid
  }

  /** A GPU's draw is that of its last row whose power cell is a number; a GPU without one has none. */
  lemma {:induction false} PowerIsTheLastShown(rows: seq<Csv.Row>, i: nat)
    requires i < |rows| && POWER in rows[i].byField
    ensures var w := TransformField("power.draw", rows[i].byField[POWER].raw, 1.0);
            var uuid := NormalizeUuid(RawOf(rows[i], "uuid"));
            w.Ok? && !ShownLater(rows, i, uuid) ==> uuid in PowerOf(rows) && PowerOf(rows)[uuid] == w.value
    decreases |rows|
  {
    var n := |rows| - 1;
    if i < n {
      assert rows[..n][i] == rows[i];
      var uuid := NormalizeUuid(RawOf(rows[i], "uuid"));
      if !ShownLater(rows, i, uuid) {
        NotShownLater(rows, i, uuid);
        PowerIsTheLastShown(rows[..n], i);
      }
    }
  }

  lemma NotShownLater(rows: seq<Csv.Row>, i: nat, uuid: string)
    requires i < |rows| - 1 && !ShownLater(rows, i, uuid)
    ensures !ShownLater(rows[..|rows| - 1], i, uuid)
    ensures Shown(rows[|rows| - 1]).Some? ==> Shown(rows[|rows| - 1]).value.uuid != uuid
  {
    var n := |rows| - 1;
    assert forall k :: 0 <= k < n ==> rows[..n][k] == rows[k];
  }

  lemma {:induction false} PowerIsServed(rows: seq<Csv.Row>, u: string)
    requires u in PowerOf(rows)
    ensures u in UuidsOf(rows)
    decreases |rows|
  {
    var n := |rows| - 1;
    if u in PowerOf(rows[..n]) {
      PowerIsServed(rows[..n], u);
      assert UuidsOf(rows)[..n] == UuidsOf(rows[..n]);
    } else {
      assert UuidsOf(rows)[n] == u;
    }
  }

  lemma LastIsNew(rows: seq<Csv.Row>)
    requires rows != [] && Distinct(UuidsOf(rows))
    ensures UuidIn(rows[|rows| - 1]) !in PowerOf(rows[..|rows| - 1])
  {
    var n := |rows| - 1;
    var u := UuidIn(rows[n]);
    assert UuidsOf(rows)[..n] == UuidsOf(rows[..n]) && UuidsOf(rows)[n] == u;
    if u in PowerOf(rows[..n]) {
      PowerIsServed(rows[..n], u);
    }
  }

  /** Filling the draws from lines that tell what the rows show gives the draws the rows themselves show. */
  lemma {:induction false} LinesTellPower(rows: seq<Csv.Row>, lines: seq<string>)
    requires Distinct(UuidsOf(rows)) && |lines| == |rows|
    requires forall i :: 0 <= i < |rows| ==> Told(lines[i]) == Shown(rows[i])
    ensures FillAll(map[], lines) == PowerOf(rows)
    decreases |rows|
  {
    if rows != [] {
      var n := |rows| - 1;
      assert UuidsOf(rows)[..n] == UuidsOf(rows[..n]);
      LinesTellPower(rows[..n], lines[..n]);
      LastIsNew(rows);
      assert Told(lines[n]) == Shown(rows[n]);
    }
  }

  lemma {:induction false} NoPower(rows: seq<Csv.Row>)
    requires forall i :: 0 <= i < |rows| ==> POWER !in rows[i].byField
    ensures PowerOf(rows) == map[]
    decreases |rows|
  {
    if rows != [] {
      NoPower(rows[..|rows| - 1]);
    }
  }

  /** What a private query that sees the same cells answers. */
  function AnswerFor(header: string, rows: seq<Csv.Row>): string { Join([header] + PrivateLines(rows), "\n") }

  lemma PrivateIs(uuids: seq<string>, power: map<string, real>, answer: string, lines: seq<string>, filled: map<string, real>)
    requires DataLines(answer) == (if uuids == [] then None else Some(lines)) && filled == FillAll(power, lines)
    requires Complete(uuids, power) || uuids == [] ==> filled == power
    ensures Private(uuids, power, Some(answer)) == filled
  {
  }

  lemma {:induction false} ShownIsThere(rows: seq<Csv.Row>, i: nat)
    requires i < |rows| && Shown(rows[i]).Some?
    ensures Shown(rows[i]).value.uuid in PowerOf(rows)
    decreases |rows|
  {
    var n := |rows| - 1;
    if i < n {
      assert rows[..n][i] == rows[i];
      ShownIsThere(rows[..n], i);
    }
  }

  lemma {:induction false} NothingNew(power: map<string, real>, lines: seq<string>)
    requires forall i :: 0 <= i < |lines| && Told(lines[i]).Some? ==> Told(lines[i]).value.uuid in power
    ensures FillAll(power, lines) == power
    decreases |lines|
  {
    if lines != [] {
      NothingNew(power, lines[..|lines| - 1]);
    }
  }

  /** With the draws the table shows, the lines tell nothing new. */
  lemma ShownStays(rows: seq<Csv.Row>, lines: seq<string>)
    requires |lines| == |rows| && forall i :: 0 <= i < |rows| ==> Told(lines[i]) == Shown(rows[i])
    ensures FillAll(PowerOf(rows), lines) == PowerOf(rows)
  {
    forall i | 0 <= i < |lines| && Told(lines[i]).Some?
      ensures Told(lines[i]).value.uuid in PowerOf(rows)
    {
      ShownIsThere(rows, i);
    }
    NothingNew(PowerOf(rows), lines);
  }

  /** From the table's own draws and from none, filling leads to the draws the rows show. */
  lemma BothFill(rows: seq<Csv.Row>, lines: seq<string>)
    requires Distinct(UuidsOf(rows)) && lines == PrivateLines(rows) && forall i :: 0 <= i < |rows| ==> Plain(rows[i])
    ensures FillAll(PowerOf(rows), lines) == PowerOf(rows) && FillAll(map[], lines) == PowerOf(rows)
    ensures rows == [] ==> PowerOf(rows) == map[]
  {
    RowsTell(rows);
    ShownStays(rows, lines);
    LinesTellPower(rows, lines);
  }

  lemma BothPrivate(uuids: seq<string>, power: map<string, real>, answer: string, lines: seq<string>)
    requires DataLines(answer) == if uuids == [] then None else Some(lines)
    requires FillAll(power, lines) == power == FillAll(map[], lines) && (uuids == [] ==> power == map[])
    ensures Private(uuids, power, Some(answer)) == power == Private(uuids, map[], Some(answer))
  {
    NothingComplete(uuids);
    PrivateIs(uuids, power, answer, lines, power);
    PrivateIs(uuids, map[], answer, lines, power);
  }

  /**
   Leaving the power field out of the query changes nothing that is metered: where the private query answers with the
   cells the table shows or would have shown, the samples of the cycle are the same.
   */
  lemma LeavingPowerOutChangesNothing(shown: Csv.Table, bare: Csv.Table, header: string, now: int)
    requires UuidsOf(shown.rows) == UuidsOf(bare.rows) && Distinct(UuidsOf(shown.rows)) && '\n' !in header
    requires forall i :: 0 <= i < |shown.rows| ==> Plain(shown.rows[i])
    requires forall i :: 0 <= i < |bare.rows| ==> POWER !in bare.rows[i].byField
    ensures var answer := Some(AnswerFor(header, shown.rows));
            SamplesIn(Some(bare), answer, now) == SamplesIn(Some(shown), answer, now)
  {
    NoPower(bare.rows);
    PrivateOutput(shown.rows, header);
    BothFill(shown.rows, PrivateLines(shown.rows));
    BothPrivate(UuidsOf(shown.rows), PowerOf(shown.rows), AnswerFor(header, shown.rows), PrivateLines(shown.rows));
  }

  lemma RowsTell(rows: seq<Csv.Row>)
    requires forall i :: 0 <= i < |rows| ==> Plain(rows[i])
    ensures forall i :: 0 <= i < |rows| ==> Told(PrivateLines(rows)[i]) == Shown(rows[i])
  {
    forall i | 0 <= i < |rows|
      ensures Told(PrivateLines(rows)[i]) == Shown(rows[i])
    {
      assert Plain(rows[i]);
      LineTells(RawOf(rows[i], UUID), RawOf(rows[i], POWER));
    }
  }

  lemma NothingComplete(uuids: seq<string>)
    ensures Complete(uuids, map[]) <==> uuids == []
  {
    if uuids != [] {
      var none: map<string, real> := map[];
      assert uuids[0] !in none;
    }
  }

  lemma PrivateOutput(rows: seq<Csv.Row>, header: string)
    requires '\n' !in header && forall i :: 0 <= i < |rows| ==> Plain(rows[i])
    ensures DataLines(Join([header] + PrivateLines(rows), "\n")) == if rows == [] then None else Some(PrivateLines(rows))
  {
    var lines := [header] + PrivateLines(rows);
    forall i | 0 <= i < |lines|
      ensures '\n' !in lines[i]
    {
      if i > 0 {
        assert lines[i] == PrivateLine(rows[i - 1]) && Plain(rows[i - 1]);
      }
    }
    SplitJoin(lines, '\n');
  }

  /** The table's own draws are never overridden, and nothing but numbers of the private query is added. */
  lemma {:induction false} FillingAdds(power: map<string, real>, lines: seq<string>, u: string)
    ensures u in power ==> u in FillAll(power, lines) && FillAll(power, lines)[u] == power[u]
    ensures u in FillAll(power, lines) && u !in power ==>
              exists i :: 0 <= i < |lines| && Told(lines[i]) == Some(Draw(u, FillAll(power, lines)[u]))
    decreases |lines|
  {
    if lines != [] {
      var n := |lines| - 1;
      FillingAdds(power, lines[..n], u);
      if u in FillAll(power, lines) && u !in power {
        if u in FillAll(power, lines[..n]) {
          var i :| 0 <= i < n && Told(lines[..n][i]) == Some(Draw(u, FillAll(power, lines[..n])[u]));
          assert lines[..n][i] == lines[i];
        } else {
          assert Told(lines[n]) == Some(Draw(u, FillAll(power, lines)[u]));
        }
      }
    }
  }
}
