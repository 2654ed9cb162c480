/** The fluctuator: jitters the whitelisted cells of a row in place, then reconciles the row's memory cells. */
module Fluctuator {
  import opened Basics
  import opened Fluctuation

  const MOVING: seq<string> := [
    "utilization.gpu", "utilization.memory", "utilization.encoder", "utilization.decoder", "utilization.jpeg",
    "utilization.ofa", "temperature.gpu", "temperature.memory", "fan.speed", "power.draw", "power.draw.average",
    "power.draw.instant", "module.power.draw.average", "module.power.draw.instant", "clocks.current.graphics",
    "clocks.current.sm", "clocks.current.memory", "clocks.current.video", "memory.used", "used_gpu_memory"]

  const USED := "memory.used"
  const FREE := "memory.free"
  const TOTAL := "memory.total"
  const RESERVED := "memory.reserved"

  /** How many draws each field's source has made. */
  type Dice = map<string, nat>

  type Roll = (string, nat) -> real

  ghost predicate Fair(roll: Roll) { forall field, n :: 0.0 <= roll(field, n) < 1.0 }

  function Drawn(dice: Dice, field: string): nat { if field in dice then dice[field] else 0 }

  /** columnOf sends a recorded name to a column of that name. */
  ghost predicate Names(columnOf: map<string, nat>, recorded: seq<string>) {
    forall f :: f in columnOf ==> columnOf[f] < |recorded| && recorded[columnOf[f]] == f
  }

  predicate Moves(moving: seq<string>, overridden: set<string>, field: string) { field in moving && field !in overridden }

  datatype Shaken = Shaken(cells: seq<string>, dice: Dice)

  /** One column's jitter. */
  function ShakeOne(s: Shaken, column: nat, field: string, roll: Roll): Shaken
    requires column < |s.cells|
  {
    var c := ParseNumeric(s.cells[column]);
    if c.None? then s
    else
      var k := Drawn(s.dice, field);
      Shaken(s.cells[column := Rewrite(c.value, Jitter(c.value, roll(field, k)))], s.dice[field := k + 1])
  }

  /** The jitter of the first n columns. */
  function Shake(s: Shaken, recorded: seq<string>, moving: seq<string>, overridden: set<string>, roll: Roll, n: nat): (r: Shaken)
    requires n <= |recorded| == |s.cells|
    ensures |r.cells| == |s.cells|
    decreases n
  {
    if n == 0 then s
    else
      var earlier := Shake(s, recorded, moving, overridden, roll, n - 1);
      if Moves(moving, overridden, recorded[n - 1]) then ShakeOne(earlier, n - 1, recorded[n - 1], roll) else earlier
  }

  /** numericCellAt. */
  function NumericAt(cells: seq<string>, columnOf: map<string, nat>, field: string): Option<NumCell> {
    if field in columnOf && columnOf[field] < |cells| then ParseNumeric(cells[columnOf[field]]) else None
  }

  /** What a card can hand out: its total less what is reserved. */
  function Capacity(total: NumCell, reserved: Option<NumCell>): real {
    Max(total.number.Value() - if reserved.Some? then reserved.value.number.Value() else 0.0, 0.0)
  }

  /** The used cell, rewritten if capping changes its value. */
  function CapUsed(cells: seq<string>, columnOf: map<string, nat>, value: real): (r: seq<string>)
    requires NumericAt(cells, columnOf, USED).Some?
    ensures |r| == |cells|
  {
    var used := NumericAt(cells, columnOf, USED).value;
    if value != used.number.Value() then cells[columnOf[USED] := Rewrite(used, value)] else cells
  }

  /** The free cell, recomputed unless it is overridden or carries no number. */
  function FillFree(cells: seq<string>, columnOf: map<string, nat>, overridden: set<string>, left: real): (r: seq<string>)
    ensures |r| == |cells|
  {
    var free := NumericAt(cells, columnOf, FREE);
    if FREE in overridden || free.None? then cells else cells[columnOf[FREE] := Rewrite(free.value, left)]
  }

  /** Both cells, for a used value and a capacity. */
  function Settle(cells: seq<string>, columnOf: map<string, nat>, overridden: set<string>, used: real, capacity: real): (r: seq<string>)
    requires NumericAt(cells, columnOf, USED).Some?
    ensures |r| == |cells|
  {
    var value := Min(used, capacity);
    FillFree(CapUsed(cells, columnOf, value), columnOf, overridden, Max(capacity - value, 0.0))
  }

  /** reconcileMemory. */
  function Reconcile(cells: seq<string>, columnOf: map<string, nat>, overridden: set<string>): (r: seq<string>)
    ensures |r| == |cells|
  {
    var used, total := NumericAt(cells, columnOf, USED), NumericAt(cells, columnOf, TOTAL);
    if USED in overridden || used.None? || total.None? then cells
    else
      Settle(cells, columnOf, overridden, used.value.number.Value(),
             Capacity(total.value, NumericAt(cells, columnOf, RESERVED)))
  }

  /** apply. */
  function Applied(
    s: Shaken, recorded: seq<string>, columnOf: map<string, nat>, overridden: set<string>, roll: Roll): (r: Shaken)
    requires |recorded| == |s.cells|
    ensures |r.cells| == |s.cells|
  {
    var shaken := Shake(s, recorded, MOVING, overridden, roll, |recorded|);
    shaken.(cells := Reconcile(shaken.cells, columnOf, overridden))
  }

  class Fluctuator {
    const roll: Roll
    var sources: Dice

    constructor (roll: Roll)
      ensures sources == map[] && this.roll == roll
    {
      this.roll := roll;
      sources := map[];
    }

    /** The next draw of a field's own source, made on first use. */
    method Draw(field: string) returns (u: real)
      modifies this`sources
      ensures u == roll(field, Drawn(old(sources), field))
      ensures sources == old(sources)[field := Drawn(old(sources), field) + 1]
    {
      if field !in sources {
        sources := sources[field := 0];
      }
      u := roll(field, sources[field]);
      sources := sources[field := sources[field] + 1];
    }

    /** One cell's jitter; a cell that carries no plain number is never touched. */
    method JitterCell(cells: array<string>, column: nat, field: string)
      requires column < cells.Length
      modifies this`sources, cells
      ensures Shaken(cells[..], sources) == ShakeOne(Shaken(old(cells[..]), old(sources)), column, field, roll)
    {
      var cell := ParseNumeric(cells[column]);
      if cell.Some? {
        var u := Draw(field);
        cells[column] := Rewrite(cell.value, Jitter(cell.value, u));
      }
    }

    method JitterRow(cells: array<string>, recorded: seq<string>, moving: seq<string>, overridden: set<string>)
      requires |recorded| == cells.Length
      modifies this`sources, cells
      ensures Shaken(cells[..], sources) ==
              Shake(Shaken(old(cells[..]), old(sources)), recorded, moving, overridden, roll, |recorded|)
    {
      ghost var start := Shaken(cells[..], sources);
      for column := 0 to |recorded|
        invariant Shaken(cells[..], sources) == Shake(start, recorded, moving, overridden, roll, column)
      {
        if recorded[column] in moving && recorded[column] !in overridden {
          JitterCell(cells, column, recorded[column]);
        }
      }
    }

    method Apply(cells: array<string>, recorded: seq<string>, columnOf: map<string, nat>, overridden: set<string>)
      requires |recorded| == cells.Length
      modifies this`sources, cells
      ensures Shaken(cells[..], sources) == Applied(Shaken(old(cells[..]), old(sources)), recorded, columnOf, overridden, roll)
    {
      JitterRow(cells, recorded, MOVING, overridden);
      ReconcileMemory(cells, columnOf, overridden);
    }

    method CapUsedCell(cells: array<string>, columnOf: map<string, nat>, used: NumCell, value: real)
      requires NumericAt(cells[..], columnOf, USED) == Some(used)
      modifies cells
      ensures cells[..] == CapUsed(old(cells[..]), columnOf, value)
    {
      if value != used.number.Value() {
        cells[columnOf[USED]] := Rewrite(used, value);
      }
    }

    method FillFreeCell(cells: array<string>, columnOf: map<string, nat>, overridden: set<string>, left: real)
      modifies cells
      ensures cells[..] == FillFree(old(cells[..]), columnOf, overridden, left)
    {
      if FREE in overridden {
        return;
      }
      var free := NumericAt(cells[..], columnOf, FREE);
      if free.None? {
        return;
      }
      cells[columnOf[FREE]] := Rewrite(free.value, left);
    }

    method ReconcileMemory(cells: array<string>, columnOf: map<string, nat>, overridden: set<string>)
      modifies cells
      ensures cells[..] == Reconcile(old(cells[..]), columnOf, overridden)
    {
      if USED in overridden {
        return;
      }
      var used, total := NumericAt(cells[..], columnOf, USED), NumericAt(cells[..], columnOf, TOTAL);
      if used.None? || total.None? {
        return;
      }
      var capacity := Capacity(total.value, NumericAt(cells[..], columnOf, RESERVED));
      var value := Min(used.value.number.Value(), capacity);
      CapUsedCell(cells, columnOf, used.value, value);
      FillFreeCell(cells, columnOf, overridden, Max(capacity - value, 0.0));
    }
  }
}
