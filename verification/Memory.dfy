/** What fluctuation leaves in a row: only moving cells move, keep their shape, and used and free memory add up. */
module Memory {
  import opened Basics
  import opened Numerals
  import opened Decimals
  import opened Fluctuation
  import opened Fluctuator

  // ---------------------------------------------------------------- which cells move

  lemma ShakesOnlyItsColumn(s: Shaken, column: nat, field: string, roll: Roll, other: nat)
    requires column < |s.cells| && other < |s.cells|
    requires other != column || ParseNumeric(s.cells[column]).None?
    ensures ShakeOne(s, column, field, roll).cells[other] == s.cells[other]
  {
  }

  lemma ShakesOnce(s: Shaken, column: nat, field: string, roll: Roll) returns (u: real)
    requires column < |s.cells| && ParseNumeric(s.cells[column]).Some? && Fair(roll)
    ensures 0.0 <= u < 1.0 && exists k: nat :: u == roll(field, k)
    ensures var c := ParseNumeric(s.cells[column]).value;
            ShakeOne(s, column, field, roll).cells[column] == Rewrite(c, Jitter(c, u))
  {
    u := roll(field, Drawn(s.dice, field));
  }

  /** One more column shaken: any other one keeps its text, and so does one that is no moving number. */
  lemma OneMoreShaken(
    s: Shaken, recorded: seq<string>, moving: seq<string>, overridden: set<string>, roll: Roll, n: nat, column: nat)
    requires 0 < n <= |recorded| == |s.cells| && column < |recorded|
    requires column != n - 1 || !Moves(moving, overridden, recorded[column])
             || ParseNumeric(Shake(s, recorded, moving, overridden, roll, n - 1).cells[column]).None?
    ensures Shake(s, recorded, moving, overridden, roll, n).cells[column]
            == Shake(s, recorded, moving, overridden, roll, n - 1).cells[column]
  {
    var earlier := Shake(s, recorded, moving, overridden, roll, n - 1);
    if Moves(moving, overridden, recorded[n - 1]) {
      ShakesOnlyItsColumn(earlier, n - 1, recorded[n - 1], roll, column);
    }
  }

  /** A cell that does not move, or that an override owns, is left as it is; so is one that carries no plain number. */
  lemma {:induction false} OthersStay(
    s: Shaken, recorded: seq<string>, moving: seq<string>, overridden: set<string>, roll: Roll, n: nat, column: nat)
    requires n <= |recorded| == |s.cells| && column < |recorded|
    requires !Moves(moving, overridden, recorded[column]) || ParseNumeric(s.cells[column]).None? || column >= n
    ensures Shake(s, recorded, moving, overridden, roll, n).cells[column] == s.cells[column]
    decreases n
  {
    if n > 0 {
      OthersStay(s, recorded, moving, overridden, roll, n - 1, column);
      OneMoreShaken(s, recorded, moving, overridden, roll, n, column);
    }
  }

  lemma {:induction false} LaterColumnsSpare(
    s: Shaken, recorded: seq<string>, moving: seq<string>, overridden: set<string>, roll: Roll, m: nat, n: nat, column: nat)
    requires column < m <= n <= |recorded| == |s.cells|
    ensures Shake(s, recorded, moving, overridden, roll, n).cells[column] == Shake(s, recorded, moving, overridden, roll, m).cells[column]
    decreases n
  {
    if m < n {
      LaterColumnsSpare(s, recorded, moving, overridden, roll, m, n - 1, column);
      OneMoreShaken(s, recorded, moving, overridden, roll, n, column);
    }
  }

  /** A moving number is rewritten once, by one fair draw of its own field's source around the captured value. */
  lemma MovingMoves(
    s: Shaken, recorded: seq<string>, moving: seq<string>, overridden: set<string>, roll: Roll, n: nat, column: nat)
    returns (u: real)
    requires n <= |recorded| == |s.cells| && column < n && Fair(roll)
    requires Moves(moving, overridden, recorded[column]) && ParseNumeric(s.cells[column]).Some?
    ensures 0.0 <= u < 1.0 && exists k: nat :: u == roll(recorded[column], k)
    ensures var c := ParseNumeric(s.cells[column]).value;
            Shake(s, recorded, moving, overridden, roll, n).cells[column] == Rewrite(c, Jitter(c, u))
  {
    OthersStay(s, recorded, moving, overridden, roll, column, column);
    u := ShakesOnce(Shake(s, recorded, moving, overridden, roll, column), column, recorded[column], roll);
    LaterColumnsSpare(s, recorded, moving, overridden, roll, column + 1, n, column);
  }

  /** A jittered row's cell: the captured one, or a rewrite of it that keeps its shape and a plausible value. */
  ghost predicate Jittered(before: string, after: string) {
    after == before
    || exists u :: 0.0 <= u < 1.0 && ParseNumeric(before).Some?
         && after == Rewrite(ParseNumeric(before).value, Jitter(ParseNumeric(before).value, u))
  }

  lemma EveryCellJittered(s: Shaken, recorded: seq<string>, moving: seq<string>, overridden: set<string>, roll: Roll, column: nat)
    requires |recorded| == |s.cells| && column < |recorded| && Fair(roll)
    ensures Jittered(s.cells[column], Shake(s, recorded, moving, overridden, roll, |recorded|).cells[column])
  {
    if Moves(moving, overridden, recorded[column]) && ParseNumeric(s.cells[column]).Some? {
      var u := MovingMoves(s, recorded, moving, overridden, roll, |recorded|, column);
    } else {
      OthersStay(s, recorded, moving, overridden, roll, |recorded|, column);
    }
  }

  // ---------------------------------------------------------------- exactness of rounding

  predicate Whole(x: real) { x == x.Floor as real }

  lemma FixedIs(m: int, d: nat, x: real)
    ensures Fixed(m, d).Value() == x <==> m as real == x * Pow(10, d) as real
  {
    var p := Pow(10, d) as real;
    assert p > 0.0;
    Quotient(m as real, p, x);
  }

  lemma Quotient(a: real, p: real, x: real)
    requires p > 0.0
    ensures a / p == x <==> a == x * p
  {
    assert a / p * p == a;
    if a == x * p {
      assert (a / p - x) * p == 0.0;
    }
  }

  lemma RoundIsExact(x: real)
    ensures Round(x) as real == x <==> Whole(x)
  {
    if Whole(x) {
      RoundWhole(x.Floor);
    }
  }

  /** Whether a value has a text with d decimals that loses nothing. */
  predicate Exact(v: real, d: nat) { Whole(v * Pow(10, d) as real) }

  lemma NearestIsExact(v: real, d: nat)
    requires v >= 0.0
    ensures Fixed(Nearest(v, d), d).Value() == v <==> Exact(v, d)
  {
    FixedIs(Nearest(v, d), d, v);
    RoundIsExact(v * Pow(10, d) as real);
  }

  // ---------------------------------------------------------------- the memory cells

  /** The three memory cells of a row that reconciliation needs carry plain numbers. */
  predicate Readable(cells: seq<string>, columnOf: map<string, nat>) {
    && NumericAt(cells, columnOf, USED).Some? && NumericAt(cells, columnOf, TOTAL).Some?
    && NumericAt(cells, columnOf, FREE).Some?
  }

  /** The memory columns are four. */
  predicate Apart(columnOf: map<string, nat>) {
    && USED in columnOf && FREE in columnOf && TOTAL in columnOf
    && columnOf[USED] != columnOf[FREE] && columnOf[USED] != columnOf[TOTAL] && columnOf[FREE] != columnOf[TOTAL]
    && (RESERVED in columnOf ==> columnOf[RESERVED] != columnOf[USED] && columnOf[RESERVED] != columnOf[FREE])
  }

  lemma NamesAreApart(columnOf: map<string, nat>, recorded: seq<string>)
    requires Names(columnOf, recorded) && USED in columnOf && FREE in columnOf && TOTAL in columnOf
    ensures Apart(columnOf)
  {
    assert USED[7] == 'u' && FREE[7] == 'f' && TOTAL[7] == 't' && RESERVED[7] == 'r';
  }

  function CellAt(cells: seq<string>, columnOf: map<string, nat>, field: string): NumCell
    requires NumericAt(cells, columnOf, field).Some?
  {
    NumericAt(cells, columnOf, field).value
  }

  function CapacityOf(cells: seq<string>, columnOf: map<string, nat>): real
    requires NumericAt(cells, columnOf, TOTAL).Some?
  {
    Capacity(CellAt(cells, columnOf, TOTAL), NumericAt(cells, columnOf, RESERVED))
  }

  ghost predicate Reconciles(cells: seq<string>, columnOf: map<string, nat>, overridden: set<string>) {
    Readable(cells, columnOf) && Apart(columnOf) && USED !in overridden && FREE !in overridden
  }

  function ValueOf(cells: seq<string>, columnOf: map<string, nat>): real
    requires NumericAt(cells, columnOf, USED).Some? && NumericAt(cells, columnOf, TOTAL).Some?
  {
    Min(CellAt(cells, columnOf, USED).number.Value(), CapacityOf(cells, columnOf))
  }

  lemma ReconciledUsed(cells: seq<string>, columnOf: map<string, nat>, overridden: set<string>)
    requires Reconciles(cells, columnOf, overridden)
    ensures var used := CellAt(cells, columnOf, USED); var value := ValueOf(cells, columnOf);
            Reconcile(cells, columnOf, overridden)[columnOf[USED]]
            == if value != used.number.Value() then Rewrite(used, value) else cells[columnOf[USED]]
  {
  }

  lemma CappingSparesFree(cells: seq<string>, columnOf: map<string, nat>, text: string)
    requires Apart(columnOf) && columnOf[USED] < |cells|
    ensures NumericAt(cells[columnOf[USED] := text], columnOf, FREE) == NumericAt(cells, columnOf, FREE)
  {
  }

  lemma SettledFree(cells: seq<string>, columnOf: map<string, nat>, overridden: set<string>, used: real, cap: real)
    requires Reconciles(cells, columnOf, overridden)
    ensures Settle(cells, columnOf, overridden, used, cap)[columnOf[FREE]]
            == Rewrite(CellAt(cells, columnOf, FREE), Max(cap - Min(used, cap), 0.0))
  {
    CappingSparesFree(cells, columnOf, Rewrite(CellAt(cells, columnOf, USED), cap));
  }

  /** What is left free of the capacity. */
  function Left(cells: seq<string>, columnOf: map<string, nat>): real
    requires NumericAt(cells, columnOf, USED).Some? && NumericAt(cells, columnOf, TOTAL).Some?
  {
    Max(CapacityOf(cells, columnOf) - ValueOf(cells, columnOf), 0.0)
  }

  lemma ReconcileSettles(cells: seq<string>, columnOf: map<string, nat>, overridden: set<string>)
    requires Reconciles(cells, columnOf, overridden)
    ensures Reconcile(cells, columnOf, overridden)
            == Settle(cells, columnOf, overridden, CellAt(cells, columnOf, USED).number.Value(), CapacityOf(cells, columnOf))
  {
  }

  lemma ReconciledFree(cells: seq<string>, columnOf: map<string, nat>, overridden: set<string>, left: real)
    requires Reconciles(cells, columnOf, overridden) && left == Left(cells, columnOf)
    ensures Reconcile(cells, columnOf, overridden)[columnOf[FREE]] == Rewrite(CellAt(cells, columnOf, FREE), left)
  {
    ReconcileSettles(cells, columnOf, overridden);
    SettledFree(cells, columnOf, overridden, CellAt(cells, columnOf, USED).number.Value(), CapacityOf(cells, columnOf));
  }

  /** No other column is touched, whatever is readable or overridden. */
  lemma ReconcileLeavesOthers(cells: seq<string>, columnOf: map<string, nat>, overridden: set<string>, c: nat)
    requires c < |cells|
    requires USED in columnOf ==> columnOf[USED] != c
    requires FREE in columnOf ==> columnOf[FREE] != c
    ensures Reconcile(cells, columnOf, overridden)[c] == cells[c]
  {
  }

  /** The used cell after reconciliation reads as the used value, capped, in its own decimals. */
  lemma UsedAfter(cells: seq<string>, columnOf: map<string, nat>, overridden: set<string>)
    requires Reconciles(cells, columnOf, overridden)
    requires CellAt(cells, columnOf, USED).number.Value() >= 0.0
    ensures var used, cap := CellAt(cells, columnOf, USED), CapacityOf(cells, columnOf);
            NumericAt(Reconcile(cells, columnOf, overridden), columnOf, USED)
            == Some(if used.number.Value() <= cap then used
                    else used.(number := Fixed(Nearest(cap, used.number.decimals), used.number.decimals)))
  {
    ReconciledUsed(cells, columnOf, overridden);
    RewriteKeepsShape(cells[columnOf[USED]], CapacityOf(cells, columnOf));
  }

  lemma FreeAfter(cells: seq<string>, columnOf: map<string, nat>, overridden: set<string>)
    requires Reconciles(cells, columnOf, overridden)
    ensures var free, left := CellAt(cells, columnOf, FREE), Left(cells, columnOf);
            NumericAt(Reconcile(cells, columnOf, overridden), columnOf, FREE)
            == Some(free.(number := Fixed(Nearest(left, free.number.decimals), free.number.decimals)))
  {
    ReconciledFree(cells, columnOf, overridden, Left(cells, columnOf));
    RewriteKeepsShape(cells[columnOf[FREE]], Left(cells, columnOf));
  }

  /** Capacity is what total and reserved still say after reconciliation. */
  lemma CapacityStays(cells: seq<string>, columnOf: map<string, nat>, overridden: set<string>)
    requires Reconciles(cells, columnOf, overridden)
    ensures NumericAt(Reconcile(cells, columnOf, overridden), columnOf, TOTAL) == NumericAt(cells, columnOf, TOTAL)
    ensures NumericAt(Reconcile(cells, columnOf, overridden), columnOf, RESERVED) == NumericAt(cells, columnOf, RESERVED)
  {
    ReconcileLeavesOthers(cells, columnOf, overridden, columnOf[TOTAL]);
    if RESERVED in columnOf && columnOf[RESERVED] < |cells| {
      ReconcileLeavesOthers(cells, columnOf, overridden, columnOf[RESERVED]);
    }
  }

  lemma ZeroRounds(d: nat)
    ensures Fixed(Nearest(0.0, d), d).Value() == 0.0
  {
    assert 0.0 * Pow(10, d) as real == 0.0;
    NearestIsExact(0.0, d);
  }

  /** Whether the printed shapes can carry what must be printed: the free rest, or the whole capacity as used. */
  predicate Expressible(used: NumCell, free: NumCell, cap: real) {
    if used.number.Value() <= cap then Exact(cap - used.number.Value(), free.number.decimals)
    else Exact(cap, used.number.decimals)
  }

  /** The cells' numbers after reconciliation add up to the capacity before it. */
  ghost predicate AddsUp(cells: seq<string>, columnOf: map<string, nat>, after: seq<string>)
    requires NumericAt(cells, columnOf, TOTAL).Some?
  {
    && NumericAt(after, columnOf, USED).Some? && NumericAt(after, columnOf, FREE).Some?
    && CellAt(after, columnOf, USED).number.Value() + CellAt(after, columnOf, FREE).number.Value()
       == CapacityOf(cells, columnOf)
  }

  lemma RestAddsUp(u: real, cap: real, d: nat)
    requires 0.0 <= u <= cap
    ensures u + Fixed(Nearest(cap - u, d), d).Value() == cap <==> Exact(cap - u, d)
  {
    NearestIsExact(cap - u, d);
  }

  lemma WholeAddsUp(cap: real, d: nat, e: nat)
    requires cap >= 0.0
    ensures Fixed(Nearest(cap, d), d).Value() + Fixed(Nearest(0.0, e), e).Value() == cap <==> Exact(cap, d)
  {
    NearestIsExact(cap, d);
    ZeroRounds(e);
  }

  /** The two cells' numbers after reconciliation, whatever the numbers before. */
  lemma NumbersAddUp(u: real, cap: real, d: nat, e: nat, used: real, free: real)
    requires u >= 0.0 && cap >= 0.0
    requires used == if u <= cap then u else Fixed(Nearest(cap, d), d).Value()
    requires free == if u <= cap then Fixed(Nearest(cap - u, e), e).Value() else Fixed(Nearest(0.0, e), e).Value()
    ensures used + free == cap <==> if u <= cap then Exact(cap - u, e) else Exact(cap, d)
  {
    if u <= cap {
      RestAddsUp(u, cap, e);
    } else {
      WholeAddsUp(cap, d, e);
    }
  }

  lemma LeftIs(cells: seq<string>, columnOf: map<string, nat>, u: real, cap: real)
    requires NumericAt(cells, columnOf, USED).Some? && NumericAt(cells, columnOf, TOTAL).Some?
    requires u == CellAt(cells, columnOf, USED).number.Value() && cap == CapacityOf(cells, columnOf)
    ensures cap >= 0.0 && Left(cells, columnOf) == if u <= cap then cap - u else 0.0
  {
  }

  lemma UsedNumber(cells: seq<string>, columnOf: map<string, nat>, overridden: set<string>, u: real, cap: real)
    requires Reconciles(cells, columnOf, overridden) && u >= 0.0
    requires u == CellAt(cells, columnOf, USED).number.Value() && cap == CapacityOf(cells, columnOf)
    ensures var d, after := CellAt(cells, columnOf, USED).number.decimals, Reconcile(cells, columnOf, overridden);
            && cap >= 0.0 && NumericAt(after, columnOf, USED).Some?
            && CellAt(after, columnOf, USED).number.Value() == if u <= cap then u else Fixed(Nearest(cap, d), d).Value()
  {
    UsedAfter(cells, columnOf, overridden);
  }

  lemma FreeNumber(cells: seq<string>, columnOf: map<string, nat>, overridden: set<string>, u: real, cap: real)
    requires Reconciles(cells, columnOf, overridden)
    requires u == CellAt(cells, columnOf, USED).number.Value() && cap == CapacityOf(cells, columnOf)
    ensures var e, after := CellAt(cells, columnOf, FREE).number.decimals, Reconcile(cells, columnOf, overridden);
            && NumericAt(after, columnOf, FREE).Some?
            && CellAt(after, columnOf, FREE).number.Value()
               == if u <= cap then Fixed(Nearest(cap - u, e), e).Value() else Fixed(Nearest(0.0, e), e).Value()
  {
    FreeAfter(cells, columnOf, overridden);
    LeftIs(cells, columnOf, u, cap);
  }

  lemma AddsUpMeans(cells: seq<string>, columnOf: map<string, nat>, after: seq<string>, used: real, free: real, cap: real)
    requires NumericAt(cells, columnOf, TOTAL).Some? && cap == CapacityOf(cells, columnOf)
    requires NumericAt(after, columnOf, USED).Some? && used == CellAt(after, columnOf, USED).number.Value()
    requires NumericAt(after, columnOf, FREE).Some? && free == CellAt(after, columnOf, FREE).number.Value()
    ensures AddsUp(cells, columnOf, after) <==> used + free == cap
  {
  }

  lemma ExpressibleMeans(used: NumCell, free: NumCell, cap: real, u: real)
    requires u == used.number.Value()
    ensures Expressible(used, free, cap) <==> if u <= cap then Exact(cap - u, free.number.decimals) else Exact(cap, used.number.decimals)
  {
  }

  lemma NumbersAfter(cells: seq<string>, columnOf: map<string, nat>, overridden: set<string>)
    returns (u: real, cap: real, used: real, free: real)
    requires Reconciles(cells, columnOf, overridden) && CellAt(cells, columnOf, USED).number.Value() >= 0.0
    ensures u == CellAt(cells, columnOf, USED).number.Value() && cap == CapacityOf(cells, columnOf)
    ensures AddsUp(cells, columnOf, Reconcile(cells, columnOf, overridden)) <==> used + free == cap
    ensures used + free == cap <==>
            if u <= cap then Exact(cap - u, CellAt(cells, columnOf, FREE).number.decimals)
            else Exact(cap, CellAt(cells, columnOf, USED).number.decimals)
  {
    u, cap := CellAt(cells, columnOf, USED).number.Value(), CapacityOf(cells, columnOf);
    var after := Reconcile(cells, columnOf, overridden);
    UsedNumber(cells, columnOf, overridden, u, cap);
    FreeNumber(cells, columnOf, overridden, u, cap);
    used, free := CellAt(after, columnOf, USED).number.Value(), CellAt(after, columnOf, FREE).number.Value();
    AddsUpMeans(cells, columnOf, after, used, free, cap);
    NumbersAddUp(u, cap, CellAt(cells, columnOf, USED).number.decimals, CellAt(cells, columnOf, FREE).number.decimals, used, free);
  }

  /** Used and free, read back, add up to the capacity exactly when the cells' decimals can express them. */
  lemma UsedAndFreeAddUp(cells: seq<string>, columnOf: map<string, nat>, overridden: set<string>)
    requires Reconciles(cells, columnOf, overridden)
    requires CellAt(cells, columnOf, USED).number.Value() >= 0.0
    ensures AddsUp(cells, columnOf, Reconcile(cells, columnOf, overridden))
            <==> Expressible(CellAt(cells, columnOf, USED), CellAt(cells, columnOf, FREE), CapacityOf(cells, columnOf))
  {
    var u, cap, used, free := NumbersAfter(cells, columnOf, overridden);
    ExpressibleMeans(CellAt(cells, columnOf, USED), CellAt(cells, columnOf, FREE), cap, u);
  }

  // ---------------------------------------------------------------- a whole fluctuated row

  /** All memory cells of a row print the same number of decimals. */
  ghost predicate SameShape(cells: seq<string>, columnOf: map<string, nat>, d: nat) {
    && Readable(cells, columnOf)
    && CellAt(cells, columnOf, USED).number.decimals == d && CellAt(cells, columnOf, TOTAL).number.decimals == d
    && CellAt(cells, columnOf, FREE).number.decimals == d
    && (NumericAt(cells, columnOf, RESERVED).Some? ==> CellAt(cells, columnOf, RESERVED).number.decimals == d)
  }

  lemma SameDecimals(a: Fixed, b: Fixed)
    requires a.decimals == b.decimals
    ensures a.Value() <= b.Value() <==> a.mantissa <= b.mantissa
    ensures a.Value() - b.Value() == Fixed(a.mantissa - b.mantissa, a.decimals).Value()
  {
    var p := Pow(10, a.decimals) as real;
    Over(a.mantissa as real, b.mantissa as real, p);
  }

  lemma Over(a: real, b: real, p: real)
    requires p > 0.0
    ensures a / p <= b / p <==> a <= b
    ensures a / p - b / p == (a - b) / p
  {
    assert a / p * p == a && b / p * p == b;
    assert (a / p - b / p) * p == a - b;
    if a > b {
      assert (a / p - b / p) * p > 0.0;
    } else {
      assert (b / p - a / p) * p >= 0.0;
    }
  }

  lemma FixedIsExact(f: Fixed)
    ensures Exact(f.Value(), f.decimals)
  {
    FixedIs(f.mantissa, f.decimals, f.Value());
  }

  lemma ZeroFixed(d: nat)
    ensures Fixed(0, d).Value() == 0.0
  {
    FixedIs(0, d, 0.0);
  }

  /** In a shared shape the capacity is a number of that shape, and never negative. */
  lemma CapacityShape(cells: seq<string>, columnOf: map<string, nat>, d: nat) returns (cap: Fixed)
    requires SameShape(cells, columnOf, d)
    ensures cap.decimals == d && cap.mantissa >= 0 && cap.Value() == CapacityOf(cells, columnOf)
  {
    ZeroFixed(d);
    var total := CellAt(cells, columnOf, TOTAL).number;
    var reserved := if NumericAt(cells, columnOf, RESERVED).Some? then CellAt(cells, columnOf, RESERVED).number else Fixed(0, d);
    SameDecimals(total, reserved);
    var left := Fixed(total.mantissa - reserved.mantissa, d);
    SameDecimals(Fixed(0, d), left);
    cap := if left.mantissa < 0 then Fixed(0, d) else left;
  }

  lemma SharedShapeIsExpressible(cells: seq<string>, columnOf: map<string, nat>, d: nat)
    requires SameShape(cells, columnOf, d)
    ensures Expressible(CellAt(cells, columnOf, USED), CellAt(cells, columnOf, FREE), CapacityOf(cells, columnOf))
  {
    var cap := CapacityShape(cells, columnOf, d);
    var used := CellAt(cells, columnOf, USED).number;
    SameDecimals(cap, used);
    FixedIsExact(cap);
    FixedIsExact(Fixed(cap.mantissa - used.mantissa, d));
  }

  /** Where captured cells share a shape, used stays between nothing and the capacity, and free is exactly the rest. */
  lemma SharedShapeIsConsistent(cells: seq<string>, columnOf: map<string, nat>, overridden: set<string>, d: nat)
    requires Reconciles(cells, columnOf, overridden) && SameShape(cells, columnOf, d)
    requires CellAt(cells, columnOf, USED).number.Value() >= 0.0
    ensures var after := Reconcile(cells, columnOf, overridden);
            && AddsUp(cells, columnOf, after)
            && 0.0 <= CellAt(after, columnOf, USED).number.Value() <= CapacityOf(cells, columnOf)
  {
    SharedShapeIsExpressible(cells, columnOf, d);
    UsedAndFreeAddUp(cells, columnOf, overridden);
    UsedAfter(cells, columnOf, overridden);
    var used, cap := CellAt(cells, columnOf, USED), CapacityOf(cells, columnOf);
    if used.number.Value() > cap {
      var c := CapacityShape(cells, columnOf, d);
      FixedIsExact(c);
      NearestIsExact(cap, d);
    }
  }

  lemma StayingFields()
    ensures TOTAL !in MOVING && FREE !in MOVING && RESERVED !in MOVING
  {
    forall i | 0 <= i < |MOVING|
      ensures MOVING[i] != TOTAL && MOVING[i] != FREE && MOVING[i] != RESERVED
    {
      assert |MOVING[i]| > 7 ==> MOVING[i][7] == 'u' || MOVING[i][0] != 'm' || MOVING[i][1] != 'e';
    }
  }

  lemma StaysReadable(s: Shaken, recorded: seq<string>, columnOf: map<string, nat>, overridden: set<string>, roll: Roll, field: string)
    requires |recorded| == |s.cells| && Names(columnOf, recorded) && field !in MOVING
    ensures NumericAt(Shake(s, recorded, MOVING, overridden, roll, |recorded|).cells, columnOf, field)
            == NumericAt(s.cells, columnOf, field)
  {
    if field in columnOf {
      OthersStay(s, recorded, MOVING, overridden, roll, |recorded|, columnOf[field]);
    }
  }

  /** The number is a jittered one, in the cell's own decimals. */
  ghost predicate JitterOf(number: Fixed, c: NumCell) {
    exists u: real :: 0.0 <= u < 1.0 && Jitter(c, u) >= 0.0 && number == Fixed(Nearest(Jitter(c, u), c.number.decimals), c.number.decimals)
  }

  lemma UsedIsJittered(
    s: Shaken, recorded: seq<string>, columnOf: map<string, nat>, overridden: set<string>, roll: Roll, moving: seq<string>)
    requires |recorded| == |s.cells| && Names(columnOf, recorded) && Fair(roll) && USED !in overridden && USED in moving
    requires NumericAt(s.cells, columnOf, USED).Some?
    ensures var before := CellAt(s.cells, columnOf, USED);
            var after := NumericAt(Shake(s, recorded, moving, overridden, roll, |recorded|).cells, columnOf, USED);
            && after.Some? && after.value.number.decimals == before.number.decimals && after.value.number.Value() >= 0.0
            && JitterOf(after.value.number, before)
  {
    var u := MovingMoves(s, recorded, moving, overridden, roll, |recorded|, columnOf[USED]);
    var c := CellAt(s.cells, columnOf, USED);
    JitterStaysPlausible(c, u);
    RewriteKeepsShape(s.cells[columnOf[USED]], Jitter(c, u));
    var n, d := Nearest(Jitter(c, u), c.number.decimals), c.number.decimals;
    ZeroFixed(d);
    SameDecimals(Fixed(0, d), Fixed(n, d));
  }

  /** After the jitter the memory cells still share their shape, and total and reserved still say the same. */
  lemma JitterKeepsShape(
    s: Shaken, recorded: seq<string>, columnOf: map<string, nat>, overridden: set<string>, roll: Roll, d: nat)
    requires |recorded| == |s.cells| && Names(columnOf, recorded) && Fair(roll)
    requires SameShape(s.cells, columnOf, d) && USED !in overridden
    ensures var shaken := Shake(s, recorded, MOVING, overridden, roll, |recorded|).cells;
            && SameShape(shaken, columnOf, d) && CellAt(shaken, columnOf, USED).number.Value() >= 0.0
            && CapacityOf(shaken, columnOf) == CapacityOf(s.cells, columnOf)
  {
    StayingFields();
    StaysReadable(s, recorded, columnOf, overridden, roll, TOTAL);
    StaysReadable(s, recorded, columnOf, overridden, roll, FREE);
    StaysReadable(s, recorded, columnOf, overridden, roll, RESERVED);
    assert MOVING[18] == USED;
    UsedIsJittered(s, recorded, columnOf, overridden, roll, MOVING);
  }

  lemma CapacityIs(cells: seq<string>, columnOf: map<string, nat>)
    requires NumericAt(cells, columnOf, TOTAL).Some?
    ensures var total := CellAt(cells, columnOf, TOTAL).number.Value();
            var reserved := if NumericAt(cells, columnOf, RESERVED).Some? then CellAt(cells, columnOf, RESERVED).number.Value() else 0.0;
            CapacityOf(cells, columnOf) == if total > reserved then total - reserved else 0.0
  {
  }

  /** What used reads after a whole row's fluctuation: its jittered value, or the capacity where that is less. */
  lemma UsedIsCappedJitter(
    s: Shaken, recorded: seq<string>, columnOf: map<string, nat>, overridden: set<string>, roll: Roll, d: nat)
    requires |recorded| == |s.cells| && Names(columnOf, recorded) && Fair(roll)
    requires SameShape(s.cells, columnOf, d) && USED !in overridden && FREE !in overridden
    ensures var after := NumericAt(Applied(s, recorded, columnOf, overridden, roll).cells, columnOf, USED);
            && after.Some?
            && exists n: Fixed :: JitterOf(n, CellAt(s.cells, columnOf, USED))
                 && (n.Value() <= CapacityOf(s.cells, columnOf) ==> after.value.number == n)
                 && (n.Value() > CapacityOf(s.cells, columnOf) ==> after.value.number.Value() == CapacityOf(s.cells, columnOf))
  {
    var shaken := Shake(s, recorded, MOVING, overridden, roll, |recorded|).cells;
    JitterKeepsShape(s, recorded, columnOf, overridden, roll, d);
    NamesAreApart(columnOf, recorded);
    assert MOVING[18] == USED;
    UsedIsJittered(s, recorded, columnOf, overridden, roll, MOVING);
    CappedUsed(shaken, columnOf, overridden, d);
    assert JitterOf(CellAt(shaken, columnOf, USED).number, CellAt(s.cells, columnOf, USED));
  }

  lemma CappedUsed(cells: seq<string>, columnOf: map<string, nat>, overridden: set<string>, d: nat)
    requires Reconciles(cells, columnOf, overridden) && SameShape(cells, columnOf, d)
    requires CellAt(cells, columnOf, USED).number.Value() >= 0.0
    ensures var after, n := NumericAt(Reconcile(cells, columnOf, overridden), columnOf, USED), CellAt(cells, columnOf, USED).number;
            && after.Some?
            && (n.Value() <= CapacityOf(cells, columnOf) ==> after.value.number == n)
            && (n.Value() > CapacityOf(cells, columnOf) ==> after.value.number.Value() == CapacityOf(cells, columnOf))
  {
    UsedAfter(cells, columnOf, overridden);
    CapIsPrinted(cells, columnOf, d);
  }

  lemma CapIsPrinted(cells: seq<string>, columnOf: map<string, nat>, d: nat)
    requires SameShape(cells, columnOf, d)
    ensures Fixed(Nearest(CapacityOf(cells, columnOf), d), d).Value() == CapacityOf(cells, columnOf)
  {
    var c := CapacityShape(cells, columnOf, d);
    FixedIsExact(c);
    NearestIsExact(CapacityOf(cells, columnOf), d);
  }

  /**
   A whole row's fluctuation keeps the memory cells consistent: captured in one decimal shape, and with used and free
   not overridden, they read back as 0 <= used <= capacity and used + free = capacity, whatever was drawn.
   */
  lemma FluctuatedMemoryIsConsistent(
    s: Shaken, recorded: seq<string>, columnOf: map<string, nat>, overridden: set<string>, roll: Roll, d: nat)
    requires |recorded| == |s.cells| && Names(columnOf, recorded) && Fair(roll)
    requires SameShape(s.cells, columnOf, d) && USED !in overridden && FREE !in overridden
    ensures var after := Applied(s, recorded, columnOf, overridden, roll).cells;
            && AddsUp(s.cells, columnOf, after)
            && 0.0 <= CellAt(after, columnOf, USED).number.Value() <= CapacityOf(s.cells, columnOf)
  {
    JitterKeepsShape(s, recorded, columnOf, overridden, roll, d);
    NamesAreApart(columnOf, recorded);
    SharedShapeIsConsistent(Shake(s, recorded, MOVING, overridden, roll, |recorded|).cells, columnOf, overridden, d);
  }

  lemma TenthParses(whole: string, fraction: string, suffix: string, m: nat)
    requires |whole| == |fraction| == 1 && Digits(whole) && Digits(fraction) && NoDigits(suffix) && !AnyX(suffix)
    requires m == DigitValue(whole[0]) * 10 + DigitValue(fraction[0])
    ensures ParseNumeric(whole + "." + fraction + suffix) == Some(NumCell(Fixed(m, 1), suffix))
  {
    var token := whole + "." + fraction;
    assert token == "" + whole + ("." + fraction);
    ShapedParses(token, "", whole, fraction, suffix);
    ShapedReads(token, "", whole, fraction);
    Tenths(whole, fraction, m);
  }

  lemma WholeParses(whole: string, suffix: string)
    requires whole != "" && Digits(whole) && NoDigits(suffix) && !AnyX(suffix)
    ensures ParseNumeric(whole + suffix).Some? && ParseNumeric(whole + suffix).value.number.decimals == 0
  {
    assert whole == "" + whole + "";
    ShapedParses(whole, "", whole, "", suffix);
    ShapedReads(whole, "", whole, "");
  }

  lemma HalfParses(cell: string)
    requires cell == "0.5 MiB"
    ensures ParseNumeric(cell) == Some(NumCell(Fixed(5, 1), " MiB"))
  {
    TenthParses("0", "5", " MiB", 5);
    assert cell == "0" + "." + "5" + " MiB";
  }

  lemma OneParses(cell: string)
    requires cell == "1.0 MiB"
    ensures ParseNumeric(cell) == Some(NumCell(Fixed(10, 1), " MiB"))
  {
    TenthParses("1", "0", " MiB", 10);
    assert cell == "1" + "." + "0" + " MiB";
  }

  lemma ZeroParses(cell: string)
    requires cell == "0 MiB"
    ensures ParseNumeric(cell).Some? && ParseNumeric(cell).value.number.decimals == 0
  {
    WholeParses("0", " MiB");
    assert cell == "0" + " MiB";
  }

  lemma HalfOfOneIsLost(cells: seq<string>, columnOf: map<string, nat>)
    requires |cells| == 3 && columnOf.Keys == {USED, TOTAL, FREE}
    requires columnOf[USED] == 0 && columnOf[TOTAL] == 1 && columnOf[FREE] == 2
    requires ParseNumeric(cells[0]) == Some(NumCell(Fixed(5, 1), " MiB"))
    requires ParseNumeric(cells[1]) == Some(NumCell(Fixed(10, 1), " MiB"))
    requires ParseNumeric(cells[2]).Some? && ParseNumeric(cells[2]).value.number.decimals == 0
    ensures Readable(cells, columnOf) && !AddsUp(cells, columnOf, Reconcile(cells, columnOf, {}))
  {
    assert RESERVED[7] == 'r' && USED[7] == 'u' && FREE[7] == 'f' && TOTAL[7] == 't';
    FixedIs(5, 1, 0.5);
    FixedIs(10, 1, 1.0);
    assert CapacityOf(cells, columnOf) == 1.0;
    assert Pow(10, 0) == 1 && !Whole(0.5);
    UsedAndFreeAddUp(cells, columnOf, {});
  }

  /** Where every draw is one half, a number keeps its value. */
  lemma HalfDrawKeeps(s: Shaken, recorded: seq<string>, roll: Roll, column: nat, moving: seq<string>)
    requires |recorded| == |s.cells| && column < |recorded| && forall field, n :: roll(field, n) == 0.5
    requires ParseNumeric(s.cells[column]) == Some(NumCell(Fixed(5, 1), " MiB"))
    ensures ParseNumeric(Shake(s, recorded, moving, {}, roll, |recorded|).cells[column]) == ParseNumeric(s.cells[column])
  {
    if recorded[column] in moving {
      var u := MovingMoves(s, recorded, moving, {}, roll, |recorded|, column);
      var c := ParseNumeric(s.cells[column]).value;
      FixedIs(5, 1, 0.5);
      assert !IsPercent(c) && Jitter(c, u) == 0.5;
      RewriteKeepsShape(s.cells[column], 0.5);
      NearestIsExact(0.5, 1);
      FixedIs(Nearest(0.5, 1), 1, 0.5);
    } else {
      OthersStay(s, recorded, moving, {}, roll, |recorded|, column);
    }
  }

  lemma HalfOfOneStaysLost(s: Shaken, recorded: seq<string>, columnOf: map<string, nat>, roll: Roll)
    requires |recorded| == |s.cells| == 3 && Names(columnOf, recorded) && columnOf.Keys == {USED, TOTAL, FREE}
    requires columnOf[USED] == 0 && columnOf[TOTAL] == 1 && columnOf[FREE] == 2
    requires forall field, n :: roll(field, n) == 0.5
    requires ParseNumeric(s.cells[0]) == Some(NumCell(Fixed(5, 1), " MiB"))
    requires ParseNumeric(s.cells[1]) == Some(NumCell(Fixed(10, 1), " MiB"))
    requires ParseNumeric(s.cells[2]).Some? && ParseNumeric(s.cells[2]).value.number.decimals == 0
    ensures Readable(s.cells, columnOf)
    ensures !AddsUp(s.cells, columnOf, Applied(s, recorded, columnOf, {}, roll).cells)
  {
    StayingFields();
    StaysReadable(s, recorded, columnOf, {}, roll, TOTAL);
    StaysReadable(s, recorded, columnOf, {}, roll, FREE);
    StaysReadable(s, recorded, columnOf, {}, roll, RESERVED);
    HalfDrawKeeps(s, recorded, roll, 0, MOVING);
    HalfOfOneIsLost(Shake(s, recorded, MOVING, {}, roll, |recorded|).cells, columnOf);
  }

  /** A row whose free cell prints fewer decimals than its total: the rest is rounded away, and nothing adds up. */
  lemma MixedShapesDisagree(s: Shaken, recorded: seq<string>, columnOf: map<string, nat>, roll: Roll)
    requires s.cells == ["0.5 MiB", "1.0 MiB", "0 MiB"] && recorded == [USED, TOTAL, FREE]
    requires Names(columnOf, recorded) && columnOf.Keys == {USED, TOTAL, FREE}
    requires forall field, n :: roll(field, n) == 0.5
    ensures Readable(s.cells, columnOf)
    ensures !AddsUp(s.cells, columnOf, Applied(s, recorded, columnOf, {}, roll).cells)
  {
    HalfParses(s.cells[0]);
    OneParses(s.cells[1]);
    ZeroParses(s.cells[2]);
    assert USED[7] == 'u' && FREE[7] == 'f' && TOTAL[7] == 't';
    HalfOfOneStaysLost(s, recorded, columnOf, roll);
  }

  lemma Tenths(whole: string, fraction: string, m: nat)
    requires |whole| == |fraction| == 1 && Digits(whole) && Digits(fraction)
    requires m == DigitValue(whole[0]) * 10 + DigitValue(fraction[0])
    ensures Mantissa(whole, fraction) == m
  {
    ValueAppend("", whole[0], 10);
    ValueAppend("", fraction[0], 10);
    assert "" + [whole[0]] == whole && "" + [fraction[0]] == fraction;
    assert Pow(10, 1) == 10;
  }
}
