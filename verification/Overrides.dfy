/**
 The override layers of a fake nvidia-smi and the values they serve. A configuration mapping is taken as the list of its
 entries, in whatever order its iteration yields them; range bounds that are not finite numbers are None.
 */
module Overrides {
  import opened Basics
  import opened Numerals
  import opened Identity

  datatype Spec = Set(value: string) | Range(low: Option<real>, high: Option<real>)

  datatype Entry = Entry(field: string, spec: Spec)

  datatype Layer = Top | PerGpu(gpu: nat) | Flag

  /** A value generator: a constant, or draws from a source of its own, known by layer and field. */
  datatype Gen = Const(value: string) | Draws(layer: Layer, field: string, low: real, high: real)

  datatype BadOverride = UncleanValue(field: string) | BadRange(field: string) | TargetsIdentity(field: string)

  /** The query fields that carry a GPU's identity. */
  const IDENTITY: set<string> := {
    "uuid", "serial", "index", "count", "pci.bus_id", "pci.bus", "gpu_uuid", "gpu_serial", "gpu_bus_id"}

  /** validateRange and validateSetValue. */
  predicate Acceptable(s: Spec) {
    match s
    case Set(value) => Clean(value)
    case Range(low, high) => low.Some? && high.Some? && low.value <= high.value
  }

  function GenOf(e: Entry, layer: Layer): Gen
    requires Acceptable(e.spec)
  {
    match e.spec
    case Set(value) => Const(value)
    case Range(low, high) => Draws(layer, e.field, low.value, high.value)
  }

  predicate AllAcceptable(entries: seq<Entry>) { forall i :: 0 <= i < |entries| ==> Acceptable(entries[i].spec) }

  /** The generators of a list of entries; of two for a field the later one wins. */
  function Gens(entries: seq<Entry>, layer: Layer): (gens: map<string, Gen>)
    requires AllAcceptable(entries)
    decreases |entries|
  {
    if entries == [] then map[]
    else
      var n := |entries| - 1;
      Gens(entries[..n], layer)[entries[n].field := GenOf(entries[n], layer)]
  }

  /** The generator serves what the entry says. */
  predicate Makes(g: Gen, e: Entry, layer: Layer) {
    match e.spec
    case Set(value) => g == Const(value)
    case Range(low, high) =>
      && g.Draws? && g.layer == layer && g.field == e.field
      && low == Some(g.low) && high == Some(g.high) && g.low <= g.high
  }

  /** The last entry that names a field stands at `i`. */
  ghost predicate LastFor(entries: seq<Entry>, field: string, i: nat) {
    i < |entries| && entries[i].field == field && forall k :: i < k < |entries| ==> entries[k].field != field
  }

  /** Some entry names the field. */
  ghost predicate Named(entries: seq<Entry>, field: string) { exists i :: 0 <= i < |entries| && entries[i].field == field }

  /** The generator is that of the last entry naming the field. */
  ghost predicate FromLast(g: Gen, entries: seq<Entry>, field: string, layer: Layer) {
    exists i: nat :: LastFor(entries, field, i) && Makes(g, entries[i], layer)
  }

  lemma OneMoreEntry(entries: seq<Entry>, field: string)
    requires entries != []
    ensures Named(entries, field) <==> Named(entries[..|entries| - 1], field) || entries[|entries| - 1].field == field
  {
    var n := |entries| - 1;
    assert forall i :: 0 <= i < n ==> entries[i] == entries[..n][i];
  }

  lemma LastStays(g: Gen, entries: seq<Entry>, field: string, layer: Layer)
    requires entries != [] && entries[|entries| - 1].field != field && FromLast(g, entries[..|entries| - 1], field, layer)
    ensures FromLast(g, entries, field, layer)
  {
    var n := |entries| - 1;
    var i: nat :| LastFor(entries[..n], field, i) && Makes(g, entries[..n][i], layer);
    assert forall k :: 0 <= k < n ==> entries[k] == entries[..n][k];
    assert LastFor(entries, field, i);
  }

  /** A field has a generator exactly when some entry names it, and it is the last such entry's. */
  lemma {:induction false} LastEntryWins(entries: seq<Entry>, layer: Layer, field: string)
    requires AllAcceptable(entries)
    ensures field in Gens(entries, layer) <==> Named(entries, field)
    ensures field in Gens(entries, layer) ==> FromLast(Gens(entries, layer)[field], entries, field, layer)
    decreases |entries|
  {
    if entries != [] {
      var n := |entries| - 1;
      LastEntryWins(entries[..n], layer, field);
      OneMoreEntry(entries, field);
      if entries[n].field == field {
        assert Gens(entries, layer)[field] == GenOf(entries[n], layer);
        assert LastFor(entries, field, n) && Makes(Gens(entries, layer)[field], entries[n], layer);
      } else if Named(entries[..n], field) {
        assert Gens(entries, layer)[field] == Gens(entries[..n], layer)[field];
        LastStays(Gens(entries[..n], layer)[field], entries, field, layer);
      }
    }
  }

  /** opsFromEntries: the first unacceptable entry is the error. */
  method OpsFromEntries(entries: seq<Entry>) returns (r: Option<BadOverride>)
    ensures r.None? <==> AllAcceptable(entries)
    ensures r.None? <==> forall i :: 0 <= i < |entries| ==>
              match entries[i].spec
              case Set(value) => ',' !in value && '\n' !in value && '\r' !in value
              case Range(low, high) => low.Some? && high.Some? && low.value <= high.value
    ensures r.Some? ==> exists i :: 0 <= i < |entries| && !Acceptable(entries[i].spec) && r.value.field == entries[i].field
                               && !r.value.TargetsIdentity?
  {
    for i := 0 to |entries|
      invariant AllAcceptable(entries[..i])
    {
      if !Acceptable(entries[i].spec) {
        match entries[i].spec {
          case Set(_) => return Some(UncleanValue(entries[i].field));
          case Range(_, _) => return Some(BadRange(entries[i].field));
        }
      }
      assert entries[..i + 1] == entries[..i] + [entries[i]];
    }
    assert entries[..|entries|] == entries;
    return None;
  }

  /** genMap. */
  method GenMap(entries: seq<Entry>, layer: Layer) returns (out: map<string, Gen>)
    requires AllAcceptable(entries)
    ensures out == Gens(entries, layer)
  {
    out := map[];
    for i := 0 to |entries|
      invariant out == Gens(entries[..i], layer)
    {
      assert entries[..i + 1][..i] == entries[..i];
      out := out[entries[i].field := GenOf(entries[i], layer)];
    }
    assert entries[..|entries|] == entries;
  }

  predicate Targets(entries: seq<Entry>) { exists i :: 0 <= i < |entries| && entries[i].field in IDENTITY }

  method TargetsIn(entries: seq<Entry>) returns (field: Option<string>)
    ensures field.Some? <==> Targets(entries)
    ensures field.Some? ==> field.value in IDENTITY
  {
    for i := 0 to |entries|
      invariant forall k :: 0 <= k < i ==> entries[k].field !in IDENTITY
    {
      if entries[i].field in IDENTITY {
        return Some(entries[i].field);
      }
    }
    return None;
  }

  /** rejectIdentityOverrides. */
  method RejectIdentityOverrides(ops: seq<Entry>, perGpu: seq<seq<Entry>>) returns (r: Option<BadOverride>)
    ensures r.Some? <==> Targets(ops) || exists g :: 0 <= g < |perGpu| && Targets(perGpu[g])
    ensures r.Some? ==> r.value.TargetsIdentity? && r.value.field in IDENTITY
  {
    var field := TargetsIn(ops);
    if field.Some? {
      return Some(TargetsIdentity(field.value));
    }
    for g := 0 to |perGpu|
      invariant forall k :: 0 <= k < g ==> !Targets(perGpu[k])
    {
      field := TargetsIn(perGpu[g]);
      if field.Some? {
        return Some(TargetsIdentity(field.value));
      }
    }
    return None;
  }

  /** The entries GPU g brings along. */
  function EntriesOf(perGpu: seq<seq<Entry>>, g: nat): seq<Entry> { if g < |perGpu| then perGpu[g] else [] }

  /** What a field of GPU g is overridden with: a flag before the GPU's own entry before a top-level entry. */
  function Winner(top: seq<Entry>, flags: seq<Entry>, perGpu: seq<seq<Entry>>, g: nat, field: string): Option<Gen>
    requires AllAcceptable(top) && AllAcceptable(flags) && AllAcceptable(EntriesOf(perGpu, g))
  {
    if field in Gens(flags, Flag) then Some(Gens(flags, Flag)[field])
    else if field in Gens(EntriesOf(perGpu, g), PerGpu(g)) then Some(Gens(EntriesOf(perGpu, g), PerGpu(g))[field])
    else if field in Gens(top, Top) then Some(Gens(top, Top)[field])
    else None
  }

  /** The generator map is the winners'. */
  ghost predicate Layered(gens: map<string, Gen>, top: seq<Entry>, flags: seq<Entry>, perGpu: seq<seq<Entry>>, g: nat)
    requires AllAcceptable(top) && AllAcceptable(flags) && AllAcceptable(EntriesOf(perGpu, g))
  {
    forall field :: Winner(top, flags, perGpu, g, field) == if field in gens then Some(gens[field]) else None
  }

  ghost predicate Refused(top: seq<Entry>, flags: seq<Entry>, perGpu: seq<seq<Entry>>, count: nat) {
    Targets(top) || Targets(flags) || (exists g :: 0 <= g < |perGpu| && Targets(perGpu[g]))
    || exists g: nat :: g < count && !AllAcceptable(EntriesOf(perGpu, g))
  }

  /**
   buildOverrides with simulated GPUs. The flags were accepted when they were parsed. Every GPU gets exactly one map,
   its fields resolved by layer, and no accepted map touches an identity.
   */
  method BuildOverrides(top: seq<Entry>, flags: seq<Entry>, perGpu: seq<seq<Entry>>, count: nat)
    returns (r: Result<seq<map<string, Gen>>, BadOverride>)
    requires AllAcceptable(flags) && count > 0
    ensures r.Ok? <==> AllAcceptable(top) && !Refused(top, flags, perGpu, count)
    ensures r.Ok? ==> |r.value| == count
    ensures r.Ok? ==> forall g: nat :: g < count ==>
              AllAcceptable(EntriesOf(perGpu, g)) && Layered(r.value[g], top, flags, perGpu, g)
  {
    var bad := OpsFromEntries(top);
    if bad.Some? {
      return Err(bad.value);
    }
    bad := RejectIdentityOverrides(top + flags, perGpu);
    TargetsJoin(top, flags);
    if bad.Some? {
      return Err(bad.value);
    }
    var base := GenMap(top, Top);
    var flagged := GenMap(flags, Flag);
    var out: seq<map<string, Gen>> := [];
    for g := 0 to count
      invariant |out| == g
      invariant forall k: nat :: k < g ==> AllAcceptable(EntriesOf(perGpu, k)) && Layered(out[k], top, flags, perGpu, k)
    {
      var merged := base;
      if g < |perGpu| {
        bad := OpsFromEntries(perGpu[g]);
        if bad.Some? {
          assert !AllAcceptable(EntriesOf(perGpu, g));
          return Err(bad.value);
        }
        var own := GenMap(perGpu[g], PerGpu(g));
        merged := merged + own;
      }
      merged := merged + flagged;
      assert Layered(merged, top, flags, perGpu, g);
      out := out + [merged];
    }
    return Ok(out);
  }

  /** buildOverrides without simulated GPUs: one map, flags over the configuration; identities may be overridden. */
  method BuildSingle(top: seq<Entry>, flags: seq<Entry>) returns (r: Result<seq<map<string, Gen>>, BadOverride>)
    requires AllAcceptable(flags)
    ensures r.Ok? <==> AllAcceptable(top)
    ensures r.Ok? ==> |r.value| == 1 && forall field ::
              (field in r.value[0] <==> field in Gens(top, Top) || field in Gens(flags, Top))
              && (field in r.value[0] ==>
                    r.value[0][field] == if field in Gens(flags, Top) then Gens(flags, Top)[field] else Gens(top, Top)[field])
  {
    var bad := OpsFromEntries(top);
    if bad.Some? {
      return Err(bad.value);
    }
    var all := GenMap(top + flags, Top);
    GensJoin(top, flags, Top);
    return Ok([all]);
  }

  lemma {:induction false} GensJoin(a: seq<Entry>, b: seq<Entry>, layer: Layer)
    requires AllAcceptable(a) && AllAcceptable(b)
    ensures Gens(a + b, layer) == Gens(a, layer) + Gens(b, layer)
    decreases |b|
  {
    if b == [] {
      assert a + b == a;
    } else {
      var n := |b| - 1;
      assert (a + b)[..|a + b| - 1] == a + b[..n];
      GensJoin(a, b[..n], layer);
    }
  }

  lemma TargetsJoin(a: seq<Entry>, b: seq<Entry>)
    ensures Targets(a + b) <==> Targets(a) || Targets(b)
  {
    if Targets(a) {
      var i :| 0 <= i < |a| && a[i].field in IDENTITY;
      assert (a + b)[i] == a[i];
    }
    if Targets(b) {
      var i :| 0 <= i < |b| && b[i].field in IDENTITY;
      assert (a + b)[|a| + i] == b[i];
    }
  }

  /** No accepted generator map of a simulated GPU names an identity field. */
  lemma IdentitiesAreSafe(gens: map<string, Gen>, top: seq<Entry>, flags: seq<Entry>, perGpu: seq<seq<Entry>>, g: nat, count: nat, field: string)
    requires AllAcceptable(top) && AllAcceptable(flags) && AllAcceptable(EntriesOf(perGpu, g))
    requires Layered(gens, top, flags, perGpu, g) && !Refused(top, flags, perGpu, count) && field in IDENTITY
    ensures field !in gens
  {
    LastEntryWins(top, Top, field);
    LastEntryWins(flags, Flag, field);
    LastEntryWins(EntriesOf(perGpu, g), PerGpu(g), field);
    assert Winner(top, flags, perGpu, g, field).None?;
  }

  /**
   Whose override a field of GPU g gets: a flag's if one names it, else one of the GPU's own, else a top-level one, and in
   each layer the last one's; a field no layer names gets none.
   */
  lemma FlagBeatsOwnBeatsTop(gens: map<string, Gen>, top: seq<Entry>, flags: seq<Entry>, own: seq<Entry>, perGpu: seq<seq<Entry>>,
                             g: nat, field: string)
    requires own == EntriesOf(perGpu, g) && AllAcceptable(top) && AllAcceptable(flags) && AllAcceptable(own)
    requires Layered(gens, top, flags, perGpu, g)
    ensures field in gens <==> Named(flags, field) || Named(own, field) || Named(top, field)
    ensures Named(flags, field) ==> FromLast(gens[field], flags, field, Flag)
    ensures !Named(flags, field) && Named(own, field) ==> FromLast(gens[field], own, field, PerGpu(g))
    ensures !Named(flags, field) && !Named(own, field) && Named(top, field) ==> FromLast(gens[field], top, field, Top)
  {
    LastEntryWins(top, Top, field);
    LastEntryWins(flags, Flag, field);
    LastEntryWins(own, PerGpu(g), field);
    assert Winner(top, flags, perGpu, g, field) == if field in gens then Some(gens[field]) else None;
  }

  // ---------------------------------------------------------------- serving values

  /** The shortest text of a number that is not whole; a parameter, free of commas and line breaks. */
  type Shortest = real -> string

  ghost predicate Tidy(shortest: Shortest) { forall v :: Clean(shortest(v)) }

  /** math.Round: ties away from zero. */
  function RoundAway(v: real): int { if v < 0.0 then -((-v + 0.5).Floor) else (v + 0.5).Floor }

  /** A nearest whole number; from half way between two the one farther from zero. */
  lemma RoundsAway(v: real)
    ensures RoundAway(v) as real - 0.5 <= v <= RoundAway(v) as real + 0.5
    ensures v == v.Floor as real + 0.5 ==> RoundAway(v) as real == if v < 0.0 then v - 0.5 else v + 0.5
  {
    if v < 0.0 {
      RoundsUp(-v, -v.Floor - 1);
    } else {
      RoundsUp(v, v.Floor);
    }
  }

  lemma RoundsUp(w: real, n: int)
    ensures (w + 0.5).Floor as real - 0.5 <= w <= (w + 0.5).Floor as real + 0.5
    ensures w == n as real + 0.5 ==> (w + 0.5).Floor == n + 1
  {
  }

  predicate Whole(v: real) { v == v.Floor as real }

  /** The value a generator serves for the draw u. */
  function Serve(g: Gen, u: real, shortest: Shortest): string {
    match g
    case Const(value) => value
    case Draws(_, _, low, high) => Shown(low, high, low + u * (high - low), shortest)
  }

  /** How a value drawn from a range is printed. */
  function Shown(low: real, high: real, v: real, shortest: Shortest): string {
    if Whole(low) && Whole(high) then Decimal(RoundAway(v)) else shortest(v)
  }

  lemma DecimalIsClean(n: int)
    ensures Clean(Decimal(n))
  {
    NaturalDecimal(if n < 0 then -n else n);
  }

  lemma RoundWithin(v: real, low: int, high: int)
    requires low as real <= v <= high as real
    ensures low <= RoundAway(v) <= high
  {
  }

  lemma Product(x: real, y: real)
    requires x >= 0.0 && y >= 0.0
    ensures x * y >= 0.0
  {
  }

  lemma Fraction(u: real, width: real)
    requires 0.0 <= u < 1.0 && width >= 0.0
    ensures 0.0 <= u * width <= width
  {
    Product(u, width);
    Product(1.0 - u, width);
    assert (1.0 - u) * width == width - u * width;
  }

  lemma WholeShownWithin(low: int, high: int, a: real, b: real, v: real, shortest: Shortest) returns (n: int)
    requires a == low as real && b == high as real && a <= v <= b
    ensures Shown(a, b, v, shortest) == Decimal(n) && low <= n <= high && n as real - 0.5 <= v <= n as real + 0.5
  {
    RoundWithin(v, low, high);
    n := RoundAway(v);
  }

  /** The text is the drawn value v of a range: a nearest whole number between whole bounds, else the value itself. */
  ghost predicate InRange(text: string, low: real, high: real, v: real, shortest: Shortest) {
    && low <= v <= high
    && if low == low.Floor as real && high == high.Floor as real
       then exists n: int :: text == Decimal(n) && low <= n as real <= high && n as real - 0.5 <= v <= n as real + 0.5
       else text == shortest(v)
  }

  /** The text shows what the draw u gives, u of the way from one bound to the other. */
  ghost predicate ShowsDraw(text: string, low: real, high: real, u: real, shortest: Shortest) {
    InRange(text, low, high, low + u * (high - low), shortest)
  }

  lemma ShownInRange(low: real, high: real, v: real, shortest: Shortest)
    requires low <= v <= high
    ensures InRange(Shown(low, high, v, shortest), low, high, v, shortest)
  {
    if Whole(low) && Whole(high) {
      var n := WholeShownWithin(low.Floor, high.Floor, low, high, v, shortest);
    }
  }

  /** A range serves values within it, whatever is drawn: whole ones if its bounds are whole. */
  lemma ServesWithin(g: Gen, u: real, shortest: Shortest)
    requires g.Draws? && g.low <= g.high && 0.0 <= u < 1.0
    ensures ShowsDraw(Serve(g, u, shortest), g.low, g.high, u, shortest)
  {
    var v := DrawnWithin(g.low, g.high, u);
    ServeShows(g, u, v, shortest);
    ShownInRange(g.low, g.high, v, shortest);
  }

  lemma ServeShows(g: Gen, u: real, v: real, shortest: Shortest)
    requires g.Draws? && v == g.low + u * (g.high - g.low)
    ensures Serve(g, u, shortest) == Shown(g.low, g.high, v, shortest)
  {
  }

  lemma DrawnWithin(low: real, high: real, u: real) returns (v: real)
    requires low <= high && 0.0 <= u < 1.0
    ensures v == low + u * (high - low) && low <= v <= high
  {
    var width := high - low;
    Fraction(u, width);
    v := low + u * width;
  }
}
