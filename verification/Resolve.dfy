/**
 Which fields to query and what their columns are called. Running nvidia-smi is an outcome: the discovered list, if
 any, and the output of a query for a given list, if any. Whether an exclusion pattern matches a field is a parameter.
 */
module Resolve {
  import opened Basics
  import opened Text
  import opened Csv

  /** The identity fields behind gpu_info, always queried. */
  const INFO: seq<string> := [
    "uuid", "name", "driver_model.current", "driver_model.pending", "vbios_version", "driver_version", "pci.bus_id",
    "serial", "compute_cap", "pci.sub_device_id", "index"]

  const AUTO := "AUTO"

  datatype Resolved = Resolved(query: seq<string>, returned: map<string, string>, info: seq<string>)

  /** What resolution promises to the query and the renderer. */
  ghost predicate Fit(r: Resolved) {
    && Distinct(r.query)
    && (forall f :: f in INFO ==> f in r.query)
    && r.returned.Keys == (set f | f in r.query)
    && r.info == INFO
  }

  /** The first occurrence of every field, in order. */
  function Uniques(fields: seq<string>): (u: seq<string>)
    ensures Distinct(u) && forall f :: f in u <==> f in fields
    decreases |fields|
  {
    if fields == [] then []
    else
      var n := |fields| - 1;
      var earlier := Uniques(fields[..n]);
      assert forall f :: f in fields <==> f in fields[..n] || f == fields[n];
      if fields[n] in earlier then earlier else earlier + [fields[n]]
  }

  /** removeDuplicates. */
  method RemoveDuplicates(fields: seq<string>) returns (uniques: seq<string>)
    ensures uniques == Uniques(fields)
  {
    var seen: set<string> := {};
    uniques := [];
    for n := 0 to |fields|
      invariant uniques == Uniques(fields[..n]) && seen == set f | f in uniques
    {
      assert fields[..n + 1][..n] == fields[..n];
      if fields[n] !in seen {
        uniques := uniques + [fields[n]];
        seen := seen + {fields[n]};
      }
    }
    assert fields[..|fields|] == fields;
  }

  predicate Before(s: seq<string>, a: string, b: string) {
    exists i, j :: 0 <= i < j < |s| && s[i] == a && s[j] == b && a !in s[..i] && b !in s[..j]
  }

  /** First-seen order survives: of two fields, the one first seen earlier still comes first. */
  lemma {:induction false} UniquesKeepOrder(fields: seq<string>, i: nat, j: nat)
    requires i < j < |Uniques(fields)|
    ensures Before(fields, Uniques(fields)[i], Uniques(fields)[j])
    decreases |fields|
  {
    var n := |fields| - 1;
    var earlier := Uniques(fields[..n]);
    var a, b := Uniques(fields)[i], Uniques(fields)[j];
    if j < |earlier| {
      UniquesKeepOrder(fields[..n], i, j);
      var k, l :| 0 <= k < l < n && fields[..n][k] == a && fields[..n][l] == b && a !in fields[..n][..k] && b !in fields[..n][..l];
      assert fields[..n][..k] == fields[..k] && fields[..n][..l] == fields[..l];
      assert fields[k] == a && fields[l] == b;
    } else {
      assert b == fields[n] && b !in fields[..n] && a == earlier[i] && a in fields[..n];
      var k := FirstAt(fields[..n], a);
      assert fields[..n][..k] == fields[..k];
      assert fields[k] == a && fields[n] == b;
    }
  }

  lemma {:induction false} FirstAt(s: seq<string>, a: string) returns (k: nat)
    requires a in s
    ensures k < |s| && s[k] == a && a !in s[..k]
    decreases |s|
  {
    var n := |s| - 1;
    if a in s[..n] {
      k := FirstAt(s[..n], a);
      assert s[..n][..k] == s[..k];
    } else {
      k := n;
    }
  }

  /** The list with the identity fields appended and duplicates gone. */
  function Required(fields: seq<string>): seq<string> { Uniques(fields + INFO) }

  /** The patterns of a raw exclusion list: its non-blank parts, trimmed. */
  function Patterns(raw: string): seq<string> { NonBlank(Split(raw, ',')) }

  function NonBlank(parts: seq<string>): seq<string>
    decreases |parts|
  {
    if parts == [] then []
    else
      var n := |parts| - 1;
      NonBlank(parts[..n]) + if Trim(parts[n]) == "" then [] else [Trim(parts[n])]
  }

  type Matcher = (string, string) -> bool

  predicate Excluded(field: string, patterns: seq<string>, matches: Matcher) {
    field !in INFO && MatchedBy(field, patterns, matches)
  }

  predicate MatchedBy(field: string, patterns: seq<string>, matches: Matcher) {
    exists i :: 0 <= i < |patterns| && matches(patterns[i], field)
  }

  /** The fields no pattern drops, in order. */
  function Kept(fields: seq<string>, patterns: seq<string>, matches: Matcher): (kept: seq<string>)
    ensures forall f :: f in kept <==> f in fields && !Excluded(f, patterns, matches)
    ensures Distinct(fields) ==> Distinct(kept)
    decreases |fields|
  {
    if fields == [] then []
    else
      var n := |fields| - 1;
      var earlier := Kept(fields[..n], patterns, matches);
      assert forall f :: f in fields <==> f in fields[..n] || f == fields[n];
      assert Distinct(fields) ==> fields[n] !in fields[..n];
      if Excluded(fields[n], patterns, matches) then earlier else earlier + [fields[n]]
  }

  /** Some part of the exclusion list, blanks around it aside and not blank itself, matches the field. */
  ghost predicate Dropped(field: string, parts: seq<string>, matches: Matcher) {
    exists i :: 0 <= i < |parts| && Trim(parts[i]) != "" && matches(Trim(parts[i]), field)
  }

  lemma {:induction false} DroppedIs(field: string, parts: seq<string>, matches: Matcher)
    ensures Dropped(field, parts, matches) <==> MatchedBy(field, NonBlank(parts), matches)
    decreases |parts|
  {
    if parts != [] {
      var n := |parts| - 1;
      DroppedIs(field, parts[..n], matches);
      OneMorePart(field, parts, matches);
      OneMorePattern(field, NonBlank(parts[..n]), NonBlank(parts), Trim(parts[n]), matches);
    }
  }

  lemma OneMorePart(field: string, parts: seq<string>, matches: Matcher)
    requires parts != []
    ensures var part := parts[|parts| - 1];
            Dropped(field, parts, matches) <==>
              Dropped(field, parts[..|parts| - 1], matches) || (Trim(part) != "" && matches(Trim(part), field))
  {
    assert forall i :: 0 <= i < |parts| - 1 ==> parts[..|parts| - 1][i] == parts[i];
  }

  lemma OneMorePattern(field: string, front: seq<string>, all: seq<string>, part: string, matches: Matcher)
    requires all == front + if part == "" then [] else [part]
    ensures MatchedBy(field, all, matches) <==> MatchedBy(field, front, matches) || (part != "" && matches(part, field))
  {
    assert forall i :: 0 <= i < |front| ==> all[i] == front[i];
    assert part != "" ==> all[|front|] == part;
  }

  method ParsePatterns(raw: string) returns (patterns: seq<string>)
    ensures patterns == Patterns(raw)
  {
    var parts := Split(raw, ',');
    patterns := [];
    for n := 0 to |parts|
      invariant patterns == NonBlank(parts[..n])
    {
      assert parts[..n + 1][..n] == parts[..n];
      var part := Trim(parts[n]);
      if part == "" {
        continue;
      }
      patterns := patterns + [part];
    }
    assert parts[..|parts|] == parts;
  }

  method MatchesAny(field: string, patterns: seq<string>, matches: Matcher) returns (yes: bool)
    ensures yes <==> MatchedBy(field, patterns, matches)
  {
    for i := 0 to |patterns|
      invariant forall k :: 0 <= k < i ==> !matches(patterns[k], field)
    {
      if matches(patterns[i], field) {
        return true;
      }
    }
    return false;
  }

  lemma {:induction false} NothingExcluded(fields: seq<string>, matches: Matcher)
    ensures Kept(fields, [], matches) == fields
    decreases |fields|
  {
    if fields != [] {
      var n := |fields| - 1;
      NothingExcluded(fields[..n], matches);
      assert !Excluded(fields[n], [], matches);
      assert fields == fields[..n] + [fields[n]];
    }
  }

  lemma ExcludedIs(field: string, raw: string, matches: Matcher)
    ensures Excluded(field, Patterns(raw), matches) <==> field !in INFO && Dropped(field, Split(raw, ','), matches)
  {
    DroppedIs(field, Split(raw, ','), matches);
  }

  lemma KeptIs(fields: seq<string>, raw: string, matches: Matcher)
    ensures forall f :: f in Kept(fields, Patterns(raw), matches) <==>
              f in fields && (f in INFO || !Dropped(f, Split(raw, ','), matches))
  {
    var kept := Kept(fields, Patterns(raw), matches);
    forall f
      ensures f in kept <==> f in fields && (f in INFO || !Dropped(f, Split(raw, ','), matches))
    {
      ExcludedIs(f, raw, matches);
    }
  }

  /** filterExcludedQFields. */
  method FilterExcluded(fields: seq<string>, excludeRaw: string, matches: Matcher) returns (kept: seq<string>)
    ensures kept == Kept(fields, Patterns(excludeRaw), matches)
    ensures forall f :: f in kept <==> f in fields && (f in INFO || !Dropped(f, Split(excludeRaw, ','), matches))
  {
    var patterns := ParsePatterns(excludeRaw);
    KeptIs(fields, excludeRaw, matches);
    if |patterns| == 0 {
      NothingExcluded(fields, matches);
      return fields;
    }
    kept := [];
    for n := 0 to |fields|
      invariant kept == Kept(fields[..n], patterns, matches)
    {
      assert fields[..n + 1][..n] == fields[..n];
      var matched := MatchesAny(fields[n], patterns, matches);
      if !matched || fields[n] in INFO {
        kept := kept + [fields[n]];
      }
    }
    assert fields[..|fields|] == fields;
  }

  /** fallbackRFields: the error is the first field the built-in list does not know. */
  method FallbackRFields(fields: seq<string>, builtin: map<string, string>) returns (r: Result<seq<string>, string>)
    ensures r.Ok? <==> forall f :: f in fields ==> f in builtin
    ensures r.Ok? ==> |r.value| == |fields| && forall i :: 0 <= i < |fields| ==> r.value[i] == builtin[fields[i]]
    ensures r.Err? ==> r.error in fields && r.error !in builtin
  {
    var rFields: seq<string> := [];
    for i := 0 to |fields|
      invariant |rFields| == i && forall k :: 0 <= k < i ==> fields[k] in builtin && rFields[k] == builtin[fields[k]]
    {
      if fields[i] !in builtin {
        return Err(fields[i]);
      }
      rFields := rFields + [builtin[fields[i]]];
    }
    return Ok(rFields);
  }

  /** What nvidia-smi answers while resolving; None where a run fails. */
  datatype Smi = Smi(discovered: Option<seq<string>>, run: seq<string> -> Option<string>)

  /** Whether the query for a list succeeds: it runs, and its output parses. */
  predicate Answers(smi: Smi, fields: seq<string>) {
    smi.run(fields).Some?
    && var output := Trim(smi.run(fields).value);
       |Fields(Lines(output)[0])| == |fields| && AllFit(output, |fields|, |Lines(output)|)
  }

  /** queryRFields. */
  method QueryRFields(fields: seq<string>, smi: Smi, builtin: map<string, string>) returns (r: Result<seq<string>, string>)
    ensures r.Err? <==> !Answers(smi, fields) && exists f :: f in fields && f !in builtin
    ensures r.Err? ==> r.error in fields && r.error !in builtin
    ensures r.Ok? ==> |r.value| == |fields|
    ensures Answers(smi, fields) ==> r == Ok(Fields(Lines(Trim(smi.run(fields).value))[0]))
    ensures r.Ok? && !Answers(smi, fields) ==> forall i :: 0 <= i < |fields| ==> fields[i] in builtin && r.value[i] == builtin[fields[i]]
  {
    match smi.run(fields)
    case None => r := FallbackRFields(fields, builtin);
    case Some(stdout) =>
      var table := ParseCsvIntoTable(Trim(stdout), fields);
      if table.Err? {
        r := FallbackRFields(fields, builtin);
      } else {
        r := Ok(table.value.rFields);
      }
  }

  /** The built-in list, in whatever order its map yields it. */
  ghost predicate Ordered(order: seq<string>, builtin: map<string, string>) {
    && Distinct(order)
    && (forall f :: f in order <==> f in builtin)
    && (forall f :: f in INFO ==> f in builtin)
  }

  /** builtinResolvedFields. */
  method BuiltinResolved(order: seq<string>, builtin: map<string, string>, excludeRaw: string, matches: Matcher)
    returns (r: Resolved)
    requires Ordered(order, builtin)
    ensures Fit(r)
    ensures r.query == Kept(order, Patterns(excludeRaw), matches)
    ensures forall f :: f in r.query ==> f in builtin && r.returned[f] == builtin[f]
  {
    var keys := FilterExcluded(order, excludeRaw, matches);
    var subset := BuiltinSubset(keys, builtin);
    return Resolved(keys, subset, INFO);
  }

  /** The compiled-in names of the fields that were kept. */
  method BuiltinSubset(keys: seq<string>, builtin: map<string, string>) returns (subset: map<string, string>)
    requires forall i :: 0 <= i < |keys| ==> keys[i] in builtin
    ensures subset.Keys == set f | f in keys
    ensures forall f :: f in subset ==> f in builtin && subset[f] == builtin[f]
  {
    subset := map[];
    for n := 0 to |keys|
      invariant subset.Keys == set f | f in keys[..n]
      invariant forall f :: f in subset ==> f in builtin && subset[f] == builtin[f]
    {
      if keys[n] in builtin {
        subset := subset[keys[n] := builtin[keys[n]]];
      }
      assert keys[..n + 1] == keys[..n] + [keys[n]];
    }
    assert keys[..|keys|] == keys;
  }

  /** The list resolution queries: the given or discovered one, normalized and filtered. */
  function Wanted(raw: string, smi: Smi, excludeRaw: string, matches: Matcher): seq<string> {
    var list := if raw == AUTO && smi.discovered.Some? then smi.discovered.value else Split(raw, ',');
    Kept(Required(list), Patterns(excludeRaw), matches)
  }

  lemma WantedIsFit(raw: string, smi: Smi, excludeRaw: string, matches: Matcher)
    ensures var q := Wanted(raw, smi, excludeRaw, matches); Distinct(q) && forall f :: f in INFO ==> f in q
  {
  }

  lemma AutoIsAlone(raw: string)
    ensures |Split(raw, ',')| == 1 && Split(raw, ',')[0] == AUTO <==> raw == AUTO
  {
    if raw == AUTO {
      SplitWhole(raw, ',');
    }
    JoinSplit(raw, ',');
  }

  /**
   ResolveFields. Whatever the driver answers, a resolved list is duplicate-free, holds every identity field, and names
   exactly its own columns. Automatic mode always comes up; an explicit list fails exactly when the query fails and the
   built-in names do not cover the list.
   */
  method ResolveFields(
    raw: string, excludeRaw: string, smi: Smi, builtin: map<string, string>, order: seq<string>, matches: Matcher)
    returns (r: Result<Resolved, string>)
    requires Ordered(order, builtin)
    ensures r.Ok? ==> Fit(r.value)
    ensures raw == AUTO ==> r.Ok?
    ensures raw != AUTO && r.Ok? ==> r.value.query == Wanted(raw, smi, excludeRaw, matches)
    ensures var q := Wanted(raw, smi, excludeRaw, matches);
            && (raw != AUTO ==> (r.Err? <==> !Answers(smi, q) && exists f :: f in q && f !in builtin))
            && (Answers(smi, q) && (raw == AUTO ==> smi.discovered.Some?) ==>
                  r.Ok? && r.value.query == q
                  && forall i :: 0 <= i < |q| ==> r.value.returned[q[i]] == Fields(Lines(Trim(smi.run(q).value))[0])[i])
            && (r.Ok? && !Answers(smi, q) ==> forall f :: f in r.value.query ==> f in builtin && r.value.returned[f] == builtin[f])
            && (r.Err? ==> r.error in q && r.error !in builtin)
  {
    var separated := Split(raw, ',');
    var fields := RemoveDuplicates(separated + INFO);
    var auto := |separated| == 1 && separated[0] == AUTO;
    AutoIsAlone(raw);
    if auto {
      if smi.discovered.None? {
        var builtinOnly := BuiltinResolved(order, builtin, excludeRaw, matches);
        return Ok(builtinOnly);
      }
      fields := RemoveDuplicates(smi.discovered.value + INFO);
    }
    fields := FilterExcluded(fields, excludeRaw, matches);
    WantedIsFit(raw, smi, excludeRaw, matches);
    var names := QueryRFields(fields, smi, builtin);
    if names.Err? {
      if auto {
        var builtinOnly := BuiltinResolved(order, builtin, excludeRaw, matches);
        return Ok(builtinOnly);
      }
      return Err(names.error);
    }
    var returned := Zip(fields, names.value);
    return Ok(Resolved(fields, returned, INFO));
  }

  method Zip(fields: seq<string>, names: seq<string>) returns (returned: map<string, string>)
    requires Distinct(fields) && |names| == |fields|
    ensures returned.Keys == (set f | f in fields) && forall i :: 0 <= i < |fields| ==> returned[fields[i]] == names[i]
  {
    returned := map[];
    for i := 0 to |fields|
      invariant returned.Keys == (set f | f in fields[..i])
      invariant forall k :: 0 <= k < i ==> fields[k] in returned && returned[fields[k]] == names[k]
    {
      returned := returned[fields[i] := names[i]];
      assert fields[..i + 1] == fields[..i] + [fields[i]];
    }
    assert fields[..|fields|] == fields;
  }

  /** ResolveFromCatalog: the same promise against a compiled-in catalog, and an error exactly for an unknown field. */
  method ResolveFromCatalog(order: seq<string>, catalog: map<string, string>, raw: string, excludeRaw: string, matches: Matcher)
    returns (r: Result<Resolved, string>)
    requires Ordered(order, catalog)
    ensures r.Ok? ==> Fit(r.value) && forall f :: f in r.value.query ==> f in catalog && r.value.returned[f] == catalog[f]
    ensures raw == AUTO ==> r.Ok? && r.value.query == Kept(order, Patterns(excludeRaw), matches)
    ensures raw != AUTO ==>
              var q := Kept(Required(Split(raw, ',')), Patterns(excludeRaw), matches);
              (r.Ok? <==> forall f :: f in q ==> f in catalog) && (r.Ok? ==> r.value.query == q)
    ensures r.Err? ==> r.error !in catalog
  {
    var separated := Split(raw, ',');
    AutoIsAlone(raw);
    var fields := order;
    if !(|separated| == 1 && separated[0] == AUTO) {
      fields := RemoveDuplicates(separated + INFO);
    }
    fields := FilterExcluded(fields, excludeRaw, matches);
    var returned := NamesIn(fields, catalog);
    if returned.Err? {
      return Err(returned.error);
    }
    return Ok(Resolved(fields, returned.value, INFO));
  }

  /** The catalogued names of a list; the error is the first field the catalog does not know. */
  method NamesIn(fields: seq<string>, catalog: map<string, string>) returns (r: Result<map<string, string>, string>)
    ensures r.Ok? <==> forall f :: f in fields ==> f in catalog
    ensures r.Ok? ==> r.value.Keys == (set f | f in fields) && forall f :: f in r.value ==> r.value[f] == catalog[f]
    ensures r.Err? ==> r.error in fields && r.error !in catalog
  {
    var returned: map<string, string> := map[];
    for n := 0 to |fields|
      invariant returned.Keys == set f | f in fields[..n]
      invariant forall f :: f in returned ==> f in catalog && returned[f] == catalog[f]
    {
      if fields[n] !in catalog {
        return Err(fields[n]);
      }
      returned := returned[fields[n] := catalog[fields[n]]];
      assert fields[..n + 1] == fields[..n] + [fields[n]];
    }
    assert fields[..|fields|] == fields;
    return Ok(returned);
  }
}
