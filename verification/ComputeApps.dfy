/** Reading the per-process query: parsed from the outside in, because a process name may hold commas. */
module ComputeApps {
  import opened Basics
  import opened Text
  import opened Numerals
  import opened Csv

  const COLUMNS := 4

  datatype App = App(uuid: string, pid: string, name: string, memory: string)

  /** NormalizeUUID. */
  function NormalizeUuid(raw: string): string { TrimPrefix(ToLower(Trim(raw)), "gpu-") }

  /** A uuid loses its GPU prefix, blanks around it and capitals; the bare form of a uuid is left as it is. */
  lemma UuidsNormalize(rest: string)
    requires Tight(rest) && rest != ""
    ensures NormalizeUuid("GPU-" + rest) == ToLower(rest)
    ensures ToLower(rest) == rest && !("gpu-" <= rest) ==> NormalizeUuid(rest) == rest
  {
    var s := "GPU-" + rest;
    TightTrims(s);
    TightTrims(rest);
    assert ToLower(s) == "gpu-" + ToLower(rest);
    PrefixTrimmed(rest, "gpu-", ToLower(rest));
  }

  /** Whether a pid cell reads as an unsigned 64-bit number. */
  predicate IsPid(s: string) { ParseUint(s, 10, UINT64).Some? }

  predicate Usable(line: string) {
    var fields := Split(line, ',');
    |fields| >= COLUMNS && IsPid(Trim(fields[1])) && NormalizeUuid(fields[0]) != ""
  }

  function AppOf(line: string): App
    requires Usable(line)
  {
    var fields := Split(line, ',');
    var n := |fields| - 1;
    App(NormalizeUuid(fields[0]), Trim(fields[1]), Trim(Join(fields[2..n], ",")), Trim(fields[n]))
  }

  /** The usable lines' processes, in order. */
  function AppsOf(lines: seq<string>): seq<App>
    decreases |lines|
  {
    if lines == [] then []
    else
      var n := |lines| - 1;
      AppsOf(lines[..n]) + if Usable(lines[n]) then [AppOf(lines[n])] else []
  }

  /** parseComputeAppRow. */
  method ParseComputeAppRow(line: string) returns (app: Option<App>)
    ensures app == if Usable(line) then Some(AppOf(line)) else None
  {
    var fields := Split(line, ',');
    if |fields| < COLUMNS {
      return None;
    }
    var pid := Trim(fields[1]);
    if ParseUint(pid, 10, UINT64).None? {
      return None;
    }
    var uuid := NormalizeUuid(fields[0]);
    if uuid == "" {
      return None;
    }
    var n := |fields| - 1;
    return Some(App(uuid, pid, Trim(Join(fields[2..n], ",")), Trim(fields[n])));
  }

  /** A blank line is no process. */
  lemma BlankUnusable(line: string)
    requires Trim(line) == ""
    ensures !Usable(line)
  {
    BlankTrims(line);
    assert ',' !in line;
    SplitWhole(line, ',');
  }

  /** ParseComputeApps: the error is the number of header columns found. */
  method ParseComputeApps(output: string) returns (r: Result<seq<App>, nat>)
    ensures Trim(output) == "" ==> r == Ok([])
    ensures Trim(output) != "" ==>
              var width := |Fields(Lines(output)[0])|;
              r == if width == COLUMNS then Ok(AppsOf(Lines(output)[1..])) else Err(width)
  {
    if Trim(output) == "" {
      return Ok([]);
    }
    var lines := Lines(output);
    if |Fields(lines[0])| != COLUMNS {
      return Err(|Fields(lines[0])|);
    }
    var apps: seq<App> := [];
    for n := 1 to |lines|
      invariant apps == AppsOf(lines[1..n])
    {
      assert lines[1..n + 1][..n - 1] == lines[1..n];
      if Trim(lines[n]) == "" {
        BlankUnusable(lines[n]);
        continue;
      }
      var app := ParseComputeAppRow(lines[n]);
      if app.None? {
        continue;
      }
      apps := apps + [app.value];
    }
    assert lines[1..|lines|] == lines[1..];
    return Ok(apps);
  }

  lemma {:induction false} AppsOfConcat(a: seq<string>, b: seq<string>)
    ensures AppsOf(a + b) == AppsOf(a) + AppsOf(b)
    decreases |b|
  {
    if b == [] {
      assert a + b == a;
    } else {
      var n := |b| - 1;
      assert (a + b)[..|a + b| - 1] == a + b[..n];
      AppsOfConcat(a, b[..n]);
    }
  }

  /** An unusable row, wherever it stands, changes no other process. */
  lemma UnusableRowsAreHarmless(a: seq<string>, bad: string, b: seq<string>)
    requires !Usable(bad)
    ensures AppsOf(a + [bad] + b) == AppsOf(a + b)
  {
    AppsOfConcat(a + [bad], b);
    AppsOfConcat(a, [bad]);
    AppsOfConcat(a, b);
    assert [bad][..0] == [] && AppsOf([]) == [];
    assert AppsOf([bad]) == [];
  }

  /** A pid cell holds no comma, and neither does its text around. */
  lemma PidHasNoComma(pid: string)
    requires IsPid(Trim(pid))
    ensures ',' !in pid
  {
    var pre, post := TrimIs(pid);
    var t := Trim(pid);
    forall i | 0 <= i < |pid|
      ensures pid[i] != ','
    {
      if i < |pre| {
        assert pid[i] == pre[i];
      } else if i < |pre| + |t| {
        assert pid[i] == t[i - |pre|] && DigitValue(t[i - |pre|]) < 10;
      } else {
        assert pid[i] == post[i - |pre| - |t|];
      }
    }
  }

  lemma SplitFront3(uuid: string, pid: string, name: string)
    requires ',' !in uuid && ',' !in pid
    ensures Split(uuid + "," + pid + "," + name, ',') == [uuid, pid] + Split(name, ',')
  {
    SplitFirst(pid, ',', name);
    SplitFirst(uuid, ',', pid + [','] + name);
    Regrouped(uuid, pid, name);
    assert [uuid] + ([pid] + Split(name, ',')) == [uuid, pid] + Split(name, ',');
  }

  lemma Regrouped(uuid: string, pid: string, name: string)
    ensures uuid + "," + pid + "," + name == uuid + [','] + (pid + [','] + name)
  {
  }

  /** A row of four cells, the third with commas of its own, splits into the outer cells and the pieces of the third. */
  lemma SplitRow4(uuid: string, pid: string, name: string, memory: string)
    requires ',' !in uuid && ',' !in pid && ',' !in memory
    ensures Split(uuid + "," + pid + "," + name + "," + memory, ',') == [uuid, pid] + Split(name, ',') + [memory]
  {
    SplitFront3(uuid, pid, name);
    SplitLast(uuid + "," + pid + "," + name, ',', memory);
  }

  /**
   Reading undoes printing: whatever commas a name holds, the process comes back with its trimmed name, pid and memory
   and its normalized uuid.
   */
  lemma NameCommasSurvive(uuid: string, pid: string, name: string, memory: string)
    requires ',' !in uuid && ',' !in memory && IsPid(Trim(pid)) && NormalizeUuid(uuid) != ""
    ensures var line := uuid + "," + pid + "," + name + "," + memory;
            Usable(line) && AppOf(line) == App(NormalizeUuid(uuid), Trim(pid), Trim(name), Trim(memory))
  {
    PidHasNoComma(pid);
    SplitRow4(uuid, pid, name, memory);
    var line := uuid + "," + pid + "," + name + "," + memory;
    var fields := Split(line, ',');
    var pieces := Split(name, ',');
    var n := |fields| - 1;
    assert fields[2..n] == pieces;
    JoinSplit(name, ',');
  }
}
