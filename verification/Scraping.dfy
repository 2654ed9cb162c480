/** A whole scrape: the fields resolved, the answer parsed, the descriptors built, everything rendered. */
module Scraping {
  import opened Basics
  import opened Names
  import opened Exporter
  import opened Scrapes
  import opened Collector
  import opened Render
  import opened Due
  import opened Resolve
  import Csv

  /** The exporter's name for its status metric depends on the backend. */
  datatype Flavor = Exec | Nvml

  function StatusOf(flavor: Flavor): string { if flavor.Exec? then EXEC_STATUS else NVML_STATUS }

  /** What only the driver can promise: no two GPUs, processes, samples or MIG devices of a reading are the same. */
  ghost predicate Honest(r: Reading, f: Features) {
    && (r.table.Some? ==> DistinctRows(r.table.value.rows))
    && DistinctApps(r.apps, f.appsMig) && DistinctPcie(r.pcie) && DistinctEnergy(r.energy)
    && DistinctMig(r.mig) && DistinctXids(r.xids)
  }

  lemma ParsedIsIdentified(r: Reading, f: Features, output: string, query: seq<string>)
    requires Honest(r, f) && Distinct(query) && (r.table.Some? ==> Csv.Reads(output, query, r.table.value))
    ensures Identified(r, f)
  {
    if r.table.Some? {
      forall k | 0 <= k < |r.table.value.rows|
        ensures OwnFields(r.table.value.rows[k].cells)
      {
        ParsedRowsHaveOwnFields(output, query, r.table.value, k);
      }
    }
  }

  /** BuildFQNameAndMultiplier, as a value. */
  function NamingOf(prefix: string, snake: string -> string): Naming { (rField: string) => Derive(prefix, rField, snake) }

  lemma InfosAreLegal(infos: map<string, Info>, returned: map<string, string>, prefix: string, snake: string -> string)
    requires LegalText(prefix)
    requires forall f :: f in infos ==> f in returned && infos[f] == InfoFor(f, returned, NamingOf(prefix, snake))
    ensures forall f :: f in infos ==> LegalText(infos[f].name)
  {
    forall f | f in infos
      ensures LegalText(infos[f].name)
    {
      DerivedNamesAreLegal(prefix, returned[f], snake);
    }
  }

  /** The reading of one collection: the parsed answer, or no table where it does not parse. */
  method ReadTable(r: Reading, output: string, query: seq<string>) returns (full: Reading)
    ensures full.table.Some? ==> Csv.Reads(output, query, full.table.value)
    ensures full == r.(table := full.table)
  {
    var parsed := Csv.ParseCsvIntoTable(output, query);
    full := r.(table := if parsed.Ok? then Some(parsed.value) else None);
  }

  /**
   The guarantee a scrape rests on, from end to end. Whatever field list is configured or discovered, whatever the driver
   calls its columns and whatever it answers: if no two GPUs, processes, samples or devices of the reading are the same,
   no two metrics of the scrape have the same name and labels, and every name is legal where the prefix is.
   */
  method ScrapeOnce(
    raw: string, excludeRaw: string, smi: Smi, builtin: map<string, string>, catalog: seq<string>, matches: Matcher,
    snake: string -> string, prefix: string, flavor: Flavor, output: string, r: Reading, f: Features)
    returns (sent: Option<seq<Metric>>, ghost full: Reading, ghost infos: map<string, Info>)
    requires Ordered(catalog, builtin)
    ensures raw == AUTO ==> sent.Some?
    ensures full == r.(table := full.table)
    ensures sent.Some? && Honest(full, f) ==>
              NoDuplicates(sent.value, prefix, if flavor.Exec? then "command_exit_code" else "nvml_return_code", infos)
    ensures sent.Some? ==> forall m :: m in sent.value <==> IsDue(m, full, f, infos)
    ensures LegalText(prefix) ==> forall q :: q in infos ==> LegalText(infos[q].name)
  {
    full, infos := r, map[];
    var naming := NamingOf(prefix, snake);
    var fields := ResolveFields(raw, excludeRaw, smi, builtin, catalog, matches);
    if fields.Err? {
      return None, full, infos;
    }
    var resolved := fields.value;
    var status := StatusOf(flavor);
    var reserved := ReservedMetricNames(prefix, status);
    var descriptors := BuildMetricInfos(resolved.query, resolved.returned, naming, reserved);
    infos := descriptors;
    if LegalText(prefix) {
      InfosAreLegal(descriptors, resolved.returned, prefix, snake);
    }
    BuiltInfosAreWellDescribed(descriptors, resolved.returned, naming, prefix, status);
    BackendStatusesAreOwn();
    var reading := ReadTable(r, output, resolved.query);
    full := reading;
    if Honest(reading, f) {
      ParsedIsIdentified(reading, f, output, resolved.query);
    }
    var metrics, order := Collect(reading, f, descriptors, prefix, status);
    sent := Some(metrics);
  }
}
