/**
 * The Datadog seed script (scripts/ingest_datadog_seed.py): each CSV row of a
 * service export becomes one integration flow per declared dependency (or
 * one flow to `external` when there is none), with defaults for missing
 * columns and a deterministic flow id.
 *
 * The SHA-1 hex digest is the parameter `digest`; the clock reading is `now`;
 * `float()` is the parameter `parseFloat` (None when Python would raise
 * ValueError).
 */
module DatadogSeed {
  import opened Common
  import opened Text

  /** One column of a `csv.DictReader` row; a missing value is None. */
  datatype Cell = Cell(header: string, value: Option<string>)

  type Row = seq<Cell>

  /** The dictionary key of a column: its header trimmed and lower-cased. */
  function HeaderKey(c: Cell): string
  {
    Lower(Trim(c.header))
  }

  /** The header keys of a row, column by column. */
  function HeaderKeys(row: Row): (ks: seq<string>)
    ensures |ks| == |row| && forall i :: 0 <= i < |row| ==> ks[i] == HeaderKey(row[i])
  {
    seq(|row|, i requires 0 <= i < |row| => HeaderKey(row[i]))
  }

  /** The value of the last of the first `n` columns whose key is `key`. */
  function LastWith(ks: seq<string>, row: Row, key: string, n: nat): Option<string>
    requires n <= |ks| == |row|
  {
    if n == 0 then None
    else if ks[n - 1] == key then row[n - 1].value
    else LastWith(ks, row, key, n - 1)
  }

  /** `LastWith` finds nothing without a matching column, and otherwise the last match's value. */
  lemma {:induction false} LastWithIsLast(ks: seq<string>, row: Row, key: string, n: nat)
    requires n <= |ks| == |row|
    ensures (forall i :: 0 <= i < n ==> ks[i] != key) ==> LastWith(ks, row, key, n).None?
    ensures forall i :: 0 <= i < n && LastKeyAt(ks, key, i, n) ==> LastWith(ks, row, key, n) == row[i].value
  {
    if n > 0 && ks[n - 1] != key {
      LastWithIsLast(ks, row, key, n - 1);
      forall i | 0 <= i < n && LastKeyAt(ks, key, i, n)
        ensures LastWith(ks, row, key, n) == row[i].value
      {
        assert i < n - 1;
        assert LastKeyAt(ks, key, i, n - 1);
      }
    }
  }

  /** Position `i` is the last of the first `n` with key `key`. */
  predicate LastKeyAt(ks: seq<string>, key: string, i: nat, n: nat)
    requires i < n <= |ks|
  {
    ks[i] == key && forall j :: i < j < n ==> ks[j] != key
  }

  /**
   * `row_lower.get(key)`: the value of the last column whose header key is
   * `key` (a later column overwrites an earlier one in the dictionary), or
   * None when no column has that key.
   */
  function Lookup(row: Row, key: string): (r: Option<string>)
    ensures (forall i :: 0 <= i < |row| ==> HeaderKey(row[i]) != key) ==> r.None?
    ensures forall i :: 0 <= i < |row| && HeaderKey(row[i]) == key &&
                        (forall j :: i < j < |row| ==> HeaderKey(row[j]) != key) ==>
                          r == row[i].value
  {
    LastWithIsLast(HeaderKeys(row), row, key, |row|);
    LastWith(HeaderKeys(row), row, key, |row|)
  }

  /** A looked-up value that Python's `or` keeps: present and non-empty. */
  predicate Truthy(v: Option<string>) { v.Some? && v.value != "" }

  /** `row_lower.get(a) or row_lower.get(b) or default`. */
  function FirstOf(row: Row, a: string, b: string, default: string): string
  {
    var x := Lookup(row, a);
    var y := Lookup(row, b);
    if Truthy(x) then x.value else if Truthy(y) then y.value else default
  }

  /** The columns of one row after the defaults are applied. */
  datatype ServiceRow = ServiceRow(
    name: string,
    owner: string,
    env: string,
    status: string,
    dependencies: string,
    latencyText: Option<string>,
    errorRateText: Option<string>)

  function Fields(row: Row): ServiceRow
  {
    var latency := FirstOf(row, "latency_ms", "latency (ms)", "");
    var errorRate := FirstOf(row, "error_rate", "error rate", "");
    ServiceRow(
      FirstOf(row, "service_name", "name", "unknown_service"),
      FirstOf(row, "team", "owner", "unassigned"),
      FirstOf(row, "env", "environment", "prod"),
      FirstOf(row, "status", "status", "healthy"),
      FirstOf(row, "dependencies", "depends_on", ""),
      if latency == "" then None else Some(latency),
      if errorRate == "" then None else Some(errorRate))
  }

  /** The dependencies: the column split on ',', each piece trimmed, the empty pieces dropped. */
  function Deps(dependencies: string): (r: seq<string>)
    ensures forall k :: 0 <= k < |r| ==> r[k] != "" && IsTrimmed(r[k]) && ',' !in r[k]
  {
    var parts := Split(dependencies, {','});
    var r := TrimmedNonEmpty(parts);
    TrimmedPiecesHaveNoSeparator(parts, ',');
    assert forall k :: 0 <= k < |r| ==> r[k] in r;
    r
  }

  lemma {:induction false} TrimmedPiecesHaveNoSeparator(parts: seq<string>, c: char)
    requires forall k :: 0 <= k < |parts| ==> c !in parts[k]
    ensures forall x :: x in TrimmedNonEmpty(parts) ==> c !in x
  {
    if |parts| > 0 {
      TrimmedPiecesHaveNoSeparator(parts[1..], c);
      var t := Trim(parts[0]);
      TrimInside(parts[0]);
    }
  }

  /** The targets the row expands to: its dependencies, or the marker `_none_` when it has none. */
  function Targets(dependencies: string): seq<string>
  {
    var deps := Deps(dependencies);
    if deps == [] then ["_none_"] else deps
  }

  function Prefix(s: string, n: nat): string
  {
    if |s| <= n then s else s[..n]
  }

  /** `f"{name}_to_{dep}_{sha1(name_to_dep)[:8]}"`. */
  function FlowId(name: string, dep: string, digest: string -> string): string
  {
    var base := name + "_to_" + dep;
    base + "_" + Prefix(digest(base), 8)
  }

  datatype Flow = Flow(
    flowId: string,
    source: string,
    systemFrom: string,
    systemTo: string,
    env: string,
    status: string,
    lastSeen: string,
    latencyMs: real,
    errorRate: real,
    ownerTeam: string,
    confidence: real)

  /** `float(text or 0)`; None when the text is not a number. */
  function Number(text: Option<string>, parseFloat: string -> Option<real>): Option<real>
  {
    if text.None? then Some(0.0) else parseFloat(text.value)
  }

  /** The flow for one target, or None when a numeric column does not parse. */
  function FlowFor(f: ServiceRow, dep: string, digest: string -> string, now: string,
                   parseFloat: string -> Option<real>): (r: Option<Flow>)
    ensures r.Some? <==> Number(f.latencyText, parseFloat).Some? && Number(f.errorRateText, parseFloat).Some?
  {
    var latency := Number(f.latencyText, parseFloat);
    var errorRate := Number(f.errorRateText, parseFloat);
    if latency.None? || errorRate.None? then None
    else
      Some(Flow(
        FlowId(f.name, dep, digest),
        "datadog",
        f.name,
        if dep != "_none_" then dep else "external",
        f.env,
        Lower(f.status),
        now + "Z",
        latency.value,
        errorRate.value,
        f.owner,
        if Lower(f.status) == "healthy" then 0.9 else 0.6))
  }

  /** The flow, or the failure, for each target in turn. */
  function TargetFlows(f: ServiceRow, targets: seq<string>, digest: string -> string, now: string,
                       parseFloat: string -> Option<real>): seq<Option<Flow>>
  {
    seq(|targets|, k requires 0 <= k < |targets| => FlowFor(f, targets[k], digest, now, parseFloat))
  }

  /** The flows one CSV row expands to: one per target, in order, or None when a numeric column does not parse. */
  function RowFlows(row: Row, digest: string -> string, now: string, parseFloat: string -> Option<real>): Option<seq<Flow>>
  {
    Collect(TargetFlows(Fields(row), Targets(Fields(row).dependencies), digest, now, parseFloat))
  }

  /**
   * `normalize_row`: one flow per target, in order; a numeric column that
   * does not parse makes `float()` raise, reported as a failure.
   */
  method NormalizeRow(row: Row, digest: string -> string, now: string, parseFloat: string -> Option<real>)
    returns (r: Result<seq<Flow>>)
    ensures r.Success? <==> RowFlows(row, digest, now, parseFloat).Some?
    ensures r.Success? ==> r.value == RowFlows(row, digest, now, parseFloat).value
  {
    var f := Fields(row);
    r := TargetsToFlows(f, Targets(f.dependencies), digest, now, parseFloat);
  }

  /** The loop of `normalize_row` over the targets of one row. */
  method TargetsToFlows(f: ServiceRow, targets: seq<string>, digest: string -> string, now: string,
                        parseFloat: string -> Option<real>)
    returns (r: Result<seq<Flow>>)
    ensures r.Success? <==> Collect(TargetFlows(f, targets, digest, now, parseFloat)).Some?
    ensures r.Success? ==> r.value == Collect(TargetFlows(f, targets, digest, now, parseFloat)).value
  {
    ghost var each := TargetFlows(f, targets, digest, now, parseFloat);
    var flows: seq<Flow> := [];
    var k := 0;
    while k < |targets|
      invariant 0 <= k <= |targets|
      invariant Collect(each[..k]) == Some(flows)
    {
      var next := k + 1;
      CollectStep(each, k, next, flows);
      var flow := FlowFor(f, targets[k], digest, now, parseFloat);
      if flow.None? {
        return Failure("ValueError: could not convert string to float");
      }
      flows := flows + [flow.value];
      k := next;
    }
    assert each[..k] == each;
    return Success(flows);
  }

  /** A row yields max(1, #deps) flows; with no dependency, its single flow goes to `external`. */
  lemma TargetCount(dependencies: string)
    ensures |Targets(dependencies)| == MaxInt(1, |Deps(dependencies)|)
    ensures Deps(dependencies) == [] ==> Targets(dependencies) == ["_none_"]
  {
  }

  /**
   * Every flow comes from Datadog, starts at the service, carries the
   * lower-cased status, and has confidence 0.9 exactly when that status is
   * `healthy` (0.6 otherwise); its target is `external` exactly for `_none_`.
   */
  lemma FlowShape(f: ServiceRow, dep: string, digest: string -> string, now: string, parseFloat: string -> Option<real>)
    requires FlowFor(f, dep, digest, now, parseFloat).Some?
    ensures var flow := FlowFor(f, dep, digest, now, parseFloat).value;
            && flow.source == "datadog"
            && flow.systemFrom == f.name
            && flow.status == Lower(f.status)
            && (flow.confidence == 0.9 <==> Lower(f.status) == "healthy")
            && (flow.confidence == 0.6 <==> Lower(f.status) != "healthy")
            && (flow.systemTo == "external" <==> dep == "_none_" || dep == "external")
            && flow.flowId == FlowId(f.name, dep, digest)
  {
  }

  /** Column defaults: a missing or empty column takes its default. */
  lemma Defaults(row: Row)
    requires forall i :: 0 <= i < |row| ==> row[i].value == None || row[i].value == Some("")
    ensures Fields(row).name == "unknown_service"
    ensures Fields(row).owner == "unassigned"
    ensures Fields(row).env == "prod"
    ensures Fields(row).status == "healthy"
    ensures Targets(Fields(row).dependencies) == ["_none_"]
  {
    NoValueLookup(row, "service_name");
    NoValueLookup(row, "name");
    NoValueLookup(row, "team");
    NoValueLookup(row, "owner");
    NoValueLookup(row, "env");
    NoValueLookup(row, "environment");
    NoValueLookup(row, "status");
    NoValueLookup(row, "dependencies");
    NoValueLookup(row, "depends_on");
    assert Split("", {','}) == [""];
  }

  /** A row whose cells are all missing or empty gives nothing Python's `or` keeps. */
  lemma NoValueLookup(row: Row, key: string)
    requires forall i :: 0 <= i < |row| ==> row[i].value == None || row[i].value == Some("")
    ensures !Truthy(Lookup(row, key))
  {
    NoValueLastWith(HeaderKeys(row), row, key, |row|);
  }

  /** Every cell of the row is missing or empty. */
  predicate NoValues(row: Row)
  {
    forall i :: 0 <= i < |row| ==> row[i].value == None || row[i].value == Some("")
  }

  lemma {:induction false} NoValueLastWith(ks: seq<string>, row: Row, key: string, n: nat)
    requires n <= |ks| == |row|
    requires NoValues(row)
    ensures !Truthy(LastWith(ks, row, key, n))
  {
    if n == 0 {
    } else if ks[n - 1] == key {
      assert row[n - 1].value == None || row[n - 1].value == Some("");
    } else {
      NoValueLastWith(ks, row, key, n - 1);
      assert LastWith(ks, row, key, n) == LastWith(ks, row, key, n - 1);
    }
  }

  /** Header matching ignores case and surrounding whitespace. */
  lemma HeaderCaseInsensitive(header: string, value: string, key: string)
    requires Lower(Trim(header)) == key
    ensures Lookup([Cell(header, Some(value))], key) == Some(value)
  {
  }

  /** Flow ids of one service are distinct for distinct dependencies (the digest has at least 8 characters). */
  lemma FlowIdsDistinct(name: string, d1: string, d2: string, digest: string -> string)
    requires |digest(name + "_to_" + d1)| >= 8 && |digest(name + "_to_" + d2)| >= 8
    requires d1 != d2
    ensures FlowId(name, d1, digest) != FlowId(name, d2, digest)
  {
    var id1 := FlowId(name, d1, digest);
    var id2 := FlowId(name, d2, digest);
    var off := |name| + 4;
    assert |id1| == off + |d1| + 9;
    assert |id2| == off + |d2| + 9;
    if |d1| == |d2| {
      var k :| 0 <= k < |d1| && d1[k] != d2[k];
      assert id1[off + k] == d1[k];
      assert id2[off + k] == d2[k];
    }
  }

  /** The command line: `--rollback`, a single CSV path, or anything else (usage message and exit). */
  datatype Command = Rollback | Ingest(path: string) | Usage

  function Dispatch(args: seq<string>): (c: Command)
    ensures c == Rollback <==> |args| == 1 && args[0] == "--rollback"
    ensures c.Ingest? <==> |args| == 1 && args[0] != "--rollback"
    ensures c.Ingest? ==> c.path == args[0]
    ensures c == Usage <==> |args| != 1
  {
    if |args| == 1 && args[0] == "--rollback" then Rollback
    else if |args| == 1 then Ingest(args[0])
    else Usage
  }

  /** How the best-effort POST of the flows to the ALE store ended; it never changes the written file. */
  datatype PostOutcome = Accepted | Rejected(status: int) | Unreachable

  datatype IngestOutcome =
    | ExitedMissingFile(message: string)
    | Crashed(error: string)
    | Wrote(flows: seq<Flow>, post: PostOutcome)

  /** The flows of all rows, concatenated in row order; None when some row fails. */
  function AllFlows(rows: seq<Row>, digest: string -> string, now: string, parseFloat: string -> Option<real>): Option<seq<Flow>>
  {
    Flatten(seq(|rows|, i requires 0 <= i < |rows| => RowFlows(rows[i], digest, now, parseFloat)))
  }

  /** A row that converts yields max(1, #deps) flows, the i-th one for the i-th target. */
  lemma RowFlowsCount(row: Row, digest: string -> string, now: string, parseFloat: string -> Option<real>)
    requires RowFlows(row, digest, now, parseFloat).Some?
    ensures var f := Fields(row);
            var flows := RowFlows(row, digest, now, parseFloat).value;
            && |flows| == MaxInt(1, |Deps(f.dependencies)|)
            && forall k :: 0 <= k < |flows| ==> Some(flows[k]) == FlowFor(f, Targets(f.dependencies)[k], digest, now, parseFloat)
  {
    TargetCount(Fields(row).dependencies);
  }

  /**
   * `ingest_data`: a missing file exits with a message before anything is
   * written; otherwise the flows of every row are appended in row order and
   * written, whatever the POST to the store then does.
   */
  method IngestData(path: string, fileExists: bool, rows: seq<Row>, digest: string -> string, now: string,
                    parseFloat: string -> Option<real>, post: PostOutcome)
    returns (outcome: IngestOutcome)
    ensures !fileExists ==> outcome == ExitedMissingFile("\U{274C} File not found: " + path)
    ensures fileExists ==> (outcome.Wrote? <==> AllFlows(rows, digest, now, parseFloat).Some?)
    ensures fileExists && outcome.Wrote? ==> outcome.flows == AllFlows(rows, digest, now, parseFloat).value && outcome.post == post
  {
    if !fileExists {
      return ExitedMissingFile("\U{274C} File not found: " + path);
    }
    ghost var each := seq(|rows|, i requires 0 <= i < |rows| => RowFlows(rows[i], digest, now, parseFloat));
    var all: seq<Flow> := [];
    var i := 0;
    while i < |rows|
      invariant 0 <= i <= |rows|
      invariant Flatten(each[..i]) == Some(all)
    {
      var next := i + 1;
      FlattenStep(each, i, next, all);
      var flows := NormalizeRow(rows[i], digest, now, parseFloat);
      if flows.Failure? {
        return Crashed(flows.error);
      }
      all := all + flows.value;
      i := next;
    }
    assert each[..i] == each;
    return Wrote(all, post);
  }
}
