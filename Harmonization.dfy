/**
 * The record layer of the harmonisation of the enterprise map. Rows of the
 * Lucid, inventory and future-state datasets become raw records keyed by a
 * normalised system name; names are matched across sources by exact key
 * or, failing that, by token overlap (Jaccard similarity). File contents
 * are parameters: a dataset that cannot be read is an empty one.
 */
module Harmonization {
  import opened Common
  import opened Text
  import Sequencer

  datatype Source = Lucid | Inventory | Future

  /** `HarmonizeMode`: "all", "current" or "future". */
  datatype Mode = All | Current | FutureState

  /** A dataset row: each present, non-null value as its `String(...)` text. */
  type Row = map<string, string>

  // ---------------------------------------------------------------- resolveField

  /** `row[key] != null && String(row[key]).trim() !== ""` */
  predicate Filled(row: Row, key: string)
  {
    key in row && Trim(row[key]) != ""
  }

  /** `resolveField`: the trimmed value of the first listed key that holds a non-blank value, else "". */
  function ResolveField(row: Row, keys: seq<string>): (r: string)
    ensures IsTrimmed(r)
    ensures r == "" <==> forall k :: 0 <= k < |keys| ==> !Filled(row, keys[k])
  {
    if |keys| == 0 then ""
    else if Filled(row, keys[0]) then Trim(row[keys[0]])
    else
      var r := ResolveField(row, keys[1..]);
      assert forall k :: 1 <= k < |keys| ==> keys[1..][k - 1] == keys[k];
      r
  }

  /** The key that wins is the first filled one: earlier keys take priority. */
  lemma {:induction false} ResolveFieldFirst(row: Row, keys: seq<string>, j: nat)
    requires j < |keys| && Filled(row, keys[j])
    requires forall i :: 0 <= i < j ==> !Filled(row, keys[i])
    ensures ResolveField(row, keys) == Trim(row[keys[j]])
    decreases j
  {
    if j > 0 {
      assert !Filled(row, keys[0]);
      assert forall i :: 0 <= i < j - 1 ==> keys[1..][i] == keys[i + 1];
      ResolveFieldFirst(row, keys[1..], j - 1);
    }
  }

  // ---------------------------------------------------------------- normalizeRecord

  const LabelKeys := ["label", "Raw_Label", "Logical_Name", "Name", "System"]
  const SystemNameKeys := ["system_name", "System", "Logical_Name", "Raw_Label", "Name"]
  const DomainKeys := ["domain", "Domain"]
  const UpstreamKeys := ["upstream", "Dependencies_Upstream"]
  const DownstreamKeys := ["downstream", "Dependencies_Downstream"]
  const StateKeys := ["state", "Disposition_Interpretation"]

  /** `s || null` */
  function OrNull(s: string): (r: Option<string>)
    ensures r.None? <==> s == ""
    ensures r.Some? ==> r.value == s
  {
    if s == "" then None else Some(s)
  }


  /**
   * `raw ? raw.split(/[,;]+/).map(trim).filter(Boolean) : []`. Splitting at
   * every single separator instead of at runs of them only adds empty
   * pieces, which the filter drops.
   */
  function SplitList(raw: string): (r: seq<string>)
    ensures forall k :: 0 <= k < |r| ==> r[k] != "" && IsTrimmed(r[k]) && ',' !in r[k] && ';' !in r[k]
  {
    if raw == "" then []
    else
      var pieces := Split(raw, {',', ';'});
      var trimmed := Sequencer.TrimEach(pieces);
      forall k | 0 <= k < |trimmed|
        ensures ',' !in trimmed[k] && ';' !in trimmed[k]
      {
        var lo := TrimSlice(pieces[k]);
        assert forall c :: c in trimmed[k] ==> c in pieces[k];
      }
      var r := Filter(trimmed, Truthy);
      assert forall k :: 0 <= k < |r| ==> r[k] in trimmed;
      r
  }

  datatype Normalized = Normalized(
    name: string,
    domain: Option<string>,
    upstream: seq<string>,
    downstream: seq<string>,
    disposition: Option<string>,
    source: Source)

  /** `normalizeRecord`: the system name, else the label, and the other fields by their header synonyms. */
  function NormalizeRecord(row: Row, source: Source): (n: Normalized)
    ensures n.name == "" <==> (forall k :: 0 <= k < |SystemNameKeys| ==> !Filled(row, SystemNameKeys[k])) &&
                               (forall k :: 0 <= k < |LabelKeys| ==> !Filled(row, LabelKeys[k]))
    ensures n.domain.Some? ==> n.domain.value != "" && IsTrimmed(n.domain.value)
  {
    var caption := ResolveField(row, LabelKeys);
    var systemName := ResolveField(row, SystemNameKeys);
    Normalized(
      if systemName != "" then systemName else caption,
      OrNull(ResolveField(row, DomainKeys)),
      SplitList(ResolveField(row, UpstreamKeys)),
      SplitList(ResolveField(row, DownstreamKeys)),
      OrNull(ResolveField(row, StateKeys)),
      source)
  }

  // ---------------------------------------------------------------- raw records

  const JunkLabels: set<string> := {"unknown", "rectangle", "page", "document", "new", "existing"}

  datatype RawRecord = RawRecord(
    key: string,
    name: string,
    domain: Option<string>,
    source: Source,
    upstream: seq<string>,
    downstream: seq<string>,
    disposition: Option<string>)

  /** `names.map(normalizeKey).filter(Boolean)` */
  function KeysOf(names: seq<string>): (r: seq<string>)
    ensures forall k :: 0 <= k < |r| ==> r[k] != "" && IsKey(r[k])
  {
    var keys := seq(|names|, i requires 0 <= i < |names| => NormalizeKey(names[i]));
    var r := Filter(keys, Truthy);
    FilteredKeys(keys, r);
    r
  }

  /** Dropping the empty keys leaves non-empty keys. */
  lemma FilteredKeys(keys: seq<string>, r: seq<string>)
    requires forall i :: 0 <= i < |keys| ==> IsKey(keys[i])
    requires r == Filter(keys, Truthy)
    ensures forall k :: 0 <= k < |r| ==> r[k] != "" && IsKey(r[k])
  {
    assert forall k :: 0 <= k < |r| ==> r[k] in keys;
  }

  /** The record one row yields: none when the name is blank, normalises to nothing or is a junk label. */
  function RecordOf(row: Row, source: Source): (r: seq<RawRecord>)
    ensures |r| <= 1
  {
    var n := NormalizeRecord(row, source);
    var key := NormalizeKey(n.name);
    if n.name == "" || key == "" || key in JunkLabels then []
    else [RawRecord(key, n.name, n.domain, source, KeysOf(n.upstream), KeysOf(n.downstream), n.disposition)]
  }

  function RecordsOf(rows: seq<Row>, source: Source): (r: seq<RawRecord>)
    ensures |r| <= |rows|
  {
    if |rows| == 0 then [] else RecordsOf(rows[..|rows| - 1], source) + RecordOf(rows[|rows| - 1], source)
  }

  datatype Dataset = Dataset(rows: seq<Row>, source: Source)

  function AllRecords(datasets: seq<Dataset>): seq<RawRecord>
  {
    if |datasets| == 0 then []
    else AllRecords(datasets[..|datasets| - 1]) + RecordsOf(datasets[|datasets| - 1].rows, datasets[|datasets| - 1].source)
  }

  /** The shape of every raw record: a usable, non-junk key of its name, usable dependency keys and a non-empty domain if any. */
  predicate WellKeyed(rec: RawRecord)
  {
    && rec.name != "" && rec.key == NormalizeKey(rec.name) && rec.key != "" && rec.key !in JunkLabels
    && (rec.domain.Some? ==> rec.domain.value != "")
    && (forall k :: 0 <= k < |rec.upstream| ==> rec.upstream[k] != "" && IsKey(rec.upstream[k]))
    && (forall k :: 0 <= k < |rec.downstream| ==> rec.downstream[k] != "" && IsKey(rec.downstream[k]))
  }

  predicate AllWellKeyed(records: seq<RawRecord>)
  {
    forall k :: 0 <= k < |records| ==> WellKeyed(records[k])
  }

  lemma WellKeyedAppend(a: seq<RawRecord>, b: seq<RawRecord>)
    requires AllWellKeyed(a) && AllWellKeyed(b)
    ensures AllWellKeyed(a + b)
  {
    assert forall k :: 0 <= k < |a + b| ==> (a + b)[k] == if k < |a| then a[k] else b[k - |a|];
  }

  lemma RecordWellKeyed(row: Row, source: Source)
    ensures AllWellKeyed(RecordOf(row, source))
    ensures forall k :: 0 <= k < |RecordOf(row, source)| ==> RecordOf(row, source)[k].source == source
  {
  }

  lemma {:induction false} RecordsWellKeyed(rows: seq<Row>, source: Source)
    ensures AllWellKeyed(RecordsOf(rows, source))
    ensures forall k :: 0 <= k < |RecordsOf(rows, source)| ==> RecordsOf(rows, source)[k].source == source
    decreases |rows|
  {
    if |rows| > 0 {
      RecordsWellKeyed(rows[..|rows| - 1], source);
      RecordWellKeyed(rows[|rows| - 1], source);
      WellKeyedAppend(RecordsOf(rows[..|rows| - 1], source), RecordOf(rows[|rows| - 1], source));
    }
  }

  /** Every record built from the datasets is well keyed: blank and junk names never get through. */
  lemma {:induction false} AllRecordsWellKeyed(datasets: seq<Dataset>)
    ensures AllWellKeyed(AllRecords(datasets))
    decreases |datasets|
  {
    if |datasets| > 0 {
      var last := datasets[|datasets| - 1];
      AllRecordsWellKeyed(datasets[..|datasets| - 1]);
      RecordsWellKeyed(last.rows, last.source);
      WellKeyedAppend(AllRecords(datasets[..|datasets| - 1]), RecordsOf(last.rows, last.source));
    }
  }

  // ---------------------------------------------------------------- parseCsvFile

  /** `row[h] = cols[idx] ?? ""` over the header: a repeated header keeps its last column. */
  function CsvRow(header: seq<string>, cols: seq<string>): (r: Row)
    ensures forall h :: h in r <==> h in header
    ensures forall h :: h in r ==> var i := Sequencer.LastHeader(header, h); r[h] == if i < |cols| then cols[i] else ""
  {
    if |header| == 0 then map[]
    else
      var n := |header| - 1;
      var init := CsvRow(header[..n], cols);
      assert forall h :: h in header <==> h in header[..n] || h == header[n];
      init[header[n] := if n < |cols| then cols[n] else ""]
  }

  /** The non-blank lines of a CSV file, or none when it cannot be read. */
  function CsvLines(text: Option<string>): seq<string>
  {
    if text.None? then [] else Filter(Sequencer.LinesOf(text.value), Sequencer.NotBlank)
  }

  /** The rows of the data lines under a header, one per line. */
  function DataRows(header: seq<string>, data: seq<string>): (rows: seq<Row>)
    ensures |rows| == |data|
  {
    if |data| == 0 then []
    else DataRows(header, data[..|data| - 1]) + [CsvRow(header, Split(data[|data| - 1], {','}))]
  }

  lemma DataRowsSnoc(header: seq<string>, data: seq<string>, i: nat)
    requires i < |data|
    ensures DataRows(header, data[..i + 1]) == DataRows(header, data[..i]) + [CsvRow(header, Split(data[i], {','}))]
  {
    assert data[..i + 1][..i] == data[..i];
  }

  /** The rows `parseCsvFile` returns: one per non-blank line after the header. */
  function CsvRows(text: Option<string>): (rows: seq<Row>)
    ensures |rows| == if |CsvLines(text)| == 0 then 0 else |CsvLines(text)| - 1
  {
    var lines := CsvLines(text);
    if |lines| == 0 then []
    else DataRows(Sequencer.TrimEach(Split(lines[0], {','})), lines[1..])
  }

  /** `parseCsvFile`: `text` is the file's content, None when it cannot be read. */
  method ParseCsvFile(text: Option<string>) returns (rows: seq<Row>)
    ensures rows == CsvRows(text)
  {
    var lines := CsvLines(text);
    if |lines| == 0 {
      return [];
    }
    var header := Sequencer.TrimEach(Split(lines[0], {','}));
    var data := lines[1..];
    rows := [];
    for i := 0 to |data|
      invariant rows == DataRows(header, data[..i])
    {
      DataRowsSnoc(header, data, i);
      rows := rows + [CsvRow(header, Split(data[i], {','}))];
    }
    assert data[..|data|] == data;
  }

  // ---------------------------------------------------------------- buildRawRecords

  datatype RawInput = RawInput(records: seq<RawRecord>, hasFuture: bool, hasCurrent: bool)

  /**
   * `buildRawRecords`: the JSON datasets (empty when missing) and the
   * parsed CSV rows of the current and future state, chosen by mode.
   */
  function BuildRawRecords(mode: Mode, lucid: seq<Row>, inventory: seq<Row>, futureJson: seq<Row>,
                           currentCsv: seq<Row>, futureCsv: seq<Row>): (r: RawInput)
    ensures r.hasCurrent <==> mode != FutureState && (|lucid| > 0 || |inventory| > 0 || |currentCsv| > 0)
    ensures r.hasFuture <==> mode != Current && (|futureJson| > 0 || |futureCsv| > 0)
  {
    var includeCurrent := mode == All || mode == Current;
    var includeFuture := mode == All || mode == FutureState;
    var datasets :=
      (if includeCurrent then [Dataset(lucid, Lucid), Dataset(inventory, Inventory)] else []) +
      (if includeFuture then [Dataset(futureJson, Future)] else []) +
      (if includeCurrent && |currentCsv| > 0 then [Dataset(currentCsv, Inventory)] else []) +
      (if includeFuture && |futureCsv| > 0 then [Dataset(futureCsv, Future)] else []);
    RawInput(AllRecords(datasets),
             includeFuture && (|futureJson| > 0 || |futureCsv| > 0),
             includeCurrent && (|lucid| > 0 || |inventory| > 0 || |currentCsv| > 0))
  }

  // ---------------------------------------------------------------- jaccard

  /** The set of the space-separated tokens of a key. */
  function Tokens(s: string): (t: set<string>)
    ensures t != {}
  {
    var parts := Split(s, {' '});
    var t := set p | p in parts;
    assert parts[0] in t;
    t
  }

  /** Two subsets of equal size are the same set. */
  lemma {:induction false} SubsetEqualCard(a: set<string>, b: set<string>)
    requires a <= b && |a| == |b|
    ensures a == b
  {
    if a != b {
      assert exists x :: x in b && x !in a;
      var x :| x in b && x !in a;
      Sequencer.SubsetCard(a, b - {x});
    }
  }

  /** `jaccard`: 0 when either is empty, 1 when they are equal, else shared tokens over all tokens. */
  function Jaccard(a: string, b: string): (r: real)
    ensures 0.0 <= r <= 1.0
  {
    if a == "" || b == "" then 0.0
    else if a == b then 1.0
    else
      var inter := Tokens(a) * Tokens(b);
      var union := Tokens(a) + Tokens(b);
      Sequencer.SubsetCard(inter, union);
      assert |union| > 0 by {
        var x :| x in Tokens(a);
        assert x in union;
      }
      UnitRatio(|inter|, |union|);
      (|inter| as real) / (|union| as real)
  }

  lemma UnitRatio(n: nat, d: nat)
    requires 0 < d && n <= d
    ensures 0.0 <= (n as real) / (d as real) <= 1.0
  {
  }

  /** The score is symmetric, and 0 as soon as one side is empty. */
  lemma JaccardSymmetric(a: string, b: string)
    ensures Jaccard(a, b) == Jaccard(b, a)
    ensures a == "" || b == "" ==> Jaccard(a, b) == 0.0
  {
    assert Tokens(a) * Tokens(b) == Tokens(b) * Tokens(a);
    assert Tokens(a) + Tokens(b) == Tokens(b) + Tokens(a);
  }

  /** Between non-empty keys the score is 1 exactly when they have the same tokens (so always on equal keys). */
  lemma JaccardOne(a: string, b: string)
    requires a != "" && b != ""
    ensures Jaccard(a, b) == 1.0 <==> Tokens(a) == Tokens(b)
    ensures a == b ==> Jaccard(a, b) == 1.0
  {
    if a != b {
      var inter := Tokens(a) * Tokens(b);
      var union := Tokens(a) + Tokens(b);
      Sequencer.SubsetCard(Tokens(a), union);
      if |inter| == |union| {
        SubsetEqualCard(inter, union);
        assert Tokens(a) == Tokens(b) by {
          assert Tokens(a) <= inter && Tokens(b) <= inter;
        }
      }
      if Tokens(a) == Tokens(b) {
        assert inter == union;
      }
    }
  }

  /** Between non-empty keys the score is 0 exactly when they share no token. */
  lemma JaccardZero(a: string, b: string)
    requires a != "" && b != ""
    ensures Jaccard(a, b) == 0.0 <==> Tokens(a) * Tokens(b) == {}
  {
    var inter := Tokens(a) * Tokens(b);
    if a != b && inter != {} {
      var x :| x in inter;
      Sequencer.SubsetCard({x}, inter);
      Sequencer.SubsetCard(Tokens(a), Tokens(a) + Tokens(b));
    }
    if a == b {
      assert Tokens(a) <= inter;
    }
  }

  // ---------------------------------------------------------------- buildResolver

  /** The score of each key against `norm`. */
  function Scores(norm: string, keys: seq<string>): (r: seq<real>)
    ensures |r| == |keys| && forall j :: 0 <= j < |keys| ==> r[j] == Jaccard(norm, keys[j])
  {
    seq(|keys|, j requires 0 <= j < |keys| => Jaccard(norm, keys[j]))
  }

  /** The position of the first highest score; -1 when there are none. */
  function BestIndex(scores: seq<real>): (b: int)
    ensures -1 <= b < |scores|
    ensures b < 0 <==> |scores| == 0
    ensures b >= 0 ==> forall j :: 0 <= j < |scores| ==> scores[j] <= scores[b]
    ensures b >= 0 ==> forall j :: 0 <= j < b ==> scores[j] < scores[b]
  {
    if |scores| == 0 then -1
    else
      var n := |scores| - 1;
      var b := BestIndex(scores[..n]);
      assert forall j :: 0 <= j < n ==> scores[..n][j] == scores[j];
      if b < 0 || scores[n] > scores[b] then n else b
  }

  /** One more score keeps the best so far unless it is strictly higher. */
  lemma BestIndexStep(scores: seq<real>, i: nat, best: int, bestScore: real)
    requires i < |scores| && best == BestIndex(scores[..i])
    requires best >= 0 ==> bestScore == scores[best]
    ensures BestIndex(scores[..i + 1]) == if best < 0 || scores[i] > bestScore then i else best
  {
    assert scores[..i + 1][..i] == scores[..i];
  }

  /** The resolver `buildResolver(keys)` returns, applied to `candidate`. */
  function Resolve(keys: seq<string>, candidate: string): Option<string>
  {
    var norm := NormalizeKey(candidate);
    if norm in keys then Some(norm)
    else
      var b := BestIndex(Scores(norm, keys));
      if b >= 0 && Scores(norm, keys)[b] >= 0.5 then Some(keys[b]) else None
  }

  /**
   * A name whose key is known resolves to it; any other resolves to some
   * key exactly when a key scores at least 0.5 against it.
   */
  lemma ResolveCases(keys: seq<string>, candidate: string)
    ensures var norm := NormalizeKey(candidate);
            var r := Resolve(keys, candidate);
            (r.Some? ==> r.value in keys) &&
            (norm in keys ==> r == Some(norm)) &&
            (norm !in keys ==> (r.Some? <==> exists j :: 0 <= j < |keys| && Jaccard(norm, keys[j]) >= 0.5))
  {
    var norm := NormalizeKey(candidate);
    var scores := Scores(norm, keys);
    var b := BestIndex(scores);
    if norm !in keys && b >= 0 && scores[b] < 0.5 {
      assert forall j :: 0 <= j < |keys| ==> Jaccard(norm, keys[j]) < 0.5;
    }
  }

  /** A fuzzy match is the key with the highest score, the first of them on a tie. */
  lemma ResolveBest(keys: seq<string>, candidate: string)
    ensures var norm := NormalizeKey(candidate);
            var r := Resolve(keys, candidate);
            norm !in keys && r.Some? ==>
              Jaccard(norm, r.value) >= 0.5 &&
              (forall j :: 0 <= j < |keys| ==> Jaccard(norm, keys[j]) <= Jaccard(norm, r.value)) &&
              (exists j :: 0 <= j < |keys| && keys[j] == r.value &&
                 forall i :: 0 <= i < j ==> Jaccard(norm, keys[i]) < Jaccard(norm, r.value))
  {
    var norm := NormalizeKey(candidate);
    var scores := Scores(norm, keys);
    var b := BestIndex(scores);
  }

  /** The resolver's scan, keeping the first strictly better score. */
  method Resolver(keys: seq<string>, candidate: string) returns (r: Option<string>)
    ensures r == Resolve(keys, candidate)
  {
    var norm := NormalizeKey(candidate);
    if norm in keys {
      return Some(norm);
    }
    var best, bestScore := BestMatch(norm, keys);
    if best >= 0 && bestScore >= 0.5 {
      return Some(keys[best]);
    }
    return None;
  }

  /** The resolver's scan over the keys: the first highest score and where it is. */
  method BestMatch(norm: string, keys: seq<string>) returns (best: int, bestScore: real)
    ensures best == BestIndex(Scores(norm, keys))
    ensures best >= 0 ==> bestScore == Scores(norm, keys)[best]
  {
    ghost var scores := Scores(norm, keys);
    best := -1;
    bestScore := 0.0;
    for i := 0 to |keys|
      invariant best == BestIndex(scores[..i])
      invariant best >= 0 ==> bestScore == scores[best]
    {
      var score := Jaccard(norm, keys[i]);
      BestIndexStep(scores, i, best, bestScore);
      if best < 0 || score > bestScore {
        best := i;
        bestScore := score;
      }
    }
    assert scores[..|keys|] == scores;
  }

  // ---------------------------------------------------------------- stateFromPresence

  datatype State = Added | Removed | Modified | Unchanged

  function StateFromPresence(inLucid: bool, inInventory: bool, inFuture: bool, changed: bool, hasFuture: bool): State
  {
    if !hasFuture then Unchanged
    else if inFuture && !inLucid && !inInventory then Added
    else if !inFuture && (inLucid || inInventory) then Removed
    else if changed then Modified
    else Unchanged
  }

  /**
   * Without future data everything is unchanged; otherwise future-only is
   * added, current-only is removed, and a system present on both sides
   * (or on neither) is modified exactly when its domain changed.
   */
  lemma StateCases(inLucid: bool, inInventory: bool, inFuture: bool, changed: bool, hasFuture: bool)
    ensures var s := StateFromPresence(inLucid, inInventory, inFuture, changed, hasFuture);
            var current := inLucid || inInventory;
            (s == Added <==> hasFuture && inFuture && !current) &&
            (s == Removed <==> hasFuture && !inFuture && current) &&
            (s == Modified <==> hasFuture && inFuture == current && changed) &&
            (s == Unchanged <==> !hasFuture || (inFuture == current && !changed))
  {
  }
}
