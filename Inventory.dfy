/**
 * `parseInventoryCsv` of the inventory ingestion service: a simple CSV
 * reader (split at commas, cells trimmed and unquoted), a system-name
 * column chosen from a priority list of headers, one item per non-empty
 * row, and the number of distinct system names.
 */
module Inventory {
  import opened Common
  import opened Text
  import Sequencer

  /** An inventory row: the system it names and its cells under their headers. */
  datatype Item = Item(systemName: string, raw: map<string, string>)

  // ---------------------------------------------------------------- parseCsvLine

  /** One cell: trimmed, then one pair of surrounding double quotes removed. */
  function Cell(cell: string): (r: string)
    ensures |r| <= |Trim(cell)|
    ensures forall c :: c in r ==> c in cell
  {
    var v := Trim(cell);
    TrimInside(cell);
    if |v| >= 2 && v[0] == '"' && v[|v| - 1] == '"' then
      assert forall c :: c in v[1..|v| - 1] ==> c in v;
      v[1..|v| - 1]
    else v
  }

  /** A quoted value, with blanks around it, reads back as the value. */
  lemma QuotedCell(x: string, pad: string)
    requires AllSpace(pad)
    ensures Cell(pad + ("\"" + x + "\"") + pad) == x
  {
    var q := "\"" + x + "\"";
    assert IsTrimmed(q);
    TrimPadded(pad, q, pad);
    assert q[1..|q| - 1] == x;
  }

  /** A trimmed value that is not wrapped in quotes reads back unchanged. */
  lemma PlainCell(x: string)
    requires IsTrimmed(x) && !(|x| >= 2 && x[0] == '"' && x[|x| - 1] == '"')
    ensures Cell(x) == x
  {
    TrimFixed(x);
  }

  /** `parseCsvLine`: split at every comma, each piece read as a cell. */
  function CsvLine(line: string): (r: seq<string>)
    ensures |r| == CharCount(line, {','}) + 1
    ensures forall k :: 0 <= k < |r| ==> ',' !in r[k]
  {
    var pieces := Split(line, {','});
    SplitLength(line, {','});
    seq(|pieces|, k requires 0 <= k < |pieces| => Cell(pieces[k]))
  }

  // ---------------------------------------------------------------- the name column

  /** `nameHeaderCandidates`, already lower case. */
  const Candidates: seq<string> := ["application name", "app name", "name", "vendor", "system", "application"]

  /** The position of the first candidate, in priority order, that some header equals; -1 if none does. */
  function NameColumn(lower: seq<string>, cands: seq<string>): int
  {
    if |cands| == 0 then -1
    else if FirstIndex(lower, cands[0]) != -1 then FirstIndex(lower, cands[0])
    else NameColumn(lower, cands[1..])
  }

  /**
   * The name column is the first position of the highest-priority
   * candidate that occurs among the headers; no header at all matching
   * gives -1.
   */
  lemma {:induction false} NameColumnFirst(lower: seq<string>, cands: seq<string>)
    ensures var i := NameColumn(lower, cands);
            -1 <= i < |lower| &&
            (i == -1 <==> forall k :: 0 <= k < |cands| ==> cands[k] !in lower) &&
            (i >= 0 ==> exists k :: 0 <= k < |cands| && lower[i] == cands[k] &&
                          (forall j :: 0 <= j < k ==> cands[j] !in lower) &&
                          (forall j :: 0 <= j < i ==> lower[j] != cands[k]))
    decreases |cands|
  {
    if |cands| > 0 && FirstIndex(lower, cands[0]) == -1 {
      NameColumnFirst(lower, cands[1..]);
      var i := NameColumn(lower, cands);
      assert forall k :: 1 <= k < |cands| ==> cands[1..][k - 1] == cands[k];
      if i >= 0 {
        var k :| 0 <= k < |cands[1..]| && lower[i] == cands[1..][k] &&
                 (forall j :: 0 <= j < k ==> cands[1..][j] !in lower) &&
                 (forall j :: 0 <= j < i ==> lower[j] != cands[1..][k]);
        assert lower[i] == cands[k + 1];
      }
    }
  }

  /** The candidate loop with its early `break`. */
  method FindNameColumn(lower: seq<string>) returns (nameIndex: int)
    ensures nameIndex == NameColumn(lower, Candidates)
  {
    nameIndex := -1;
    var k := 0;
    while k < |Candidates|
      invariant k <= |Candidates|
      invariant NameColumn(lower, Candidates) == NameColumn(lower, Candidates[k..])
    {
      var idx := FirstIndex(lower, Candidates[k]);
      if idx != -1 {
        nameIndex := idx;
        break;
      }
      assert Candidates[k..][1..] == Candidates[k + 1..];
      k := k + 1;
    }
  }

  // ---------------------------------------------------------------- one row

  /** `(cells[idx] ?? "").trim()` */
  function CellAt(cells: seq<string>, idx: int): string
  {
    if 0 <= idx < |cells| then Trim(cells[idx]) else ""
  }

  /** `record`: each header holds the trimmed cell below it; a repeated header keeps the last one. */
  function RecordOf(headers: seq<string>, cells: seq<string>): (r: map<string, string>)
    ensures forall h :: h in r <==> h in headers
    ensures forall h :: h in r ==> r[h] == CellAt(cells, Sequencer.LastHeader(headers, h))
  {
    if |headers| == 0 then map[]
    else
      var n := |headers| - 1;
      var init := RecordOf(headers[..n], cells);
      assert forall h :: h in headers <==> h in headers[..n] || h == headers[n];
      init[headers[n] := CellAt(cells, n)]
  }

  /** `headerCells.forEach((h, idx) => { record[h] = ... })` */
  method FillRecord(headers: seq<string>, cells: seq<string>) returns (record: map<string, string>)
    ensures record == RecordOf(headers, cells)
  {
    record := map[];
    for idx := 0 to |headers|
      invariant record == RecordOf(headers[..idx], cells)
    {
      assert headers[..idx + 1][..idx] == headers[..idx];
      record := record[headers[idx] := CellAt(cells, idx)];
    }
    assert headers[..|headers|] == headers;
  }

  predicate AllBlank(cells: seq<string>)
  {
    forall k :: 0 <= k < |cells| ==> Trim(cells[k]) == ""
  }

  /** `cells.find((c) => c.trim().length > 0)` as a position: the first non-blank cell, or -1. */
  function FilledIndex(cells: seq<string>): (r: int)
    ensures -1 <= r < |cells|
    ensures r >= 0 ==> Trim(cells[r]) != "" && forall j :: 0 <= j < r ==> Trim(cells[j]) == ""
    ensures r < 0 <==> AllBlank(cells)
  {
    if |cells| == 0 then -1
    else if Trim(cells[0]) != "" then 0
    else
      var r := FilledIndex(cells[1..]);
      assert forall j :: 1 <= j < |cells| ==> cells[1..][j - 1] == cells[j];
      if r < 0 then -1 else r + 1
  }

  /** The first non-blank cell, trimmed; "" when there is none. */
  function FirstFilled(cells: seq<string>): (r: string)
    ensures r != "" <==> !AllBlank(cells)
  {
    var i := FilledIndex(cells);
    if i < 0 then "" else Trim(cells[i])
  }

  /** The system name: the name column's cell when it is non-empty, else the first non-empty cell. */
  function SystemName(cells: seq<string>, nameIndex: int): string
  {
    var named := if nameIndex >= 0 && nameIndex < |cells| && cells[nameIndex] != "" then Trim(cells[nameIndex]) else "";
    if named != "" then named else FirstFilled(cells)
  }

  /**
   * The name column wins when its cell is non-empty; otherwise the first
   * non-empty cell is used. A row that is not entirely blank always gets
   * a name.
   */
  lemma SystemNameChoice(cells: seq<string>, nameIndex: int)
    ensures 0 <= nameIndex < |cells| && Trim(cells[nameIndex]) != "" ==> SystemName(cells, nameIndex) == Trim(cells[nameIndex])
    ensures !(0 <= nameIndex < |cells| && Trim(cells[nameIndex]) != "") ==> SystemName(cells, nameIndex) == FirstFilled(cells)
    ensures SystemName(cells, nameIndex) != "" <==> !AllBlank(cells)
  {
    if 0 <= nameIndex < |cells| && Trim(cells[nameIndex]) != "" {
      assert cells[nameIndex] != "" by {
        if cells[nameIndex] == "" {
          TrimFixed("");
        }
      }
    }
  }

  // ---------------------------------------------------------------- parseInventoryCsv

  /** The item a data line yields: none when its cells are all blank. */
  function RowItems(headers: seq<string>, nameIndex: int, line: string): (r: seq<Item>)
    ensures |r| <= 1
    ensures var cells := CsvLine(line);
      && (r == [] <==> AllBlank(cells))
      && (r != [] ==> r == [Item(SystemName(cells, nameIndex), RecordOf(headers, cells))] && r[0].systemName != "")
  {
    var cells := CsvLine(line);
    SystemNameChoice(cells, nameIndex);
    if AllBlank(cells) then [] else [Item(SystemName(cells, nameIndex), RecordOf(headers, cells))]
  }

  /** The items of the data lines, in order. */
  function ItemsOf(headers: seq<string>, nameIndex: int, lines: seq<string>): (r: seq<Item>)
    ensures |r| <= |lines|
  {
    if |lines| == 0 then []
    else ItemsOf(headers, nameIndex, lines[..|lines| - 1]) + RowItems(headers, nameIndex, lines[|lines| - 1])
  }

  /** The non-blank lines of the text. */
  function InventoryLines(text: string): seq<string>
  {
    Filter(Sequencer.LinesOf(text), Sequencer.NotBlank)
  }

  /** `headerCells`: the first line's cells, trimmed again. */
  function HeaderCells(line: string): seq<string>
  {
    Sequencer.TrimEach(CsvLine(line))
  }

  function LowerEach(s: seq<string>): (r: seq<string>)
    ensures |r| == |s| && forall k :: 0 <= k < |s| ==> r[k] == Lower(s[k])
  {
    seq(|s|, k requires 0 <= k < |s| => Lower(s[k]))
  }

  /** The rows `parseInventoryCsv` returns. */
  function Items(text: string): seq<Item>
  {
    var lines := InventoryLines(text);
    if |lines| == 0 then []
    else
      var headers := HeaderCells(lines[0]);
      ItemsOf(headers, NameColumn(LowerEach(headers), Candidates), lines[1..])
  }

  /** The distinct non-empty system names (`systemSet`). */
  function SystemNames(rows: seq<Item>): (r: set<string>)
    ensures |r| <= |rows|
  {
    if |rows| == 0 then {}
    else
      var n := |rows| - 1;
      var init := SystemNames(rows[..n]);
      init + (if rows[n].systemName != "" then {rows[n].systemName} else {})
  }

  /** The set holds exactly the non-empty names some row carries. */
  lemma {:induction false} SystemNamesMembers(rows: seq<Item>)
    ensures forall n :: n in SystemNames(rows) <==> n != "" && exists k :: 0 <= k < |rows| && rows[k].systemName == n
  {
    if |rows| > 0 {
      var n := |rows| - 1;
      SystemNamesMembers(rows[..n]);
      assert forall k :: 0 <= k < n ==> rows[..n][k] == rows[k];
    }
  }

  lemma ItemsStep(headers: seq<string>, nameIndex: int, lines: seq<string>, i: nat)
    requires i < |lines|
    ensures ItemsOf(headers, nameIndex, lines[..i + 1]) == ItemsOf(headers, nameIndex, lines[..i]) + RowItems(headers, nameIndex, lines[i])
  {
    assert lines[..i + 1][..i] == lines[..i];
  }

  lemma SystemNamesStep(rows: seq<Item>, x: Item)
    ensures SystemNames(rows + [x]) == SystemNames(rows) + (if x.systemName != "" then {x.systemName} else {})
  {
    assert (rows + [x])[..|rows|] == rows;
  }

  /** The loop over the data lines: one item per line that is not blank, its name added to `systemSet`. */
  method CollectItems(headerCells: seq<string>, nameIndex: int, data: seq<string>)
    returns (rows: seq<Item>, systemSet: set<string>)
    ensures rows == ItemsOf(headerCells, nameIndex, data)
    ensures systemSet == SystemNames(rows)
  {
    rows := [];
    systemSet := {};
    for i := 0 to |data|
      invariant rows == ItemsOf(headerCells, nameIndex, data[..i])
      invariant systemSet == SystemNames(rows)
    {
      ItemsStep(headerCells, nameIndex, data, i);
      var cells := CsvLine(data[i]);
      if AllBlank(cells) {
        continue;
      }
      var record := FillRecord(headerCells, cells);
      var systemName := SystemName(cells, nameIndex);
      if systemName != "" {
        systemSet := systemSet + {systemName};
      }
      SystemNamesStep(rows, Item(systemName, record));
      rows := rows + [Item(systemName, record)];
    }
    assert data[..|data|] == data;
  }

  /** `parseInventoryCsv`: the header line, the name column, then the data lines. */
  method ParseInventoryCsv(text: string) returns (rows: seq<Item>, uniqueSystems: nat)
    ensures rows == Items(text)
    ensures uniqueSystems == |SystemNames(rows)|
  {
    var lines := InventoryLines(text);
    if |lines| == 0 {
      return [], 0;
    }
    var headerCells := HeaderCells(lines[0]);
    var lowerHeaders := LowerEach(headerCells);
    var nameIndex := FindNameColumn(lowerHeaders);
    var systemSet;
    rows, systemSet := CollectItems(headerCells, nameIndex, lines[1..]);
    uniqueSystems := |systemSet|;
  }

  // ---------------------------------------------------------------- properties

  /** Text without a non-blank line gives no rows and no systems. */
  lemma EmptyInventory(text: string)
    requires forall l :: l in Sequencer.LinesOf(text) ==> Trim(l) == ""
    ensures Items(text) == [] && |SystemNames(Items(text))| == 0
  {
    FilterNone(Sequencer.LinesOf(text), Sequencer.NotBlank);
  }

  predicate AllNamed(items: seq<Item>)
  {
    forall k :: 0 <= k < |items| ==> items[k].systemName != ""
  }

  lemma NamedAppend(a: seq<Item>, b: seq<Item>)
    requires AllNamed(a) && AllNamed(b)
    ensures AllNamed(a + b)
  {
    assert forall k :: 0 <= k < |a + b| ==> (a + b)[k] == if k < |a| then a[k] else b[k - |a|];
  }

  /** Every item has a non-empty system name: a row whose cells are all blank is never kept. */
  lemma {:induction false} ItemsNamed(headers: seq<string>, nameIndex: int, lines: seq<string>)
    ensures AllNamed(ItemsOf(headers, nameIndex, lines))
    decreases |lines|
  {
    if |lines| > 0 {
      var init := lines[..|lines| - 1];
      ItemsNamed(headers, nameIndex, init);
      SystemNameChoice(CsvLine(lines[|lines| - 1]), nameIndex);
      NamedAppend(ItemsOf(headers, nameIndex, init), RowItems(headers, nameIndex, lines[|lines| - 1]));
    }
  }

  /** So the number of distinct systems is the number of distinct names among the rows, at most the row count. */
  lemma UniqueSystems(text: string)
    ensures var rows := Items(text);
            |SystemNames(rows)| <= |rows| &&
            forall n :: n in SystemNames(rows) <==> exists k :: 0 <= k < |rows| && rows[k].systemName == n
  {
    var lines := InventoryLines(text);
    if |lines| > 0 {
      var headers := HeaderCells(lines[0]);
      ItemsNamed(headers, NameColumn(LowerEach(headers), Candidates), lines[1..]);
    }
    SystemNamesMembers(Items(text));
  }
}
