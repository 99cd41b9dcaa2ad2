/**
 * `parseLucidCsv`: a Lucid diagram export read as digital-enterprise
 * items. Rows with a line source or destination become integrations,
 * other labelled rows become systems; the document and page rows are
 * skipped.
 */
module Lucid {
  import opened Common
  import opened Text
  import Sequencer

  datatype Kind = System | Integration

  /** `DigitalEnterpriseItem` as this parser fills it (`caption` is its `label` field). */
  datatype EnterpriseItem = EnterpriseItem(
    projectId: string,
    kind: Kind,
    id: string,
    caption: string,
    sourceId: Option<string>,
    targetId: Option<string>)

  const EmptyCsv := "Lucid CSV is empty or missing header row"
  const MissingId := "Lucid CSV missing Id column"

  /** The positions of the columns the parser reads (`header.indexOf`), -1 when absent. */
  datatype Columns = Columns(id: int, name: int, src: int, dst: int, text1: int)

  function ColumnsOf(header: seq<string>): (c: Columns)
    ensures c.id == -1 <==> "Id" !in header
  {
    Columns(FirstIndex(header, "Id"), FirstIndex(header, "Name"), FirstIndex(header, "Line Source"),
            FirstIndex(header, "Line Destination"), FirstIndex(header, "Text Area 1"))
  }

  /** `splitCsvLine`: a plain split at every comma, with no quoting. */
  function Cells(line: string): (r: seq<string>)
    ensures |r| >= 1
  {
    Split(line, {','})
  }

  /** `idx >= 0 ? (row[idx] ?? "").trim() : ""` */
  function Column(row: seq<string>, idx: int): string
  {
    if 0 <= idx < |row| then Trim(row[idx]) else ""
  }

  /** `name || text1` (both already trimmed). */
  function Label(row: seq<string>, cols: Columns): string
  {
    var name := Column(row, cols.name);
    if name != "" then name else Column(row, cols.text1)
  }

  /** The label of an integration: the row's label, else `src → dst`, else whichever end is known, else `integration-<id>`. */
  function EdgeLabel(caption: string, src: string, dst: string, id: string): (r: string)
    ensures r != ""
    ensures caption != "" ==> r == caption
    ensures caption == "" && src != "" && dst != "" ==> r == src + " \U{2192} " + dst
    ensures caption == "" && (src == "") != (dst == "") ==> r == src + dst
  {
    if caption != "" then caption
    else if src != "" && dst != "" then src + " \U{2192} " + dst
    else if src != "" then src
    else if dst != "" then dst
    else "integration-" + id
  }

  predicate IsPageRow(caption: string)
  {
    Lower(caption) == "document" || Lower(caption) == "page"
  }

  /** The item one data line yields, if any. */
  function RowItem(projectId: string, cols: Columns, line: string): (r: seq<EnterpriseItem>)
    ensures |r| <= 1
  {
    var row := Cells(line);
    var id := Column(row, cols.id);
    if |row| == 0 || id == "" then []
    else
      var caption := Label(row, cols);
      var src := Column(row, cols.src);
      var dst := Column(row, cols.dst);
      if src != "" || dst != "" then
        [EnterpriseItem(projectId, Integration, "edge:" + id, EdgeLabel(caption, src, dst, id), Defined(src), Defined(dst))]
      else if caption == "" || IsPageRow(caption) then []
      else [EnterpriseItem(projectId, System, "node:" + id, caption, None, None)]
  }

  function ItemsOf(projectId: string, cols: Columns, lines: seq<string>): (r: seq<EnterpriseItem>)
    ensures |r| <= |lines|
  {
    if |lines| == 0 then []
    else ItemsOf(projectId, cols, lines[..|lines| - 1]) + RowItem(projectId, cols, lines[|lines| - 1])
  }

  predicate NonEmptyLine(l: string) { |l| > 0 }

  /** The lines of the text, each trimmed, empty ones dropped. */
  function LucidLines(text: string): seq<string>
  {
    Filter(Sequencer.TrimEach(Sequencer.LinesOf(text)), NonEmptyLine)
  }

  /** What `parseLucidCsv` returns or throws. */
  function ParseLucid(projectId: string, text: string): Result<seq<EnterpriseItem>>
  {
    var lines := LucidLines(text);
    if |lines| < 2 then Failure(EmptyCsv)
    else
      var cols := ColumnsOf(Cells(lines[0]));
      if cols.id == -1 then Failure(MissingId)
      else Success(ItemsOf(projectId, cols, lines[1..]))
  }

  lemma ItemsStep(projectId: string, cols: Columns, lines: seq<string>, i: nat)
    requires i < |lines|
    ensures ItemsOf(projectId, cols, lines[..i + 1]) == ItemsOf(projectId, cols, lines[..i]) + RowItem(projectId, cols, lines[i])
  {
    assert lines[..i + 1][..i] == lines[..i];
  }

  /** The row loop of `parseLucidCsv`, with its `continue`s. */
  method ParseLucidCsv(projectId: string, text: string) returns (r: Result<seq<EnterpriseItem>>)
    ensures r == ParseLucid(projectId, text)
  {
    var lines := LucidLines(text);
    if |lines| < 2 {
      return Failure(EmptyCsv);
    }
    var cols := ColumnsOf(Cells(lines[0]));
    if cols.id == -1 {
      return Failure(MissingId);
    }
    var items := ReadRows(projectId, cols, lines[1..]);
    return Success(items);
  }

  /** The row loop of `parseLucidCsv` over the data lines. */
  method ReadRows(projectId: string, cols: Columns, data: seq<string>) returns (items: seq<EnterpriseItem>)
    ensures items == ItemsOf(projectId, cols, data)
  {
    items := [];
    for i := 0 to |data|
      invariant items == ItemsOf(projectId, cols, data[..i])
    {
      ItemsStep(projectId, cols, data, i);
      var found := ReadRow(projectId, cols, data[i]);
      items := items + found;
    }
    assert data[..|data|] == data;
  }

  /** One pass of the row loop: each `continue` of the source is a `return` with nothing found. */
  method ReadRow(projectId: string, cols: Columns, line: string) returns (found: seq<EnterpriseItem>)
    ensures found == RowItem(projectId, cols, line)
  {
    found := [];
    var row := Cells(line);
    if |row| == 0 {
      return;
    }
    var id := Column(row, cols.id);
    if id == "" {
      return;
    }
    var caption := Label(row, cols);
    var src := Column(row, cols.src);
    var dst := Column(row, cols.dst);
    if src != "" || dst != "" {
      found := [EnterpriseItem(projectId, Integration, "edge:" + id, EdgeLabel(caption, src, dst, id), Defined(src), Defined(dst))];
      return;
    }
    if caption == "" {
      return;
    }
    var lowered := Lower(caption);
    if lowered == "document" || lowered == "page" {
      return;
    }
    found := [EnterpriseItem(projectId, System, "node:" + id, caption, None, None)];
  }

  // ---------------------------------------------------------------- properties

  /** It fails exactly when there are fewer than two non-blank lines, or when the header has no `Id` cell. */
  lemma LucidFailures(projectId: string, text: string)
    ensures ParseLucid(projectId, text) == Failure(EmptyCsv) <==> |LucidLines(text)| < 2
    ensures ParseLucid(projectId, text) == Failure(MissingId) <==>
              |LucidLines(text)| >= 2 && "Id" !in Cells(LucidLines(text)[0])
  {
  }

  /**
   * What one row yields: nothing without an Id; an integration exactly
   * when a line end is given; otherwise a system unless the label is
   * blank or names the document or a page.
   */
  lemma RowItemCases(projectId: string, cols: Columns, line: string)
    ensures var row := Cells(line);
            var id := Column(row, cols.id);
            var src := Column(row, cols.src);
            var dst := Column(row, cols.dst);
            var r := RowItem(projectId, cols, line);
            (r == [] <==> id == "" || (src == "" && dst == "" && (Label(row, cols) == "" || IsPageRow(Label(row, cols))))) &&
            (r != [] && r[0].kind == Integration <==> id != "" && (src != "" || dst != "")) &&
            (r != [] ==> r[0].id == (if r[0].kind == Integration then "edge:" else "node:") + id)
  {
  }

  /** The shape every item has: ids prefixed by kind, a non-empty label, line ends only on integrations. */
  predicate WellFormed(projectId: string, x: EnterpriseItem)
  {
    x.projectId == projectId && x.caption != "" &&
    match x.kind
    case Integration => StartsWith(x.id, "edge:") && (x.sourceId.Some? || x.targetId.Some?)
    case System => StartsWith(x.id, "node:") && !IsPageRow(x.caption) && x.sourceId.None? && x.targetId.None?
  }

  predicate AllWellFormed(projectId: string, items: seq<EnterpriseItem>)
  {
    forall k :: 0 <= k < |items| ==> WellFormed(projectId, items[k])
  }

  lemma RowWellFormed(projectId: string, cols: Columns, line: string)
    ensures AllWellFormed(projectId, RowItem(projectId, cols, line))
  {
    var r := RowItem(projectId, cols, line);
    if r != [] {
      var id := Column(Cells(line), cols.id);
      assert (r[0].id)[..5] == (if r[0].kind == Integration then "edge:" else "node:");
    }
  }

  lemma {:induction false} ItemsWellFormed(projectId: string, cols: Columns, lines: seq<string>)
    ensures AllWellFormed(projectId, ItemsOf(projectId, cols, lines))
    decreases |lines|
  {
    if |lines| > 0 {
      var init := ItemsOf(projectId, cols, lines[..|lines| - 1]);
      var last := RowItem(projectId, cols, lines[|lines| - 1]);
      ItemsWellFormed(projectId, cols, lines[..|lines| - 1]);
      RowWellFormed(projectId, cols, lines[|lines| - 1]);
      assert forall k :: 0 <= k < |init + last| ==> (init + last)[k] == if k < |init| then init[k] else last[k - |init|];
    }
  }

  /** Every item `parseLucidCsv` returns is well formed, and there is at most one per data line. */
  lemma LucidItems(projectId: string, text: string)
    ensures ParseLucid(projectId, text).Success? ==>
              AllWellFormed(projectId, ParseLucid(projectId, text).value) &&
              |ParseLucid(projectId, text).value| < |LucidLines(text)|
  {
    var lines := LucidLines(text);
    if |lines| >= 2 {
      ItemsWellFormed(projectId, ColumnsOf(Cells(lines[0])), lines[1..]);
    }
  }
}
