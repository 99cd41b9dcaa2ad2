/**
 * The capability-map import of `useMapIntelligence`: the quoted-CSV line
 * splitter, the CSV and JSON row readers, the level parser and the
 * L1/L2/L3 tree build with its orphan issues.
 *
 * `Math.random` ids are a parameter `idFor(prefix, k)` (k is the row's
 * position); `JSON.parse` is a parameter returning `None` on a syntax error.
 */
module MapIntelligence {
  import opened Common
  import opened Text
  import Sequencer

  // ---------------------------------------------------------------- levels

  datatype Level = L1 | L2 | L3

  /** The lower-case name `LEVEL_SET` holds for each level. */
  function LevelKey(l: Level): string
  {
    match l
    case L1 => "l1"
    case L2 => "l2"
    case L3 => "l3"
  }

  /** `toLevel`: trimmed and lower-cased, one of `l1`, `l2`, `l3`; anything else (or nothing) is undefined. */
  function ToLevel(value: Option<string>): (r: Option<Level>)
    ensures r.Some? <==> value.Some? && Lower(Trim(value.value)) in {"l1", "l2", "l3"}
    ensures r.Some? ==> LevelKey(r.value) == Lower(Trim(value.value))
  {
    if value.None? || value.value == "" then None
    else
      var normalized := Lower(Trim(value.value));
      if normalized == "l1" then Some(L1)
      else if normalized == "l2" then Some(L2)
      else if normalized == "l3" then Some(L3)
      else None
  }

  /** A value whose trimmed lower-case form is a level's name reads as that level. */
  lemma ToLevelOf(s: string, l: Level)
    requires Lower(Trim(s)) == LevelKey(l)
    ensures ToLevel(Some(s)) == Some(l)
  {
  }

  /** Every level is read back from its own name, upper-cased, or with surrounding blanks. */
  lemma ToLevelName(l: Level, pad: string)
    requires AllSpace(pad)
    ensures ToLevel(Some(LevelKey(l))) == Some(l)
    ensures ToLevel(Some(Upper(LevelKey(l)))) == Some(l)
    ensures ToLevel(Some(pad + LevelKey(l) + pad)) == Some(l)
  {
    var k := LevelKey(l);
    assert |k| == 2 && k[0] == 'l' && IsDigit(k[1]);
    TrimFixed(k);
    ToLevelOf(k, l);
    var u := Upper(k);
    assert u == ['L', k[1]];
    TrimFixed(u);
    assert Lower(u) == k;
    ToLevelOf(u, l);
    TrimPadded(pad, k, pad);
    ToLevelOf(pad + k + pad, l);
  }

  // ---------------------------------------------------------------- splitCsvLine

  /**
   * The fields of the rest `s` of a line, given the field `cur` read so far
   * and whether a quote is open: a quote toggles the quoted state, a doubled
   * quote inside quotes is one literal quote, a comma outside quotes ends the
   * field, any other character is kept.
   */
  function Fields(s: string, cur: string, inQ: bool): (r: seq<string>)
    ensures |r| >= 1
    decreases |s|
  {
    if |s| == 0 then [cur]
    else if s[0] == '"' then
      if inQ && |s| > 1 && s[1] == '"' then Fields(s[2..], cur + ['"'], inQ)
      else Fields(s[1..], cur, !inQ)
    else if s[0] == ',' && !inQ then [cur] + Fields(s[1..], "", inQ)
    else Fields(s[1..], cur + [s[0]], inQ)
  }

  /** The fields of a whole line. */
  function CsvFields(line: string): seq<string>
  {
    Fields(line, "", false)
  }

  /** `splitCsvLine`: the character loop with `cur` and `inQ`. */
  method SplitCsvLine(line: string) returns (out: seq<string>)
    ensures out == CsvFields(line)
  {
    out := [];
    var cur := "";
    var inQ := false;
    var i := 0;
    while i < |line|
      invariant i <= |line|
      invariant out + Fields(line[i..], cur, inQ) == CsvFields(line)
    {
      var ch := line[i];
      if ch == '"' {
        if inQ && i + 1 < |line| && line[i + 1] == '"' {
          assert line[i..][2..] == line[i + 2..];
          cur := cur + ['"'];
          i := i + 2;
        } else {
          assert line[i..][1..] == line[i + 1..];
          inQ := !inQ;
          i := i + 1;
        }
      } else if ch == ',' && !inQ {
        assert line[i..][1..] == line[i + 1..];
        out := out + [cur];
        cur := "";
        i := i + 1;
      } else {
        assert line[i..][1..] == line[i + 1..];
        cur := cur + [ch];
        i := i + 1;
      }
    }
    out := out + [cur];
  }

  /** A line without quotes is split at every comma, like `line.split(",")`. */
  lemma {:induction false} UnquotedFields(s: string, cur: string)
    requires '"' !in s
    ensures var pieces := Split(s, {','});
            Fields(s, cur, false) == [cur + pieces[0]] + pieces[1..]
    decreases |s|
  {
    if |s| > 0 {
      assert '"' !in s[1..] by {
        assert forall c :: c in s[1..] ==> c in s;
      }
      if s[0] == ',' {
        UnquotedFields(s[1..], "");
        var rest := Split(s[1..], {','});
        var pieces := Split(s, {','});
        assert pieces == [""] + rest;
        assert pieces[0] == "" && pieces[1..] == rest;
        assert cur + pieces[0] == cur;
        assert "" + rest[0] == rest[0];
        assert Fields(s[1..], "", false) == rest;
        assert Fields(s, cur, false) == [cur] + rest;
        assert Fields(s, cur, false) == [cur + pieces[0]] + pieces[1..];
      } else {
        assert s[0] != '"' by { assert s[0] in s; }
        UnquotedFields(s[1..], cur + [s[0]]);
        var rest := Split(s[1..], {','});
        var pieces := Split(s, {','});
        assert pieces == [[s[0]] + rest[0]] + rest[1..];
        assert cur + [s[0]] + rest[0] == cur + pieces[0];
        assert Fields(s, cur, false) == [cur + [s[0]] + rest[0]] + rest[1..];
        assert Fields(s, cur, false) == [cur + pieces[0]] + pieces[1..];
      }
    } else {
      assert cur + "" == cur;
    }
  }

  /** Without quotes there is one field more than there are commas. */
  lemma UnquotedCount(line: string)
    requires '"' !in line
    ensures CsvFields(line) == Split(line, {','})
    ensures |CsvFields(line)| == CharCount(line, {','}) + 1
  {
    UnquotedFields(line, "");
    assert "" + Split(line, {','})[0] == Split(line, {','})[0];
    SplitLength(line, {','});
  }

  /** A field written for CSV: quoted, with each quote doubled. */
  function Escape(f: string): (r: string)
  {
    if |f| == 0 then "" else (if f[0] == '"' then "\"\"" else [f[0]]) + Escape(f[1..])
  }

  function Quote(f: string): string
  {
    "\"" + Escape(f) + "\""
  }

  function QuoteAll(fs: seq<string>): (r: seq<string>)
    ensures |r| == |fs| && forall k :: 0 <= k < |fs| ==> r[k] == Quote(fs[k])
  {
    seq(|fs|, k requires 0 <= k < |fs| => Quote(fs[k]))
  }

  /** Inside quotes, an escaped field and its closing quote read back as the field, commas included. */
  lemma {:induction false} EscapedField(f: string, cur: string, rest: string)
    requires rest == [] || rest[0] == ','
    ensures Fields(Escape(f) + "\"" + rest, cur, true) == Fields(rest, cur + f, false)
    decreases |f|
  {
    var s := Escape(f) + "\"" + rest;
    if |f| == 0 {
      assert s == "\"" + rest;
      assert s[1..] == rest;
      assert cur + f == cur;
    } else if f[0] == '"' {
      assert s == "\"\"" + (Escape(f[1..]) + "\"" + rest);
      assert s[2..] == Escape(f[1..]) + "\"" + rest;
      EscapedField(f[1..], cur + ['"'], rest);
      assert cur + ['"'] + f[1..] == cur + f;
    } else {
      assert s == [f[0]] + (Escape(f[1..]) + "\"" + rest);
      assert s[1..] == Escape(f[1..]) + "\"" + rest;
      EscapedField(f[1..], cur + [f[0]], rest);
      assert cur + [f[0]] + f[1..] == cur + f;
    }
  }

  /**
   * Quoting every field and joining with commas reads back as the fields:
   * commas inside quotes never split, and a doubled quote is one quote.
   */
  lemma {:induction false} QuotedRoundTrip(fs: seq<string>)
    requires |fs| >= 1
    ensures CsvFields(Join(QuoteAll(fs), ",")) == fs
    decreases |fs|
  {
    var q := QuoteAll(fs);
    var f := fs[0];
    if |fs| == 1 {
      assert Join(q, ",") == "\"" + (Escape(f) + "\"" + "");
      EscapedField(f, "", "");
      assert "" + f == f;
    } else {
      var rest := Join(q[1..], ",");
      assert q[1..] == QuoteAll(fs[1..]);
      assert Join(q, ",") == "\"" + (Escape(f) + "\"" + ("," + rest));
      EscapedField(f, "", "," + rest);
      assert ("," + rest)[1..] == rest;
      QuotedRoundTrip(fs[1..]);
      assert "" + f == f;
      assert fs == [f] + fs[1..];
    }
  }

  // ---------------------------------------------------------------- rows

  datatype Row = Row(id: Option<string>, name: string, level: Option<string>, domain: Option<string>, parent: Option<string>)

  /** `record[key]`: the trimmed cell under the last header equal to `key`, "" when there is none. */
  function Cell(header: seq<string>, cols: seq<string>, key: string): string
  {
    var i := Sequencer.LastHeader(header, key);
    if 0 <= i < |cols| then Trim(cols[i]) else ""
  }

  /** `record[k1] || record[k2] || ...`: the first non-empty cell, "" when all are empty. */
  function FirstCell(header: seq<string>, cols: seq<string>, keys: seq<string>): (r: string)
    ensures r != "" <==> exists k :: 0 <= k < |keys| && Cell(header, cols, keys[k]) != ""
    ensures r != "" ==> r == Cell(header, cols, keys[0]) || r == FirstCell(header, cols, keys[1..])
  {
    if |keys| == 0 then ""
    else
      var c := Cell(header, cols, keys[0]);
      if c != "" then c
      else
        var r := FirstCell(header, cols, keys[1..]);
        assert forall k :: 1 <= k < |keys| ==> keys[1..][k - 1] == keys[k];
        r
  }

  /** One data line read under the header. */
  function CsvRow(header: seq<string>, line: string): Row
  {
    var cols := CsvFields(line);
    Row(Defined(Cell(header, cols, "id")),
        FirstCell(header, cols, ["name", "capability", "cap"]),
        Defined(FirstCell(header, cols, ["level", "lvl", "l"])),
        Defined(FirstCell(header, cols, ["domain", "area", "group"])),
        Defined(FirstCell(header, cols, ["parent", "parent name", "parent_name"])))
  }

  /** `splitCsvLine(lines[0]).map((h) => h.trim().toLowerCase())` */
  function HeaderOf(line: string): (r: seq<string>)
    ensures |r| == |CsvFields(line)|
    ensures forall k :: 0 <= k < |r| ==> r[k] == Lower(Trim(CsvFields(line)[k]))
  {
    var cells := CsvFields(line);
    seq(|cells|, k requires 0 <= k < |cells| => Lower(Trim(cells[k])))
  }

  predicate Named(r: Row) { r.name != "" }

  /** The row of every data line, in order, before unnamed ones are dropped. */
  function CsvRows(header: seq<string>, lines: seq<string>): (all: seq<Row>)
    ensures |all| == |lines| && forall k :: 0 <= k < |all| ==> all[k] == CsvRow(header, lines[k])
  {
    seq(|lines|, k requires 0 <= k < |lines| => CsvRow(header, lines[k]))
  }

  /**
   * `parseCsv`: the non-blank lines, the first one the header, each other
   * one a row; rows without a name are dropped.
   */
  function ParseCsv(input: string): (rows: seq<Row>)
    ensures var lines := Filter(Sequencer.LinesOf(input), Sequencer.NotBlank);
            |rows| <= if |lines| == 0 then 0 else |lines| - 1
    ensures forall r :: r in rows ==> r.name != "" && Trim(r.name) == r.name
    ensures var lines := Filter(Sequencer.LinesOf(input), Sequencer.NotBlank);
            |lines| > 0 ==>
              var all := CsvRows(HeaderOf(lines[0]), lines[1..]);
              && IsSubsequence(rows, all)
              && |rows| == CountWhere(all, Named)
              && forall k :: 0 <= k < |all| && Named(all[k]) ==> all[k] in rows
  {
    var lines := Filter(Sequencer.LinesOf(input), Sequencer.NotBlank);
    if |lines| == 0 then []
    else
      var all := CsvRows(HeaderOf(lines[0]), lines[1..]);
      NamedCsvRows(HeaderOf(lines[0]), lines[1..]);
      Filter(all, Named)
  }

  /** Dropping the unnamed rows keeps every named one, and all are trimmed. */
  lemma NamedCsvRows(header: seq<string>, lines: seq<string>)
    ensures var all := CsvRows(header, lines);
      && (forall r :: r in Filter(all, Named) ==> r.name != "" && Trim(r.name) == r.name)
      && forall k :: 0 <= k < |all| && Named(all[k]) ==> all[k] in Filter(all, Named)
  {
    var all := CsvRows(header, lines);
    CsvRowsTrimmed(header, lines, all);
    FilterKeeps(all, Named);
  }

  /** The rows read from `lines` under `header` have trimmed names. */
  lemma CsvRowsTrimmed(header: seq<string>, lines: seq<string>, all: seq<Row>)
    requires |all| == |lines| && forall k :: 0 <= k < |all| ==> all[k] == CsvRow(header, lines[k])
    ensures forall r :: r in all ==> Trim(r.name) == r.name
  {
    forall r | r in all
      ensures Trim(r.name) == r.name
    {
      var k :| 0 <= k < |all| && all[k] == r;
      NameTrimmed(header, CsvFields(lines[k]), ["name", "capability", "cap"]);
    }
  }

  /** Every cell is trimmed, so the name picked is. */
  lemma {:induction false} NameTrimmed(header: seq<string>, cols: seq<string>, keys: seq<string>)
    ensures Trim(FirstCell(header, cols, keys)) == FirstCell(header, cols, keys)
    decreases |keys|
  {
    if |keys| == 0 {
      TrimFixed("");
    } else {
      var c := Cell(header, cols, keys[0]);
      if c != "" {
        var i := Sequencer.LastHeader(header, keys[0]);
        TrimIdempotent(cols[i]);
      } else {
        NameTrimmed(header, cols, keys[1..]);
      }
    }
  }

  // ---------------------------------------------------------------- parseJson

  /** `readString`: a string value that is not blank, kept untrimmed. */
  function ReadString(v: Option<Json>): (r: Option<string>)
    ensures r.Some? <==> v.Some? && v.value.JStr? && Trim(v.value.s) != ""
    ensures r.Some? ==> v.value == JStr(r.value)
  {
    if v.Some? && v.value.JStr? && Trim(v.value.s) != "" then Some(v.value.s) else None
  }

  /** The row read from an object's fields, with the given parent. */
  function RowOf(j: Json, parent: Option<string>): Row
  {
    Row(ReadString(Field(j, "id")), ReadString(Field(j, "name")).GetOr(""),
        ReadString(Field(j, "level")), ReadString(Field(j, "domain")), parent)
  }

  /** A row kept by `parseJson`: its name is a string that is not blank. */
  lemma RowOfNamed(j: Json, parent: Option<string>)
    requires RowOf(j, parent).name != ""
    ensures Field(j, "name") == Some(JStr(RowOf(j, parent).name))
    ensures Trim(RowOf(j, parent).name) != ""
  {
  }

  /** The row an array item gives: its own `parent` field is kept. */
  function ItemRow(j: Json): Row
  {
    RowOf(j, ReadString(Field(j, "parent")))
  }

  /** The row of every item, in order, before unnamed ones are dropped. */
  function ItemRows(items: seq<Json>): (all: seq<Row>)
    ensures |all| == |items| && forall k :: 0 <= k < |all| ==> all[k] == ItemRow(items[k])
  {
    seq(|items|, k requires 0 <= k < |items| => ItemRow(items[k]))
  }

  /** The items of a flat array: each object with a usable name, in order. */
  function ArrayRows(items: seq<Json>): (rows: seq<Row>)
    ensures |rows| <= |items|
    ensures forall k :: 0 <= k < |rows| ==> Trim(rows[k].name) != ""
    ensures IsSubsequence(rows, ItemRows(items))
    ensures |rows| == CountWhere(ItemRows(items), Named)
    ensures forall k :: 0 <= k < |items| && Named(ItemRow(items[k])) ==> ItemRow(items[k]) in rows
  {
    var all := ItemRows(items);
    assert forall k :: 0 <= k < |all| ==> all[k] in all;
    forall r | r in all && Named(r)
      ensures Trim(r.name) != ""
    {
      var k :| 0 <= k < |all| && all[k] == r;
      RowOfNamed(items[k], r.parent);
    }
    Filter(all, Named)
  }

  /**
   * Every row either has parent `p` or names as parent a row that comes
   * before it: a preorder listing of a tree whose root hangs under `p`.
   */
  predicate ParentsBefore(rows: seq<Row>, p: Option<string>)
  {
    forall k :: 0 <= k < |rows| ==>
      rows[k].parent == p || exists j :: 0 <= j < k && rows[k].parent == Some(rows[j].name)
  }

  lemma ParentsAppend(a: seq<Row>, b: seq<Row>, p: Option<string>)
    requires ParentsBefore(a, p) && ParentsBefore(b, p)
    ensures ParentsBefore(a + b, p)
  {
    forall k | |a| <= k < |a + b| && (a + b)[k].parent != p
      ensures exists j :: 0 <= j < k && (a + b)[k].parent == Some((a + b)[j].name)
    {
      var j :| 0 <= j < k - |a| && b[k - |a|].parent == Some(b[j].name);
      assert (a + b)[j + |a|] == b[j];
    }
    assert forall k :: 0 <= k < |a| ==> (a + b)[k] == a[k];
  }

  lemma ParentsCons(row: Row, kids: seq<Row>, p: Option<string>)
    requires row.parent == p && ParentsBefore(kids, Some(row.name))
    ensures ParentsBefore([row] + kids, p)
  {
    var rows := [row] + kids;
    forall k | 1 <= k < |rows| && rows[k].parent != p
      ensures exists j :: 0 <= j < k && rows[k].parent == Some(rows[j].name)
    {
      assert rows[k] == kids[k - 1];
      if kids[k - 1].parent == Some(row.name) {
        assert rows[0] == row;
      } else {
        var j :| 0 <= j < k - 1 && kids[k - 1].parent == Some(kids[j].name);
        assert rows[j + 1] == kids[j];
      }
    }
  }

  /** Every row's name is a string that is not blank. */
  predicate AllNamed(rows: seq<Row>)
  {
    forall k :: 0 <= k < |rows| ==> Trim(rows[k].name) != ""
  }

  lemma NamedAppend(a: seq<Row>, b: seq<Row>)
    requires AllNamed(a) && AllNamed(b)
    ensures AllNamed(a + b)
  {
    assert forall k :: 0 <= k < |a + b| ==> (a + b)[k] == if k < |a| then a[k] else b[k - |a|];
  }

  /** `Array.isArray(node.children) ? node.children : []` */
  function Kids(node: Json): (r: seq<Json>)
    ensures forall k :: 0 <= k < |r| ==> r[k] < node
  {
    if node.JObj? then
      var v := Get(node.members, "children");
      if v.Some? && v.value.JArr? then
        var i :| 0 <= i < |node.members| && node.members[i].key == "children" && node.members[i].value == v.value;
        assert node.members[i] in node.members;
        v.value.items
      else []
    else []
  }

  /** Reading a field of `null` is a TypeError in JavaScript. */
  const NullNode := "TypeError: Cannot read properties of null"

  /**
   * `walk(node, parentName)`: a node with a usable name gives its row and
   * then its children's rows, each child under the node's name; a node
   * without one gives nothing and its children are not visited.
   */
  function Walk(node: Json, parent: Option<string>): (r: Result<seq<Row>>)
    ensures r.Success? ==> ParentsBefore(r.value, parent)
    ensures r.Success? ==> AllNamed(r.value)
    ensures r.Success? && r.value != [] ==> r.value[0] == RowOf(node, parent)
    ensures node.JNull? ==> r.Failure?
    ensures r.Success? ==> (r.value == [] <==> RowOf(node, parent).name == "")
    ensures !node.JNull? && RowOf(node, parent).name != "" ==>
              var kids := WalkAll(node, Kids(node), Some(RowOf(node, parent).name));
              && (r.Success? <==> kids.Success?)
              && (r.Success? ==> r.value[1..] == kids.value)
    decreases node, 1
  {
    if node.JNull? then Failure(NullNode)
    else
      var row := RowOf(node, parent);
      if row.name == "" then Success([])
      else
        RowOfNamed(node, parent);
        var kids := WalkAll(node, Kids(node), Some(row.name));
        if kids.Failure? then kids
        else
          ParentsCons(row, kids.value, parent);
          NamedAppend([row], kids.value);
          Success([row] + kids.value)
  }

  /** `children.forEach((child) => walk(child, name))`: the first failure stops the walk. */
  function WalkAll(top: Json, items: seq<Json>, name: Option<string>): (r: Result<seq<Row>>)
    requires forall k :: 0 <= k < |items| ==> items[k] < top
    ensures r.Success? ==> ParentsBefore(r.value, name)
    ensures r.Success? ==> AllNamed(r.value)
    decreases top, 0, |items|
  {
    if |items| == 0 then Success([])
    else
      assert forall k :: 0 <= k < |items| - 1 ==> items[..|items| - 1][k] == items[k];
      var init := WalkAll(top, items[..|items| - 1], name);
      if init.Failure? then init
      else
        var last := Walk(items[|items| - 1], name);
        if last.Failure? then last
        else
          ParentsAppend(init.value, last.value, name);
          NamedAppend(init.value, last.value);
          Success(init.value + last.value)
  }

  /** Walking a list of children succeeds exactly when every child's walk does. */
  lemma {:induction false} WalkAllSucceeds(top: Json, items: seq<Json>, name: Option<string>)
    requires forall k :: 0 <= k < |items| ==> items[k] < top
    ensures WalkAll(top, items, name).Success? <==> forall k :: 0 <= k < |items| ==> Walk(items[k], name).Success?
  {
    if WalkAll(top, items, name).Success? {
      forall k | 0 <= k < |items|
        ensures Walk(items[k], name).Success?
      {
        WalkAllKeeps(top, items, name, k);
      }
    } else {
      var n := |items| - 1;
      var front := items[..n];
      assert forall k :: 0 <= k < n ==> front[k] == items[k];
      WalkAllSucceeds(top, front, name);
      if WalkAll(top, front, name).Failure? {
        var k :| 0 <= k < n && !Walk(front[k], name).Success?;
        assert front[k] == items[k];
      } else {
        assert !Walk(items[n], name).Success?;
      }
    }
  }

  /** A successful walk of the children lists every row of each child's walk. */
  lemma {:induction false} WalkAllKeeps(top: Json, items: seq<Json>, name: Option<string>, k: nat)
    requires forall i :: 0 <= i < |items| ==> items[i] < top
    requires k < |items| && WalkAll(top, items, name).Success?
    ensures Walk(items[k], name).Success?
    ensures forall x :: x in Walk(items[k], name).value ==> x in WalkAll(top, items, name).value
  {
    var n := |items| - 1;
    var front := items[..n];
    WalkAllSplit(top, items, name);
    var init := WalkAll(top, front, name);
    var last := Walk(items[n], name);
    var r := WalkAll(top, items, name);
    if k < n {
      assert front[k] == items[k];
      WalkAllKeeps(top, front, name, k);
      KeptLeft(Walk(items[k], name).value, init.value, last.value, r.value);
    } else {
      assert k == n;
      KeptRight(Walk(items[k], name).value, init.value, last.value, r.value);
    }
  }

  /** A successful walk of the children is the walk of all but the last child, then the last child's walk. */
  lemma WalkAllSplit(top: Json, items: seq<Json>, name: Option<string>)
    requires forall i :: 0 <= i < |items| ==> items[i] < top
    requires |items| > 0 && WalkAll(top, items, name).Success?
    ensures forall i :: 0 <= i < |items| - 1 ==> items[..|items| - 1][i] == items[i]
    ensures var init := WalkAll(top, items[..|items| - 1], name);
            var last := Walk(items[|items| - 1], name);
            && init.Success? && last.Success?
            && WalkAll(top, items, name).value == init.value + last.value
  {
    assert forall i :: 0 <= i < |items| - 1 ==> items[..|items| - 1][i] == items[i];
  }

  lemma KeptLeft<T>(c: seq<T>, a: seq<T>, b: seq<T>, r: seq<T>)
    requires r == a + b && forall x :: x in c ==> x in a
    ensures forall x :: x in c ==> x in r
  {
  }

  lemma KeptRight<T>(c: seq<T>, a: seq<T>, b: seq<T>, r: seq<T>)
    requires r == a + b && c == b
    ensures forall x :: x in c ==> x in r
  {
  }

  /** A successful walk of the children lists nothing but rows of the children's walks. */
  lemma WalkAllOnly(top: Json, items: seq<Json>, name: Option<string>)
    requires forall k :: 0 <= k < |items| ==> items[k] < top
    requires WalkAll(top, items, name).Success?
    ensures forall x :: x in WalkAll(top, items, name).value ==>
              exists k :: 0 <= k < |items| && Walk(items[k], name).Success? && x in Walk(items[k], name).value
  {
    forall x | x in WalkAll(top, items, name).value
      ensures exists k :: 0 <= k < |items| && Walk(items[k], name).Success? && x in Walk(items[k], name).value
    {
      var k := WalkAllSource(top, items, name, x);
    }
  }

  /** The child whose walk lists a given row of the children's walk. */
  lemma {:induction false} WalkAllSource(top: Json, items: seq<Json>, name: Option<string>, x: Row) returns (k: nat)
    requires forall i :: 0 <= i < |items| ==> items[i] < top
    requires WalkAll(top, items, name).Success? && x in WalkAll(top, items, name).value
    ensures k < |items| && Walk(items[k], name).Success? && x in Walk(items[k], name).value
  {
    var n := |items| - 1;
    var front := items[..n];
    WalkAllSplit(top, items, name);
    var init := WalkAll(top, front, name);
    if x in init.value {
      k := WalkAllSource(top, front, name, x);
      assert front[k] == items[k];
    } else {
      k := n;
    }
  }

  /** `input.replace(/^\uFEFF/, "")`: one leading byte-order mark is dropped. */
  function StripBom(input: string): (r: string)
    ensures input != [] && input[0] == '\U{FEFF}' ==> r == input[1..]
    ensures !(input != [] && input[0] == '\U{FEFF}') ==> r == input
  {
    if input != [] && input[0] == '\U{FEFF}' then input[1..] else input
  }

  const NoJson := "No JSON provided. Paste a JSON array of rows or a single tree object."
  const BadShape := "Unsupported JSON shape. Provide an array of rows or a tree object."

  /**
   * `parseJson`: blank input and a syntax error are errors; an array gives
   * its named objects; an object is walked as a tree; anything else is an
   * unsupported shape. `parse` stands for `JSON.parse`.
   */
  function ParseJson(input: string, parse: string -> Result<Json>): (r: Result<seq<Row>>)
    ensures Trim(StripBom(input)) == "" ==> r == Failure(NoJson)
    ensures Trim(StripBom(input)) != "" && parse(Trim(StripBom(input))).Failure? ==>
              r == Failure("Invalid JSON: " + parse(Trim(StripBom(input))).error)
    ensures r.Success? ==> forall k :: 0 <= k < |r.value| ==> Trim(r.value[k].name) != ""
    ensures var s := Trim(StripBom(input));
      s != "" && parse(s).Success? ==>
        match parse(s).value
        case JArr(items) => r == Success(ArrayRows(items))
        case JObj(_) => r == Walk(parse(s).value, None)
        case _ => r == Failure(BadShape)
  {
    var s := Trim(StripBom(input));
    if s == "" then Failure(NoJson)
    else
      var data := parse(s);
      if data.Failure? then Failure("Invalid JSON: " + data.error)
      else match data.value
        case JArr(items) => Success(ArrayRows(items))
        case JObj(_) => Walk(data.value, None)
        case _ => Failure(BadShape)
  }

  /** A tree object lists its rows root first, each under a row listed before it. */
  lemma TreeRowsInPreorder(input: string, parse: string -> Result<Json>)
    requires Trim(StripBom(input)) != ""
    requires parse(Trim(StripBom(input))).Success? && parse(Trim(StripBom(input))).value.JObj?
    requires ParseJson(input, parse).Success?
    ensures var rows := ParseJson(input, parse).value;
            ParentsBefore(rows, None) && (rows != [] ==> rows[0].parent == None)
  {
  }
}
