/**
 * The dataset checks of the schema validator: repeated ids, missing
 * freshness fields, and timestamps that cannot be read or that go
 * backwards. `Date.parse` is a parameter (None where it gives NaN), and
 * timestamps are whole milliseconds.
 */
module Validate {
  import opened Common
  import opened Text

  /** The fields of a dataset item the checks look at. */
  datatype Item = Item(id: Option<string>, lastUpdated: Option<string>, source: Option<string>)

  /** One warning; `Message` renders the text the validator emits. */
  datatype Warning =
    | DuplicateId(name: string, id: string, index: nat)
    | MissingLastUpdated(name: string, index: nat)
    | MissingSource(name: string, index: nat)
    | InvalidTimestamp(name: string, index: nat)
    | Regresses(name: string, index: nat)

  function Message(w: Warning): string
  {
    match w
    case DuplicateId(name, id, i) => name + " duplicate id \"" + id + "\" at index " + NatToString(i)
    case MissingLastUpdated(name, i) => name + " index " + NatToString(i) + " missing lastUpdated"
    case MissingSource(name, i) => name + " index " + NatToString(i) + " missing source"
    case InvalidTimestamp(name, i) => name + " index " + NatToString(i) + " has invalid lastUpdated format"
    case Regresses(name, i) => name + " index " + NatToString(i) + " lastUpdated regresses (potential overwrite)"
  }

  /** A string field JavaScript treats as truthy: set and non-empty. */
  predicate Present(s: Option<string>)
  {
    s.Some? && s.value != ""
  }

  // ---------------------------------------------------------------- duplicateWarnings

  /** `item.id ?? ""` */
  function IdOf(item: Item): string
  {
    item.id.GetOr("")
  }

  predicate HasId(item: Item)
  {
    IdOf(item) != ""
  }

  /** The `seen` map's keys after the items: every non-empty id. */
  function SeenIds(items: seq<Item>): (r: set<string>)
    ensures forall x :: x in r <==> x != "" && exists j :: 0 <= j < |items| && IdOf(items[j]) == x
  {
    if |items| == 0 then {}
    else
      var init := items[..|items| - 1];
      var id := IdOf(items[|items| - 1]);
      assert forall j :: 0 <= j < |init| ==> init[j] == items[j];
      SeenIds(init) + (if id != "" then {id} else {})
  }

  /** The item at `i` repeats a non-empty id of an earlier item. */
  predicate RepeatAt(items: seq<Item>, i: nat)
    requires i < |items|
  {
    IdOf(items[i]) != "" && exists j :: 0 <= j < i && IdOf(items[j]) == IdOf(items[i])
  }

  /** The duplicate warnings for the items, in order. */
  function Duplicates(items: seq<Item>, name: string): seq<Warning>
  {
    if |items| == 0 then []
    else
      var init := items[..|items| - 1];
      var id := IdOf(items[|items| - 1]);
      Duplicates(init, name) + (if id != "" && id in SeenIds(init) then [DuplicateId(name, id, |items| - 1)] else [])
  }

  /** `duplicateWarnings` */
  method DuplicateWarnings(items: seq<Item>, name: string) returns (warnings: seq<Warning>)
    ensures warnings == Duplicates(items, name)
  {
    var seen: set<string> := {};
    warnings := [];
    for i := 0 to |items|
      invariant warnings == Duplicates(items[..i], name)
      invariant seen == SeenIds(items[..i])
    {
      assert items[..i + 1][..i] == items[..i];
      var id := IdOf(items[i]);
      if id == "" {
        continue;
      }
      if id in seen {
        warnings := warnings + [DuplicateId(name, id, i)];
      } else {
        seen := seen + {id};
      }
    }
    assert items[..|items|] == items;
  }

  /** Repeats before `n` do not depend on the items from `n` on. */
  lemma RepeatPrefix(items: seq<Item>, n: nat)
    requires n <= |items|
    ensures forall i: nat :: i < n ==> (RepeatAt(items[..n], i) <==> RepeatAt(items, i))
  {
    assert forall j :: 0 <= j < n ==> items[..n][j] == items[j];
  }

  /** The last item repeats an id exactly when that id is non-empty and already seen. */
  lemma RepeatLast(items: seq<Item>)
    requires |items| > 0
    ensures var n := |items| - 1;
            RepeatAt(items, n) <==> IdOf(items[n]) != "" && IdOf(items[n]) in SeenIds(items[..n])
  {
    var n := |items| - 1;
    assert forall j :: 0 <= j < n ==> items[..n][j] == items[j];
  }

  /** A warning that names an item repeating an earlier non-empty id, and that id. */
  predicate DuplicateOk(items: seq<Item>, name: string, w: Warning)
  {
    w.DuplicateId? && w.index < |items| && w.name == name &&
    w.id == IdOf(items[w.index]) && w.id != "" && RepeatAt(items, w.index)
  }

  /** Each duplicate warning names an item that repeats an earlier non-empty id, and that id. */
  lemma {:induction false} DuplicatesSound(items: seq<Item>, name: string)
    ensures forall k :: 0 <= k < |Duplicates(items, name)| ==>
              DuplicateOk(items, name, Duplicates(items, name)[k])
  {
    if |items| > 0 {
      var n := |items| - 1;
      var r0 := Duplicates(items[..n], name);
      var rs := Duplicates(items, name);
      DuplicatesSound(items[..n], name);
      RepeatPrefix(items, n);
      RepeatLast(items);
      forall k | 0 <= k < |rs|
        ensures DuplicateOk(items, name, rs[k])
      {
        if k < |r0| {
          assert rs[k] == r0[k] && DuplicateOk(items[..n], name, r0[k]);
          assert items[..n][r0[k].index] == items[r0[k].index];
        }
      }
    }
  }

  /** Every item that repeats an earlier non-empty id is warned about. */
  lemma {:induction false} DuplicatesComplete(items: seq<Item>, name: string)
    ensures forall i: nat :: i < |items| && RepeatAt(items, i) ==> DuplicateId(name, IdOf(items[i]), i) in Duplicates(items, name)
  {
    if |items| > 0 {
      var n := |items| - 1;
      DuplicatesComplete(items[..n], name);
      RepeatPrefix(items, n);
      RepeatLast(items);
      assert forall j :: 0 <= j < n ==> items[..n][j] == items[j];
    }
  }

  /** The warnings follow the items' order, so no item is warned about twice. */
  lemma {:induction false} DuplicatesOrdered(items: seq<Item>, name: string)
    ensures forall a, b :: 0 <= a < b < |Duplicates(items, name)| ==>
              Duplicates(items, name)[a].index < Duplicates(items, name)[b].index
  {
    if |items| > 0 {
      var n := |items| - 1;
      var r0 := Duplicates(items[..n], name);
      DuplicatesOrdered(items[..n], name);
      DuplicatesSound(items[..n], name);
      assert forall k :: 0 <= k < |r0| ==> r0[k].index < n;
    }
  }

  /** Every non-empty id is either the first of its kind or warned about: warnings plus distinct ids make all items with an id. */
  lemma {:induction false} DuplicatesCount(items: seq<Item>, name: string)
    ensures |Duplicates(items, name)| + |SeenIds(items)| == CountWhere(items, HasId)
  {
    if |items| > 0 {
      var init := items[..|items| - 1];
      DuplicatesCount(init, name);
      var id := IdOf(items[|items| - 1]);
      if id != "" && id !in SeenIds(init) {
        assert |SeenIds(init) + {id}| == |SeenIds(init)| + 1;
      } else {
        assert SeenIds(items) == SeenIds(init);
      }
    }
  }

  // ---------------------------------------------------------------- freshnessWarnings

  predicate NoLastUpdated(item: Item)
  {
    !Present(item.lastUpdated)
  }

  predicate NoSource(item: Item)
  {
    !Present(item.source)
  }

  /** The freshness warnings: per item, a missing `lastUpdated` first, then a missing `source`. */
  function Freshness(items: seq<Item>, name: string): seq<Warning>
  {
    if |items| == 0 then []
    else
      var n := |items| - 1;
      Freshness(items[..n], name) +
      (if NoLastUpdated(items[n]) then [MissingLastUpdated(name, n)] else []) +
      (if NoSource(items[n]) then [MissingSource(name, n)] else [])
  }

  /** `freshnessWarnings` */
  method FreshnessWarnings(items: seq<Item>, name: string) returns (warnings: seq<Warning>)
    ensures warnings == Freshness(items, name)
  {
    warnings := [];
    for i := 0 to |items|
      invariant warnings == Freshness(items[..i], name)
    {
      assert items[..i + 1][..i] == items[..i];
      if !Present(items[i].lastUpdated) {
        warnings := warnings + [MissingLastUpdated(name, i)];
      }
      if !Present(items[i].source) {
        warnings := warnings + [MissingSource(name, i)];
      }
    }
    assert items[..|items|] == items;
  }

  /** One warning per missing `lastUpdated` and one per missing `source` (a field absent or empty). */
  lemma {:induction false} FreshnessCount(items: seq<Item>, name: string)
    ensures |Freshness(items, name)| == CountWhere(items, NoLastUpdated) + CountWhere(items, NoSource)
  {
    if |items| > 0 {
      FreshnessCount(items[..|items| - 1], name);
    }
  }

  /** A warning that names an item lacking the field it reports. */
  predicate FreshnessOk(items: seq<Item>, name: string, w: Warning)
  {
    w.index < |items| && w.name == name &&
    ((w.MissingLastUpdated? && NoLastUpdated(items[w.index])) || (w.MissingSource? && NoSource(items[w.index])))
  }

  /** Each freshness warning reports a field the item it names lacks. */
  lemma {:induction false} FreshnessSound(items: seq<Item>, name: string)
    ensures forall k :: 0 <= k < |Freshness(items, name)| ==>
              FreshnessOk(items, name, Freshness(items, name)[k])
  {
    if |items| > 0 {
      var n := |items| - 1;
      var r0 := Freshness(items[..n], name);
      var rs := Freshness(items, name);
      FreshnessSound(items[..n], name);
      forall k | 0 <= k < |rs|
        ensures FreshnessOk(items, name, rs[k])
      {
        if k < |r0| {
          assert rs[k] == r0[k] && FreshnessOk(items[..n], name, r0[k]);
          assert items[..n][r0[k].index] == items[r0[k].index];
        }
      }
    }
  }

  /** Every missing field is reported. */
  lemma {:induction false} FreshnessComplete(items: seq<Item>, name: string)
    ensures forall i: nat :: i < |items| && NoLastUpdated(items[i]) ==> MissingLastUpdated(name, i) in Freshness(items, name)
    ensures forall i: nat :: i < |items| && NoSource(items[i]) ==> MissingSource(name, i) in Freshness(items, name)
  {
    if |items| > 0 {
      var n := |items| - 1;
      FreshnessComplete(items[..n], name);
      assert forall i :: 0 <= i < n ==> items[..n][i] == items[i];
    }
  }

  // ---------------------------------------------------------------- timestampQualityWarnings

  /** The timestamp of an item: its `lastUpdated` when present and readable. */
  function Stamp(item: Item, parse: string -> Option<int>): Option<int>
  {
    if Present(item.lastUpdated) then parse(item.lastUpdated.value) else None
  }

  /** `lastTime` after the items: the most recent readable timestamp. */
  function LastTime(items: seq<Item>, parse: string -> Option<int>): (r: Option<int>)
    ensures r.None? <==> forall j :: 0 <= j < |items| ==> Stamp(items[j], parse).None?
    ensures r.Some? ==> exists j :: 0 <= j < |items| && Stamp(items[j], parse) == r &&
                                    forall k :: j < k < |items| ==> Stamp(items[k], parse).None?
  {
    if |items| == 0 then None
    else
      var n := |items| - 1;
      assert forall j :: 0 <= j < n ==> items[..n][j] == items[j];
      var t := Stamp(items[n], parse);
      if t.Some? then t else LastTime(items[..n], parse)
  }

  /** The warning for the item at `n`, given the `lastTime` before it. */
  function QualityAt(item: Item, n: nat, last: Option<int>, parse: string -> Option<int>, name: string): seq<Warning>
  {
    if !Present(item.lastUpdated) then []
    else if parse(item.lastUpdated.value).None? then [InvalidTimestamp(name, n)]
    else if last.Some? && parse(item.lastUpdated.value).value < last.value then [Regresses(name, n)]
    else []
  }

  /** The timestamp-quality warnings, in order. */
  function TimestampQuality(items: seq<Item>, parse: string -> Option<int>, name: string): seq<Warning>
  {
    if |items| == 0 then []
    else
      var n := |items| - 1;
      TimestampQuality(items[..n], parse, name) + QualityAt(items[n], n, LastTime(items[..n], parse), parse, name)
  }

  /** `timestampQualityWarnings`; `parse` is `Date.parse`. */
  method TimestampQualityWarnings(items: seq<Item>, parse: string -> Option<int>, name: string) returns (warnings: seq<Warning>)
    ensures warnings == TimestampQuality(items, parse, name)
  {
    warnings := [];
    var lastTime: Option<int> := None;
    for i := 0 to |items|
      invariant warnings == TimestampQuality(items[..i], parse, name)
      invariant lastTime == LastTime(items[..i], parse)
    {
      assert items[..i + 1][..i] == items[..i];
      if !Present(items[i].lastUpdated) {
        continue;
      }
      var ts := parse(items[i].lastUpdated.value);
      if ts.None? {
        warnings := warnings + [InvalidTimestamp(name, i)];
        continue;
      }
      if lastTime.Some? && ts.value < lastTime.value {
        warnings := warnings + [Regresses(name, i)];
      }
      lastTime := ts;
    }
    assert items[..|items|] == items;
  }

  /** The item at `i` has a readable timestamp earlier than the latest readable one before it. */
  predicate RegressAt(items: seq<Item>, i: nat, parse: string -> Option<int>)
    requires i < |items|
  {
    var t := Stamp(items[i], parse);
    var last := LastTime(items[..i], parse);
    t.Some? && last.Some? && t.value < last.value
  }

  /** The item at `i` has a `lastUpdated` that cannot be read. */
  predicate InvalidAt(items: seq<Item>, i: nat, parse: string -> Option<int>)
    requires i < |items|
  {
    Present(items[i].lastUpdated) && parse(items[i].lastUpdated.value).None?
  }

  /** Invalid and regressing items before `n` do not depend on the items from `n` on. */
  lemma QualityPrefix(items: seq<Item>, n: nat, parse: string -> Option<int>)
    requires n <= |items|
    ensures forall i: nat :: i < n ==> (InvalidAt(items[..n], i, parse) <==> InvalidAt(items, i, parse))
    ensures forall i: nat :: i < n ==> (RegressAt(items[..n], i, parse) <==> RegressAt(items, i, parse))
  {
    forall i: nat | i < n
      ensures RegressAt(items[..n], i, parse) <==> RegressAt(items, i, parse)
    {
      assert items[..n][..i] == items[..i];
    }
  }

  /** A warning that names an unreadable or a regressing timestamp. */
  predicate QualityOk(items: seq<Item>, name: string, parse: string -> Option<int>, w: Warning)
  {
    w.index < |items| && w.name == name &&
    ((w.InvalidTimestamp? && InvalidAt(items, w.index, parse)) || (w.Regresses? && RegressAt(items, w.index, parse)))
  }

  /** Each warning names an item whose timestamp cannot be read or is earlier than the latest readable one before it. */
  lemma {:induction false} TimestampQualitySound(items: seq<Item>, parse: string -> Option<int>, name: string)
    ensures forall k :: 0 <= k < |TimestampQuality(items, parse, name)| ==>
              QualityOk(items, name, parse, TimestampQuality(items, parse, name)[k])
  {
    if |items| > 0 {
      var n := |items| - 1;
      var r0 := TimestampQuality(items[..n], parse, name);
      var rs := TimestampQuality(items, parse, name);
      TimestampQualitySound(items[..n], parse, name);
      QualityPrefix(items, n, parse);
      forall k | 0 <= k < |rs|
        ensures QualityOk(items, name, parse, rs[k])
      {
        if k < |r0| {
          assert rs[k] == r0[k] && QualityOk(items[..n], name, parse, r0[k]);
        }
      }
    }
  }

  /**
   * Every unreadable timestamp and every regressing one is reported; an
   * item without `lastUpdated` never is.
   */
  lemma {:induction false} TimestampQualityComplete(items: seq<Item>, parse: string -> Option<int>, name: string)
    ensures forall i: nat :: i < |items| && InvalidAt(items, i, parse) ==> InvalidTimestamp(name, i) in TimestampQuality(items, parse, name)
    ensures forall i: nat :: i < |items| && RegressAt(items, i, parse) ==> Regresses(name, i) in TimestampQuality(items, parse, name)
  {
    if |items| > 0 {
      var n := |items| - 1;
      TimestampQualityComplete(items[..n], parse, name);
      QualityPrefix(items, n, parse);
    }
  }

  /** The warnings follow the items' order, at most one per item. */
  lemma {:induction false} TimestampQualityOrdered(items: seq<Item>, parse: string -> Option<int>, name: string)
    ensures forall a, b :: 0 <= a < b < |TimestampQuality(items, parse, name)| ==>
              TimestampQuality(items, parse, name)[a].index < TimestampQuality(items, parse, name)[b].index
  {
    if |items| > 0 {
      var n := |items| - 1;
      var r0 := TimestampQuality(items[..n], parse, name);
      TimestampQualityOrdered(items[..n], parse, name);
      TimestampQualitySound(items[..n], parse, name);
      assert forall k :: 0 <= k < |r0| ==> r0[k].index < n;
    }
  }

  /** Timestamps that never go backwards give no regression warning. */
  lemma NoRegressionWhenOrdered(items: seq<Item>, parse: string -> Option<int>, name: string)
    requires forall i, j :: 0 <= i < j < |items| && Stamp(items[i], parse).Some? && Stamp(items[j], parse).Some? ==>
               Stamp(items[i], parse).value <= Stamp(items[j], parse).value
    ensures forall k :: 0 <= k < |TimestampQuality(items, parse, name)| ==>
              !TimestampQuality(items, parse, name)[k].Regresses?
  {
    TimestampQualitySound(items, parse, name);
    forall i: nat | i < |items|
      ensures !RegressAt(items, i, parse)
    {
      var last := LastTime(items[..i], parse);
      if last.Some? {
        var j :| 0 <= j < i && Stamp(items[..i][j], parse) == last &&
                 forall k :: j < k < i ==> Stamp(items[..i][k], parse).None?;
        assert items[..i][j] == items[j];
      }
    }
  }

  // ---------------------------------------------------------------- summaryMeta and validateAll

  /** `latestUpdated` as a timestamp: the largest readable one, None when there is none. */
  function Latest(items: seq<Item>, parse: string -> Option<int>): (r: Option<int>)
    ensures r.None? <==> forall j :: 0 <= j < |items| ==> Stamp(items[j], parse).None?
    ensures r.Some? ==> (exists j :: 0 <= j < |items| && Stamp(items[j], parse) == r) &&
                        forall j :: 0 <= j < |items| && Stamp(items[j], parse).Some? ==> Stamp(items[j], parse).value <= r.value
  {
    if |items| == 0 then None
    else
      var n := |items| - 1;
      assert forall j :: 0 <= j < n ==> items[..n][j] == items[j];
      var rest := Latest(items[..n], parse);
      var t := Stamp(items[n], parse);
      if t.None? then rest
      else if rest.None? || rest.value < t.value then t
      else rest
  }

  /** The warnings `validateAll` reports for one dataset, in the order it concatenates them. */
  function DatasetWarnings(items: seq<Item>, parse: string -> Option<int>, name: string): seq<Warning>
  {
    Duplicates(items, name) + Freshness(items, name) + TimestampQuality(items, parse, name)
  }
}
