/**
 * `harmonizeSystems`: the raw records are merged by key into one node per
 * system (with the sources it was seen in, its domain and whether that
 * domain changed), each node gets a state and a confidence, the
 * dependency requests become de-duplicated edges between resolved keys,
 * and the mode picks the view that is returned.
 */
module HarmonizedGraph {
  import opened Common
  import opened Text
  import opened Harmonization

  /** A `byKey` entry. */
  datatype Entry = Entry(key: string, name: string, domain: Option<string>, sources: seq<Source>, changed: bool)

  datatype EdgeRequest = EdgeRequest(from: string, to: string, source: Source)

  // ---------------------------------------------------------------- the merge loop

  /** The entry the first record of a key starts. */
  function Start(rec: RawRecord): Entry
  {
    Entry(rec.key, rec.name, rec.domain, [rec.source], false)
  }

  /**
   * A later record of the same key: its source is added once; a non-empty
   * domain different from the entry's marks the entry changed and fills
   * the entry's domain if it had none.
   */
  function Absorb(e: Entry, rec: RawRecord): Entry
  {
    var sources := if rec.source in e.sources then e.sources else e.sources + [rec.source];
    if e.domain != rec.domain && rec.domain.Some? && rec.domain.value != "" then
      e.(sources := sources, changed := true, domain := if e.domain.Some? then e.domain else rec.domain)
    else e.(sources := sources)
  }

  /** The edge requests of a record: each upstream key into it, and it into each downstream key. */
  function Requests(rec: RawRecord): (r: seq<EdgeRequest>)
    ensures |r| == |rec.upstream| + |rec.downstream|
    ensures forall i :: 0 <= i < |r| ==> r[i].source == rec.source && (r[i].to == rec.key || r[i].from == rec.key)
  {
    seq(|rec.upstream|, i requires 0 <= i < |rec.upstream| => EdgeRequest(rec.upstream[i], rec.key, rec.source)) +
    seq(|rec.downstream|, i requires 0 <= i < |rec.downstream| => EdgeRequest(rec.key, rec.downstream[i], rec.source))
  }

  /** The merge loop's state: keys in first-seen order (the iteration order of the `Map`), the entries, the edge requests. */
  datatype Merged = Merged(order: seq<string>, byKey: map<string, Entry>, requests: seq<EdgeRequest>)

  function MergeStep(m: Merged, rec: RawRecord): Merged
  {
    var entry := if rec.key in m.byKey then Absorb(m.byKey[rec.key], rec) else Start(rec);
    Merged(if rec.key in m.byKey then m.order else m.order + [rec.key],
           m.byKey[rec.key := entry],
           m.requests + Requests(rec))
  }

  function Merge(records: seq<RawRecord>): Merged
  {
    if |records| == 0 then Merged([], map[], [])
    else MergeStep(Merge(records[..|records| - 1]), records[|records| - 1])
  }

  /** The `for (const rec of records)` loop of `harmonizeSystems`. */
  method MergeRecords(records: seq<RawRecord>) returns (order: seq<string>, byKey: map<string, Entry>, requests: seq<EdgeRequest>)
    ensures Merged(order, byKey, requests) == Merge(records)
  {
    order, byKey, requests := [], map[], [];
    for i := 0 to |records|
      invariant Merged(order, byKey, requests) == Merge(records[..i])
    {
      assert records[..i + 1][..i] == records[..i];
      var rec := records[i];
      if rec.key !in byKey {
        byKey := byKey[rec.key := Start(rec)];
        order := order + [rec.key];
      } else {
        byKey := byKey[rec.key := Absorb(byKey[rec.key], rec)];
      }
      requests := requests + Requests(rec);
    }
    assert records[..|records|] == records;
  }

  // ---------------------------------------------------------------- one key at a time

  /** The records of one key, in order. */
  function KeyRecords(records: seq<RawRecord>, k: string): seq<RawRecord>
  {
    Filter(records, (r: RawRecord) => r.key == k)
  }

  /** The entry a key's records fold into, on their own. */
  function EntryOf(rs: seq<RawRecord>): Entry
    requires |rs| > 0
  {
    if |rs| == 1 then Start(rs[0]) else Absorb(EntryOf(rs[..|rs| - 1]), rs[|rs| - 1])
  }

  /** Some record has key `k`. */
  predicate Seen(records: seq<RawRecord>, k: string)
  {
    exists i :: 0 <= i < |records| && records[i].key == k
  }

  lemma SeenSnoc(records: seq<RawRecord>, k: string)
    requires |records| > 0
    ensures Seen(records, k) <==> Seen(records[..|records| - 1], k) || records[|records| - 1].key == k
  {
    var init := records[..|records| - 1];
    if Seen(records, k) {
      var i :| 0 <= i < |records| && records[i].key == k;
      if i < |init| {
        assert init[i] == records[i];
      }
    }
    if Seen(init, k) {
      var i :| 0 <= i < |init| && init[i].key == k;
      assert records[i] == init[i];
    }
  }

  /** A key no record has has no records. */
  lemma UnseenNone(records: seq<RawRecord>, k: string)
    requires !Seen(records, k)
    ensures KeyRecords(records, k) == []
  {
    forall x | x in records
      ensures x.key != k
    {
      var i :| 0 <= i < |records| && records[i] == x;
    }
    FilterNone(records, (r: RawRecord) => r.key == k);
  }

  /** The merge keeps one entry per key, and the keys in the order they were first seen. */
  lemma {:induction false} MergeOrder(records: seq<RawRecord>)
    ensures var m := Merge(records);
            Distinct(m.order) &&
            (forall k :: k in m.byKey <==> k in m.order) &&
            (forall k :: k in m.byKey ==> m.byKey[k].key == k) &&
            (forall k :: k in m.order <==> Seen(records, k))
    decreases |records|
  {
    if |records| > 0 {
      var init := records[..|records| - 1];
      MergeOrder(init);
      forall k: string
        ensures Seen(records, k) <==> Seen(init, k) || records[|records| - 1].key == k
      {
        SeenSnoc(records, k);
      }
    }
  }

  /** Each key's entry depends on that key's records alone, folded in order. */
  lemma {:induction false} MergeEntries(records: seq<RawRecord>)
    ensures var m := Merge(records);
            forall k :: k in m.byKey ==> KeyRecords(records, k) != [] && m.byKey[k] == EntryOf(KeyRecords(records, k))
    decreases |records|
  {
    if |records| > 0 {
      var init := records[..|records| - 1];
      var rec := records[|records| - 1];
      MergeEntries(init);
      MergeOrder(init);
      var m0 := Merge(init);
      var m := Merge(records);
      forall k | k in m.byKey
        ensures KeyRecords(records, k) != [] && m.byKey[k] == EntryOf(KeyRecords(records, k))
      {
        var before := KeyRecords(init, k);
        assert KeyRecords(records, k) == before + (if rec.key == k then [rec] else []);
        if rec.key == k {
          if k !in m0.byKey {
            UnseenNone(init, k);
          } else {
            assert (before + [rec])[..|before|] == before;
          }
        }
      }
    }
  }

  /** The first domain any of the records carries, or None. */
  function FirstDomain(rs: seq<RawRecord>): Option<string>
  {
    if |rs| == 0 then None
    else
      var d := FirstDomain(rs[..|rs| - 1]);
      if d.Some? then d else rs[|rs| - 1].domain
  }

  /** `FirstDomain` is None when no record has a domain, else the domain of the first record that has one. */
  lemma {:induction false} FirstDomainFacts(rs: seq<RawRecord>)
    ensures FirstDomain(rs).None? <==> forall i :: 0 <= i < |rs| ==> rs[i].domain.None?
    ensures FirstDomain(rs).Some? ==>
              exists i :: 0 <= i < |rs| && rs[i].domain == FirstDomain(rs) && forall j :: 0 <= j < i ==> rs[j].domain.None?
    decreases |rs|
  {
    if |rs| > 0 {
      var init := rs[..|rs| - 1];
      FirstDomainFacts(init);
      assert forall i :: 0 <= i < |init| ==> init[i] == rs[i];
      if FirstDomain(init).None? {
        assert forall j :: 0 <= j < |rs| - 1 ==> rs[j].domain.None?;
      }
    }
  }

  /** Some record comes from source `s`. */
  predicate FromSource(rs: seq<RawRecord>, s: Source)
  {
    exists i :: 0 <= i < |rs| && rs[i].source == s
  }

  /**
   * A key's entry takes its key and name from the first record, and
   * lists each source its records come from once, the first record's
   * source first.
   */
  lemma {:induction false} EntryFacts(rs: seq<RawRecord>)
    requires |rs| > 0
    ensures var e := EntryOf(rs);
            e.key == rs[0].key && e.name == rs[0].name &&
            Distinct(e.sources) && e.sources[0] == rs[0].source &&
            forall s :: s in e.sources <==> FromSource(rs, s)
    decreases |rs|
  {
    if |rs| > 1 {
      var init := rs[..|rs| - 1];
      EntryFacts(init);
      assert init[0] == rs[0];
      forall s: Source
        ensures FromSource(rs, s) <==> FromSource(init, s) || rs[|rs| - 1].source == s
      {
        if FromSource(rs, s) {
          var i :| 0 <= i < |rs| && rs[i].source == s;
          if i < |init| {
            assert init[i] == rs[i];
          }
        }
        if FromSource(init, s) {
          var i :| 0 <= i < |init| && init[i].source == s;
          assert rs[i] == init[i];
        }
      }
    } else {
      assert forall s :: FromSource(rs, s) <==> rs[0].source == s;
    }
  }

  predicate DomainsFilled(rs: seq<RawRecord>)
  {
    forall i :: 0 <= i < |rs| ==> rs[i].domain.Some? ==> rs[i].domain.value != ""
  }

  /** With non-empty domains, a key's domain is the first one its records carry. */
  lemma {:induction false} EntryDomain(rs: seq<RawRecord>)
    requires |rs| > 0 && DomainsFilled(rs)
    ensures EntryOf(rs).domain == FirstDomain(rs)
    decreases |rs|
  {
    var n := |rs| - 1;
    if n > 0 {
      var init := rs[..n];
      assert forall i :: 0 <= i < n ==> init[i] == rs[i];
      EntryDomain(init);
    } else {
      assert rs[..0] == [];
    }
  }

  /** Record `j` (not the first) carries a domain other than the one the entry had before it. */
  predicate ChangedAt(rs: seq<RawRecord>, j: int)
  {
    1 <= j < |rs| && rs[j].domain.Some? && rs[j].domain != FirstDomain(rs[..j])
  }

  /** With non-empty domains, an entry is marked changed exactly when some later record brings a different domain. */
  lemma {:induction false} EntryChanged(rs: seq<RawRecord>)
    requires |rs| > 0 && DomainsFilled(rs)
    ensures EntryOf(rs).changed <==> exists j :: ChangedAt(rs, j)
    decreases |rs|
  {
    var n := |rs| - 1;
    if n > 0 {
      var init := rs[..n];
      assert forall i :: 0 <= i < n ==> init[i] == rs[i];
      EntryChanged(init);
      EntryDomain(init);
      forall j | 1 <= j < n
        ensures ChangedAt(init, j) <==> ChangedAt(rs, j)
      {
        assert init[..j] == rs[..j];
      }
      assert ChangedAt(rs, n) <==> rs[n].domain.Some? && rs[n].domain != FirstDomain(init);
      assert forall j :: ChangedAt(rs, j) ==> ChangedAt(init, j) || j == n;
    }
  }

  // ---------------------------------------------------------------- nodes

  datatype Node = Node(
    id: string,
    caption: string,
    systemName: string,
    domain: Option<string>,
    sourceOrigin: seq<Source>,
    state: State,
    confidence: real)

  /** 0.5, plus 0.2 for the future state, 0.15 for the inventory and 0.1 for Lucid, minus 0.05 when changed. */
  function RawConfidence(inLucid: bool, inInventory: bool, inFuture: bool, changed: bool): (c: real)
  {
    0.5 + (if inFuture then 0.2 else 0.0) + (if inInventory then 0.15 else 0.0) + (if inLucid then 0.1 else 0.0)
        - (if changed then 0.05 else 0.0)
  }

  /** `Math.max(0, Math.min(1, x))` */
  function Clamp01(x: real): (r: real)
    ensures 0.0 <= r <= 1.0
    ensures 0.0 <= x <= 1.0 ==> r == x
  {
    Max(0.0, Min(1.0, x))
  }

  function NodeOf(e: Entry, hasFuture: bool): Node
  {
    var inLucid := Lucid in e.sources;
    var inInventory := Inventory in e.sources;
    var inFuture := Future in e.sources;
    Node(e.key, e.name, e.name, e.domain, e.sources,
         StateFromPresence(inLucid, inInventory, inFuture, e.changed, hasFuture),
         Clamp01(RawConfidence(inLucid, inInventory, inFuture, e.changed)))
  }

  /**
   * The confidence never needs clamping: it lies between 0.45 (Lucid or
   * nothing, changed) and 0.95 (all three sources, unchanged), and each
   * source raises it.
   */
  lemma ConfidenceRange(inLucid: bool, inInventory: bool, inFuture: bool, changed: bool)
    ensures var c := RawConfidence(inLucid, inInventory, inFuture, changed);
            0.45 <= c <= 0.95 && Clamp01(c) == c &&
            (inLucid && inInventory && inFuture && !changed <==> c == 0.95) &&
            (!inLucid && !inInventory && !inFuture && changed <==> c == 0.45) &&
            RawConfidence(true, inInventory, inFuture, changed) > RawConfidence(false, inInventory, inFuture, changed) &&
            RawConfidence(inLucid, true, inFuture, changed) > RawConfidence(inLucid, false, inFuture, changed) &&
            RawConfidence(inLucid, inInventory, true, changed) > RawConfidence(inLucid, inInventory, false, changed)
  {
  }

  function NodesOf(order: seq<string>, byKey: map<string, Entry>, hasFuture: bool): (nodes: seq<Node>)
    requires forall k :: k in order ==> k in byKey
    ensures |nodes| == |order|
  {
    seq(|order|, i requires 0 <= i < |order| => NodeOf(byKey[order[i]], hasFuture))
  }

  /** The `for (const entry of byKey.values())` loop. */
  method BuildNodes(order: seq<string>, byKey: map<string, Entry>, hasFuture: bool) returns (nodes: seq<Node>)
    requires forall k :: k in order ==> k in byKey
    ensures nodes == NodesOf(order, byKey, hasFuture)
  {
    nodes := [];
    for i := 0 to |order|
      invariant nodes == NodesOf(order[..i], byKey, hasFuture)
    {
      nodes := nodes + [NodeOf(byKey[order[i]], hasFuture)];
    }
    assert order[..|order|] == order;
  }

  // ---------------------------------------------------------------- edges

  datatype GraphEdge = GraphEdge(id: string, source: string, target: string, state: State, confidence: real)

  /** `${from}->${to}` */
  function EdgeId(from: string, to: string): string
  {
    from + "->" + to
  }

  /** In the id of an edge from a key, the first `-` comes right after that key. */
  lemma DashIndex(a: string, b: string)
    requires IsKey(a)
    ensures FirstIndex(EdgeId(a, b), '-') == |a|
  {
    var x := EdgeId(a, b);
    assert x[|a|] == '-';
    assert forall j :: 0 <= j < |a| ==> x[j] == a[j];
  }

  /** Between keys, the edge id determines both ends: keys hold no `-`. */
  lemma EdgeIdInjective(a: string, b: string, c: string, d: string)
    requires IsKey(a) && IsKey(b) && IsKey(c) && IsKey(d)
    ensures EdgeId(a, b) == EdgeId(c, d) ==> a == c && b == d
  {
    var x := EdgeId(a, b);
    var y := EdgeId(c, d);
    DashIndex(a, b);
    DashIndex(c, d);
    if x == y {
      assert a == x[..|a|] && c == y[..|c|];
      assert b == x[|a| + 2..] && d == y[|c| + 2..];
    }
  }

  function Ids(edges: seq<GraphEdge>): set<string>
  {
    set e | e in edges :: e.id
  }

  /** `!from` for a resolver result. */
  predicate Unresolved(r: Option<string>)
  {
    r.None? || r.value == ""
  }

  /**
   * The edges the requests give under a resolver, in order: requests with
   * an unresolved end are dropped, and so are later copies of an id.
   */
  function EdgesOf(requests: seq<EdgeRequest>, resolve: string -> Option<string>): seq<GraphEdge>
  {
    if |requests| == 0 then []
    else
      var edges := EdgesOf(requests[..|requests| - 1], resolve);
      var req := requests[|requests| - 1];
      var from := resolve(req.from);
      var to := resolve(req.to);
      if Unresolved(from) || Unresolved(to) || EdgeId(from.value, to.value) in Ids(edges) then edges
      else edges + [GraphEdge(EdgeId(from.value, to.value), from.value, to.value, Unchanged, 0.6)]
  }

  /** The edge loop of `harmonizeSystems`, with its `edgeSet`; `resolver` is the closure `buildResolver` returns. */
  method BuildEdges(requests: seq<EdgeRequest>, resolver: string -> Option<string>) returns (edges: seq<GraphEdge>)
    ensures edges == EdgesOf(requests, resolver)
  {
    var edgeSet: set<string> := {};
    edges := [];
    for i := 0 to |requests|
      invariant edges == EdgesOf(requests[..i], resolver)
      invariant edgeSet == Ids(edges)
    {
      assert requests[..i + 1][..i] == requests[..i];
      var req := requests[i];
      var from := resolver(req.from);
      var to := resolver(req.to);
      if Unresolved(from) || Unresolved(to) {
        continue;
      }
      var edgeId := EdgeId(from.value, to.value);
      if edgeId in edgeSet {
        continue;
      }
      edgeSet := edgeSet + {edgeId};
      edges := edges + [GraphEdge(edgeId, from.value, to.value, Unchanged, 0.6)];
    }
    assert requests[..|requests|] == requests;
  }

  /** Well-formed edges: unique ids, both ends known keys, the id built from the ends. */
  predicate EdgesWellFormed(edges: seq<GraphEdge>, keys: seq<string>)
  {
    && (forall i, j :: 0 <= i < j < |edges| ==> edges[i].id != edges[j].id)
    && (forall i :: 0 <= i < |edges| ==>
          edges[i].source in keys && edges[i].target in keys &&
          edges[i].id == EdgeId(edges[i].source, edges[i].target) &&
          edges[i].state == Unchanged && edges[i].confidence == 0.6)
  }

  /**
   * Under a resolver that only answers known keys: edge ids are unique,
   * every edge joins two known keys, and every request whose ends resolve
   * has its edge.
   */
  lemma {:induction false} EdgesFacts(requests: seq<EdgeRequest>, resolve: string -> Option<string>, keys: seq<string>)
    requires forall s :: resolve(s).Some? ==> resolve(s).value in keys
    ensures EdgesWellFormed(EdgesOf(requests, resolve), keys)
    ensures forall i :: 0 <= i < |requests| ==>
              var from := resolve(requests[i].from);
              var to := resolve(requests[i].to);
              !Unresolved(from) && !Unresolved(to) ==> EdgeId(from.value, to.value) in Ids(EdgesOf(requests, resolve))
    decreases |requests|
  {
    if |requests| > 0 {
      var init := requests[..|requests| - 1];
      EdgesFacts(init, resolve, keys);
      var edges := EdgesOf(init, resolve);
      assert Ids(edges) <= Ids(EdgesOf(requests, resolve));
      assert forall i :: 0 <= i < |init| ==> init[i] == requests[i];
      forall i | 0 <= i < |edges|
        ensures edges[i].id in Ids(edges)
      {
        assert edges[i] in edges;
      }
    }
  }

  /** Between keys, no two edges join the same ordered pair. */
  lemma EdgePairsUnique(edges: seq<GraphEdge>, keys: seq<string>)
    requires EdgesWellFormed(edges, keys)
    requires forall k :: k in keys ==> IsKey(k)
    ensures forall i, j :: 0 <= i < j < |edges| ==> (edges[i].source, edges[i].target) != (edges[j].source, edges[j].target)
  {
    forall i, j | 0 <= i < j < |edges|
      ensures (edges[i].source, edges[i].target) != (edges[j].source, edges[j].target)
    {
      EdgeIdInjective(edges[i].source, edges[i].target, edges[j].source, edges[j].target);
    }
  }

  // ---------------------------------------------------------------- views

  predicate IsDelta(n: Node) { n.state == Added || n.state == Removed || n.state == Modified }
  predicate IsRemoved(n: Node) { n.state == Removed }
  predicate IsAdded(n: Node) { n.state == Added }

  function NodeIds(nodes: seq<Node>): set<string>
  {
    set n | n in nodes :: n.id
  }

  /** The ids a mode keeps: removed nodes for "current", added for "future", and for "all" the changed ones, or every node if none changed. */
  function Keep(mode: Mode, nodes: seq<Node>): set<string>
  {
    match mode
    case Current => NodeIds(Filter(nodes, IsRemoved))
    case FutureState => NodeIds(Filter(nodes, IsAdded))
    case All =>
      var delta := Filter(nodes, IsDelta);
      if |delta| > 0 then NodeIds(delta) else NodeIds(nodes)
  }

  /** The filtered view: the kept nodes, and the edges with both ends kept. */
  function View(mode: Mode, nodes: seq<Node>, edges: seq<GraphEdge>): (seq<Node>, seq<GraphEdge>)
  {
    var keep := Keep(mode, nodes);
    (Filter(nodes, (n: Node) => n.id in keep), Filter(edges, (e: GraphEdge) => e.source in keep && e.target in keep))
  }

  predicate UniqueIds(nodes: seq<Node>)
  {
    forall i, j :: 0 <= i < j < |nodes| ==> nodes[i].id != nodes[j].id
  }

  /** A view keeps nodes and edges in order, and only edges whose two ends are returned nodes. */
  lemma ViewEdges(mode: Mode, nodes: seq<Node>, edges: seq<GraphEdge>)
    ensures var (ns, es) := View(mode, nodes, edges);
            IsSubsequence(ns, nodes) && IsSubsequence(es, edges) &&
            forall e :: e in es ==> e.source in NodeIds(ns) && e.target in NodeIds(ns)
  {
    var keep := Keep(mode, nodes);
    assert keep <= NodeIds(nodes);
    var (ns, es) := View(mode, nodes, edges);
    forall e | e in es
      ensures e.source in NodeIds(ns) && e.target in NodeIds(ns)
    {
      var a :| a in nodes && a.id == e.source;
      var b :| b in nodes && b.id == e.target;
      assert a in ns && b in ns;
    }
  }

  lemma SameId(nodes: seq<Node>, a: Node, b: Node)
    requires UniqueIds(nodes) && a in nodes && b in nodes && a.id == b.id
    ensures a == b
  {
    var i :| 0 <= i < |nodes| && nodes[i] == a;
    var j :| 0 <= j < |nodes| && nodes[j] == b;
  }

  /** With unique ids, a node's id is among those of the nodes meeting `p` exactly when it meets `p`. */
  lemma KeepByIds(nodes: seq<Node>, p: Node -> bool)
    requires UniqueIds(nodes)
    ensures forall n :: n in nodes ==> (n.id in NodeIds(Filter(nodes, p)) <==> p(n))
  {
    forall n | n in nodes && n.id in NodeIds(Filter(nodes, p))
      ensures p(n)
    {
      var m :| m in Filter(nodes, p) && m.id == n.id;
      SameId(nodes, m, n);
    }
  }

  /**
   * With unique ids, "current" keeps exactly the removed nodes, "future"
   * the added ones, and "all" the changed ones, or every node when none
   * changed.
   */
  lemma ViewNodes(mode: Mode, nodes: seq<Node>, edges: seq<GraphEdge>)
    requires UniqueIds(nodes)
    ensures var ns := View(mode, nodes, edges).0;
            (mode == Current ==> forall n :: n in ns <==> n in nodes && n.state == Removed) &&
            (mode == FutureState ==> forall n :: n in ns <==> n in nodes && n.state == Added) &&
            (mode == All && (exists n :: n in nodes && IsDelta(n)) ==> forall n :: n in ns <==> n in nodes && IsDelta(n)) &&
            (mode == All && (forall n :: n in nodes ==> !IsDelta(n)) ==> ns == nodes)
  {
    match mode
    case Current => KeepByIds(nodes, IsRemoved);
    case FutureState => KeepByIds(nodes, IsAdded);
    case All =>
      var delta := Filter(nodes, IsDelta);
      if |delta| > 0 {
        KeepByIds(nodes, IsDelta);
      } else {
        var keep := NodeIds(nodes);
        assert forall n :: n in nodes ==> n.id in keep;
        KeepAll(nodes, (n: Node) => n.id in keep);
      }
  }

  /** Filtering with a predicate every element meets keeps the sequence. */
  lemma {:induction false} KeepAll<T(!new)>(s: seq<T>, p: T -> bool)
    requires forall x :: x in s ==> p(x)
    ensures Filter(s, p) == s
  {
    if |s| > 0 {
      assert forall x :: x in s[..|s| - 1] ==> x in s;
      KeepAll(s[..|s| - 1], p);
    }
  }

  lemma {:induction false} FilterUnique(nodes: seq<Node>, p: Node -> bool)
    requires UniqueIds(nodes)
    ensures UniqueIds(Filter(nodes, p))
  {
    if |nodes| > 0 {
      var init := nodes[..|nodes| - 1];
      assert forall k :: 0 <= k < |init| ==> init[k] == nodes[k];
      FilterUnique(init, p);
      var r := Filter(init, p);
      assert forall k :: 0 <= k < |r| ==> r[k] in init;
      assert forall x :: x in init ==> x.id != nodes[|nodes| - 1].id;
    }
  }

  /** No two edges share an id or an ordered pair of ends. */
  predicate DistinctEdges(edges: seq<GraphEdge>)
  {
    forall i, j :: 0 <= i < j < |edges| ==>
      edges[i].id != edges[j].id && (edges[i].source, edges[i].target) != (edges[j].source, edges[j].target)
  }

  lemma {:induction false} FilterDistinctEdges(edges: seq<GraphEdge>, p: GraphEdge -> bool)
    requires DistinctEdges(edges)
    ensures DistinctEdges(Filter(edges, p))
  {
    if |edges| > 0 {
      var init := edges[..|edges| - 1];
      var last := edges[|edges| - 1];
      assert forall k :: 0 <= k < |init| ==> init[k] == edges[k];
      FilterDistinctEdges(init, p);
      var r := Filter(init, p);
      assert forall k :: 0 <= k < |r| ==> r[k] in init;
      assert forall x :: x in init ==> x.id != last.id && (x.source, x.target) != (last.source, last.target);
    }
  }

  // ---------------------------------------------------------------- harmonizeSystems

  /** The resolver `buildResolver` builds over the node keys. */
  function ResolverOf(keys: seq<string>): string -> Option<string>
  {
    (s: string) => Resolve(keys, s)
  }

  /** The keys of a merge of well-keyed records are distinct, have key shape and have entries. */
  lemma MergedKeys(records: seq<RawRecord>)
    requires AllWellKeyed(records)
    ensures forall k :: k in Merge(records).order ==> IsKey(k) && k in Merge(records).byKey
    ensures Distinct(Merge(records).order)
  {
    MergeOrder(records);
    forall k | k in Merge(records).order
      ensures IsKey(k)
    {
      var i :| 0 <= i < |records| && records[i].key == k;
    }
  }

  lemma AllRecordsWellKeyedInput(mode: Mode, lucid: seq<Row>, inventory: seq<Row>, futureJson: seq<Row>,
                                 currentCsv: seq<Row>, futureCsv: seq<Row>)
    ensures AllWellKeyed(BuildRawRecords(mode, lucid, inventory, futureJson, currentCsv, futureCsv).records)
  {
    var includeCurrent := mode == All || mode == Current;
    var includeFuture := mode == All || mode == FutureState;
    AllRecordsWellKeyed(
      (if includeCurrent then [Dataset(lucid, Lucid), Dataset(inventory, Inventory)] else []) +
      (if includeFuture then [Dataset(futureJson, Future)] else []) +
      (if includeCurrent && |currentCsv| > 0 then [Dataset(currentCsv, Inventory)] else []) +
      (if includeFuture && |futureCsv| > 0 then [Dataset(futureCsv, Future)] else []));
  }

  /** The merged graph of the records, before the view is chosen. */
  function Graph(mode: Mode, records: seq<RawRecord>, hasFuture: bool): (seq<Node>, seq<GraphEdge>)
  {
    var m := Merge(records);
    MergeOrder(records);
    View(mode, NodesOf(m.order, m.byKey, hasFuture), EdgesOf(m.requests, ResolverOf(m.order)))
  }

  /**
   * The graph `harmonizeSystems` returns for a mode, the JSON datasets and
   * the texts of the two CSV files (None when unreadable).
   */
  function Harmonized(mode: Mode, lucid: seq<Row>, inventory: seq<Row>, futureJson: seq<Row>,
                      currentCsv: Option<string>, futureCsv: Option<string>): (seq<Node>, seq<GraphEdge>)
  {
    var input := BuildRawRecords(mode, lucid, inventory, futureJson, CsvRows(currentCsv), CsvRows(futureCsv));
    Graph(mode, input.records, input.hasFuture)
  }

  /** `harmonizeSystems`; file I/O, telemetry and logging are left out. */
  method HarmonizeSystems(mode: Mode, lucid: seq<Row>, inventory: seq<Row>, futureJson: seq<Row>,
                          currentCsv: Option<string>, futureCsv: Option<string>)
    returns (nodes: seq<Node>, edges: seq<GraphEdge>)
    ensures (nodes, edges) == Harmonized(mode, lucid, inventory, futureJson, currentCsv, futureCsv)
  {
    var currentRows := ParseCsvFile(currentCsv);
    var futureRows := ParseCsvFile(futureCsv);
    var input := BuildRawRecords(mode, lucid, inventory, futureJson, currentRows, futureRows);
    MergeOrder(input.records);
    var order, byKey, requests := MergeRecords(input.records);
    var allNodes := BuildNodes(order, byKey, input.hasFuture);
    var allEdges := BuildEdges(requests, ResolverOf(order));
    var view := View(mode, allNodes, allEdges);
    nodes, edges := view.0, view.1;
  }

  /** A node's id is its entry's key, and its confidence lies in [0.45, 0.95]. */
  lemma NodeOfFacts(e: Entry, hasFuture: bool)
    ensures NodeOf(e, hasFuture).id == e.key && 0.45 <= NodeOf(e, hasFuture).confidence <= 0.95
  {
    ConfidenceRange(Lucid in e.sources, Inventory in e.sources, Future in e.sources, e.changed);
  }

  /** The nodes of a merge have unique ids and confidences in [0.45, 0.95]. */
  lemma NodesFacts(records: seq<RawRecord>, hasFuture: bool)
    ensures var m := Merge(records);
            (forall k :: k in m.order ==> k in m.byKey) &&
            var nodes := NodesOf(m.order, m.byKey, hasFuture);
            UniqueIds(nodes) && forall n :: n in nodes ==> 0.45 <= n.confidence <= 0.95
  {
    var m := Merge(records);
    MergeOrder(records);
    var nodes := NodesOf(m.order, m.byKey, hasFuture);
    forall i | 0 <= i < |nodes|
      ensures nodes[i].id == m.order[i] && 0.45 <= nodes[i].confidence <= 0.95
    {
      NodeOfFacts(m.byKey[m.order[i]], hasFuture);
    }
  }

  /** The edges of a merge of well-keyed records are distinct by id and by ends, and join node keys. */
  lemma GraphEdgesFacts(records: seq<RawRecord>)
    requires AllWellKeyed(records)
    ensures var m := Merge(records);
            var edges := EdgesOf(m.requests, ResolverOf(m.order));
            DistinctEdges(edges) && forall e :: e in edges ==> e.source in m.order && e.target in m.order
  {
    var m := Merge(records);
    MergedKeys(records);
    var resolve := ResolverOf(m.order);
    forall x: string
      ensures resolve(x).Some? ==> resolve(x).value in m.order
    {
      ResolveCases(m.order, x);
    }
    EdgesFacts(m.requests, resolve, m.order);
    EdgePairsUnique(EdgesOf(m.requests, resolve), m.order);
  }

  /** A view keeps unique node ids, distinct edges and the confidence range, and returns no dangling edge. */
  lemma ViewFacts(mode: Mode, nodes: seq<Node>, edges: seq<GraphEdge>)
    requires UniqueIds(nodes) && DistinctEdges(edges)
    requires forall n :: n in nodes ==> 0.45 <= n.confidence <= 0.95
    ensures var (ns, es) := View(mode, nodes, edges);
            UniqueIds(ns) && DistinctEdges(es) &&
            (forall e :: e in es ==> e.source in NodeIds(ns) && e.target in NodeIds(ns)) &&
            (forall n :: n in ns ==> 0.45 <= n.confidence <= 0.95)
  {
    ViewEdges(mode, nodes, edges);
    var keep := Keep(mode, nodes);
    FilterUnique(nodes, (n: Node) => n.id in keep);
    FilterDistinctEdges(edges, (e: GraphEdge) => e.source in keep && e.target in keep);
  }

  /**
   * For well-keyed records, in every view: node ids unique, every
   * confidence in [0.45, 0.95], edges only between returned nodes, unique
   * edge ids and at most one edge per ordered pair of systems.
   */
  lemma GraphFacts(mode: Mode, records: seq<RawRecord>, hasFuture: bool)
    requires AllWellKeyed(records)
    ensures var (nodes, edges) := Graph(mode, records, hasFuture);
            UniqueIds(nodes) && DistinctEdges(edges) &&
            (forall e :: e in edges ==> e.source in NodeIds(nodes) && e.target in NodeIds(nodes)) &&
            (forall n :: n in nodes ==> 0.45 <= n.confidence <= 0.95)
  {
    var m := Merge(records);
    MergeOrder(records);
    NodesFacts(records, hasFuture);
    GraphEdgesFacts(records);
    ViewFacts(mode, NodesOf(m.order, m.byKey, hasFuture), EdgesOf(m.requests, ResolverOf(m.order)));
  }

  /** `harmonizeSystems` returns a graph with these properties whatever the inputs. */
  lemma HarmonizedFacts(mode: Mode, lucid: seq<Row>, inventory: seq<Row>, futureJson: seq<Row>,
                        currentCsv: Option<string>, futureCsv: Option<string>)
    ensures var (nodes, edges) := Harmonized(mode, lucid, inventory, futureJson, currentCsv, futureCsv);
            UniqueIds(nodes) && DistinctEdges(edges) &&
            (forall e :: e in edges ==> e.source in NodeIds(nodes) && e.target in NodeIds(nodes)) &&
            (forall n :: n in nodes ==> 0.45 <= n.confidence <= 0.95)
  {
    var input := BuildRawRecords(mode, lucid, inventory, futureJson, CsvRows(currentCsv), CsvRows(futureCsv));
    AllRecordsWellKeyedInput(mode, lucid, inventory, futureJson, CsvRows(currentCsv), CsvRows(futureCsv));
    GraphFacts(mode, input.records, input.hasFuture);
  }
}
