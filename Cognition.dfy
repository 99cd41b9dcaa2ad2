/**
 * The structural analysis of a capability tree: a stack walk counts the
 * nodes, the leaves, the nodes per level and per case-folded name, and the
 * deepest level, and a few insights are drawn from those counts.
 *
 * The walk is specified by the exact sequence of entries it pops,
 * `ForestVisit(roots, 1)`: each node followed by its children's subtrees,
 * last child first. The loop keeps "what was popped" followed by "what the
 * stack will still pop" equal to that sequence. The counts over the visit
 * are then tied to `Stats`, a summary of the forest defined on the tree
 * itself.
 */
module Cognition {
  import opened Common
  import opened Text

  /** A capability node: its name, its `level` tag and its children. */
  datatype Capability = Capability(name: Option<string>, level: Option<string>, children: seq<Capability>)

  /** A string field JavaScript treats as truthy: set and non-empty. */
  predicate Present(s: Option<string>)
  {
    s.Some? && s.value != ""
  }

  /** The trimmed name, `(node.name ?? "").trim()`. */
  function NameOf(c: Capability): string
  {
    Trim(c.name.GetOr(""))
  }

  /** The case-folded key a node is counted under, when its trimmed name is non-empty. */
  function NameKey(c: Capability): Option<string>
  {
    if NameOf(c) != "" then Some(Lower(NameOf(c))) else None
  }

  // ---------------------------------------------------------------- the forest

  /** Node count, leaf count and height of a tree or forest. */
  datatype Stats = Stats(size: nat, leaves: nat, height: nat)

  function TreeStats(c: Capability): Stats
    decreases c, 1
  {
    var s := ForestStats(c.children);
    Stats(1 + s.size, if |c.children| == 0 then 1 else s.leaves, 1 + s.height)
  }

  function ForestStats(f: seq<Capability>): Stats
    decreases f, 0
  {
    if |f| == 0 then Stats(0, 0, 0)
    else
      var a, b := ForestStats(f[..|f| - 1]), TreeStats(f[|f| - 1]);
      Stats(a.size + b.size, a.leaves + b.leaves, MaxInt(a.height, b.height))
  }

  /** Every tree has at least one node, one leaf and height 1; leaves and height never exceed the node count. */
  lemma {:induction false} TreeFacts(c: Capability)
    ensures var s := TreeStats(c);
            1 <= s.leaves <= s.size && 1 <= s.height <= s.size
    decreases c, 1
  {
    ForestFacts(c.children);
  }

  /**
   * An empty forest has size and height 0; a non-empty one has at least
   * one node per root, at least one leaf and height at least 1; leaves and
   * height never exceed the node count.
   */
  lemma {:induction false} ForestFacts(f: seq<Capability>)
    ensures var s := ForestStats(f);
            (s.size == 0 <==> |f| == 0) && (s.height == 0 <==> |f| == 0) && (|f| > 0 ==> s.leaves >= 1) &&
            |f| <= s.size && s.leaves <= s.size && s.height <= s.size
    decreases f, 0
  {
    if |f| > 0 {
      ForestFacts(f[..|f| - 1]);
      TreeFacts(f[|f| - 1]);
    }
  }

  // ---------------------------------------------------------------- the visit

  type Depth = d: nat | d >= 1 witness 1

  /** A stack entry: a node and its depth (roots are at depth 1). */
  datatype Entry = Entry(node: Capability, depth: Depth)

  /** The entries popped for a tree pushed at depth `d`: the node, then its children's subtrees, last child first. */
  function TreeVisit(c: Capability, d: Depth): seq<Entry>
    decreases c, 1
  {
    [Entry(c, d)] + ForestVisit(c.children, d + 1)
  }

  /** The entries popped for a forest pushed at depth `d`, last tree first. */
  function ForestVisit(f: seq<Capability>, d: Depth): seq<Entry>
    decreases f, 0
  {
    if |f| == 0 then [] else TreeVisit(f[|f| - 1], d) + ForestVisit(f[..|f| - 1], d)
  }

  /** The entries still to be popped from a stack: the subtree of its top entry first. */
  function StackVisit(stack: seq<Entry>): seq<Entry>
  {
    if |stack| == 0 then []
    else TreeVisit(stack[|stack| - 1].node, stack[|stack| - 1].depth) + StackVisit(stack[..|stack| - 1])
  }

  /** The entries pushed for a list of nodes at one depth. */
  function Entries(f: seq<Capability>, d: Depth): (r: seq<Entry>)
    ensures |r| == |f| && forall i :: 0 <= i < |f| ==> r[i] == Entry(f[i], d)
  {
    seq(|f|, i requires 0 <= i < |f| => Entry(f[i], d))
  }

  /** Pushing a forest on top of a stack makes its visit come first. */
  lemma {:induction false} PushVisit(rest: seq<Entry>, f: seq<Capability>, d: Depth)
    ensures StackVisit(rest + Entries(f, d)) == ForestVisit(f, d) + StackVisit(rest)
    decreases |f|
  {
    if |f| == 0 {
      assert rest + Entries(f, d) == rest;
    } else {
      var n := |f| - 1;
      var s := rest + Entries(f, d);
      assert s[..|s| - 1] == rest + Entries(f[..n], d);
      PushVisit(rest, f[..n], d);
      var t, p, r := TreeVisit(f[n], d), ForestVisit(f[..n], d), StackVisit(rest);
      calc {
        StackVisit(s);
        t + StackVisit(rest + Entries(f[..n], d));
        t + (p + r);
        { assert t + (p + r) == (t + p) + r; }
        (t + p) + r;
        ForestVisit(f, d) + r;
      }
    }
  }

  /** Popping the top entry and pushing its children leaves the rest of its subtree's visit on the stack. */
  lemma PopVisit(rest: seq<Entry>, e: Entry)
    ensures StackVisit(rest + [e]) == [e] + StackVisit(rest + Entries(e.node.children, e.depth + 1))
  {
    var s := rest + [e];
    assert s[..|s| - 1] == rest;
    var f, r := ForestVisit(e.node.children, e.depth + 1), StackVisit(rest);
    calc {
      StackVisit(s);
      TreeVisit(e.node, e.depth) + r;
      ([e] + f) + r;
      { assert ([e] + f) + r == [e] + (f + r); }
      [e] + (f + r);
      { PushVisit(rest, e.node.children, e.depth + 1); }
      [e] + StackVisit(rest + Entries(e.node.children, e.depth + 1));
    }
  }

  /** One turn of the walk: the popped entry moves from the stack's visit to the visited prefix. */
  lemma StepVisit(visited: seq<Entry>, rest: seq<Entry>, e: Entry)
    ensures (visited + [e]) + StackVisit(rest + Entries(e.node.children, e.depth + 1)) == visited + StackVisit(rest + [e])
    ensures |StackVisit(rest + Entries(e.node.children, e.depth + 1))| < |StackVisit(rest + [e])|
  {
    PopVisit(rest, e);
    var n := StackVisit(rest + Entries(e.node.children, e.depth + 1));
    assert (visited + [e]) + n == visited + ([e] + n);
  }

  lemma LastSplit<T>(s: seq<T>)
    requires |s| > 0
    ensures s == s[..|s| - 1] + [s[|s| - 1]]
  {
  }

  // ---------------------------------------------------------------- counts over a visit

  function LeafCount(s: seq<Entry>): (n: nat)
    ensures n <= |s|
  {
    if |s| == 0 then 0 else LeafCount(s[..|s| - 1]) + (if |s[|s| - 1].node.children| == 0 then 1 else 0)
  }

  function MaxDepth(s: seq<Entry>): nat
  {
    if |s| == 0 then 0 else MaxInt(MaxDepth(s[..|s| - 1]), s[|s| - 1].depth)
  }

  /** How many visited nodes carry level tag `l`. */
  function LevelCount(s: seq<Entry>, l: string): nat
  {
    if |s| == 0 then 0 else LevelCount(s[..|s| - 1], l) + (if Present(s[|s| - 1].node.level) && s[|s| - 1].node.level.value == l then 1 else 0)
  }

  /** How many visited nodes are counted under name key `k`. */
  function KeyCount(s: seq<Entry>, k: string): nat
  {
    if |s| == 0 then 0 else KeyCount(s[..|s| - 1], k) + (if NameKey(s[|s| - 1].node) == Some(k) then 1 else 0)
  }

  lemma {:induction false} LeafCountAppend(a: seq<Entry>, b: seq<Entry>)
    ensures LeafCount(a + b) == LeafCount(a) + LeafCount(b)
    decreases |b|
  {
    if |b| == 0 {
      assert a + b == a;
    } else {
      assert (a + b)[..|a + b| - 1] == a + b[..|b| - 1];
      LeafCountAppend(a, b[..|b| - 1]);
    }
  }

  lemma {:induction false} MaxDepthAppend(a: seq<Entry>, b: seq<Entry>)
    ensures MaxDepth(a + b) == MaxInt(MaxDepth(a), MaxDepth(b))
    decreases |b|
  {
    if |b| == 0 {
      assert a + b == a;
    } else {
      assert (a + b)[..|a + b| - 1] == a + b[..|b| - 1];
      MaxDepthAppend(a, b[..|b| - 1]);
    }
  }

  /**
   * The visit of a tree has one entry per node, one leaf entry per leaf,
   * and reaches `d - 1` plus the tree's height.
   */
  lemma {:induction false} TreeVisitStats(c: Capability, d: Depth)
    ensures var v, s := TreeVisit(c, d), TreeStats(c);
            |v| == s.size && LeafCount(v) == s.leaves && MaxDepth(v) == d - 1 + s.height
    decreases c, 1
  {
    var f := ForestVisit(c.children, d + 1);
    ForestVisitStats(c.children, d + 1);
    LeafCountAppend([Entry(c, d)], f);
    MaxDepthAppend([Entry(c, d)], f);
    assert [Entry(c, d)][..0] == [];
    if |c.children| == 0 {
      assert f == [];
    }
  }

  /** The visit of a forest: one entry per node and leaf, reaching `d - 1` plus the forest's height. */
  lemma {:induction false} ForestVisitStats(f: seq<Capability>, d: Depth)
    ensures var v, s := ForestVisit(f, d), ForestStats(f);
            |v| == s.size && LeafCount(v) == s.leaves && MaxDepth(v) == (if |f| == 0 then 0 else d - 1 + s.height)
    decreases f, 0
  {
    if |f| > 0 {
      var n := |f| - 1;
      TreeVisitStats(f[n], d);
      ForestVisitStats(f[..n], d);
      LeafCountAppend(TreeVisit(f[n], d), ForestVisit(f[..n], d));
      MaxDepthAppend(TreeVisit(f[n], d), ForestVisit(f[..n], d));
    }
  }

  // ---------------------------------------------------------------- the result

  /** The snapshot; `byLevel` maps each level tag to its count. */
  datatype Snapshot = Snapshot(totalNodes: nat, byLevel: map<string, nat>, leafCount: nat, maxDepth: nat)

  /** A `nameCounts` value: the first name seen for a key, and how many nodes carry that key. */
  datatype NameCount = NameCount(name: string, count: nat)

  datatype Severity = Info | WarningLevel | ErrorLevel

  /** The insights; the message texts are left out, their numbers are kept. */
  datatype Insight =
    | EmptyTree
    | VerySmallTree(totalNodes: nat)
    | DuplicateNames(duplicates: seq<NameCount>)
    | FlatStructure
    | MostlyLeaves(leafRatio: real)

  datatype InsightCode = EmptyTreeCode | VerySmallTreeCode | DuplicateNamesCode | FlatStructureCode | MostlyLeavesCode

  function Code(i: Insight): InsightCode
  {
    match i
    case EmptyTree => EmptyTreeCode
    case VerySmallTree(_) => VerySmallTreeCode
    case DuplicateNames(_) => DuplicateNamesCode
    case FlatStructure => FlatStructureCode
    case MostlyLeaves(_) => MostlyLeavesCode
  }

  /** The `code` string of an insight. */
  function CodeText(c: InsightCode): string
  {
    match c
    case EmptyTreeCode => "empty_tree"
    case VerySmallTreeCode => "very_small_tree"
    case DuplicateNamesCode => "duplicate_names"
    case FlatStructureCode => "flat_structure"
    case MostlyLeavesCode => "mostly_leaves"
  }

  function SeverityOf(i: Insight): Severity
  {
    match i
    case EmptyTree => WarningLevel
    case DuplicateNames(_) => WarningLevel
    case _ => Info
  }

  /** The insights drawn from a snapshot and the repeated names, in the order they are pushed. */
  function Insights(s: Snapshot, dupes: seq<NameCount>): seq<Insight>
  {
    SizeInsight(s) + DuplicateInsight(dupes) + FlatInsight(s) + LeafInsight(s)
  }

  /** `empty_tree` or `very_small_tree`. */
  function SizeInsight(s: Snapshot): seq<Insight>
  {
    if s.totalNodes == 0 then [EmptyTree] else if s.totalNodes < 5 then [VerySmallTree(s.totalNodes)] else []
  }

  function DuplicateInsight(dupes: seq<NameCount>): seq<Insight>
  {
    if |dupes| > 0 then [DuplicateNames(dupes)] else []
  }

  function FlatInsight(s: Snapshot): seq<Insight>
  {
    if s.maxDepth <= 1 && s.totalNodes > 0 then [FlatStructure] else []
  }

  /** `mostly_leaves`, carrying `leafCount / totalNodes`. */
  function LeafInsight(s: Snapshot): seq<Insight>
  {
    if s.totalNodes > 0 && (s.leafCount as real) / (s.totalNodes as real) > 0.85 && s.maxDepth > 1
    then [MostlyLeaves((s.leafCount as real) / (s.totalNodes as real))] else []
  }

  predicate HasCode(insights: seq<Insight>, code: InsightCode)
  {
    exists x :: x in insights && Code(x) == code
  }

  /**
   * `empty_tree` exactly for no nodes, `very_small_tree` for one to four,
   * `duplicate_names` exactly when a name repeats, `flat_structure` for a
   * non-empty tree no deeper than 1, `mostly_leaves` for a deeper tree
   * whose leaves are more than 85% of its nodes.
   */
  lemma InsightsCases(s: Snapshot, dupes: seq<NameCount>)
    ensures var r := Insights(s, dupes);
            (HasCode(r, EmptyTreeCode) <==> s.totalNodes == 0) &&
            (HasCode(r, VerySmallTreeCode) <==> 0 < s.totalNodes < 5) &&
            (HasCode(r, DuplicateNamesCode) <==> |dupes| > 0) &&
            (HasCode(r, FlatStructureCode) <==> s.maxDepth <= 1 && s.totalNodes > 0) &&
            (HasCode(r, MostlyLeavesCode) <==> s.totalNodes > 0 && 100 * s.leafCount > 85 * s.totalNodes && s.maxDepth > 1)
  {
    InsightsHas(s, dupes, EmptyTreeCode);
    InsightsHas(s, dupes, VerySmallTreeCode);
    InsightsHas(s, dupes, DuplicateNamesCode);
    InsightsHas(s, dupes, FlatStructureCode);
    InsightsHas(s, dupes, MostlyLeavesCode);
    if s.totalNodes > 0 {
      RatioAbove(s.leafCount, s.totalNodes);
    }
  }

  /** The insights carry a code exactly when one of the four blocks pushed it. */
  lemma InsightsHas(s: Snapshot, dupes: seq<NameCount>, code: InsightCode)
    ensures HasCode(Insights(s, dupes), code) <==>
            Pushed(SizeInsight(s), code) || Pushed(DuplicateInsight(dupes), code) ||
            Pushed(FlatInsight(s), code) || Pushed(LeafInsight(s), code)
  {
    var a, b, c, d := SizeInsight(s), DuplicateInsight(dupes), FlatInsight(s), LeafInsight(s);
    HasCodeConcat(a, b, code);
    HasCodeConcat(a + b, c, code);
    HasCodeConcat(a + b + c, d, code);
    HasCodeSmall(a, code);
    HasCodeSmall(b, code);
    HasCodeSmall(c, code);
    HasCodeSmall(d, code);
  }

  /** A block of at most one insight pushed one with this code. */
  predicate Pushed(x: seq<Insight>, code: InsightCode)
  {
    |x| == 1 && Code(x[0]) == code
  }

  /** An insight list has a code exactly when one of its two parts has it. */
  lemma HasCodeConcat(x: seq<Insight>, y: seq<Insight>, code: InsightCode)
    ensures HasCode(x + y, code) <==> HasCode(x, code) || HasCode(y, code)
  {
    if HasCode(x + y, code) {
      var i :| i in x + y && Code(i) == code;
    }
    if HasCode(x, code) || HasCode(y, code) {
      var i :| (i in x || i in y) && Code(i) == code;
      assert i in x + y;
    }
  }

  /** An empty insight list has no code; a single insight has its own. */
  lemma HasCodeSmall(x: seq<Insight>, code: InsightCode)
    requires |x| <= 1
    ensures HasCode(x, code) <==> Pushed(x, code)
  {
    if |x| == 1 {
      assert x[0] in x;
    }
  }

  lemma Sign(x: real, y: real)
    requires y > 0.0
    ensures x > 0.0 <==> x * y > 0.0
  {
    if x <= 0.0 {
      assert x * y == -((-x) * y);
    }
  }

  lemma RatioAbove(leaves: nat, total: nat)
    requires total > 0
    ensures (leaves as real) / (total as real) > 0.85 <==> 100 * leaves > 85 * total
  {
    var t := total as real;
    var l := leaves as real;
    Scaled(l / t, l, t);
  }

  /** For `l == ratio * t` with `t` positive, the ratio is above 0.85 exactly when `l` is above 0.85 times `t`. */
  lemma Scaled(ratio: real, l: real, t: real)
    requires t > 0.0 && ratio == l / t
    ensures ratio > 0.85 <==> 100.0 * l > 85.0 * t
  {
    assert l == ratio * t;
    assert (ratio - 0.85) * t == l - 0.85 * t;
    Sign(ratio - 0.85, t);
  }

  /** The repeated names of a visit: case-folded keys distinct, each count that key's number of nodes (above 1), every repeated key present. */
  ghost predicate DupesOk(visit: seq<Entry>, dupes: seq<NameCount>)
  {
    (forall i :: 0 <= i < |dupes| ==> dupes[i].count == KeyCount(visit, Lower(dupes[i].name)) && dupes[i].count > 1) &&
    (forall i, j :: 0 <= i < j < |dupes| ==> Lower(dupes[i].name) != Lower(dupes[j].name)) &&
    (forall k :: KeyCount(visit, k) > 1 ==> Listed(dupes, k))
  }

  predicate Listed(dupes: seq<NameCount>, k: string)
  {
    exists i :: 0 <= i < |dupes| && Lower(dupes[i].name) == k
  }

  /** There are repeated names exactly when some case-folded name is carried by two nodes. */
  lemma DupesNonEmpty(visit: seq<Entry>, dupes: seq<NameCount>)
    requires DupesOk(visit, dupes)
    ensures |dupes| > 0 <==> exists k :: KeyCount(visit, k) > 1
  {
    if |dupes| > 0 {
      assert KeyCount(visit, Lower(dupes[0].name)) > 1;
    }
  }

  // ---------------------------------------------------------------- analyzeCapabilitiesStructure

  /** `nameCounts` and its insertion order against the nodes visited so far. */
  ghost predicate NamesOk(nameCounts: map<string, NameCount>, order: seq<string>, visited: seq<Entry>)
  {
    (forall k :: k in nameCounts <==> KeyCount(visited, k) > 0) &&
    (forall k :: k in nameCounts ==> nameCounts[k].count == KeyCount(visited, k) && Lower(nameCounts[k].name) == k) &&
    Distinct(order) && (forall k :: k in order <==> k in nameCounts)
  }

  /** `byLevel` counts each level tag of the nodes visited so far. */
  ghost predicate LevelsOk(byLevel: map<string, nat>, visited: seq<Entry>)
  {
    forall l :: (l in byLevel <==> LevelCount(visited, l) > 0) && (l in byLevel ==> byLevel[l] == LevelCount(visited, l))
  }

  /** `[...nameCounts.values()]` in insertion order. */
  function ValuesInOrder(nameCounts: map<string, NameCount>, order: seq<string>): (r: seq<NameCount>)
    requires forall k :: k in order ==> k in nameCounts
    ensures |r| == |order| && forall i :: 0 <= i < |order| ==> r[i] == nameCounts[order[i]]
  {
    seq(|order|, i requires 0 <= i < |order| => nameCounts[order[i]])
  }

  predicate Repeated(e: NameCount)
  {
    e.count > 1
  }

  /** The repeated entries of a consistent `nameCounts` meet `DupesOk`. */
  lemma RepeatedOk(nameCounts: map<string, NameCount>, order: seq<string>, visit: seq<Entry>)
    requires NamesOk(nameCounts, order, visit)
    ensures DupesOk(visit, Filter(ValuesInOrder(nameCounts, order), Repeated))
  {
    var values := ValuesInOrder(nameCounts, order);
    var dupes := Filter(values, Repeated);
    assert forall d :: d in dupes ==> d in values && d == nameCounts[Lower(d.name)] && d.count > 1;
    RepeatedDistinct(nameCounts, order, visit);
    RepeatedListed(nameCounts, order, visit);
  }

  lemma RepeatedDistinct(nameCounts: map<string, NameCount>, order: seq<string>, visit: seq<Entry>)
    requires NamesOk(nameCounts, order, visit)
    ensures var dupes := Filter(ValuesInOrder(nameCounts, order), Repeated);
            forall i, j :: 0 <= i < j < |dupes| ==> Lower(dupes[i].name) != Lower(dupes[j].name)
  {
    var values := ValuesInOrder(nameCounts, order);
    var dupes := Filter(values, Repeated);
    assert Distinct(values) by {
      forall i, j | 0 <= i < j < |values|
        ensures values[i] != values[j]
      {
        assert Lower(values[i].name) == order[i] && Lower(values[j].name) == order[j];
      }
    }
    FilterDistinct(values, Repeated);
    forall i, j | 0 <= i < j < |dupes|
      ensures Lower(dupes[i].name) != Lower(dupes[j].name)
    {
      assert dupes[i] in values && dupes[j] in values;
    }
  }

  lemma RepeatedListed(nameCounts: map<string, NameCount>, order: seq<string>, visit: seq<Entry>)
    requires NamesOk(nameCounts, order, visit)
    ensures forall k :: KeyCount(visit, k) > 1 ==> Listed(Filter(ValuesInOrder(nameCounts, order), Repeated), k)
  {
    var values := ValuesInOrder(nameCounts, order);
    var dupes := Filter(values, Repeated);
    forall k | KeyCount(visit, k) > 1
      ensures Listed(dupes, k)
    {
      var i :| 0 <= i < |order| && order[i] == k;
      assert values[i] in dupes;
      var j :| 0 <= j < |dupes| && dupes[j] == values[i];
    }
  }

  /** The `nameCounts` update for one node. */
  method CountName(nameCounts: map<string, NameCount>, order: seq<string>, ghost visited: seq<Entry>, e: Entry)
    returns (nameCounts': map<string, NameCount>, order': seq<string>)
    requires NamesOk(nameCounts, order, visited)
    ensures NamesOk(nameCounts', order', visited + [e])
  {
    assert (visited + [e])[..|visited|] == visited;
    nameCounts', order' := nameCounts, order;
    var name := NameOf(e.node);
    if name != "" {
      var key := Lower(name);
      var entry := if key in nameCounts then nameCounts[key] else NameCount(name, 0);
      if key !in nameCounts {
        order' := order + [key];
      }
      nameCounts' := nameCounts[key := entry.(count := entry.count + 1)];
    }
  }

  /** The `byLevel` update for one node. */
  method CountLevel(byLevel: map<string, nat>, ghost visited: seq<Entry>, e: Entry) returns (byLevel': map<string, nat>)
    requires LevelsOk(byLevel, visited)
    ensures LevelsOk(byLevel', visited + [e])
  {
    assert (visited + [e])[..|visited|] == visited;
    byLevel' := byLevel;
    if Present(e.node.level) {
      var level := e.node.level.value;
      byLevel' := byLevel[level := (if level in byLevel then byLevel[level] else 0) + 1];
    }
  }

  /** The walk's counters: `totalNodes`, `leafCount`, `maxDepth`, `byLevel`, and `nameCounts` with its key insertion order. */
  datatype Tally = Tally(totalNodes: nat, leafCount: nat, maxDepth: nat, byLevel: map<string, nat>,
                         nameCounts: map<string, NameCount>, order: seq<string>)

  /** The counters against the nodes visited so far. */
  ghost predicate Tallied(visited: seq<Entry>, t: Tally)
  {
    t.totalNodes == |visited| && t.leafCount == LeafCount(visited) && t.maxDepth == MaxDepth(visited) &&
    LevelsOk(t.byLevel, visited) && NamesOk(t.nameCounts, t.order, visited)
  }

  /** The counter updates for one popped entry. */
  method CountNode(t: Tally, ghost visited: seq<Entry>, e: Entry) returns (t': Tally)
    requires Tallied(visited, t)
    ensures Tallied(visited + [e], t')
  {
    assert (visited + [e])[..|visited|] == visited;
    var nameCounts, order := CountName(t.nameCounts, t.order, visited, e);
    var byLevel := CountLevel(t.byLevel, visited, e);
    var maxDepth := if t.maxDepth >= e.depth then t.maxDepth else e.depth;
    var leafCount := if |e.node.children| == 0 then t.leafCount + 1 else t.leafCount;
    t' := Tally(t.totalNodes + 1, leafCount, maxDepth, byLevel, nameCounts, order);
  }

  /** `for (const child of kids) stack.push({ node: child, depth })` */
  method PushChildren(stack: seq<Entry>, kids: seq<Capability>, depth: Depth) returns (stack': seq<Entry>)
    ensures stack' == stack + Entries(kids, depth)
  {
    stack' := stack;
    for i := 0 to |kids|
      invariant stack' == stack + Entries(kids[..i], depth)
    {
      assert Entries(kids[..i + 1], depth) == Entries(kids[..i], depth) + [Entry(kids[i], depth)];
      stack' := stack' + [Entry(kids[i], depth)];
    }
    assert kids[..|kids|] == kids;
  }

  /**
   * One turn of the walk: pop the top entry, count its node and push its
   * children one level deeper. The popped entry moves from what the stack
   * will still pop to what was visited.
   */
  method VisitTop(stack: seq<Entry>, t: Tally, ghost visited: seq<Entry>)
    returns (stack': seq<Entry>, t': Tally, ghost visited': seq<Entry>)
    requires |stack| > 0 && Tallied(visited, t)
    ensures Tallied(visited', t')
    ensures visited' + StackVisit(stack') == visited + StackVisit(stack)
    ensures |StackVisit(stack')| < |StackVisit(stack)|
  {
    var e := stack[|stack| - 1];
    var rest := stack[..|stack| - 1];
    LastSplit(stack);
    t' := CountNode(t, visited, e);
    // the leaf count was taken in CountNode; pushing no children leaves `rest`
    stack' := PushChildren(rest, e.node.children, e.depth + 1);
    StepVisit(visited, rest, e);
    visited' := visited + [e];
  }

  /**
   * The stack walk of `analyzeCapabilitiesStructure`: it pops exactly the
   * entries of `ForestVisit(roots, 1)`, so the counters end up holding the
   * forest's node count, leaf count and height, `byLevel` counting each
   * level tag and `nameCounts` each case-folded name.
   */
  method Walk(roots: seq<Capability>) returns (t: Tally)
    ensures Tallied(ForestVisit(roots, 1), t)
  {
    t := Tally(0, 0, 0, map[], map[], []);
    ghost var visited: seq<Entry> := [];
    var stack := Entries(roots, 1);
    PushVisit([], roots, 1);
    assert [] + stack == stack;
    while |stack| > 0
      invariant visited + StackVisit(stack) == ForestVisit(roots, 1)
      invariant Tallied(visited, t)
      decreases |StackVisit(stack)|
    {
      stack, t, visited := VisitTop(stack, t, visited);
    }
    assert visited + [] == visited;
  }

  /**
   * `analyzeCapabilitiesStructure`: the stack walk, then the insights. The
   * snapshot holds the forest's node count, leaf count and height,
   * `byLevel` counts each level tag over the nodes, and the insights are
   * those of the snapshot and the repeated names.
   */
  method AnalyzeCapabilitiesStructure(roots: seq<Capability>) returns (snapshot: Snapshot, insights: seq<Insight>)
    ensures snapshot.totalNodes == ForestStats(roots).size
    ensures snapshot.leafCount == ForestStats(roots).leaves
    ensures snapshot.maxDepth == ForestStats(roots).height
    ensures LevelsOk(snapshot.byLevel, ForestVisit(roots, 1))
    ensures exists dupes :: DupesOk(ForestVisit(roots, 1), dupes) && insights == Insights(snapshot, dupes)
  {
    var t := Walk(roots);
    ForestVisitStats(roots, 1);
    snapshot := Snapshot(t.totalNodes, t.byLevel, t.leafCount, t.maxDepth);
    var dupes := Filter(ValuesInOrder(t.nameCounts, t.order), Repeated);
    RepeatedOk(t.nameCounts, t.order, ForestVisit(roots, 1));
    insights := Insights(snapshot, dupes);
  }

  /**
   * The snapshot of any forest: no nodes and depth 0 exactly when there
   * are no roots; otherwise at least one leaf and depth at least 1; leaves
   * and depth never exceed the node count.
   */
  lemma SnapshotFacts(roots: seq<Capability>)
    ensures var s := ForestStats(roots);
            (s.size == 0 <==> |roots| == 0) && (s.height == 0 <==> |roots| == 0) &&
            (|roots| > 0 ==> s.height >= 1 && s.leaves >= 1) &&
            s.leaves <= s.size && s.height <= s.size
  {
    ForestFacts(roots);
  }

  // ---------------------------------------------------------------- the level counts

  /** The sum of a count map's values, taken over a list of its keys. */
  function SumOver(m: map<string, nat>, keys: seq<string>): nat
    requires forall k :: k in keys ==> k in m
  {
    if |keys| == 0 then 0 else SumOver(m, keys[..|keys| - 1]) + m[keys[|keys| - 1]]
  }

  /** How many visited nodes carry a level tag from `tags`. */
  function TaggedCount(s: seq<Entry>, tags: set<string>): (n: nat)
    ensures n <= |s|
  {
    if |s| == 0 then 0
    else TaggedCount(s[..|s| - 1], tags) + (if Present(s[|s| - 1].node.level) && s[|s| - 1].node.level.value in tags then 1 else 0)
  }

  lemma {:induction false} TaggedSplit(s: seq<Entry>, tags: set<string>, l: string)
    requires l in tags
    ensures TaggedCount(s, tags) == LevelCount(s, l) + TaggedCount(s, tags - {l})
  {
    if |s| > 0 {
      TaggedSplit(s[..|s| - 1], tags, l);
    }
  }

  /** Level counts summed over distinct tags are the number of nodes carrying one of those tags. */
  lemma {:induction false} SumLevels(m: map<string, nat>, keys: seq<string>, s: seq<Entry>)
    requires forall k :: k in keys ==> k in m && m[k] == LevelCount(s, k)
    requires Distinct(keys)
    ensures SumOver(m, keys) == TaggedCount(s, (set k | k in keys))
  {
    if |keys| == 0 {
      assert (set k | k in keys) == {};
      EmptyTags(s);
    } else {
      var n := |keys| - 1;
      assert Distinct(keys[..n]);
      SumLevels(m, keys[..n], s);
      TaggedSplit(s, (set k | k in keys), keys[n]);
      assert (set k | k in keys) - {keys[n]} == (set k | k in keys[..n]);
    }
  }

  lemma {:induction false} EmptyTags(s: seq<Entry>)
    ensures TaggedCount(s, {}) == 0
  {
    if |s| > 0 {
      EmptyTags(s[..|s| - 1]);
    }
  }

  /** The `byLevel` counts of the snapshot, taken over its keys in any order, add up to at most the node count. */
  lemma LevelsBounded(byLevel: map<string, nat>, keys: seq<string>, roots: seq<Capability>)
    requires LevelsOk(byLevel, ForestVisit(roots, 1))
    requires Distinct(keys) && forall k :: k in keys <==> k in byLevel
    ensures SumOver(byLevel, keys) <= ForestStats(roots).size
  {
    SumLevels(byLevel, keys, ForestVisit(roots, 1));
    ForestVisitStats(roots, 1);
  }
}
