/**
 * `integrateRows` of the vision panel (src/ui/components/VisionPanel.tsx):
 * rows read from an image are merged into a copy of the capability map.
 * L1 rows upsert roots, L2 rows attach under the node their parent names
 * (or under the L1 heading their domain, or under a root upserted for the
 * parent), and L3 rows attach under the node their parent names or under
 * an L2 upserted below a domain head or the "Unassigned" root.
 *
 * The source mutates the cloned tree through object references. Here the
 * tree is a `seq<Capability>` value the methods reassign, a node is named
 * by its path of child indices, and a reference to a node is its path;
 * since the tree only grows, a path stays valid once it names a node.
 * `newId` is a parameter: the id minted for the k-th new node.
 *
 * The helpers take the name normalisation as a parameter `keyOf`, since
 * they only ever compare its results; `IntegrateRows` passes `NameKey`,
 * the trim-and-lower-case that `nameEq`, the L1 index, `findAnyByName`
 * and `pickL1ByDomain` all apply.
 */
module VisionPanel {
  import opened Common
  import opened Text
  import opened MapIntelligence
  import MapTree

  type Capability = MapTree.Capability

  /** A row the vision API returns. */
  datatype VisionRow = VisionRow(name: string, level: Level, domain: Option<string>, parent: Option<string>)

  /** A node of the tree, named by the child indices leading to it from the roots. */
  type Path = seq<nat>

  /** The key `nameEq` compares: trimmed and lower-cased. */
  function NameKey(s: string): string
  {
    Lower(Trim(s))
  }

  /** A JavaScript-truthy optional string: present and non-empty. */
  predicate Truthy(s: Option<string>)
  {
    s.Some? && s.value != ""
  }

  /** `s || fallback` on an optional string. */
  function OrElse(s: Option<string>, fallback: string): (r: string)
    ensures Truthy(s) ==> r == s.value
    ensures !Truthy(s) ==> r == fallback
  {
    if Truthy(s) then s.value else fallback
  }

  // ---------------------------------------------------------------- paths

  /** The node a path names, if any. */
  function NodeAt(f: seq<Capability>, p: Path): Option<Capability>
    decreases |p|
  {
    if |p| == 0 || p[0] >= |f| then None
    else if |p| == 1 then Some(f[p[0]])
    else NodeAt(f[p[0]].children, p[1..])
  }

  /** The child `j` of the node at `p` is at `p + [j]`. */
  lemma {:induction false} NodeAtChild(f: seq<Capability>, p: Path, j: nat)
    requires NodeAt(f, p).Some? && j < |NodeAt(f, p).value.children|
    ensures NodeAt(f, p + [j]) == Some(NodeAt(f, p).value.children[j])
    decreases |p|
  {
    var q := p + [j];
    assert q[0] == p[0];
    if |p| == 1 {
      assert q[1..] == [j];
    } else {
      assert q[1..] == p[1..] + [j];
      NodeAtChild(f[p[0]].children, p[1..], j);
    }
  }

  /** The tree with `c` appended to the children of the node at `p`. */
  function AddChildAt(f: seq<Capability>, p: Path, c: Capability): (r: seq<Capability>)
    requires NodeAt(f, p).Some?
    ensures |r| == |f|
    ensures forall i :: 0 <= i < |f| ==> r[i].name == f[i].name && r[i].level == f[i].level && r[i].domain == f[i].domain
    decreases |p|
  {
    var n := f[p[0]];
    if |p| == 1 then f[p[0] := n.(children := n.children + [c])]
    else f[p[0] := n.(children := AddChildAt(n.children, p[1..], c))]
  }

  /** After the append, the node at `p` has `c` as its last child. */
  lemma {:induction false} AddChildAtNode(f: seq<Capability>, p: Path, c: Capability)
    requires NodeAt(f, p).Some?
    ensures var n := NodeAt(f, p).value;
            NodeAt(AddChildAt(f, p, c), p) == Some(n.(children := n.children + [c]))
    decreases |p|
  {
    if |p| > 1 {
      AddChildAtNode(f[p[0]].children, p[1..], c);
    }
  }

  // ---------------------------------------------------------------- growth

  /** A domain is kept, or filled in where it was falsy. */
  predicate DomainKept(a: Option<string>, b: Option<string>)
  {
    a == b || (!Truthy(a) && Truthy(b))
  }

  /** `b` is `a` with children appended somewhere and domains filled: nothing is removed, renamed or moved. */
  predicate GrownNode(a: Capability, b: Capability)
    decreases a, 1
  {
    b.id == a.id && b.name == a.name && b.level == a.level && DomainKept(a.domain, b.domain) &&
    GrownForest(a.children, b.children)
  }

  predicate GrownForest(a: seq<Capability>, b: seq<Capability>)
    decreases a, 0
  {
    |a| <= |b| && forall i :: 0 <= i < |a| ==> GrownNode(a[i], b[i])
  }

  lemma {:induction false} GrownNodeRefl(c: Capability)
    ensures GrownNode(c, c)
    decreases c, 1
  {
    GrownForestRefl(c.children);
  }

  lemma {:induction false} GrownForestRefl(f: seq<Capability>)
    ensures GrownForest(f, f)
    decreases f, 0
  {
    forall i | 0 <= i < |f|
      ensures GrownNode(f[i], f[i])
    {
      GrownNodeRefl(f[i]);
    }
  }

  lemma {:induction false} GrownNodeTrans(a: Capability, b: Capability, c: Capability)
    requires GrownNode(a, b) && GrownNode(b, c)
    ensures GrownNode(a, c)
    decreases a, 1
  {
    GrownForestTrans(a.children, b.children, c.children);
  }

  lemma {:induction false} GrownForestTrans(a: seq<Capability>, b: seq<Capability>, c: seq<Capability>)
    requires GrownForest(a, b) && GrownForest(b, c)
    ensures GrownForest(a, c)
    decreases a, 0
  {
    forall i | 0 <= i < |a|
      ensures GrownNode(a[i], c[i])
    {
      GrownNodeTrans(a[i], b[i], c[i]);
    }
  }

  /** Appending a node to a forest grows it. */
  lemma GrownAppend(f: seq<Capability>, c: Capability)
    ensures GrownForest(f, f + [c])
  {
    GrownForestRefl(f);
  }

  /** Appending a child anywhere grows the tree. */
  lemma {:induction false} AddChildGrows(f: seq<Capability>, p: Path, c: Capability)
    requires NodeAt(f, p).Some?
    ensures GrownForest(f, AddChildAt(f, p, c))
    decreases |p|
  {
    var r := AddChildAt(f, p, c);
    var n := f[p[0]];
    GrownForestRefl(f);
    if |p| == 1 {
      GrownAppend(n.children, c);
    } else {
      AddChildGrows(n.children, p[1..], c);
    }
    assert GrownNode(n, r[p[0]]);
  }

  /** Filling a falsy root domain grows the tree. */
  lemma FillGrows(f: seq<Capability>, i: nat, d: Option<string>)
    requires i < |f| && !Truthy(f[i].domain) && Truthy(d)
    ensures GrownForest(f, f[i := f[i].(domain := d)])
  {
    var r := f[i := f[i].(domain := d)];
    forall k | 0 <= k < |f|
      ensures GrownNode(f[k], r[k])
    {
      GrownNodeRefl(f[k]);
      if k == i {
        GrownForestRefl(f[k].children);
      }
    }
  }

  /** A node of a tree is still there, grown, in any tree the first grows into. */
  lemma {:induction false} GrownKeepsNode(a: seq<Capability>, b: seq<Capability>, p: Path)
    requires GrownForest(a, b) && NodeAt(a, p).Some?
    ensures NodeAt(b, p).Some? && GrownNode(NodeAt(a, p).value, NodeAt(b, p).value)
    decreases |p|
  {
    if |p| > 1 {
      GrownKeepsNode(a[p[0]].children, b[p[0]].children, p[1..]);
    }
  }

  // ---------------------------------------------------------------- distinct new names

  function OldKids(a: seq<Capability>, i: nat): seq<Capability>
  {
    if i < |a| then a[i].children else []
  }

  /**
   * Every node `b` has beyond what `a` had, among the roots and below
   * every node, has a name key that no sibling of it shares.
   */
  predicate NewDistinct(keyOf: string -> string, a: seq<Capability>, b: seq<Capability>)
    decreases b
  {
    && (forall i, j :: |a| <= i < |b| && 0 <= j < |b| && i != j ==> keyOf(b[i].name) != keyOf(b[j].name))
    && (forall i :: 0 <= i < |b| ==> NewDistinct(keyOf, OldKids(a, i), b[i].children))
  }

  lemma {:induction false} NewDistinctRefl(keyOf: string -> string, f: seq<Capability>)
    ensures NewDistinct(keyOf, f, f)
    decreases f
  {
    forall i | 0 <= i < |f|
      ensures NewDistinct(keyOf, OldKids(f, i), f[i].children)
    {
      NewDistinctRefl(keyOf, f[i].children);
    }
  }

  /** Appending a childless node whose key no sibling has keeps new names distinct. */
  lemma NewDistinctAppend(keyOf: string -> string, a: seq<Capability>, b: seq<Capability>, c: Capability)
    requires NewDistinct(keyOf, a, b) && c.children == []
    requires forall j :: 0 <= j < |b| ==> keyOf(b[j].name) != keyOf(c.name)
    ensures NewDistinct(keyOf, a, b + [c])
  {
    var r := b + [c];
    assert NewDistinct(keyOf, OldKids(a, |b|), c.children);
    forall i | 0 <= i < |r|
      ensures NewDistinct(keyOf, OldKids(a, i), r[i].children)
    {
      if i < |b| {
        assert r[i] == b[i];
      }
    }
  }

  /** Appending a childless node under `p`, whose key no child there has, keeps new names distinct. */
  lemma {:induction false} NewDistinctAdd(keyOf: string -> string, a: seq<Capability>, b: seq<Capability>, p: Path, c: Capability)
    requires NewDistinct(keyOf, a, b) && NodeAt(b, p).Some? && c.children == []
    requires forall j :: 0 <= j < |NodeAt(b, p).value.children| ==> keyOf(NodeAt(b, p).value.children[j].name) != keyOf(c.name)
    ensures NewDistinct(keyOf, a, AddChildAt(b, p, c))
    decreases |p|
  {
    var r := AddChildAt(b, p, c);
    var i0 := p[0];
    if |p| == 1 {
      NewDistinctAppend(keyOf, OldKids(a, i0), b[i0].children, c);
    } else {
      NewDistinctAdd(keyOf, OldKids(a, i0), b[i0].children, p[1..], c);
    }
    assert NewDistinct(keyOf, OldKids(a, i0), r[i0].children);
    forall i | 0 <= i < |r|
      ensures NewDistinct(keyOf, OldKids(a, i), r[i].children)
    {
      if i != i0 {
        assert r[i] == b[i];
      }
    }
  }

  /** Filling a root's domain keeps new names distinct. */
  lemma NewDistinctFill(keyOf: string -> string, a: seq<Capability>, b: seq<Capability>, i: nat, d: Option<string>)
    requires NewDistinct(keyOf, a, b) && i < |b|
    ensures NewDistinct(keyOf, a, b[i := b[i].(domain := d)])
  {
    var r := b[i := b[i].(domain := d)];
    forall k | 0 <= k < |r|
      ensures NewDistinct(keyOf, OldKids(a, k), r[k].children)
    {
      assert r[k].children == b[k].children;
    }
  }

  // ---------------------------------------------------------------- the L1 index

  /** `l1ByName`: every root's key is present, and maps to a root with that key. */
  predicate Indexed(keyOf: string -> string, next: seq<Capability>, byName: map<string, nat>)
  {
    && (forall k :: k in byName ==> byName[k] < |next| && keyOf(next[byName[k]].name) == k)
    && (forall i :: 0 <= i < |next| ==> keyOf(next[i].name) in byName)
  }

  /** The roots added beyond `current` are L1 nodes with a truthy domain. */
  predicate NewRootsL1(current: seq<Capability>, next: seq<Capability>)
  {
    forall i :: |current| <= i < |next| ==> next[i].level == L1 && Truthy(next[i].domain)
  }

  /** The state `integrateRows` keeps while it applies rows to `current`. */
  datatype Work = Work(next: seq<Capability>, byName: map<string, nat>, minted: nat)

  /** The invariant of the work state: the index is exact, and the tree grew from `current` without duplicate new names. */
  predicate Sound(keyOf: string -> string, current: seq<Capability>, w: Work)
  {
    Indexed(keyOf, w.next, w.byName) && GrownForest(current, w.next) && NewDistinct(keyOf, current, w.next) && NewRootsL1(current, w.next)
  }

  /**
   * The loop that fills `l1ByName`: each root's key maps to the last root
   * holding that key.
   */
  method BuildIndex(keyOf: string -> string, next: seq<Capability>) returns (byName: map<string, nat>)
    ensures Indexed(keyOf, next, byName)
    ensures forall i :: 0 <= i < |next| ==> byName[keyOf(next[i].name)] >= i
  {
    byName := map[];
    for i := 0 to |next|
      invariant forall k :: k in byName ==> byName[k] < i && keyOf(next[byName[k]].name) == k
      invariant forall j :: 0 <= j < i ==> keyOf(next[j].name) in byName && byName[keyOf(next[j].name)] >= j
    {
      byName := byName[keyOf(next[i].name) := i];
    }
  }

  /** Appending a new L1 root with a domain, whose key is not indexed, keeps the work state sound. */
  lemma AppendRootSound(keyOf: string -> string, current: seq<Capability>, w: Work, node: Capability, minted: nat)
    requires Sound(keyOf, current, w) && keyOf(node.name) !in w.byName
    requires node.level == L1 && Truthy(node.domain) && node.children == []
    ensures var w' := Work(w.next + [node], w.byName[keyOf(node.name) := |w.next|], minted);
            Sound(keyOf, current, w') && GrownForest(w.next, w'.next)
  {
    var next := w.next + [node];
    GrownAppend(w.next, node);
    GrownForestTrans(current, w.next, next);
    NewDistinctAppend(keyOf, current, w.next, node);
  }

  /** Filling a falsy root domain from a truthy one keeps the work state sound. */
  lemma FillSound(keyOf: string -> string, current: seq<Capability>, w: Work, i: nat, d: Option<string>)
    requires Sound(keyOf, current, w) && i < |w.next| && !Truthy(w.next[i].domain) && Truthy(d)
    ensures var w' := w.(next := w.next[i := w.next[i].(domain := d)]);
            Sound(keyOf, current, w') && GrownForest(w.next, w'.next)
  {
    var next := w.next[i := w.next[i].(domain := d)];
    FillGrows(w.next, i, d);
    GrownForestTrans(current, w.next, next);
    NewDistinctFill(keyOf, current, w.next, i, d);
  }

  /**
   * `upsertL1`: the root whose key is the name's is returned, its falsy
   * domain filled from a truthy one; with no such root a new L1 root with
   * the domain, or "Unassigned", is appended and indexed.
   */
  method UpsertL1(keyOf: string -> string, w: Work, name: string, domain: Option<string>, newId: nat -> string, ghost current: seq<Capability>)
    returns (w': Work, host: nat)
    requires Sound(keyOf, current, w)
    ensures Sound(keyOf, current, w') && GrownForest(w.next, w'.next)
    ensures host < |w'.next| && keyOf(w'.next[host].name) == keyOf(name)
    ensures Truthy(domain) ==> Truthy(w'.next[host].domain)
    ensures keyOf(name) in w.byName ==>
              host == w.byName[keyOf(name)] && w'.byName == w.byName && w'.minted == w.minted &&
              w'.next == (if Truthy(domain) && !Truthy(w.next[host].domain) then w.next[host := w.next[host].(domain := domain)] else w.next)
    ensures keyOf(name) !in w.byName ==>
              host == |w.next| && w'.byName == w.byName[keyOf(name) := host] && w'.minted == w.minted + 1 &&
              w'.next == w.next + [MapTree.Capability(newId(w.minted), name, L1, Some(OrElse(domain, "Unassigned")), [])]
  {
    var key := keyOf(name);
    if key !in w.byName {
      var node := MapTree.Capability(newId(w.minted), name, L1, Some(OrElse(domain, "Unassigned")), []);
      host := |w.next|;
      AppendRootSound(keyOf, current, w, node, w.minted + 1);
      w' := Work(w.next + [node], w.byName[key := host], w.minted + 1);
    } else {
      host := w.byName[key];
      if Truthy(domain) && !Truthy(w.next[host].domain) {
        FillSound(keyOf, current, w, host, domain);
        w' := w.(next := w.next[host := w.next[host].(domain := domain)]);
      } else {
        w' := w;
        GrownForestRefl(w.next);
      }
    }
  }

  // ---------------------------------------------------------------- children

  /** The first child from position `i` on with the key, or `|kids|`. */
  function FirstKeyFrom(keyOf: string -> string, kids: seq<Capability>, key: string, i: nat): (j: nat)
    requires i <= |kids|
    ensures i <= j <= |kids|
    decreases |kids| - i
  {
    if i == |kids| || keyOf(kids[i].name) == key then i
    else FirstKeyFrom(keyOf, kids, key, i + 1)
  }

  /** The child found has the key, and none before it from `i` on has. */
  lemma {:induction false} FirstKeyFromIsFirst(keyOf: string -> string, kids: seq<Capability>, key: string, i: nat)
    requires i <= |kids|
    ensures var j := FirstKeyFrom(keyOf, kids, key, i);
            (j < |kids| ==> keyOf(kids[j].name) == key) && forall k :: i <= k < j ==> keyOf(kids[k].name) != key
    decreases |kids| - i
  {
    if i < |kids| && keyOf(kids[i].name) != key {
      FirstKeyFromIsFirst(keyOf, kids, key, i + 1);
    }
  }

  /** `children.find(c => nameEq(c.name, name))`: the first child with the name's key, or `|kids|`. */
  function FirstNamed(keyOf: string -> string, kids: seq<Capability>, name: string): (j: nat)
    ensures j <= |kids|
    ensures j < |kids| ==> keyOf(kids[j].name) == keyOf(name)
    ensures forall k :: 0 <= k < j ==> keyOf(kids[k].name) != keyOf(name)
  {
    FirstKeyFromIsFirst(keyOf, kids, keyOf(name), 0);
    FirstKeyFrom(keyOf, kids, keyOf(name), 0)
  }

  /** The node has a child with the key. */
  predicate HasChildKey(keyOf: string -> string, n: Capability, key: string)
  {
    exists j :: 0 <= j < |n.children| && keyOf(n.children[j].name) == key
  }

  /** Appending a childless node whose key no sibling has keeps the work state sound. */
  lemma AddChildSound(keyOf: string -> string, current: seq<Capability>, w: Work, p: Path, c: Capability, minted: nat)
    requires Sound(keyOf, current, w) && NodeAt(w.next, p).Some? && c.children == []
    requires forall j :: 0 <= j < |NodeAt(w.next, p).value.children| ==> keyOf(NodeAt(w.next, p).value.children[j].name) != keyOf(c.name)
    ensures var w' := Work(AddChildAt(w.next, p, c), w.byName, minted);
            Sound(keyOf, current, w') && GrownForest(w.next, w'.next)
  {
    var next := AddChildAt(w.next, p, c);
    AddChildGrows(w.next, p, c);
    GrownForestTrans(current, w.next, next);
    NewDistinctAdd(keyOf, current, w.next, p, c);
  }

  /** The child `j` of the node at `p` gives that node a child of its key. */
  lemma ChildKeyAt(keyOf: string -> string, f: seq<Capability>, p: Path, j: nat)
    requires NodeAt(f, p).Some? && j < |NodeAt(f, p).value.children|
    ensures NodeAt(f, p + [j]) == Some(NodeAt(f, p).value.children[j])
    ensures HasChildKey(keyOf, NodeAt(f, p).value, keyOf(NodeAt(f, p).value.children[j].name))
  {
    NodeAtChild(f, p, j);
  }

  /**
   * `upsertChild`: the first child of the node at `at` whose key is the
   * name's is returned; with no such child a new childless one of the
   * given level is appended.
   */
  method UpsertChild(keyOf: string -> string, w: Work, at: Path, name: string, level: Level, newId: nat -> string, ghost current: seq<Capability>)
    returns (w': Work, child: Path)
    requires Sound(keyOf, current, w) && NodeAt(w.next, at).Some?
    ensures Sound(keyOf, current, w') && GrownForest(w.next, w'.next)
    ensures var kids := NodeAt(w.next, at).value.children;
            var j := FirstNamed(keyOf, kids, name);
            && (j < |kids| ==> w' == w && child == at + [j])
            && (j == |kids| ==> child == at + [j] && w'.byName == w.byName && w'.minted == w.minted + 1 &&
                                 w'.next == AddChildAt(w.next, at, MapTree.Capability(newId(w.minted), name, level, None, [])))
    ensures NodeAt(w'.next, at).Some? && HasChildKey(keyOf, NodeAt(w'.next, at).value, keyOf(name))
    ensures NodeAt(w'.next, child).Some? && keyOf(NodeAt(w'.next, child).value.name) == keyOf(name)
  {
    var parent := NodeAt(w.next, at).value;
    var j := FirstNamed(keyOf, parent.children, name);
    child := at + [j];
    if j < |parent.children| {
      w' := w;
      GrownForestRefl(w.next);
      ChildKeyAt(keyOf, w.next, at, j);
    } else {
      var node := MapTree.Capability(newId(w.minted), name, level, None, []);
      AddChildSound(keyOf, current, w, at, node, w.minted + 1);
      w' := Work(AddChildAt(w.next, at, node), w.byName, w.minted + 1);
      AddChildAtNode(w.next, at, node);
      ChildKeyAt(keyOf, w'.next, at, j);
    }
  }

  // ---------------------------------------------------------------- findAnyByName

  /** A stack entry: a node and its path. */
  datatype Visit = Visit(path: Path, node: Capability)

  /** The entries popped for a tree pushed at `p`: the node, then its children's subtrees, last child first. */
  function TreeVisit(c: Capability, p: Path): seq<Visit>
    decreases c, 1
  {
    [Visit(p, c)] + ForestVisit(c.children, p)
  }

  /** The entries popped for the children `f` of the node at `base`, last child first. */
  function ForestVisit(f: seq<Capability>, base: Path): seq<Visit>
    decreases f, 0
  {
    if |f| == 0 then [] else TreeVisit(f[|f| - 1], base + [|f| - 1]) + ForestVisit(f[..|f| - 1], base)
  }

  /** The entries still to be popped from a stack: the subtree of its top entry first. */
  function StackVisit(stack: seq<Visit>): seq<Visit>
  {
    if |stack| == 0 then []
    else TreeVisit(stack[|stack| - 1].node, stack[|stack| - 1].path) + StackVisit(stack[..|stack| - 1])
  }

  /** The entries pushed for the children `f` of the node at `base`. */
  function Visits(f: seq<Capability>, base: Path): (r: seq<Visit>)
    ensures |r| == |f| && forall i :: 0 <= i < |f| ==> r[i] == Visit(base + [i], f[i])
  {
    seq(|f|, i requires 0 <= i < |f| => Visit(base + [i], f[i]))
  }

  /** Pushing a node's children on top of a stack makes their visit come first. */
  lemma {:induction false} PushVisit(rest: seq<Visit>, f: seq<Capability>, base: Path)
    ensures StackVisit(rest + Visits(f, base)) == ForestVisit(f, base) + StackVisit(rest)
    decreases |f|
  {
    if |f| == 0 {
      assert rest + Visits(f, base) == rest;
    } else {
      var n := |f| - 1;
      var s := rest + Visits(f, base);
      assert s[..|s| - 1] == rest + Visits(f[..n], base);
      PushVisit(rest, f[..n], base);
      var t, p, r := TreeVisit(f[n], base + [n]), ForestVisit(f[..n], base), StackVisit(rest);
      assert StackVisit(s) == t + (p + r);
      assert t + (p + r) == (t + p) + r;
    }
  }

  /** Popping the top entry and pushing its children leaves the rest of its subtree's visit on the stack. */
  lemma PopVisit(rest: seq<Visit>, e: Visit)
    ensures StackVisit(rest + [e]) == [e] + StackVisit(rest + Visits(e.node.children, e.path))
  {
    var s := rest + [e];
    assert s[..|s| - 1] == rest;
    var f, r := ForestVisit(e.node.children, e.path), StackVisit(rest);
    assert StackVisit(s) == ([e] + f) + r;
    assert ([e] + f) + r == [e] + (f + r);
    PushVisit(rest, e.node.children, e.path);
  }

  /** Every node of a forest is visited, at its path below `base`. */
  lemma {:induction false} VisitCovers(f: seq<Capability>, base: Path, q: Path)
    requires NodeAt(f, q).Some?
    ensures Visit(base + q, NodeAt(f, q).value) in ForestVisit(f, base)
    decreases |q|, |f|
  {
    var last := |f| - 1;
    var n := NodeAt(f, q).value;
    var t := TreeVisit(f[last], base + [last]);
    assert ForestVisit(f, base) == t + ForestVisit(f[..last], base);
    if q[0] == last {
      if |q| == 1 {
        assert t[0] == Visit(base + q, n);
      } else {
        VisitCovers(f[last].children, base + [last], q[1..]);
        assert base + [last] + q[1..] == base + q;
        assert Visit(base + q, n) in t;
      }
    } else {
      NodeAtPrefix(f, last, q);
      VisitCovers(f[..last], base, q);
    }
  }

  /** Dropping roots after the first one of a path keeps the node it names. */
  lemma NodeAtPrefix(f: seq<Capability>, m: nat, q: Path)
    requires m <= |f| && NodeAt(f, q).Some? && q[0] < m
    ensures NodeAt(f[..m], q) == NodeAt(f, q)
  {
    assert f[..m][q[0]] == f[q[0]];
  }

  /** The first entry of a visit whose node has the key. */
  function FirstMatch(keyOf: string -> string, v: seq<Visit>, key: string): Option<Visit>
  {
    if |v| == 0 then None
    else if keyOf(v[0].node.name) == key then Some(v[0])
    else FirstMatch(keyOf, v[1..], key)
  }

  /**
   * The match is the entry at some position `i` of the visit, with the
   * key, and every entry before it has another key; no match means no
   * entry has the key.
   */
  lemma {:induction false} FirstMatchIsFirst(keyOf: string -> string, v: seq<Visit>, key: string) returns (i: nat)
    ensures FirstMatch(keyOf, v, key).Some? ==>
              i < |v| && FirstMatch(keyOf, v, key) == Some(v[i]) && keyOf(v[i].node.name) == key &&
              forall k :: 0 <= k < i ==> keyOf(v[k].node.name) != key
    ensures FirstMatch(keyOf, v, key).None? ==> forall k :: 0 <= k < |v| ==> keyOf(v[k].node.name) != key
  {
    if |v| == 0 || keyOf(v[0].node.name) == key {
      return 0;
    }
    var j := FirstMatchIsFirst(keyOf, v[1..], key);
    i := j + 1;
    assert forall k :: 0 < k < |v| ==> v[k] == v[1..][k - 1];
  }

  /**
   * When the walk finds nothing, no node of the tree has the key: the
   * walk misses no node.
   */
  lemma NoMatchNoNode(keyOf: string -> string, next: seq<Capability>, key: string, p: Path)
    requires FirstMatch(keyOf, ForestVisit(next, []), key).None? && NodeAt(next, p).Some?
    ensures keyOf(NodeAt(next, p).value.name) != key
  {
    VisitCovers(next, [], p);
    assert [] + p == p;
    var i := FirstMatchIsFirst(keyOf, ForestVisit(next, []), key);
  }

  /** Every entry of the stack names its node by its path. */
  predicate StackAt(next: seq<Capability>, stack: seq<Visit>)
  {
    forall k :: 0 <= k < |stack| ==> NodeAt(next, stack[k].path) == Some(stack[k].node)
  }

  lemma LastSplit<T>(s: seq<T>)
    requires |s| > 0
    ensures s == s[..|s| - 1] + [s[|s| - 1]]
  {
  }

  /**
   * One turn of the walk that does not return: popping an entry without
   * the key and pushing its children keeps the first match still to come,
   * shortens what is left to pop and keeps every entry at its path.
   */
  lemma WalkStep(keyOf: string -> string, next: seq<Capability>, stack: seq<Visit>, key: string)
    requires |stack| > 0 && StackAt(next, stack)
    ensures var e := stack[|stack| - 1];
            var s := stack[..|stack| - 1] + Visits(e.node.children, e.path);
            && FirstMatch(keyOf, StackVisit(stack), key) == (if keyOf(e.node.name) == key then Some(e) else FirstMatch(keyOf, StackVisit(s), key))
            && |StackVisit(s)| < |StackVisit(stack)|
            && StackAt(next, s)
  {
    var e := stack[|stack| - 1];
    var rest := stack[..|stack| - 1];
    var s := rest + Visits(e.node.children, e.path);
    LastSplit(stack);
    PopVisit(rest, e);
    assert ([e] + StackVisit(s))[1..] == StackVisit(s);
    assert NodeAt(next, e.path) == Some(e.node);
    forall k | 0 <= k < |s|
      ensures NodeAt(next, s[k].path) == Some(s[k].node)
    {
      if k >= |rest| {
        NodeAtChild(next, e.path, k - |rest|);
      } else {
        assert s[k] == stack[k];
      }
    }
  }

  /** The roots pushed at the start pop as the whole visit, each at its path. */
  lemma StartVisit(next: seq<Capability>)
    ensures StackVisit(Visits(next, [])) == ForestVisit(next, [])
    ensures StackAt(next, Visits(next, []))
  {
    PushVisit([], next, []);
    assert [] + Visits(next, []) == Visits(next, []);
    assert ForestVisit(next, []) + [] == ForestVisit(next, []);
  }

  /**
   * `findAnyByName`: the stack walk from the roots, popping the last entry
   * and pushing its children, returns the first node it pops whose key is
   * the name's, together with its path; none when no node has that key.
   */
  method FindAnyByName(keyOf: string -> string, next: seq<Capability>, name: string) returns (found: Option<Visit>)
    ensures found == FirstMatch(keyOf, ForestVisit(next, []), keyOf(name))
    ensures found.Some? ==> NodeAt(next, found.value.path) == Some(found.value.node) && keyOf(found.value.node.name) == keyOf(name)
  {
    var target := keyOf(name);
    var stack := Visits(next, []);
    StartVisit(next);
    while |stack| > 0
      invariant FirstMatch(keyOf, StackVisit(stack), target) == FirstMatch(keyOf, ForestVisit(next, []), target)
      invariant StackAt(next, stack)
      decreases |StackVisit(stack)|
    {
      var e := stack[|stack| - 1];
      WalkStep(keyOf, next, stack, target);
      if keyOf(e.node.name) == target {
        return Some(e);
      }
      stack := stack[..|stack| - 1] + Visits(e.node.children, e.path);
    }
    return None;
  }

  // ---------------------------------------------------------------- pickL1ByDomain

  /** The key `pickL1ByDomain` compares for a root: its domain, or "", trimmed and lower-cased. */
  function DomainKey(keyOf: string -> string, c: Capability): string
  {
    keyOf(c.domain.GetOr(""))
  }

  predicate HeadsDomain(keyOf: string -> string, c: Capability, key: string)
  {
    DomainKey(keyOf, c) == key && c.level == L1
  }

  /** `pickL1ByDomain`: the first root of level L1 whose domain key is the domain's. */
  method PickL1ByDomain(keyOf: string -> string, roots: seq<Capability>, domain: string) returns (r: Option<nat>)
    ensures r.Some? ==> r.value < |roots| && HeadsDomain(keyOf, roots[r.value], keyOf(domain))
    ensures r.Some? ==> forall j :: 0 <= j < r.value ==> !HeadsDomain(keyOf, roots[j], keyOf(domain))
    ensures r.None? ==> forall j :: 0 <= j < |roots| ==> !HeadsDomain(keyOf, roots[j], keyOf(domain))
  {
    var key := keyOf(domain);
    for i := 0 to |roots|
      invariant forall j :: 0 <= j < i ==> !HeadsDomain(keyOf, roots[j], key)
    {
      if DomainKey(keyOf, roots[i]) == key && roots[i].level == L1 {
        return Some(i);
      }
    }
    return None;
  }

  // ---------------------------------------------------------------- placing rows

  /** An L1 row's root: it has the row's key, and a truthy domain if the row has one. */
  predicate L1Root(keyOf: string -> string, next: seq<Capability>, i: nat, r: VisionRow)
  {
    i < |next| && keyOf(next[i].name) == keyOf(r.name) && (Truthy(r.domain) ==> Truthy(next[i].domain))
  }

  /** An L2 row's host: a node of level L1, or a root, with a child of the row's key. */
  predicate L2Host(keyOf: string -> string, next: seq<Capability>, p: Path, r: VisionRow)
  {
    NodeAt(next, p).Some? && (NodeAt(next, p).value.level == L1 || |p| == 1) &&
    HasChildKey(keyOf, NodeAt(next, p).value, keyOf(r.name))
  }

  /** An L3 row's host: a node named by the row's parent, or "Misc", with a child of the row's key. */
  predicate L3Host(keyOf: string -> string, next: seq<Capability>, p: Path, r: VisionRow)
  {
    NodeAt(next, p).Some? && keyOf(NodeAt(next, p).value.name) == keyOf(OrElse(r.parent, "Misc")) &&
    HasChildKey(keyOf, NodeAt(next, p).value, keyOf(r.name))
  }

  lemma HasChildKeyGrown(keyOf: string -> string, a: Capability, b: Capability, key: string)
    requires GrownNode(a, b) && HasChildKey(keyOf, a, key)
    ensures HasChildKey(keyOf, b, key)
  {
    var j :| 0 <= j < |a.children| && keyOf(a.children[j].name) == key;
    assert GrownNode(a.children[j], b.children[j]);
  }

  /** The roots `idx` hold the first `|idx|` L1 rows. */
  ghost predicate RootsHold(keyOf: string -> string, next: seq<Capability>, idx: seq<nat>, rows: seq<VisionRow>)
  {
    |idx| <= |rows| && forall k :: 0 <= k < |idx| ==> L1Root(keyOf, next, idx[k], rows[k])
  }

  /** The hosts `hosts` hold the first `|hosts|` L2 rows. */
  ghost predicate L2HostsHold(keyOf: string -> string, next: seq<Capability>, hosts: seq<Path>, rows: seq<VisionRow>)
  {
    |hosts| <= |rows| && forall k :: 0 <= k < |hosts| ==> L2Host(keyOf, next, hosts[k], rows[k])
  }

  /** The hosts `hosts` hold the first `|hosts|` L3 rows. */
  ghost predicate L3HostsHold(keyOf: string -> string, next: seq<Capability>, hosts: seq<Path>, rows: seq<VisionRow>)
  {
    |hosts| <= |rows| && forall k :: 0 <= k < |hosts| ==> L3Host(keyOf, next, hosts[k], rows[k])
  }

  /** Placed L1 rows stay placed as the tree grows; the next row placed extends them. */
  lemma RootsStep(keyOf: string -> string, a: seq<Capability>, b: seq<Capability>, idx: seq<nat>, rows: seq<VisionRow>, h: nat)
    requires GrownForest(a, b) && RootsHold(keyOf, a, idx, rows) && |idx| < |rows| && L1Root(keyOf, b, h, rows[|idx|])
    ensures RootsHold(keyOf, b, idx + [h], rows)
  {
    RootsGrown(keyOf, a, b, idx, rows);
    var ix := idx + [h];
    forall k | 0 <= k < |ix|
      ensures L1Root(keyOf, b, ix[k], rows[k])
    {
      if k < |idx| {
        assert ix[k] == idx[k];
      }
    }
  }

  lemma RootsGrown(keyOf: string -> string, a: seq<Capability>, b: seq<Capability>, idx: seq<nat>, rows: seq<VisionRow>)
    requires GrownForest(a, b) && RootsHold(keyOf, a, idx, rows)
    ensures RootsHold(keyOf, b, idx, rows)
  {
    forall k | 0 <= k < |idx|
      ensures L1Root(keyOf, b, idx[k], rows[k])
    {
      assert GrownNode(a[idx[k]], b[idx[k]]);
    }
  }

  lemma L2HostsGrown(keyOf: string -> string, a: seq<Capability>, b: seq<Capability>, hosts: seq<Path>, rows: seq<VisionRow>)
    requires GrownForest(a, b) && L2HostsHold(keyOf, a, hosts, rows)
    ensures L2HostsHold(keyOf, b, hosts, rows)
  {
    forall k | 0 <= k < |hosts|
      ensures L2Host(keyOf, b, hosts[k], rows[k])
    {
      GrownKeepsNode(a, b, hosts[k]);
      HasChildKeyGrown(keyOf, NodeAt(a, hosts[k]).value, NodeAt(b, hosts[k]).value, keyOf(rows[k].name));
    }
  }

  lemma L2HostsStep(keyOf: string -> string, a: seq<Capability>, b: seq<Capability>, hosts: seq<Path>, rows: seq<VisionRow>, h: Path)
    requires GrownForest(a, b) && L2HostsHold(keyOf, a, hosts, rows) && |hosts| < |rows| && L2Host(keyOf, b, h, rows[|hosts|])
    ensures L2HostsHold(keyOf, b, hosts + [h], rows)
  {
    L2HostsGrown(keyOf, a, b, hosts, rows);
    var hs := hosts + [h];
    forall k | 0 <= k < |hs|
      ensures L2Host(keyOf, b, hs[k], rows[k])
    {
      if k < |hosts| {
        assert hs[k] == hosts[k];
      }
    }
  }

  lemma L3HostsGrown(keyOf: string -> string, a: seq<Capability>, b: seq<Capability>, hosts: seq<Path>, rows: seq<VisionRow>)
    requires GrownForest(a, b) && L3HostsHold(keyOf, a, hosts, rows)
    ensures L3HostsHold(keyOf, b, hosts, rows)
  {
    forall k | 0 <= k < |hosts|
      ensures L3Host(keyOf, b, hosts[k], rows[k])
    {
      GrownKeepsNode(a, b, hosts[k]);
      HasChildKeyGrown(keyOf, NodeAt(a, hosts[k]).value, NodeAt(b, hosts[k]).value, keyOf(rows[k].name));
    }
  }

  lemma L3HostsStep(keyOf: string -> string, a: seq<Capability>, b: seq<Capability>, hosts: seq<Path>, rows: seq<VisionRow>, h: Path)
    requires GrownForest(a, b) && L3HostsHold(keyOf, a, hosts, rows) && |hosts| < |rows| && L3Host(keyOf, b, h, rows[|hosts|])
    ensures L3HostsHold(keyOf, b, hosts + [h], rows)
  {
    L3HostsGrown(keyOf, a, b, hosts, rows);
    var hs := hosts + [h];
    forall k | 0 <= k < |hs|
      ensures L3Host(keyOf, b, hs[k], rows[k])
    {
      if k < |hosts| {
        assert hs[k] == hosts[k];
      }
    }
  }

  /**
   * One L2 row: its host is the node the parent names when that is an L1,
   * else the L1 heading the domain when the parent names no node, else a
   * root upserted for the parent (or "Unassigned"); the row's name is
   * upserted among the host's children.
   */
  method PlaceL2(keyOf: string -> string, w: Work, r: VisionRow, newId: nat -> string, ghost current: seq<Capability>)
    returns (w': Work, host: Path)
    requires Sound(keyOf, current, w)
    ensures Sound(keyOf, current, w') && GrownForest(w.next, w'.next)
    ensures L2Host(keyOf, w'.next, host, r)
  {
    var parent: Option<Visit> := None;
    if Truthy(r.parent) {
      parent := FindAnyByName(keyOf, w.next, r.parent.value);
    }
    if parent.None? && Truthy(r.domain) {
      var picked := PickL1ByDomain(keyOf, w.next, r.domain.value);
      if picked.Some? {
        parent := Some(Visit([picked.value], w.next[picked.value]));
      }
    }
    var w1 := w;
    if parent.Some? && parent.value.node.level == L1 {
      host := parent.value.path;
      GrownForestRefl(w.next);
    } else {
      var i;
      w1, i := UpsertL1(keyOf, w, OrElse(r.parent, "Unassigned"), r.domain, newId, current);
      host := [i];
    }
    var child;
    w', child := UpsertChild(keyOf, w1, host, r.name, L2, newId, current);
    GrownKeepsNode(w1.next, w'.next, host);
    GrownForestTrans(w.next, w1.next, w'.next);
  }

  /**
   * One L3 row: under the node its parent names when there is one; else
   * an L2 named by the parent, or "Misc", is upserted under the L1 heading
   * the domain, or under the upserted "Unassigned" root, and the row goes
   * under that L2.
   */
  method PlaceL3(keyOf: string -> string, w: Work, r: VisionRow, newId: nat -> string, ghost current: seq<Capability>)
    returns (w': Work, host: Path)
    requires Sound(keyOf, current, w)
    ensures Sound(keyOf, current, w') && GrownForest(w.next, w'.next)
    ensures L3Host(keyOf, w'.next, host, r)
  {
    var parent: Option<Visit> := None;
    if Truthy(r.parent) {
      parent := FindAnyByName(keyOf, w.next, r.parent.value);
    }
    if parent.Some? {
      var child;
      host := parent.value.path;
      w', child := UpsertChild(keyOf, w, host, r.name, L3, newId, current);
      GrownKeepsNode(w.next, w'.next, host);
      return;
    }
    var picked: Option<nat> := None;
    if Truthy(r.domain) {
      picked := PickL1ByDomain(keyOf, w.next, r.domain.value);
    }
    var w1 := w;
    var head: Path;
    if picked.Some? {
      head := [picked.value];
      GrownForestRefl(w.next);
    } else {
      var i;
      w1, i := UpsertL1(keyOf, w, "Unassigned", r.domain, newId, current);
      head := [i];
    }
    var w2, leaf;
    w2, host := UpsertChild(keyOf, w1, head, OrElse(r.parent, "Misc"), L2, newId, current);
    w', leaf := UpsertChild(keyOf, w2, host, r.name, L3, newId, current);
    GrownKeepsNode(w2.next, w'.next, host);
    GrownForestTrans(w.next, w1.next, w2.next);
    GrownForestTrans(w.next, w2.next, w'.next);
  }

  // ---------------------------------------------------------------- integrateRows

  /** The L1 loop: each row upserts its root. */
  method ApplyL1s(keyOf: string -> string, w0: Work, l1s: seq<VisionRow>, newId: nat -> string, ghost current: seq<Capability>)
    returns (w: Work, ghost roots: seq<nat>)
    requires Sound(keyOf, current, w0)
    ensures Sound(keyOf, current, w) && GrownForest(w0.next, w.next)
    ensures |roots| == |l1s| && RootsHold(keyOf, w.next, roots, l1s)
  {
    w, roots := w0, [];
    GrownForestRefl(w0.next);
    for i := 0 to |l1s|
      invariant Sound(keyOf, current, w) && GrownForest(w0.next, w.next)
      invariant |roots| == i && RootsHold(keyOf, w.next, roots, l1s)
    {
      var w', h := UpsertL1(keyOf, w, l1s[i].name, l1s[i].domain, newId, current);
      RootsStep(keyOf, w.next, w'.next, roots, l1s, h);
      GrownForestTrans(w0.next, w.next, w'.next);
      w, roots := w', roots + [h];
    }
  }

  /** The L2 loop: each row is placed under its host. */
  method ApplyL2s(keyOf: string -> string, w0: Work, l2s: seq<VisionRow>, newId: nat -> string, ghost current: seq<Capability>)
    returns (w: Work, ghost hosts: seq<Path>)
    requires Sound(keyOf, current, w0)
    ensures Sound(keyOf, current, w) && GrownForest(w0.next, w.next)
    ensures |hosts| == |l2s| && L2HostsHold(keyOf, w.next, hosts, l2s)
  {
    w, hosts := w0, [];
    GrownForestRefl(w0.next);
    for i := 0 to |l2s|
      invariant Sound(keyOf, current, w) && GrownForest(w0.next, w.next)
      invariant |hosts| == i && L2HostsHold(keyOf, w.next, hosts, l2s)
    {
      var w', h := PlaceL2(keyOf, w, l2s[i], newId, current);
      L2HostsStep(keyOf, w.next, w'.next, hosts, l2s, h);
      GrownForestTrans(w0.next, w.next, w'.next);
      w, hosts := w', hosts + [h];
    }
  }

  /** The L3 loop: each row is placed under its host. */
  method ApplyL3s(keyOf: string -> string, w0: Work, l3s: seq<VisionRow>, newId: nat -> string, ghost current: seq<Capability>)
    returns (w: Work, ghost hosts: seq<Path>)
    requires Sound(keyOf, current, w0)
    ensures Sound(keyOf, current, w) && GrownForest(w0.next, w.next)
    ensures |hosts| == |l3s| && L3HostsHold(keyOf, w.next, hosts, l3s)
  {
    w, hosts := w0, [];
    GrownForestRefl(w0.next);
    for i := 0 to |l3s|
      invariant Sound(keyOf, current, w) && GrownForest(w0.next, w.next)
      invariant |hosts| == i && L3HostsHold(keyOf, w.next, hosts, l3s)
    {
      var w', h := PlaceL3(keyOf, w, l3s[i], newId, current);
      L3HostsStep(keyOf, w.next, w'.next, hosts, l3s, h);
      GrownForestTrans(w0.next, w.next, w'.next);
      w, hosts := w', hosts + [h];
    }
  }

  /** The L1 row has a root of its key, with a truthy domain if the row has one. */
  predicate L1Placed(keyOf: string -> string, next: seq<Capability>, r: VisionRow)
  {
    exists i :: 0 <= i < |next| && L1Root(keyOf, next, i, r)
  }

  /** The L2 row is a child of a node of level L1, or of a root. */
  ghost predicate L2Placed(keyOf: string -> string, next: seq<Capability>, r: VisionRow)
  {
    exists p :: L2Host(keyOf, next, p, r)
  }

  /** The L3 row is a child of a node named by its parent, or "Misc". */
  ghost predicate L3Placed(keyOf: string -> string, next: seq<Capability>, r: VisionRow)
  {
    exists p :: L3Host(keyOf, next, p, r)
  }

  /** The L1 rows among `rows` are all in `l1s`, whose roots hold them: every one is placed. */
  lemma RootsPlaced(keyOf: string -> string, next: seq<Capability>, rows: seq<VisionRow>, l1s: seq<VisionRow>, roots: seq<nat>)
    requires RootsHold(keyOf, next, roots, l1s) && |roots| == |l1s|
    requires forall r :: r in rows && r.level == L1 ==> r in l1s
    ensures forall r :: r in rows && r.level == L1 ==> L1Placed(keyOf, next, r)
  {
    forall r | r in rows && r.level == L1
      ensures L1Placed(keyOf, next, r)
    {
      var k :| 0 <= k < |l1s| && l1s[k] == r;
      assert L1Root(keyOf, next, roots[k], r);
    }
  }

  /** The L2 rows among `rows` are all in `l2s`, whose hosts hold them: every one is placed. */
  lemma L2RowsPlaced(keyOf: string -> string, next: seq<Capability>, rows: seq<VisionRow>, l2s: seq<VisionRow>, hosts: seq<Path>)
    requires L2HostsHold(keyOf, next, hosts, l2s) && |hosts| == |l2s|
    requires forall r :: r in rows && r.level == L2 ==> r in l2s
    ensures forall r :: r in rows && r.level == L2 ==> L2Placed(keyOf, next, r)
  {
    forall r | r in rows && r.level == L2
      ensures L2Placed(keyOf, next, r)
    {
      var k :| 0 <= k < |l2s| && l2s[k] == r;
      assert L2Host(keyOf, next, hosts[k], r);
    }
  }

  /** The L3 rows among `rows` are all in `l3s`, whose hosts hold them: every one is placed. */
  lemma L3RowsPlaced(keyOf: string -> string, next: seq<Capability>, rows: seq<VisionRow>, l3s: seq<VisionRow>, hosts: seq<Path>)
    requires L3HostsHold(keyOf, next, hosts, l3s) && |hosts| == |l3s|
    requires forall r :: r in rows && r.level == L3 ==> r in l3s
    ensures forall r :: r in rows && r.level == L3 ==> L3Placed(keyOf, next, r)
  {
    forall r | r in rows && r.level == L3
      ensures L3Placed(keyOf, next, r)
    {
      var k :| 0 <= k < |l3s| && l3s[k] == r;
      assert L3Host(keyOf, next, hosts[k], r);
    }
  }

  /**
   * `integrateRows`: L1 rows first, then L2 rows, then L3 rows, applied to
   * a copy of the tree. Every node of `current` is kept with its id, name,
   * level and children, only gaining children and a domain where it had
   * none; every root added is an L1 with a domain; no node added shares
   * its key with a sibling; and every row is placed as its level demands.
   */
  method IntegrateRows(current: seq<Capability>, rows: seq<VisionRow>, newId: nat -> string) returns (next: seq<Capability>)
    ensures GrownForest(current, next)
    ensures NewDistinct(NameKey, current, next)
    ensures NewRootsL1(current, next)
    ensures forall r :: r in rows && r.level == L1 ==> L1Placed(NameKey, next, r)
    ensures forall r :: r in rows && r.level == L2 ==> L2Placed(NameKey, next, r)
    ensures forall r :: r in rows && r.level == L3 ==> L3Placed(NameKey, next, r)
  {
    var byName := BuildIndex(NameKey, current);
    var w := Work(current, byName, 0);
    GrownForestRefl(current);
    NewDistinctRefl(NameKey, current);
    var l1s := Filter(rows, (r: VisionRow) => r.level == L1);
    var l2s := Filter(rows, (r: VisionRow) => r.level == L2);
    var l3s := Filter(rows, (r: VisionRow) => r.level == L3);
    ghost var roots, hosts2, hosts3;
    w, roots := ApplyL1s(NameKey, w, l1s, newId, current);
    var w2;
    w2, hosts2 := ApplyL2s(NameKey, w, l2s, newId, current);
    RootsGrown(NameKey, w.next, w2.next, roots, l1s);
    var w3;
    w3, hosts3 := ApplyL3s(NameKey, w2, l3s, newId, current);
    RootsGrown(NameKey, w2.next, w3.next, roots, l1s);
    L2HostsGrown(NameKey, w2.next, w3.next, hosts2, l2s);
    next := w3.next;
    RootsPlaced(NameKey, next, rows, l1s, roots);
    L2RowsPlaced(NameKey, next, rows, l2s, hosts2);
    L3RowsPlaced(NameKey, next, rows, l3s, hosts3);
  }
}
