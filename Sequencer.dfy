/**
 * The transformation sequencer service: current-state and future-state
 * inventories are read as CSV, matched by normalised system name, given a
 * state (Retain, Modify, Retire, Add), linked by their declared
 * dependencies and layered into sequence stages by a breadth-first
 * topological sort.
 */
module Sequencer {
  import opened Common
  import opened Text

  // ---------------------------------------------------------------------
  // Topological layering (topoSort)
  // ---------------------------------------------------------------------

  /** A dependency edge: `from` must be transformed before `to`. */
  datatype Edge = Edge(from: string, to: string)

  /** The systems with an edge into `x`. */
  function Preds(edges: seq<Edge>, x: string): (r: set<string>)
    ensures forall u :: u in r <==> Edge(u, x) in edges
  {
    if |edges| == 0 then {}
    else
      var init := edges[..|edges| - 1];
      var last := edges[|edges| - 1];
      assert edges == init + [last];
      Preds(init, x) + (if last.to == x then {last.from} else {})
  }

  /** Every system named as a node or as the target of an edge: the keys of the `incoming` map. */
  ghost predicate IsTarget(nodes: seq<string>, edges: seq<Edge>, x: string)
  {
    x in nodes || exists e :: e in edges && e.to == x
  }

  /** `deps` records, for every key, the predecessors still waiting to be placed. */
  ghost predicate Pending(deps: map<string, set<string>>, inc0: map<string, set<string>>, placed: set<string>)
  {
    && deps.Keys == inc0.Keys
    && forall x :: x in inc0 ==> inc0[x] - placed <= deps[x]
  }

  /** Every queued system is a key outside `excluded` whose predecessors are all placed. */
  ghost predicate Queued(ready: seq<string>, inc0: map<string, set<string>>, placed: set<string>, excluded: set<string>)
  {
    forall k :: 0 <= k < |ready| ==> ready[k] in inc0 && ready[k] !in excluded && inc0[ready[k]] <= placed
  }

  /** The placed systems have stages in [1, current) and come after all their predecessors. */
  ghost predicate Layered(stage: map<string, int>, inc0: map<string, set<string>>, placed: set<string>, current: int)
  {
    && stage.Keys == placed
    && placed <= inc0.Keys
    && (forall x :: x in placed ==> 1 <= stage[x] < current)
    && (forall x, u :: x in placed && u in inc0[x] ==> u in placed && stage[u] < stage[x])
  }

  /** The systems listed in `s`. */
  function Members(s: seq<string>): set<string>
  {
    set x | x in s
  }

  /**
   * Every edge is recorded in the predecessor map. Like `Backed`, it is
   * applied only to the edges a proof names.
   */
  ghost predicate Covers(inc0: map<string, set<string>>, edges: seq<Edge>)
  {
    forall x, u {:trigger Edge(u, x)} :: Edge(u, x) in edges ==> x in inc0 && u in inc0[x]
  }

  /**
   * Every recorded predecessor comes from an edge. It is applied only to the
   * edges a proof names, so that it does not feed `Covers` back.
   */
  ghost predicate Backed(inc0: map<string, set<string>>, edges: seq<Edge>)
  {
    forall x, u {:trigger Edge(u, x)} :: x in inc0 && u in inc0[x] ==> Edge(u, x) in edges
  }

  /** `deps` holds no placed predecessor: with `Pending`, exactly the unplaced ones. */
  ghost predicate Tight(deps: map<string, set<string>>, inc0: map<string, set<string>>, placed: set<string>)
  {
    forall x :: x in inc0 && x in deps ==> deps[x] <= inc0[x] - placed
  }

  /** A key whose predecessors are all placed is placed or queued. */
  ghost predicate Released(ready: seq<string>, inc0: map<string, set<string>>, placed: set<string>)
  {
    forall x :: x in inc0 && inc0[x] <= placed ==> x in placed || x in ready
  }

  /** A queued key with predecessors was released by the previous batch. */
  ghost predicate Recent(ready: seq<string>, inc0: map<string, set<string>>, stage: map<string, int>, current: int)
  {
    forall k :: 0 <= k < |ready| && ready[k] in inc0 && inc0[ready[k]] != {} ==>
      exists u :: u in inc0[ready[k]] && u in stage && stage[u] == current - 1
  }

  /**
   * `x in placed`, as a call: `Supported` is applied only to the keys a
   * proof names this way, so that the predecessor it yields does not in turn
   * yield its own, and so on down the layers.
   */
  ghost predicate Among(placed: set<string>, x: string)
  {
    x in placed
  }

  /** A placed key with predecessors sits one stage after one of them. */
  ghost predicate Supported(stage: map<string, int>, inc0: map<string, set<string>>, placed: set<string>)
  {
    forall x {:trigger Among(placed, x)} :: Among(placed, x) && x in inc0 && inc0[x] != {} ==>
      exists u :: u in inc0[x] && u in stage && x in stage && stage[u] == stage[x] - 1
  }

  /**
   * The `incoming` map of `topoSort`: every node and every edge target maps
   * to its predecessors. `order` lists the keys in insertion order.
   */
  method IncomingOf(nodes: seq<string>, edges: seq<Edge>) returns (deps: map<string, set<string>>, order: seq<string>)
    ensures forall x :: x in deps <==> IsTarget(nodes, edges, x)
    ensures forall x :: x in deps ==> deps[x] == Preds(edges, x)
    ensures forall x :: x in deps <==> x in order
  {
    deps := map[];
    order := [];
    var i := 0;
    while i < |nodes|
      invariant i <= |nodes|
      invariant forall x :: x in deps <==> x in nodes[..i]
      invariant forall x :: x in deps ==> deps[x] == {}
      invariant forall x :: x in deps <==> x in order
    {
      if nodes[i] !in deps {
        order := order + [nodes[i]];
      }
      deps := deps[nodes[i] := {}];
      var next := i + 1;
      PrefixStep(nodes, i, next);
      i := next;
    }
    assert nodes[..i] == nodes;
    var j := 0;
    while j < |edges|
      invariant j <= |edges|
      invariant forall x :: x in deps <==> x in nodes || exists e :: e in edges[..j] && e.to == x
      invariant forall x :: x in deps ==> deps[x] == Preds(edges[..j], x)
      invariant forall x :: x in deps <==> x in order
    {
      var e := edges[j];
      if e.to !in deps {
        deps := deps[e.to := {}];
        order := order + [e.to];
      }
      deps := deps[e.to := deps[e.to] + {e.from}];
      var next := j + 1;
      PrefixStep(edges, j, next);
      j := next;
    }
    assert edges[..j] == edges;
  }

  /** The keys without predecessors, in key order: the first batch. */
  method Roots(deps: map<string, set<string>>, order: seq<string>) returns (ready: seq<string>)
    requires forall x :: x in deps <==> x in order
    ensures forall k :: 0 <= k < |ready| ==> ready[k] in deps && deps[ready[k]] == {}
    ensures forall x :: x in deps && deps[x] == {} ==> x in ready
  {
    ready := [];
    var k := 0;
    while k < |order|
      invariant k <= |order|
      invariant forall m :: 0 <= m < |ready| ==> ready[m] in deps && deps[ready[m]] == {}
      invariant forall x :: x in order[..k] && deps[x] == {} ==> x in ready
    {
      if deps[order[k]] == {} {
        ready := ready + [order[k]];
      }
      var next := k + 1;
      PrefixStep(order, k, next);
      k := next;
    }
    assert order[..k] == order;
  }

  /** The predecessor sets still pending and the queue of the next batch. */
  datatype Queue = Queue(deps: map<string, set<string>>, ready: seq<string>)

  /**
   * Placing `node`, edge by edge: `node` leaves the predecessor set of the
   * target of each of its edges, and a target left with none is queued
   * (once per such edge, so a doubled edge queues it twice).
   */
  function Unlink(q: Queue, edges: seq<Edge>, node: string): Queue
  {
    if |edges| == 0 then q
    else
      var p := Unlink(q, edges[..|edges| - 1], node);
      var e := edges[|edges| - 1];
      if e.from == node && e.to in p.deps then
        var left := p.deps[e.to] - {node};
        Queue(p.deps[e.to := left], if |left| == 0 then p.ready + [e.to] else p.ready)
      else p
  }

  /**
   * Unlinking a placed node keeps every unplaced predecessor pending, and
   * queues only keys whose predecessors are all placed and which are not
   * excluded (a key is excluded when `node` is not one of its predecessors).
   */
  lemma {:induction false} UnlinkKeeps(q: Queue, edges: seq<Edge>, node: string, inc0: map<string, set<string>>,
                                       placed: set<string>, excluded: set<string>)
    requires Covers(inc0, edges)
    requires node in placed
    requires forall x :: x in excluded && x in inc0 ==> node !in inc0[x]
    requires Pending(q.deps, inc0, placed)
    requires Queued(q.ready, inc0, placed, excluded)
    ensures Pending(Unlink(q, edges, node).deps, inc0, placed)
    ensures Queued(Unlink(q, edges, node).ready, inc0, placed, excluded)
    decreases |edges|
  {
    if |edges| > 0 {
      var init := edges[..|edges| - 1];
      assert forall e :: e in init ==> e in edges;
      UnlinkKeeps(q, init, node, inc0, placed, excluded);
      var p := Unlink(q, init, node);
      var e := edges[|edges| - 1];
      if e.from == node && e.to in p.deps {
        var left := p.deps[e.to] - {node};
        assert inc0[e.to] - placed <= left;
        if |left| == 0 {
          Drained(inc0[e.to], placed, left);
          assert e.to !in excluded;
        }
      }
    }
  }

  /**
   * What unlinking `node` does to one key: its pending set only shrinks and
   * loses `node` when `node` has an edge into it; the queue only grows,
   * by targets of `node`'s edges, and takes every target left with nothing
   * but `node` pending.
   */
  lemma {:induction false} UnlinkFacts(q: Queue, edges: seq<Edge>, node: string)
    ensures Unlink(q, edges, node).deps.Keys == q.deps.Keys
    ensures forall x :: x in q.deps ==> Unlink(q, edges, node).deps[x] <= q.deps[x]
    ensures forall x :: x in q.deps && Edge(node, x) in edges ==> node !in Unlink(q, edges, node).deps[x]
    ensures q.ready <= Unlink(q, edges, node).ready
    ensures forall k :: |q.ready| <= k < |Unlink(q, edges, node).ready| ==> Edge(node, Unlink(q, edges, node).ready[k]) in edges
    ensures forall x :: x in q.deps && Edge(node, x) in edges && q.deps[x] <= {node} ==> x in Unlink(q, edges, node).ready
    decreases |edges|
  {
    if |edges| > 0 {
      var init := edges[..|edges| - 1];
      var e := edges[|edges| - 1];
      assert edges == init + [e];
      assert forall f :: f in edges <==> f in init || f == e;
      UnlinkFacts(q, init, node);
      var p := Unlink(q, init, node);
      var r := Unlink(q, edges, node);
      forall k | |q.ready| <= k < |r.ready|
        ensures Edge(node, r.ready[k]) in edges
      {
        if k < |p.ready| {
          assert r.ready[k] == p.ready[k];
        }
      }
      forall x | x in q.deps && Edge(node, x) in edges && q.deps[x] <= {node}
        ensures x in r.ready
      {
        if Edge(node, x) in init {
          assert x in p.ready;
        }
      }
    }
  }

  /** Predecessors outside `placed` would still be pending: none pending means all placed. */
  lemma Drained(preds: set<string>, placed: set<string>, left: set<string>)
    requires preds - placed <= left && |left| == 0
    ensures preds <= placed
  {
    forall u | u in preds
      ensures u in placed
    {
      assert u in preds - placed ==> u in left;
    }
  }

  /** `Unlink` as the loop over the edges runs it. */
  method Release(edges: seq<Edge>, node: string, deps: map<string, set<string>>, ready: seq<string>)
    returns (deps': map<string, set<string>>, ready': seq<string>)
    ensures Queue(deps', ready') == Unlink(Queue(deps, ready), edges, node)
  {
    deps', ready' := deps, ready;
    var j := 0;
    while j < |edges|
      invariant j <= |edges|
      invariant Queue(deps', ready') == Unlink(Queue(deps, ready), edges[..j], node)
    {
      var e := edges[j];
      if e.from == node && e.to in deps' {
        var left := deps'[e.to] - {node};
        deps' := deps'[e.to := left];
        if |left| == 0 {
          ready' := ready' + [e.to];
        }
      }
      var next := j + 1;
      assert edges[..next][..j] == edges[..j];
      j := next;
    }
    assert edges[..j] == edges;
  }

  /** The state of one batch: pending predecessors, next queue and stages so far. */
  datatype Layer = Layer(q: Queue, stage: map<string, int>)

  /** One batch: each queued system in turn gets stage `current` and is unlinked. */
  function Place(l: Layer, batch: seq<string>, edges: seq<Edge>, current: int): Layer
  {
    if |batch| == 0 then l
    else
      var p := Place(l, batch[..|batch| - 1], edges, current);
      var node := batch[|batch| - 1];
      Layer(Unlink(p.q, edges, node), p.stage[node := current])
  }

  /**
   * Placing a batch of released systems: the stages of the batch become
   * `current`, other stages are kept, and every system queued for the
   * next batch is outside `all` with its predecessors placed.
   */
  lemma {:induction false} PlaceKeeps(l: Layer, batch: seq<string>, edges: seq<Edge>, current: int,
                                      inc0: map<string, set<string>>, placed: set<string>, all: set<string>)
    requires Covers(inc0, edges)
    requires Queued(batch, inc0, placed, placed)
    requires Members(batch) <= all
    requires forall x :: x in all && x in inc0 ==> inc0[x] <= placed
    requires Pending(l.q.deps, inc0, placed)
    requires Queued(l.q.ready, inc0, placed, all)
    ensures Pending(Place(l, batch, edges, current).q.deps, inc0, placed + Members(batch))
    ensures Queued(Place(l, batch, edges, current).q.ready, inc0, placed + Members(batch), all)
    ensures Place(l, batch, edges, current).stage.Keys == l.stage.Keys + Members(batch)
    ensures forall x :: x in l.stage && x !in batch ==> Place(l, batch, edges, current).stage[x] == l.stage[x]
    ensures forall x :: x in batch ==> Place(l, batch, edges, current).stage[x] == current
    decreases |batch|
  {
    if |batch| > 0 {
      var init := batch[..|batch| - 1];
      var node := batch[|batch| - 1];
      assert batch == init + [node];
      assert Queued(init, inc0, placed, placed);
      PlaceKeeps(l, init, edges, current, inc0, placed, all);
      var p := Place(l, init, edges, current);
      var done := placed + Members(batch);
      assert Members(batch) == Members(init) + {node};
      UnlinkKeeps(p.q, edges, node, inc0, done, all);
    }
  }

  /** `Place` as the loop over the batch runs it. */
  method PlaceBatch(edges: seq<Edge>, batch: seq<string>, deps: map<string, set<string>>, stage: map<string, int>,
                    current: int)
    returns (deps': map<string, set<string>>, stage': map<string, int>, ready: seq<string>)
    ensures Layer(Queue(deps', ready), stage') == Place(Layer(Queue(deps, []), stage), batch, edges, current)
  {
    deps', stage', ready := deps, stage, [];
    var i := 0;
    while i < |batch|
      invariant i <= |batch|
      invariant Layer(Queue(deps', ready), stage') == Place(Layer(Queue(deps, []), stage), batch[..i], edges, current)
    {
      var node := batch[i];
      stage' := stage'[node := current];
      deps', ready := Release(edges, node, deps', ready);
      var next := i + 1;
      assert batch[..next][..i] == batch[..i];
      i := next;
    }
    assert batch[..i] == batch;
  }

  /**
   * Placing a batch removes the batch from every pending set, and queues
   * every key whose last unplaced predecessors were in the batch, each
   * queued key being the target of an edge from the batch.
   */
  lemma {:induction false} PlaceReleases(l: Layer, batch: seq<string>, edges: seq<Edge>, current: int,
                                         inc0: map<string, set<string>>, placed: set<string>)
    requires Backed(inc0, edges)
    requires l.q.deps.Keys == inc0.Keys && Tight(l.q.deps, inc0, placed)
    ensures Place(l, batch, edges, current).q.deps.Keys == inc0.Keys
    ensures Tight(Place(l, batch, edges, current).q.deps, inc0, placed + Members(batch))
    ensures l.q.ready <= Place(l, batch, edges, current).q.ready
    ensures forall x :: x in inc0 && inc0[x] <= placed + Members(batch) && !(inc0[x] <= placed) ==>
              x in Place(l, batch, edges, current).q.ready
    ensures forall k :: |l.q.ready| <= k < |Place(l, batch, edges, current).q.ready| ==>
              exists u :: u in batch && Edge(u, Place(l, batch, edges, current).q.ready[k]) in edges
    decreases |batch|
  {
    if |batch| > 0 {
      var init := batch[..|batch| - 1];
      var node := batch[|batch| - 1];
      assert batch == init + [node];
      assert Members(batch) == Members(init) + {node};
      PlaceReleases(l, init, edges, current, inc0, placed);
      var p := Place(l, init, edges, current);
      var r := Place(l, batch, edges, current);
      var done := placed + Members(init);
      UnlinkFacts(p.q, edges, node);
      forall x | x in inc0 && x in r.q.deps
        ensures r.q.deps[x] <= inc0[x] - (done + {node})
      {
        if node in inc0[x] {
          assert Edge(node, x) in edges;
        }
      }
      forall x | x in inc0 && inc0[x] <= done + {node} && !(inc0[x] <= placed)
        ensures x in r.q.ready
      {
        if !(inc0[x] <= done) {
          assert node in inc0[x];
          assert Edge(node, x) in edges;
          assert p.q.deps[x] <= {node};
        }
      }
      forall k | |l.q.ready| <= k < |r.q.ready|
        ensures exists u :: u in batch && Edge(u, r.q.ready[k]) in edges
      {
        if k < |p.q.ready| {
          assert r.q.ready[k] == p.q.ready[k];
          var u :| u in init && Edge(u, p.q.ready[k]) in edges;
          assert u in batch;
        } else {
          assert Edge(node, r.q.ready[k]) in edges;
        }
      }
    }
  }

  /** After a batch the placed systems, grown by the batch, are still layered. */
  lemma LayerGrows(stage: map<string, int>, stage': map<string, int>, batch: seq<string>,
                   inc0: map<string, set<string>>, placed: set<string>, current: int)
    requires Layered(stage, inc0, placed, current) && current >= 1
    requires Queued(batch, inc0, placed, placed)
    requires stage'.Keys == stage.Keys + Members(batch)
    requires forall x :: x in stage && x !in batch ==> stage'[x] == stage[x]
    requires forall x :: x in batch ==> stage'[x] == current
    ensures Layered(stage', inc0, placed + Members(batch), current + 1)
  {
    forall x | x in placed + Members(batch)
      ensures 1 <= stage'[x] < current + 1
    {
      if x !in batch {
        assert x in placed;
      }
    }
    forall x, u | x in placed + Members(batch) && u in inc0[x]
      ensures u in placed && stage'[u] < stage'[x]
    {
      if x in batch {
        var k :| 0 <= k < |batch| && batch[k] == x;
        assert u in placed;
        assert u !in batch;
      } else {
        assert x !in batch;
      }
    }
  }

  /** The nodes left without a stage get `current` (`nodes.forEach` after the batches). */
  method FillUnplaced(nodes: seq<string>, stage: map<string, int>, current: int) returns (stage': map<string, int>)
    ensures forall n :: n in nodes ==> n in stage'
    ensures forall x :: x in stage ==> x in stage' && stage'[x] == stage[x]
    ensures forall x :: x in stage' && x !in stage ==> x in nodes && stage'[x] == current
  {
    stage' := stage;
    var k := 0;
    while k < |nodes|
      invariant k <= |nodes|
      invariant forall x :: x in stage ==> x in stage' && stage'[x] == stage[x]
      invariant forall x :: x in stage' && x !in stage ==> x in nodes[..k] && stage'[x] == current
      invariant forall n :: n in nodes[..k] ==> n in stage'
    {
      if nodes[k] !in stage' {
        stage' := stage'[nodes[k] := current];
      }
      var next := k + 1;
      PrefixStep(nodes, k, next);
      k := next;
    }
    assert nodes[..k] == nodes;
  }

  lemma {:induction false} SubsetCard(a: set<string>, b: set<string>)
    requires a <= b
    ensures |a| <= |b|
    decreases |b|
  {
    if a != {} {
      var x :| x in a;
      SubsetCard(a - {x}, b - {x});
    }
  }

  /** The state of the batch loop between two batches. */
  ghost predicate Kahn(deps: map<string, set<string>>, ready: seq<string>, stage: map<string, int>,
                       inc0: map<string, set<string>>, placed: set<string>, current: int)
  {
    && Pending(deps, inc0, placed)
    && Queued(ready, inc0, placed, placed)
    && Layered(stage, inc0, placed, current)
    && current >= 1
    && (current == 1 ==> forall x :: x in inc0 && inc0[x] == {} ==> x in ready)
    && (current > 1 ==> forall x :: x in inc0 && inc0[x] == {} ==> x in placed && stage[x] == 1)
    && Tight(deps, inc0, placed)
    && Released(ready, inc0, placed)
    && Recent(ready, inc0, stage, current)
    && Supported(stage, inc0, placed)
    && Final(stage, current)
  }

  /** The predecessors of a placed or queued key are all placed. */
  lemma Closed(stage: map<string, int>, batch: seq<string>, inc0: map<string, set<string>>, placed: set<string>, current: int)
    requires Layered(stage, inc0, placed, current)
    requires Queued(batch, inc0, placed, placed)
    ensures forall x :: x in placed + Members(batch) && x in inc0 ==> inc0[x] <= placed
  {
    forall x | x in placed + Members(batch) && x in inc0
      ensures inc0[x] <= placed
    {
      if x !in placed {
        var k :| 0 <= k < |batch| && batch[k] == x;
      }
    }
  }

  /** The keys without predecessors are placed by the first batch, at stage 1, and stay there. */
  lemma RootsStay(batch: seq<string>, stage: map<string, int>, stage': map<string, int>,
                  inc0: map<string, set<string>>, placed: set<string>, current: int)
    requires Queued(batch, inc0, placed, placed)
    requires current >= 1 && stage.Keys == placed
    requires stage'.Keys == stage.Keys + Members(batch)
    requires current == 1 ==> forall x :: x in inc0 && inc0[x] == {} ==> x in batch
    requires current > 1 ==> forall x :: x in inc0 && inc0[x] == {} ==> x in placed && stage[x] == 1
    requires forall x :: x in stage && x !in batch ==> stage'[x] == stage[x]
    requires forall x :: x in batch ==> stage'[x] == current
    ensures forall x :: x in inc0 && inc0[x] == {} ==> x in placed + Members(batch) && stage'[x] == 1
  {
    forall x | x in inc0 && inc0[x] == {}
      ensures x in placed + Members(batch) && stage'[x] == 1
    {
      if current == 1 {
        assert x in batch;
      } else {
        assert x !in batch;
      }
    }
  }

  /** Placing a non-empty batch of unplaced keys leaves fewer keys to place. */
  lemma Shrinks(keys: set<string>, placed: set<string>, batch: seq<string>)
    requires |batch| > 0 && batch[0] in keys && batch[0] !in placed
    ensures |keys - (placed + Members(batch))| < |keys - placed|
  {
    assert keys - (placed + Members(batch)) <= (keys - placed) - {batch[0]};
    SubsetCard(keys - (placed + Members(batch)), (keys - placed) - {batch[0]});
  }

  /** After a batch, a key whose predecessors are all placed is placed or queued for the next one. */
  lemma ReleasedStep(batch: seq<string>, next: seq<string>, inc0: map<string, set<string>>, placed: set<string>)
    requires Released(batch, inc0, placed)
    requires forall x :: x in inc0 && inc0[x] <= placed + Members(batch) && !(inc0[x] <= placed) ==> x in next
    ensures Released(next, inc0, placed + Members(batch))
  {
    forall x | x in inc0 && inc0[x] <= placed + Members(batch)
      ensures x in placed + Members(batch) || x in next
    {
      if inc0[x] <= placed {
        assert x in placed || x in batch;
      }
    }
  }

  /** The keys queued by a batch placed at `current` each have a predecessor at `current`. */
  lemma RecentStep(batch: seq<string>, next: seq<string>, edges: seq<Edge>, stage': map<string, int>,
                   inc0: map<string, set<string>>, current: int)
    requires Covers(inc0, edges)
    requires forall x :: x in batch ==> x in stage' && stage'[x] == current
    requires forall k :: 0 <= k < |next| ==> exists u :: u in batch && Edge(u, next[k]) in edges
    ensures Recent(next, inc0, stage', current + 1)
  {
    forall k | 0 <= k < |next| && next[k] in inc0 && inc0[next[k]] != {}
      ensures exists u :: u in inc0[next[k]] && u in stage' && stage'[u] == current
    {
      var u :| u in batch && Edge(u, next[k]) in edges;
      assert u in inc0[next[k]];
    }
  }

  /** A batch placed at `current` sits one stage after a predecessor placed by the batch before. */
  lemma SupportedStep(batch: seq<string>, stage: map<string, int>, stage': map<string, int>,
                      inc0: map<string, set<string>>, placed: set<string>, current: int)
    requires Layered(stage, inc0, placed, current) && Supported(stage, inc0, placed)
    requires Queued(batch, inc0, placed, placed) && Recent(batch, inc0, stage, current)
    requires stage'.Keys == stage.Keys + Members(batch)
    requires forall x :: x in stage && x !in batch ==> stage'[x] == stage[x]
    requires forall x :: x in batch ==> stage'[x] == current
    ensures Supported(stage', inc0, placed + Members(batch))
  {
    forall x | Among(placed + Members(batch), x) && x in inc0 && inc0[x] != {}
      ensures exists u :: u in inc0[x] && u in stage' && x in stage' && stage'[u] == stage'[x] - 1
    {
      if x in batch {
        var k :| 0 <= k < |batch| && batch[k] == x;
        var u :| u in inc0[x] && u in stage && stage[u] == current - 1;
        assert u !in batch;
      } else {
        assert Among(placed, x);
        var u :| u in inc0[x] && u in stage && x in stage && stage[u] == stage[x] - 1;
        assert u !in batch;
      }
    }
  }

  /** A batch keeps the loop state and places at least one more key. */
  lemma BatchStep(edges: seq<Edge>, deps: map<string, set<string>>, batch: seq<string>, stage: map<string, int>,
                  inc0: map<string, set<string>>, placed: set<string>, current: int,
                  deps': map<string, set<string>>, stage': map<string, int>, ready': seq<string>)
    requires Covers(inc0, edges) && Backed(inc0, edges)
    requires Kahn(deps, batch, stage, inc0, placed, current) && |batch| > 0
    requires Layer(Queue(deps', ready'), stage') == Place(Layer(Queue(deps, []), stage), batch, edges, current)
    ensures Kahn(deps', ready', stage', inc0, placed + Members(batch), current + 1)
    ensures |inc0.Keys - (placed + Members(batch))| < |inc0.Keys - placed|
  {
    var l := Layer(Queue(deps', ready'), stage');
    Closed(stage, batch, inc0, placed, current);
    PlaceKeeps(Layer(Queue(deps, []), stage), batch, edges, current, inc0, placed, placed + Members(batch));
    PlaceReleases(Layer(Queue(deps, []), stage), batch, edges, current, inc0, placed);
    LayerGrows(stage, l.stage, batch, inc0, placed, current);
    RootsStay(batch, stage, l.stage, inc0, placed, current);
    ReleasedStep(batch, l.q.ready, inc0, placed);
    RecentStep(batch, l.q.ready, edges, l.stage, inc0, current);
    SupportedStep(batch, stage, l.stage, inc0, placed, current);
    FinalStep(l.stage, batch, current);
    Shrinks(inc0.Keys, placed, batch);
  }

  /** What the layering promises, from the state after the last batch and the filling of unplaced nodes. */
  lemma Conclude(nodes: seq<string>, edges: seq<Edge>, inc0: map<string, set<string>>, placed: set<string>,
                 layered: map<string, int>, stage: map<string, int>, current: int)
    requires Covers(inc0, edges)
    requires forall n :: n in nodes ==> n in inc0
    requires forall x :: x in inc0 ==> inc0[x] == Preds(edges, x)
    requires Layered(layered, inc0, placed, current) && current >= 1
    requires forall x :: x in inc0 && inc0[x] == {} ==> x in placed && layered[x] == 1
    requires forall n :: n in nodes ==> n in stage
    requires forall x :: x in layered ==> x in stage && stage[x] == layered[x]
    requires forall x :: x in stage && x !in layered ==> stage[x] == current
    ensures forall x :: x in stage ==> 1 <= stage[x] <= current
    ensures forall n :: n in nodes && Preds(edges, n) == {} ==> stage[n] == 1
    ensures forall e :: e in edges && e.to in stage && stage[e.to] < current ==> e.from in stage && stage[e.from] < stage[e.to]
  {
    forall e | e in edges && e.to in stage && stage[e.to] < current
      ensures e.from in stage && stage[e.from] < stage[e.to]
    {
      assert e.to in layered && e.to in placed;
      assert e.from in inc0[e.to];
      assert e.from in placed && layered[e.from] < layered[e.to];
    }
  }

  /** A released system with predecessors sits one stage after one of them. */
  lemma ConcludeSupported(edges: seq<Edge>, inc0: map<string, set<string>>, placed: set<string>,
                          layered: map<string, int>, stage: map<string, int>, current: int)
    requires forall x :: x in inc0 ==> inc0[x] == Preds(edges, x)
    requires Layered(layered, inc0, placed, current) && Supported(layered, inc0, placed)
    requires forall x :: x in layered ==> x in stage && stage[x] == layered[x]
    requires forall x :: x in stage && x !in layered ==> stage[x] == current
    ensures Prompt(stage, edges, current)
  {
    forall x | x in stage && stage[x] < current && Preds(edges, x) != {}
      ensures exists u :: u in Preds(edges, x) && u in stage && stage[u] == stage[x] - 1
    {
      assert x in layered && x in inc0 && Among(placed, x);
      var u :| u in inc0[x] && u in layered && x in layered && layered[u] == layered[x] - 1;
      assert u in Preds(edges, x);
    }
  }

  /** A system never released waits on a predecessor that was never released either. */
  lemma ConcludeBlocked(nodes: seq<string>, edges: seq<Edge>, inc0: map<string, set<string>>, placed: set<string>,
                        layered: map<string, int>, stage: map<string, int>, current: int)
    requires forall x :: x in inc0 ==> inc0[x] == Preds(edges, x)
    requires forall n :: n in nodes ==> n in inc0
    requires layered.Keys == placed && Released([], inc0, placed)
    requires forall x :: x in layered ==> x in stage && stage[x] == layered[x] && stage[x] < current
    requires forall x :: x in stage && x !in layered ==> x in nodes && stage[x] == current
    ensures Waiting(stage, edges, current)
  {
    forall x | x in stage && stage[x] == current
      ensures exists u :: u in Preds(edges, x) && (u !in stage || stage[u] == current)
    {
      assert x !in layered && x in inc0;
      assert !(inc0[x] <= placed);
      var u :| u in inc0[x] && u !in placed;
      assert u in Preds(edges, x);
    }
  }

  /** The loop ran dry and the unplaced nodes were filled in: the layering's promises, with `current` as the final stage. */
  lemma Finish(nodes: seq<string>, edges: seq<Edge>, inc0: map<string, set<string>>,
               placed: set<string>, layered: map<string, int>, stage: map<string, int>, current: int)
    requires Covers(inc0, edges)
    requires forall n :: n in nodes ==> n in inc0
    requires forall x :: x in inc0 ==> inc0[x] == Preds(edges, x)
    requires Layered(layered, inc0, placed, current) && current >= 1
    requires forall x :: x in inc0 && inc0[x] == {} ==> x in placed && layered[x] == 1
    requires Supported(layered, inc0, placed) && Released([], inc0, placed)
    requires forall n :: n in nodes ==> n in stage
    requires forall x :: x in layered ==> x in stage && stage[x] == layered[x]
    requires forall x :: x in stage && x !in layered ==> x in nodes && stage[x] == current
    ensures forall x :: x in stage ==> 1 <= stage[x] <= current
    ensures forall n :: n in nodes && Preds(edges, n) == {} ==> stage[n] == 1
    ensures forall e :: e in edges && e.to in stage && stage[e.to] < current ==> e.from in stage && stage[e.from] < stage[e.to]
    ensures Prompt(stage, edges, current)
    ensures Waiting(stage, edges, current)
  {
    Conclude(nodes, edges, inc0, placed, layered, stage, current);
    ConcludeSupported(edges, inc0, placed, layered, stage, current);
    ConcludeBlocked(nodes, edges, inc0, placed, layered, stage, current);
  }

  /**
   * Breadth-first topological layering. Systems without predecessors form
   * stage 1; a system whose last predecessor is placed in stage s is
   * placed in stage s + 1; systems never released (those on or behind a
   * cycle) all get the stage after the last batch, returned as `last`.
   */
  method TopoSort(nodes: seq<string>, edges: seq<Edge>) returns (stage: map<string, int>, last: int)
    ensures last >= 1
    ensures forall n :: n in nodes ==> n in stage
    ensures forall x :: x in stage ==> 1 <= stage[x] <= last
    ensures forall n :: n in nodes && Preds(edges, n) == {} ==> stage[n] == 1
    ensures Ordered(stage, edges, last) && Prompt(stage, edges, last) && Waiting(stage, edges, last)
    ensures Final(stage, last)
    ensures Known(stage, nodes, edges, last) && Complete(stage, nodes, edges, last)
  {
    var deps, order := IncomingOf(nodes, edges);
    var ready := Roots(deps, order);
    var layered: map<string, int>, current: int, left: map<string, set<string>>;
    ghost var placed: set<string>;
    layered, current, left, placed := Batches(edges, deps, ready);
    stage := FillUnplaced(nodes, layered, current);
    Finish(nodes, edges, deps, placed, layered, stage, current);
    FinalKept(layered, stage, current);
    Settled(nodes, edges, deps, placed, layered, stage, current);
    last := current;
  }

  /** After filling in: only keys of `incoming` have a stage, and every system released in a batch was placed in one. */
  lemma Settled(nodes: seq<string>, edges: seq<Edge>, inc0: map<string, set<string>>,
                placed: set<string>, layered: map<string, int>, stage: map<string, int>, current: int)
    requires forall x :: x in inc0 <==> IsTarget(nodes, edges, x)
    requires forall x :: x in inc0 ==> inc0[x] == Preds(edges, x)
    requires Layered(layered, inc0, placed, current) && Released([], inc0, placed)
    requires forall x :: x in layered ==> x in stage && stage[x] == layered[x]
    requires forall x :: x in stage && x !in layered ==> x in nodes && stage[x] == current
    ensures Known(stage, nodes, edges, current)
    ensures Complete(stage, nodes, edges, current)
  {
    forall x | IsTarget(nodes, edges, x) && (forall u :: u in Preds(edges, x) ==> u in stage && stage[u] < current)
      ensures x in stage && stage[x] < current
    {
      assert inc0[x] <= placed;
    }
  }

  /** Filling in the unplaced systems keeps the stage after the last batch. */
  lemma FinalKept(layered: map<string, int>, stage: map<string, int>, current: int)
    requires Final(layered, current)
    requires forall x :: x in layered ==> x in stage && stage[x] == layered[x]
    ensures Final(stage, current)
  {
  }

  /** Before the first batch: nothing placed, the roots queued, every predecessor from an edge. */
  lemma KahnStart(edges: seq<Edge>, inc0: map<string, set<string>>, ready: seq<string>)
    requires forall x :: x in inc0 ==> inc0[x] == Preds(edges, x)
    requires forall k :: 0 <= k < |ready| ==> ready[k] in inc0 && inc0[ready[k]] == {}
    requires forall x :: x in inc0 && inc0[x] == {} ==> x in ready
    ensures Backed(inc0, edges)
    ensures Kahn(inc0, ready, map[], inc0, {}, 1)
  {
  }

  /** The batch loop of `topoSort`: it runs until no system is queued, and returns the stages, the next stage and the pending sets. */
  method Batches(edges: seq<Edge>, deps0: map<string, set<string>>, ready0: seq<string>)
    returns (stage: map<string, int>, current: int, deps: map<string, set<string>>, ghost placed: set<string>)
    requires Covers(deps0, edges)
    requires forall x :: x in deps0 ==> deps0[x] == Preds(edges, x)
    requires forall k :: 0 <= k < |ready0| ==> ready0[k] in deps0 && deps0[ready0[k]] == {}
    requires forall x :: x in deps0 && deps0[x] == {} ==> x in ready0
    ensures Layered(stage, deps0, placed, current) && current >= 1
    ensures forall x :: x in deps0 && deps0[x] == {} ==> x in placed && stage[x] == 1
    ensures Supported(stage, deps0, placed) && Released([], deps0, placed)
    ensures Final(stage, current)
  {
    ghost var inc0 := deps0;
    KahnStart(edges, inc0, ready0);
    var ready := ready0;
    deps := deps0;
    stage := map[];
    current := 1;
    placed := {};
    while |ready| > 0
      invariant Kahn(deps, ready, stage, inc0, placed, current)
      decreases |inc0.Keys - placed|
    {
      deps, stage, ready, current, placed := Step(edges, deps, stage, ready, current, inc0, placed);
    }
    assert ready == [];
  }

  /** One batch: every queued system gets stage `current`, and the next batch is queued. */
  method Step(edges: seq<Edge>, deps: map<string, set<string>>, stage: map<string, int>, ready: seq<string>, current: int,
              ghost inc0: map<string, set<string>>, ghost placed: set<string>)
    returns (deps': map<string, set<string>>, stage': map<string, int>, ready': seq<string>, current': int,
             ghost placed': set<string>)
    requires Covers(inc0, edges) && Backed(inc0, edges)
    requires Kahn(deps, ready, stage, inc0, placed, current) && |ready| > 0
    ensures Kahn(deps', ready', stage', inc0, placed', current')
    ensures |inc0.Keys - placed'| < |inc0.Keys - placed|
  {
    var batch := ready;
    deps', stage', ready' := PlaceBatch(edges, batch, deps, stage, current);
    BatchStep(edges, deps, batch, stage, inc0, placed, current, deps', stage', ready');
    placed' := placed + Members(batch);
    current' := current + 1;
  }

  /** The ordering `TopoSort` promises for the edges into released systems. */
  ghost predicate Ordered(stage: map<string, int>, edges: seq<Edge>, last: int)
  {
    forall e :: e in edges && e.to in stage && stage[e.to] < last ==> e.from in stage && stage[e.from] < stage[e.to]
  }

  /** A released system with predecessors sits one stage after the latest of them. */
  ghost predicate Prompt(stage: map<string, int>, edges: seq<Edge>, last: int)
  {
    forall x {:trigger Preds(edges, x)} :: x in stage && stage[x] < last && Preds(edges, x) != {} ==>
      exists u :: u in Preds(edges, x) && u in stage && stage[u] == stage[x] - 1
  }

  /** A system left at the final stage waits on a predecessor that was never released. */
  ghost predicate Waiting(stage: map<string, int>, edges: seq<Edge>, last: int)
  {
    forall x {:trigger Preds(edges, x)} :: x in stage && stage[x] == last ==>
      exists u :: u in Preds(edges, x) && (u !in stage || stage[u] == last)
  }

  /** `last` is the stage after the last batch: 1 when there was none, else one past a placed system. */
  ghost predicate Final(stage: map<string, int>, last: int)
  {
    last == 1 || exists x :: x in stage && stage[x] == last - 1
  }

  /**
   * The stage map names only keys of the `incoming` map (nodes and edge
   * targets), and only nodes are filled in at the final stage.
   */
  ghost predicate Known(stage: map<string, int>, nodes: seq<string>, edges: seq<Edge>, last: int)
  {
    forall x :: x in stage ==> IsTarget(nodes, edges, x) && (stage[x] == last ==> x in nodes)
  }

  /** A key of the `incoming` map whose predecessors were all placed in a batch was placed in a batch itself. */
  ghost predicate Complete(stage: map<string, int>, nodes: seq<string>, edges: seq<Edge>, last: int)
  {
    forall x {:trigger IsTarget(nodes, edges, x)} ::
      IsTarget(nodes, edges, x) && (forall u :: u in Preds(edges, x) ==> u in stage && stage[u] < last) ==>
        x in stage && stage[x] < last
  }

  /** Everything `TopoSort` promises about its stage map and final stage. */
  ghost predicate Layering(nodes: seq<string>, edges: seq<Edge>, stage: map<string, int>, last: int)
  {
    && last >= 1
    && (forall n :: n in nodes ==> n in stage)
    && (forall x :: x in stage ==> 1 <= stage[x] <= last)
    && (forall n :: n in nodes && Preds(edges, n) == {} ==> stage[n] == 1)
    && Ordered(stage, edges, last)
    && Prompt(stage, edges, last)
    && Waiting(stage, edges, last)
    && Final(stage, last)
    && Known(stage, nodes, edges, last)
    && Complete(stage, nodes, edges, last)
  }

  /** A non-empty batch placed at `current` makes `current + 1` the stage after the last batch. */
  lemma FinalStep(stage: map<string, int>, batch: seq<string>, current: int)
    requires |batch| > 0 && forall x :: x in batch ==> x in stage && stage[x] == current
    ensures Final(stage, current + 1)
  {
    assert batch[0] in batch;
  }

  /** Consecutive systems of `p` are joined by an edge. */
  ghost predicate IsPath(edges: seq<Edge>, p: seq<string>)
  {
    forall k :: 0 <= k < |p| - 1 ==> Edge(p[k], p[k + 1]) in edges
  }

  /** Along a path into a released system, every step raises the stage by at least one. */
  lemma {:induction false} PathStages(stage: map<string, int>, edges: seq<Edge>, last: int, p: seq<string>)
    requires Ordered(stage, edges, last)
    requires |p| >= 1 && IsPath(edges, p) && p[|p| - 1] in stage
    ensures stage[p[|p| - 1]] < last ==> p[0] in stage && stage[p[0]] <= stage[p[|p| - 1]] - (|p| - 1)
    decreases |p|
  {
    if |p| > 1 && stage[p[|p| - 1]] < last {
      var tail := p[1..];
      assert IsPath(edges, tail) by {
        forall k | 0 <= k < |tail| - 1
          ensures Edge(tail[k], tail[k + 1]) in edges
        {
          assert Edge(p[k + 1], p[k + 2]) in edges;
        }
      }
      PathStages(stage, edges, last, tail);
      assert Edge(p[0], p[1]) in edges;
    }
  }

  /** A system on a cycle is never released: it gets the final stage. */
  lemma CycleAtLast(stage: map<string, int>, edges: seq<Edge>, last: int, cycle: seq<string>)
    requires Ordered(stage, edges, last)
    requires forall x :: x in stage ==> stage[x] <= last
    requires |cycle| >= 2 && IsPath(edges, cycle) && cycle[0] == cycle[|cycle| - 1] && cycle[0] in stage
    ensures stage[cycle[0]] == last
  {
    PathStages(stage, edges, last, cycle);
  }

  /** The parts of two layerings `BatchAgree` compares. */
  ghost predicate Twin(nodes: seq<string>, edges: seq<Edge>, s1: map<string, int>, l1: int, s2: map<string, int>, l2: int)
  {
    && (forall y :: y in s1 ==> 1 <= s1[y])
    && Ordered(s1, edges, l1) && Prompt(s1, edges, l1) && Known(s1, nodes, edges, l1)
    && (forall n :: n in nodes ==> n in s1 && n in s2)
    && (forall n :: n in nodes && Preds(edges, n) == {} ==> s1[n] == 1 && s2[n] == 1)
    && Ordered(s2, edges, l2) && Prompt(s2, edges, l2) && Complete(s2, nodes, edges, l2)
  }

  /**
   * Two layerings of the same nodes and edges agree on every system placed
   * in a batch: its stage is fixed by its predecessors' stages.
   */
  lemma {:induction false} BatchAgree(nodes: seq<string>, edges: seq<Edge>, s1: map<string, int>, l1: int,
                                      s2: map<string, int>, l2: int, x: string)
    requires Twin(nodes, edges, s1, l1, s2, l2)
    requires x in s1 && s1[x] < l1
    ensures x in s2 && s2[x] == s1[x] && s2[x] < l2
    decreases s1[x]
  {
    forall u | u in Preds(edges, x)
      ensures u in s1 && u in s2 && s2[u] == s1[u] && s1[u] < s1[x] && s2[u] < l2
    {
      assert Edge(u, x) in edges;
      BatchAgree(nodes, edges, s1, l1, s2, l2, u);
    }
    assert IsTarget(nodes, edges, x);
    if Preds(edges, x) == {} {
      RootIsNode(nodes, edges, x);
    } else {
      StageFixed(edges, x, s1, l1, s2, l2);
    }
  }

  /** A key of `incoming` without predecessors is a node: an edge target has the edge's source as predecessor. */
  lemma RootIsNode(nodes: seq<string>, edges: seq<Edge>, x: string)
    requires IsTarget(nodes, edges, x) && Preds(edges, x) == {}
    ensures x in nodes
  {
  }

  /** A system placed in a batch in both layerings, whose predecessors agree, gets the same stage in both. */
  lemma StageFixed(edges: seq<Edge>, x: string, s1: map<string, int>, l1: int, s2: map<string, int>, l2: int)
    requires x in s1 && s1[x] < l1 && x in s2 && s2[x] < l2 && Preds(edges, x) != {}
    requires forall u :: u in Preds(edges, x) ==> u in s1 && u in s2 && s2[u] == s1[u] && s1[u] < s1[x]
    requires Ordered(s2, edges, l2) && Prompt(s1, edges, l1) && Prompt(s2, edges, l2)
    ensures s2[x] == s1[x]
  {
    var u1 :| u1 in Preds(edges, x) && u1 in s1 && s1[u1] == s1[x] - 1;
    assert Edge(u1, x) in edges;
    var u0 :| u0 in Preds(edges, x) && u0 in s2 && s2[u0] == s2[x] - 1;
  }

  /**
   * The layering `TopoSort` promises is unique: any two stage maps and final
   * stages meeting it for the same nodes and edges are equal.
   */
  lemma LayeringUnique(nodes: seq<string>, edges: seq<Edge>, s1: map<string, int>, l1: int, s2: map<string, int>, l2: int)
    requires Layering(nodes, edges, s1, l1) && Layering(nodes, edges, s2, l2)
    ensures l1 == l2 && s1 == s2
  {
    TwinsEqual(nodes, edges, s1, l1, s2, l2);
  }

  /** Two layerings that agree on their released systems have the same final stage and the same map. */
  lemma TwinsEqual(nodes: seq<string>, edges: seq<Edge>, s1: map<string, int>, l1: int, s2: map<string, int>, l2: int)
    requires Twin(nodes, edges, s1, l1, s2, l2) && Twin(nodes, edges, s2, l2, s1, l1)
    requires l1 >= 1 && l2 >= 1 && (forall x :: x in s1 ==> s1[x] <= l1) && (forall x :: x in s2 ==> s2[x] <= l2)
    requires Final(s1, l1) && Final(s2, l2) && Known(s2, nodes, edges, l2)
    ensures l1 == l2 && s1 == s2
  {
    if l1 > 1 {
      var x :| x in s1 && s1[x] == l1 - 1;
      BatchAgree(nodes, edges, s1, l1, s2, l2, x);
    }
    if l2 > 1 {
      var x :| x in s2 && s2[x] == l2 - 1;
      BatchAgree(nodes, edges, s2, l2, s1, l1, x);
    }
    forall x | x in s1
      ensures x in s2 && s2[x] == s1[x]
    {
      if s1[x] < l1 {
        BatchAgree(nodes, edges, s1, l1, s2, l2, x);
      } else if s2[x] < l2 {
        BatchAgree(nodes, edges, s2, l2, s1, l1, x);
      }
    }
    forall x | x in s2
      ensures x in s1
    {
      if s2[x] < l2 {
        BatchAgree(nodes, edges, s2, l2, s1, l1, x);
      }
    }
    assert s1.Keys == s2.Keys;
  }

  /** Two systems depending on each other both sit at stage 1, which is also the final stage. */
  lemma MutualPair(stage: map<string, int>, last: int)
    requires Layering(["a", "b"], [Edge("a", "b"), Edge("b", "a")], stage, last)
    ensures stage == map["a" := 1, "b" := 1] && last == 1
  {
    var edges := [Edge("a", "b"), Edge("b", "a")];
    forall x | x in stage
      ensures x == "a" || x == "b"
    {
      PairTargets(x);
    }
    CycleTop(stage, edges, last);
  }

  /** The keys of `incoming` for the two-system cycle. */
  lemma PairTargets(x: string)
    requires IsTarget(["a", "b"], [Edge("a", "b"), Edge("b", "a")], x)
    ensures x == "a" || x == "b"
  {
  }

  /** On the two-system cycle both systems sit at the final stage. */
  lemma CycleTop(stage: map<string, int>, edges: seq<Edge>, last: int)
    requires edges == [Edge("a", "b"), Edge("b", "a")]
    requires "a" in stage && "b" in stage && forall x :: x in stage ==> 1 <= stage[x] <= last
    requires Ordered(stage, edges, last) && Final(stage, last)
    requires forall x :: x in stage ==> x == "a" || x == "b"
    ensures stage == map["a" := 1, "b" := 1] && last == 1
  {
    assert IsPath(edges, ["a", "b", "a"]) && IsPath(edges, ["b", "a", "b"]);
    CycleAtLast(stage, edges, last, ["a", "b", "a"]);
    CycleAtLast(stage, edges, last, ["b", "a", "b"]);
    assert stage.Keys == {"a", "b"};
  }

  // ---------------------------------------------------------------------
  // Reading the inventories (parseCsv)
  // ---------------------------------------------------------------------

  /** An inventory row; `kind` is the `Type` column. */
  datatype RawRow = RawRow(system: string, domain: string, kind: string, upstream: string, downstream: string,
                           owner: string, disposition: string, confidence: Option<Num>)

  /** A line without the carriage return that `/\r?\n/` consumes before a line feed. */
  function DropCr(line: string): (r: string)
    ensures r == line || r + "\r" == line
    ensures forall c :: c in r ==> c in line
  {
    if |line| > 0 && line[|line| - 1] == '\r' then line[..|line| - 1] else line
  }

  /** `text.split(/\r?\n/)`: the text cut at each line feed, one carriage return before it dropped. */
  function LinesOf(text: string): (r: seq<string>)
    ensures |r| == CharCount(text, {'\n'}) + 1
    ensures forall k :: 0 <= k < |r| ==> '\n' !in r[k]
  {
    var pieces := Split(text, {'\n'});
    SplitLength(text, {'\n'});
    seq(|pieces|, k requires 0 <= k < |pieces| => if k < |pieces| - 1 then DropCr(pieces[k]) else pieces[k])
  }

  /** `l.trim().length > 0` */
  predicate NotBlank(l: string) { Trim(l) != "" }

  /** `cells.map((h) => h.trim())` */
  function TrimEach(cells: seq<string>): (r: seq<string>)
    ensures |r| == |cells| && forall k :: 0 <= k < |r| ==> r[k] == Trim(cells[k])
  {
    seq(|cells|, k requires 0 <= k < |cells| => Trim(cells[k]))
  }

  /** The position of the last header equal to `name`, or -1. */
  function LastHeader(header: seq<string>, name: string): (i: int)
    ensures -1 <= i < |header|
    ensures i >= 0 ==> header[i] == name
    ensures forall j :: i < j < |header| ==> header[j] != name
  {
    if |header| == 0 then -1
    else if header[|header| - 1] == name then |header| - 1
    else LastHeader(header[..|header| - 1], name)
  }

  /**
   * `row[name]` after `header.forEach((h, idx) => (row[h] = cols[idx] ?? ""))`:
   * the cell under the last header equal to `name`, "" past the end of the
   * row. A missing header gives `undefined`, falsy like "", so it is "" here.
   */
  function CellOf(header: seq<string>, cols: seq<string>, name: string): string
  {
    var i := LastHeader(header, name);
    if 0 <= i < |cols| then cols[i] else ""
  }

  /** The first of `names` whose cell is non-empty, or -1. */
  function FirstFilled(header: seq<string>, cols: seq<string>, names: seq<string>): (k: int)
    ensures -1 <= k < |names|
    ensures k >= 0 ==> CellOf(header, cols, names[k]) != ""
    ensures forall j :: 0 <= j < |names| && (k < 0 || j < k) ==> CellOf(header, cols, names[j]) == ""
  {
    if |names| == 0 then -1
    else
      var k := FirstFilled(header, cols, names[..|names| - 1]);
      if k >= 0 then k
      else if CellOf(header, cols, names[|names| - 1]) != "" then |names| - 1
      else -1
  }

  /** `row.A || row.B || ... || ""`: the first non-empty cell among the named columns. */
  function Pick(header: seq<string>, cols: seq<string>, names: seq<string>): string
  {
    var k := FirstFilled(header, cols, names);
    if k >= 0 then CellOf(header, cols, names[k]) else ""
  }

  /** The pick is empty exactly when every named cell is, and the first name wins when its cell is filled. */
  lemma PickIff(header: seq<string>, cols: seq<string>, names: seq<string>)
    ensures Pick(header, cols, names) == "" <==> forall j :: 0 <= j < |names| ==> CellOf(header, cols, names[j]) == ""
    ensures |names| > 0 && CellOf(header, cols, names[0]) != "" ==> Pick(header, cols, names) == CellOf(header, cols, names[0])
  {
  }

  /** One data line read under `header`; `toNumber` is JavaScript's `Number(string)`. */
  function ParseRow(header: seq<string>, line: string, toNumber: string -> Num): RawRow
  {
    var cols := Split(line, {','});
    var confidence := CellOf(header, cols, "Confidence");
    RawRow(Pick(header, cols, ["System", "system", "Name", "name"]),
           Pick(header, cols, ["Domain", "domain"]),
           Pick(header, cols, ["Type", "type"]),
           Pick(header, cols, ["Upstream", "upstream"]),
           Pick(header, cols, ["Downstream", "downstream"]),
           Pick(header, cols, ["Owner", "owner"]),
           Pick(header, cols, ["Disposition", "disposition"]),
           if confidence != "" then Some(toNumber(confidence)) else None)
  }

  /**
   * `parseCsv`: the non-blank lines; the first is the header (cells
   * trimmed), every other one a row. Fewer than two non-blank lines give no rows.
   */
  function ParseCsv(text: string, toNumber: string -> Num): (rows: seq<RawRow>)
    ensures var lines := Filter(LinesOf(text), NotBlank);
            |rows| == if |lines| < 2 then 0 else |lines| - 1
  {
    var lines := Filter(LinesOf(text), NotBlank);
    if |lines| < 2 then []
    else
      var header := TrimEach(Split(lines[0], {','}));
      seq(|lines| - 1, k requires 0 <= k < |lines| - 1 => ParseRow(header, lines[k + 1], toNumber))
  }

  /** A row's system is the first non-empty cell of the System, system, Name and name columns. */
  lemma SystemColumn(header: seq<string>, line: string, toNumber: string -> Num)
    ensures var cols := Split(line, {','});
            var sys := ParseRow(header, line, toNumber).system;
            && (sys == "" <==> CellOf(header, cols, "System") == "" && CellOf(header, cols, "system") == ""
                               && CellOf(header, cols, "Name") == "" && CellOf(header, cols, "name") == "")
            && (CellOf(header, cols, "System") != "" ==> sys == CellOf(header, cols, "System"))
  {
    var cols := Split(line, {','});
    var names := ["System", "system", "Name", "name"];
    assert ParseRow(header, line, toNumber).system == Pick(header, cols, names);
    PickIff(header, cols, names);
    assert names[0] == "System" && names[1] == "system" && names[2] == "Name" && names[3] == "name";
  }

  // ---------------------------------------------------------------------
  // Matching rows by name (normalizeName, buildMap)
  // ---------------------------------------------------------------------

  /** A JavaScript Map from normalised system name to row; `order` is its key order. */
  datatype Table = Table(rows: map<string, RawRow>, order: seq<string>)

  /** `normalizeName(r.system || "")`, the key `buildMap` files a row under. */
  function RowKey(r: RawRow): string
  {
    NormalizeKey(r.system)
  }

  /** `buildMap` with key function `keyOf`: blank keys skipped, a later row replacing an earlier one. */
  function Keyed(rows: seq<RawRow>, keyOf: RawRow -> string): (t: Table)
    ensures forall k :: k in t.rows <==> k in t.order
    ensures forall i, j :: 0 <= i < j < |t.order| ==> t.order[i] != t.order[j]
    ensures forall k :: k in t.rows ==> k != "" && keyOf(t.rows[k]) == k
  {
    if |rows| == 0 then Table(map[], [])
    else
      var t := Keyed(rows[..|rows| - 1], keyOf);
      var r := rows[|rows| - 1];
      var key := keyOf(r);
      if key == "" then t
      else Table(t.rows[key := r], if key in t.rows then t.order else t.order + [key])
  }

  /** A key is present exactly when some row normalises to it. */
  lemma {:induction false} KeyedHas(rows: seq<RawRow>, keyOf: RawRow -> string, key: string)
    ensures key in Keyed(rows, keyOf).rows <==> key != "" && exists i :: 0 <= i < |rows| && keyOf(rows[i]) == key
  {
    if |rows| > 0 {
      var n := |rows| - 1;
      var init := rows[..n];
      KeyedHas(init, keyOf, key);
      if key in Keyed(rows, keyOf).rows {
        if keyOf(rows[n]) != key {
          var i :| 0 <= i < |init| && keyOf(init[i]) == key;
          assert rows[i] == init[i];
        }
      } else if key != "" {
        forall i | 0 <= i < |rows|
          ensures keyOf(rows[i]) != key
        {
          if i < n {
            assert rows[i] == init[i];
          }
        }
      }
    }
  }

  /** No row after `i` has the key when none of the earlier rows after `i` has it and the last row does not. */
  lemma NoLaterKey(rows: seq<RawRow>, init: seq<RawRow>, keyOf: RawRow -> string, key: string, i: nat)
    requires i < |rows| - 1 && init == rows[..|rows| - 1] && keyOf(rows[|rows| - 1]) != key
    requires forall j :: i < j < |init| ==> keyOf(init[j]) != key
    ensures forall j :: i < j < |rows| ==> keyOf(rows[j]) != key
  {
    forall j | i < j < |init|
      ensures keyOf(rows[j]) != key
    {
      assert rows[j] == init[j];
    }
  }

  /** The row kept under a key is the last row that normalises to it. */
  lemma {:induction false} KeyedRow(rows: seq<RawRow>, keyOf: RawRow -> string, key: string) returns (i: nat)
    requires key in Keyed(rows, keyOf).rows
    ensures i < |rows| && rows[i] == Keyed(rows, keyOf).rows[key]
    ensures forall j :: i < j < |rows| ==> keyOf(rows[j]) != key
  {
    var n := |rows| - 1;
    var init := rows[..n];
    if keyOf(rows[n]) == key {
      i := n;
    } else {
      i := KeyedRow(init, keyOf, key);
      assert rows[i] == init[i];
      NoLaterKey(rows, init, keyOf, key, i);
    }
  }

  /** One row more for `Keyed` (`next` is the advanced index). */
  lemma KeyedStep(rows: seq<RawRow>, keyOf: RawRow -> string, i: nat, next: nat)
    requires i < |rows| && next == i + 1
    ensures var t := Keyed(rows[..i], keyOf);
            var key := keyOf(rows[i]);
            Keyed(rows[..next], keyOf) ==
              if key == "" then t
              else Table(t.rows[key := rows[i]], if key in t.rows then t.order else t.order + [key])
  {
    assert rows[..next][..i] == rows[..i];
  }

  /** `buildMap` as its `forEach` runs. */
  method BuildMap(rows: seq<RawRow>) returns (byKey: map<string, RawRow>, order: seq<string>)
    ensures Table(byKey, order) == Keyed(rows, RowKey)
  {
    byKey, order := map[], [];
    var i := 0;
    while i < |rows|
      invariant i <= |rows|
      invariant Table(byKey, order) == Keyed(rows[..i], RowKey)
    {
      var key := RowKey(rows[i]);
      if key != "" {
        if key !in byKey {
          order := order + [key];
        }
        byKey := byKey[key := rows[i]];
      }
      var next := i + 1;
      KeyedStep(rows, RowKey, i, next);
      i := next;
    }
    assert rows[..i] == rows;
  }

  // ---------------------------------------------------------------------
  // States and dependencies (determineState, parseDeps)
  // ---------------------------------------------------------------------

  datatype State = Retain | Modify | Retire | Add

  /** Same normalised domain and the same disposition ignoring case. */
  predicate SameRole(current: RawRow, future: RawRow)
  {
    NormalizeKey(current.domain) == NormalizeKey(future.domain) && Lower(current.disposition) == Lower(future.disposition)
  }

  /** `determineState`: a system only in the current state retires, one only in the future state is added. */
  function DetermineState(current: Option<RawRow>, future: Option<RawRow>): (s: State)
    ensures s == Retire <==> current.Some? && future.None?
    ensures s == Add <==> current.None? && future.Some?
    ensures s == Modify <==> current.Some? && future.Some? && !SameRole(current.value, future.value)
    ensures s == Retain <==> (current.Some? <==> future.Some?) && (current.Some? ==> SameRole(current.value, future.value))
  {
    if current.Some? && future.None? then Retire
    else if current.None? && future.Some? then Add
    else if current.Some? && future.Some? then
      (if SameRole(current.value, future.value) then Retain else Modify)
    else Retain
  }

  /** Reading the transformation backwards swaps Add and Retire and keeps Retain and Modify. */
  lemma StateReversed(current: Option<RawRow>, future: Option<RawRow>)
    ensures DetermineState(future, current) ==
            match DetermineState(current, future)
            case Add => Retire
            case Retire => Add
            case other => other
  {
  }

  /** `parseDeps`: split on commas and semicolons, trimmed, blanks dropped. */
  function ParseDeps(raw: string): (deps: seq<string>)
    ensures forall d :: d in deps ==> d != "" && IsTrimmed(d) && ',' !in d && ';' !in d
  {
    if raw == "" then []
    else
      var pieces := Split(raw, {',', ';'});
      var r := TrimmedNonEmpty(pieces);
      forall d | d in r
        ensures ',' !in d && ';' !in d
      {
        TrimmedPiece(pieces, d);
      }
      r
  }

  /** A trimmed non-blank piece is the trim of one of the pieces. */
  lemma {:induction false} TrimmedPiece(parts: seq<string>, x: string)
    requires x in TrimmedNonEmpty(parts)
    ensures exists k :: 0 <= k < |parts| && x == Trim(parts[k])
  {
    if Trim(parts[0]) != x || x == "" {
      TrimmedPiece(parts[1..], x);
      var k :| 0 <= k < |parts[1..]| && x == Trim(parts[1..][k]);
      assert x == Trim(parts[k + 1]);
    } else {
      assert x == Trim(parts[0]);
    }
  }

  /** Dependencies written out with commas are read back as they were. */
  lemma ParseDepsRoundTrip(deps: seq<string>)
    requires forall i :: 0 <= i < |deps| ==> deps[i] != "" && IsTrimmed(deps[i]) && ',' !in deps[i] && ';' !in deps[i]
    ensures ParseDeps(Join(deps, ",")) == deps
  {
    if |deps| > 0 {
      JoinSplit(deps, ',', {',', ';'});
      TrimmedNonEmptyFixed(deps);
      if |deps| == 1 {
        assert Join(deps, ",") == deps[0];
      } else {
        assert Join(deps, ",") == deps[0] + "," + Join(deps[1..], ",");
      }
    }
  }

  // ---------------------------------------------------------------------
  // The sequence (generateTransformationSequence)
  // ---------------------------------------------------------------------

  datatype Node = Node(system: string, domain: string, state: State, confidence: Num, dependencies: seq<string>, stage: int)

  datatype Summary = Summary(total: nat, added: nat, retired: nat, modified: nat, retained: nat)

  datatype Outcome = Outcome(nodes: seq<Node>, edges: seq<Edge>, stages: int, summary: Summary)

  /** `a || b` on strings. */
  function Or(a: string, b: string): string
  {
    if a != "" then a else b
  }

  /** `Math.max(0, Math.min(1, c))` on JavaScript numbers; NaN passes through both. */
  function Clamp01(c: Num): (r: Num)
    ensures r.NaN? <==> c.NaN?
    ensures r.Finite? ==> 0.0 <= r.v <= 1.0
    ensures c.Finite? && 0.0 <= c.v <= 1.0 ==> r == c
  {
    match c
    case NaN => NaN
    case PosInf => Finite(1.0)
    case NegInf => Finite(0.0)
    case Finite(v) => Finite(if v > 1.0 then 1.0 else if v < 0.0 then 0.0 else v)
  }

  /** `map.get(key)` */
  function Lookup(t: Table, key: string): Option<RawRow>
  {
    if key in t.rows then Some(t.rows[key]) else None
  }

  /** `r?.system`, "" standing for `undefined` (both falsy). */
  function SystemOf(r: Option<RawRow>): string
  {
    if r.Some? then r.value.system else ""
  }

  /** `r?.domain` */
  function DomainOf(r: Option<RawRow>): string
  {
    if r.Some? then r.value.domain else ""
  }

  /** `future?.confidence ?? current?.confidence ?? 0.6` */
  function ConfidenceOf(current: Option<RawRow>, future: Option<RawRow>): Num
  {
    if future.Some? && future.value.confidence.Some? then future.value.confidence.value
    else if current.Some? && current.value.confidence.Some? then current.value.confidence.value
    else Finite(0.6)
  }

  /** `parseDeps(r?.upstream)` followed by `parseDeps(r?.downstream)`. */
  function UpDown(r: Option<RawRow>): seq<string>
  {
    if r.Some? then ParseDeps(r.value.upstream) + ParseDeps(r.value.downstream) else []
  }

  /** The node for one key, before its stage is known (stage 0 is the placeholder). */
  function NodeFor(key: string, current: Option<RawRow>, future: Option<RawRow>): Node
  {
    Node(Or(SystemOf(future), Or(SystemOf(current), key)),
         Or(DomainOf(future), Or(DomainOf(current), "Other")),
         DetermineState(current, future),
         Clamp01(ConfidenceOf(current, future)),
         Dedup(UpDown(current) + UpDown(future)),
         0)
  }

  /** `new Set([...currentMap.keys(), ...futureMap.keys()])` in insertion order. */
  function AllKeys(current: Table, future: Table): seq<string>
  {
    Dedup(current.order + future.order)
  }

  /** The nodes in key order. */
  function NodesOf(current: Table, future: Table): (nodes: seq<Node>)
    ensures |nodes| == |AllKeys(current, future)|
  {
    var keys := AllKeys(current, future);
    seq(|keys|, k requires 0 <= k < |keys| => NodeFor(keys[k], Lookup(current, keys[k]), Lookup(future, keys[k])))
  }

  /** `nameToNorm`: normalised system name to system name, a later node replacing an earlier one. */
  function NameIndex(nodes: seq<Node>): (index: map<string, string>)
    ensures forall k :: k in index ==> exists i :: 0 <= i < |nodes| && nodes[i].system == index[k]
  {
    if |nodes| == 0 then map[]
    else
      var last := nodes[|nodes| - 1];
      var init := NameIndex(nodes[..|nodes| - 1]);
      assert forall k :: k in init ==> exists i :: 0 <= i < |nodes| - 1 && nodes[i].system == init[k];
      init[NormalizeKey(last.system) := last.system]
  }

  /** The edges into `target` from each of its dependencies that names a known system. */
  function DepEdges(deps: seq<string>, target: string, index: map<string, string>): (edges: seq<Edge>)
    ensures forall e :: e in edges ==> e.to == target && e.from in index.Values
  {
    if |deps| == 0 then []
    else
      var init := DepEdges(deps[..|deps| - 1], target, index);
      var key := NormalizeKey(deps[|deps| - 1]);
      if key in index && index[key] != "" then init + [Edge(index[key], target)] else init
  }

  /** The dependency edges of all nodes, node by node. */
  function EdgesOf(nodes: seq<Node>, index: map<string, string>): (edges: seq<Edge>)
    ensures forall e :: e in edges ==> e.from in index.Values && exists i :: 0 <= i < |nodes| && nodes[i].system == e.to
  {
    if |nodes| == 0 then []
    else
      var n := nodes[|nodes| - 1];
      var init := EdgesOf(nodes[..|nodes| - 1], index);
      assert forall e :: e in init ==> exists i :: 0 <= i < |nodes| - 1 && nodes[i].system == e.to;
      init + DepEdges(n.dependencies, n.system, index)
  }

  /** The number of nodes in state `s`. */
  function CountState(nodes: seq<Node>, s: State): (n: nat)
    ensures n <= |nodes|
  {
    if |nodes| == 0 then 0
    else CountState(nodes[..|nodes| - 1], s) + (if nodes[|nodes| - 1].state == s then 1 else 0)
  }

  function SummaryOf(nodes: seq<Node>): Summary
  {
    Summary(|nodes|, CountState(nodes, Add), CountState(nodes, Retire), CountState(nodes, Modify), CountState(nodes, Retain))
  }

  /** Every node is in exactly one state, so the four counts add up to the total. */
  lemma {:induction false} SummaryAddsUp(nodes: seq<Node>)
    ensures var s := SummaryOf(nodes);
            s.added + s.retired + s.modified + s.retained == s.total
  {
    if |nodes| > 0 {
      SummaryAddsUp(nodes[..|nodes| - 1]);
    }
  }

  /** `maxStage`: the largest stage, and at least 1. */
  function MaxStage(nodes: seq<Node>): (m: int)
    ensures m >= 1 && forall k :: 0 <= k < |nodes| ==> nodes[k].stage <= m
    ensures m == 1 || exists k :: 0 <= k < |nodes| && nodes[k].stage == m
  {
    if |nodes| == 0 then 1
    else
      var m := MaxStage(nodes[..|nodes| - 1]);
      var s := nodes[|nodes| - 1].stage;
      assert forall k :: 0 <= k < |nodes| - 1 ==> nodes[..|nodes| - 1][k] == nodes[k];
      if s > m then s else m
  }

  /** `stageMap.get(system) ?? 1` */
  function StageOf(stage: map<string, int>, system: string): int
  {
    if system in stage then stage[system] else 1
  }

  /** The node list of `nodesOf` as the key loop builds it. */
  method BuildNodes(current: Table, future: Table) returns (nodes: seq<Node>)
    ensures nodes == NodesOf(current, future)
  {
    var keys := AllKeys(current, future);
    nodes := [];
    var k := 0;
    while k < |keys|
      invariant k <= |keys|
      invariant nodes == NodesOf(current, future)[..k]
    {
      nodes := nodes + [NodeFor(keys[k], Lookup(current, keys[k]), Lookup(future, keys[k]))];
      var next := k + 1;
      PrefixStep(NodesOf(current, future), k, next);
      k := next;
    }
  }

  /** One more dependency adds at most its one edge. */
  lemma DepEdgesStep(deps: seq<string>, j: nat, next: nat, target: string, index: map<string, string>)
    requires j < |deps| && next == j + 1
    ensures var key := NormalizeKey(deps[j]);
            DepEdges(deps[..next], target, index)
            == DepEdges(deps[..j], target, index) + (if key in index && index[key] != "" then [Edge(index[key], target)] else [])
  {
    assert deps[..next][..j] == deps[..j];
  }

  /** The inner loop of the edge pass: one edge per dependency that names a known system. */
  method LinkDeps(deps: seq<string>, target: string, index: map<string, string>) returns (edges: seq<Edge>)
    ensures edges == DepEdges(deps, target, index)
  {
    edges := [];
    var j := 0;
    while j < |deps|
      invariant j <= |deps|
      invariant edges == DepEdges(deps[..j], target, index)
    {
      var key := NormalizeKey(deps[j]);
      var next := j + 1;
      DepEdgesStep(deps, j, next, target, index);
      if key in index && index[key] != "" {
        edges := edges + [Edge(index[key], target)];
      }
      j := next;
    }
    assert deps[..j] == deps;
  }

  /** One more node adds the edges of its dependencies. */
  lemma EdgesOfStep(nodes: seq<Node>, i: nat, next: nat, index: map<string, string>)
    requires i < |nodes| && next == i + 1
    ensures EdgesOf(nodes[..next], index) == EdgesOf(nodes[..i], index) + DepEdges(nodes[i].dependencies, nodes[i].system, index)
  {
    assert nodes[..next][..i] == nodes[..i];
  }

  /** The dependency edges as the nested loops push them. */
  method LinkEdges(nodes: seq<Node>, index: map<string, string>) returns (edges: seq<Edge>)
    ensures edges == EdgesOf(nodes, index)
  {
    edges := [];
    var i := 0;
    while i < |nodes|
      invariant i <= |nodes|
      invariant edges == EdgesOf(nodes[..i], index)
    {
      var found := LinkDeps(nodes[i].dependencies, nodes[i].system, index);
      edges := edges + found;
      var next := i + 1;
      EdgesOfStep(nodes, i, next, index);
      i := next;
    }
    assert nodes[..i] == nodes;
  }

  /** One node more raises the largest stage to its own stage when that is larger. */
  lemma MaxStageStep(nodes: seq<Node>, k: nat, next: nat)
    requires k < |nodes| && next == k + 1
    ensures MaxStage(nodes[..next]) == if nodes[k].stage > MaxStage(nodes[..k]) then nodes[k].stage else MaxStage(nodes[..k])
  {
    assert nodes[..next][..k] == nodes[..k];
  }

  /** Each node takes its stage from the map; `maxStage` tracks the largest. */
  method AssignStages(nodes: seq<Node>, stage: map<string, int>) returns (staged: seq<Node>, maxStage: int)
    ensures |staged| == |nodes|
    ensures forall k :: 0 <= k < |nodes| ==> staged[k] == nodes[k].(stage := StageOf(stage, nodes[k].system))
    ensures maxStage == MaxStage(staged)
  {
    staged := nodes;
    maxStage := 1;
    var k := 0;
    while k < |nodes|
      invariant k <= |nodes| && |staged| == |nodes|
      invariant forall m :: 0 <= m < k ==> staged[m] == nodes[m].(stage := StageOf(stage, nodes[m].system))
      invariant forall m :: k <= m < |nodes| ==> staged[m] == nodes[m]
      invariant maxStage == MaxStage(staged[..k])
    {
      var s := StageOf(stage, nodes[k].system);
      ghost var before := staged;
      staged := staged[k := nodes[k].(stage := s)];
      assert staged[..k] == before[..k];
      var next := k + 1;
      MaxStageStep(staged, k, next);
      if s > maxStage {
        maxStage := s;
      }
      k := next;
    }
    assert staged[..k] == staged;
  }

  /** Nodes whose stage is read from the layering of their systems. */
  ghost predicate StagedBy(staged: seq<Node>, stage: map<string, int>)
  {
    forall k :: 0 <= k < |staged| ==> staged[k].system in stage && staged[k].stage == stage[staged[k].system]
  }

  /** The layering's promises, read on the staged nodes: roots at stage 1. */
  lemma RootsAtOne(names: seq<string>, edges: seq<Edge>, stage: map<string, int>, staged: seq<Node>)
    requires StagedBy(staged, stage) && |staged| == |names|
    requires forall k :: 0 <= k < |names| ==> staged[k].system == names[k]
    requires forall n :: n in names && Preds(edges, n) == {} ==> stage[n] == 1
    ensures forall k :: 0 <= k < |staged| && Preds(edges, staged[k].system) == {} ==> staged[k].stage == 1
  {
    forall k | 0 <= k < |staged| && Preds(edges, staged[k].system) == {}
      ensures staged[k].stage == 1
    {
      assert names[k] in names;
    }
  }

  /** The largest stage of the staged nodes is at most the final stage of the layering. */
  lemma TopWithin(staged: seq<Node>, stage: map<string, int>, last: int)
    requires StagedBy(staged, stage) && last >= 1
    requires forall x :: x in stage ==> stage[x] <= last
    ensures MaxStage(staged) <= last
  {
  }

  /** The layering's promises, read on the staged nodes: along an edge into a node below the top stage, stages rise. */
  lemma EdgesClimb(edges: seq<Edge>, stage: map<string, int>, last: int, staged: seq<Node>, top: int)
    requires StagedBy(staged, stage) && top <= last
    requires Ordered(stage, edges, last)
    ensures forall e, i, j :: e in edges && 0 <= i < |staged| && 0 <= j < |staged|
              && staged[i].system == e.from && staged[j].system == e.to && staged[j].stage < top
              ==> staged[i].stage < staged[j].stage
  {
  }

  /**
   * What the sequence promises about staged nodes and their edges: every stage
   * lies between 1 and `top`, nodes without predecessors sit at stage 1, along
   * an edge into a node below the top stage the stage rises, and `top` is the
   * largest stage (1 when there are no nodes).
   */
  ghost predicate Sequenced(nodes: seq<Node>, edges: seq<Edge>, top: int)
  {
    && (forall k :: 0 <= k < |nodes| ==> 1 <= nodes[k].stage <= top)
    && (forall k :: 0 <= k < |nodes| && Preds(edges, nodes[k].system) == {} ==> nodes[k].stage == 1)
    && (forall e, i, j :: e in edges && 0 <= i < |nodes| && 0 <= j < |nodes|
          && nodes[i].system == e.from && nodes[j].system == e.to && nodes[j].stage < top
          ==> nodes[i].stage < nodes[j].stage)
    && top == MaxStage(nodes)
  }

  /** Some node of `nodes` is the system `s`. */
  ghost predicate Named(nodes: seq<Node>, s: string)
  {
    exists i :: 0 <= i < |nodes| && nodes[i].system == s
  }

  /** Every edge joins two of the nodes (applied only to the edges a proof names). */
  ghost predicate EdgesWithin(nodes: seq<Node>, edges: seq<Edge>)
  {
    forall x, u {:trigger Edge(u, x)} :: Edge(u, x) in edges ==> Named(nodes, u) && Named(nodes, x)
  }

  /** The systems of the nodes, in order. */
  function Systems(nodes: seq<Node>): (names: seq<string>)
    ensures |names| == |nodes| && forall k :: 0 <= k < |nodes| ==> names[k] == nodes[k].system
  {
    seq(|nodes|, k requires 0 <= k < |nodes| => nodes[k].system)
  }

  /**
   * The nodes carry the stages of the layering `TopoSort` promises for
   * their systems and these edges, with `last` the stage after the last batch.
   */
  ghost predicate LaidOut(nodes: seq<Node>, edges: seq<Edge>, stage: map<string, int>, last: int)
  {
    StagedBy(nodes, stage) && Layering(Systems(nodes), edges, stage, last)
  }

  /** Layers the nodes along the edges and gives every node its stage. */
  method Layout(nodes: seq<Node>, edges: seq<Edge>) returns (staged: seq<Node>, maxStage: int)
    ensures |staged| == |nodes|
    ensures forall k :: 0 <= k < |nodes| ==> staged[k] == nodes[k].(stage := staged[k].stage)
    ensures Sequenced(staged, edges, maxStage)
    ensures exists stage, last :: LaidOut(staged, edges, stage, last)
  {
    var names := Systems(nodes);
    var stage, last := TopoSort(names, edges);
    staged, maxStage := AssignStages(nodes, stage);
    SequencedHolds(nodes, names, edges, stage, last, staged);
    assert Systems(staged) == names;
    assert LaidOut(staged, edges, stage, last);
  }

  /**
   * The stages are determined by the systems and the edges: two node lists
   * with the same systems, each laid out for the same edges, carry the same
   * stages.
   */
  lemma LaidOutUnique(a: seq<Node>, b: seq<Node>, edges: seq<Edge>, s1: map<string, int>, l1: int, s2: map<string, int>, l2: int)
    requires Systems(a) == Systems(b)
    requires LaidOut(a, edges, s1, l1) && LaidOut(b, edges, s2, l2)
    ensures forall k :: 0 <= k < |a| ==> a[k].stage == b[k].stage
  {
    LayeringUnique(Systems(a), edges, s1, l1, s2, l2);
  }

  /** What `TopoSort` promises about roots, bounds and edges, read on the staged nodes. */
  lemma SequencedHolds(nodes: seq<Node>, names: seq<string>, edges: seq<Edge>, stage: map<string, int>, last: int, staged: seq<Node>)
    requires |names| == |nodes| && forall k :: 0 <= k < |nodes| ==> names[k] == nodes[k].system
    requires last >= 1
    requires forall n :: n in names ==> n in stage
    requires forall x :: x in stage ==> 1 <= stage[x] <= last
    requires forall n :: n in names && Preds(edges, n) == {} ==> stage[n] == 1
    requires Ordered(stage, edges, last)
    requires |staged| == |nodes|
    requires forall k :: 0 <= k < |nodes| ==> staged[k] == nodes[k].(stage := StageOf(stage, nodes[k].system))
    ensures StagedBy(staged, stage)
    ensures Sequenced(staged, edges, MaxStage(staged))
  {
    forall k | 0 <= k < |staged|
      ensures staged[k].system in stage && staged[k].stage == stage[staged[k].system]
    {
      assert names[k] in names;
    }
    RootsAtOne(names, edges, stage, staged);
    TopWithin(staged, stage, last);
    EdgesClimb(edges, stage, last, staged, MaxStage(staged));
  }

  /** The linked edges join two of the nodes: dependencies name only known systems. */
  lemma EdgesOfWithin(nodes: seq<Node>)
    ensures EdgesWithin(nodes, EdgesOf(nodes, NameIndex(nodes)))
  {
    var index := NameIndex(nodes);
    forall x, u | Edge(u, x) in EdgesOf(nodes, index)
      ensures Named(nodes, u) && Named(nodes, x)
    {
      var k :| k in index && index[k] == u;
    }
  }

  /**
   * `generateTransformationSequence` without its file reads and writes:
   * the rows of both inventories are given, the result is returned.
   */
  method Generate(currentRows: seq<RawRow>, futureRows: seq<RawRow>) returns (out: Outcome)
    ensures var nodes := NodesOf(Keyed(currentRows, RowKey), Keyed(futureRows, RowKey));
            && |out.nodes| == |nodes|
            && (forall k :: 0 <= k < |nodes| ==> out.nodes[k] == nodes[k].(stage := out.nodes[k].stage))
            && out.edges == EdgesOf(nodes, NameIndex(nodes))
    ensures Sequenced(out.nodes, out.edges, out.stages)
    ensures exists stage, last :: LaidOut(out.nodes, out.edges, stage, last)
    ensures out.summary == SummaryOf(out.nodes)
  {
    var currentMap, currentOrder := BuildMap(currentRows);
    var futureMap, futureOrder := BuildMap(futureRows);
    var current, future := Table(currentMap, currentOrder), Table(futureMap, futureOrder);
    var nodes := BuildNodes(current, future);
    var edges := LinkEdges(nodes, NameIndex(nodes));
    var staged, maxStage := Layout(nodes, edges);
    out := Outcome(staged, edges, maxStage, SummaryOf(staged));
  }
}
