/**
 * `buildTree` of `useMapIntelligence`: rows become L1 roots, L2 children
 * attached under the last L1 of their parent's name, and L3 grandchildren
 * attached under the last L2 of their parent's name; a parent name with no
 * such node gives one orphan issue.
 *
 * The mutable maps and `children` arrays of the source are local `map` and
 * `seq` variables that the loops reassign. `randomId` is a parameter
 * `newId(k)`: the id generated for the row at position k.
 */
module MapTree {
  import opened Common
  import opened Text
  import Sequencer
  import opened MapIntelligence

  /** A node of the capability map; the children of an L3 stay empty. */
  datatype Capability = Capability(id: string, name: string, level: Level, domain: Option<string>, children: seq<Capability>)

  /** `toLevel(r.level) ?? "L1"` */
  function LevelOf(r: Row): Level
  {
    ToLevel(r.level).GetOr(L1)
  }

  /** `r.parent ?? ""` */
  function ParentKey(r: Row): string
  {
    r.parent.GetOr("")
  }

  /** `ensureDomain`: the trimmed domain, or "Unassigned" when it is missing or blank. */
  function EnsureDomain(d: Option<string>): (r: string)
    ensures r != ""
    ensures r == "Unassigned" || (d.Some? && r == Trim(d.value))
    ensures d.Some? && Trim(d.value) != "" ==> r == Trim(d.value)
  {
    if d.Some? && Trim(d.value) != "" then Trim(d.value) else "Unassigned"
  }

  /** `value?.trim()` */
  function TrimOpt(d: Option<string>): Option<string>
  {
    if d.Some? then Some(Trim(d.value)) else None
  }

  /** The node a row becomes; `newId` is the id used when the row has none. */
  function Made(r: Row, newId: string): Capability
  {
    var lv := LevelOf(r);
    Capability(r.id.GetOr(newId), r.name, lv,
               if lv == L1 then Some(EnsureDomain(r.domain)) else TrimOpt(r.domain), [])
  }

  function Names(caps: seq<Capability>): (r: seq<string>)
    ensures |r| == |caps| && forall k :: 0 <= k < |caps| ==> r[k] == caps[k].name
  {
    seq(|caps|, k requires 0 <= k < |caps| => caps[k].name)
  }

  /** The rows of level `lv`, in order. */
  function RowsAt(rows: seq<Row>, lv: Level): (r: seq<Row>)
    ensures |r| <= |rows|
    ensures forall x :: x in r <==> x in rows && LevelOf(x) == lv
  {
    if |rows| == 0 then []
    else
      var init := RowsAt(rows[..|rows| - 1], lv);
      if LevelOf(rows[|rows| - 1]) == lv then init + [rows[|rows| - 1]] else init
  }

  /** The nodes made from the rows of level `lv`, in order. */
  function Caps(rows: seq<Row>, newId: nat -> string, lv: Level): seq<Capability>
  {
    if |rows| == 0 then []
    else
      var init := Caps(rows[..|rows| - 1], newId, lv);
      var last := rows[|rows| - 1];
      if LevelOf(last) == lv then init + [Made(last, newId(|rows| - 1))] else init
  }

  /** Each node stands for the row of level `lv` at the same position: its name, level, id and (for L1) domain. */
  lemma {:induction false} CapsShape(rows: seq<Row>, newId: nat -> string, lv: Level)
    ensures var r := Caps(rows, newId, lv);
            |r| == |RowsAt(rows, lv)| &&
            forall k :: 0 <= k < |r| ==>
              var row := RowsAt(rows, lv)[k];
              r[k].name == row.name && r[k].level == lv && r[k].children == [] &&
              (row.id.Some? ==> r[k].id == row.id.value) &&
              (lv == L1 ==> r[k].domain == Some(EnsureDomain(row.domain)))
    decreases |rows|
  {
    if |rows| > 0 {
      CapsShape(rows[..|rows| - 1], newId, lv);
    }
  }

  /** The nodes made from the rows of level `lv` under parent key `p`, in order. */
  function Bucket(rows: seq<Row>, newId: nat -> string, lv: Level, p: string): seq<Capability>
  {
    if |rows| == 0 then []
    else
      var init := Bucket(rows[..|rows| - 1], newId, lv, p);
      var last := rows[|rows| - 1];
      if LevelOf(last) == lv && ParentKey(last) == p then init + [Made(last, newId(|rows| - 1))] else init
  }

  /** A bucket holds fresh nodes of its level. */
  lemma {:induction false} BucketShape(rows: seq<Row>, newId: nat -> string, lv: Level, p: string)
    ensures forall c :: c in Bucket(rows, newId, lv, p) ==> c.level == lv && c.children == []
    decreases |rows|
  {
    if |rows| > 0 {
      BucketShape(rows[..|rows| - 1], newId, lv, p);
    }
  }

  /** The row at position `k`, of level `lv` under key `p`, has its node in that bucket. */
  lemma {:induction false} BucketHas(rows: seq<Row>, newId: nat -> string, lv: Level, p: string, k: nat)
    requires k < |rows| && LevelOf(rows[k]) == lv && ParentKey(rows[k]) == p
    ensures Made(rows[k], newId(k)) in Bucket(rows, newId, lv, p)
    decreases |rows|
  {
    if k < |rows| - 1 {
      BucketHas(rows[..|rows| - 1], newId, lv, p, k);
    }
  }

  predicate Distinct(s: seq<string>)
  {
    forall i, j :: 0 <= i < j < |s| ==> s[i] != s[j]
  }

  /** The parent keys of the rows of level `lv`, each once, in the order a `Map` first sees them. */
  function Keys(rows: seq<Row>, lv: Level): (r: seq<string>)
    ensures Distinct(r)
  {
    if |rows| == 0 then []
    else
      var init := Keys(rows[..|rows| - 1], lv);
      var last := rows[|rows| - 1];
      if LevelOf(last) == lv && ParentKey(last) !in init then init + [ParentKey(last)] else init
  }

  /** A key is listed exactly when some row of the level has it. */
  lemma {:induction false} KeysMember(rows: seq<Row>, lv: Level, p: string)
    ensures p in Keys(rows, lv) <==> exists k :: 0 <= k < |rows| && LevelOf(rows[k]) == lv && ParentKey(rows[k]) == p
    decreases |rows|
  {
    if |rows| > 0 {
      var n := |rows| - 1;
      var init := rows[..n];
      KeysMember(init, lv, p);
      if p in Keys(rows, lv) && p in Keys(init, lv) {
        var k :| 0 <= k < n && LevelOf(init[k]) == lv && ParentKey(init[k]) == p;
        assert rows[k] == init[k];
      }
      if exists k :: 0 <= k < |rows| && LevelOf(rows[k]) == lv && ParentKey(rows[k]) == p {
        var k :| 0 <= k < |rows| && LevelOf(rows[k]) == lv && ParentKey(rows[k]) == p;
        if k < n {
          assert init[k] == rows[k];
        }
      }
    }
  }

  /** `l2Buckets` / `l3Buckets` after the classification loop. */
  function BucketMap(rows: seq<Row>, newId: nat -> string, lv: Level): map<string, seq<Capability>>
  {
    map p | p in Keys(rows, lv) :: Bucket(rows, newId, lv, p)
  }

  /** A name index: each name present maps to the last position holding it (`Map.set` in a loop). */
  function NameIndex(names: seq<string>): (m: map<string, int>)
    ensures forall n :: n in m <==> n in names
    ensures forall n :: n in m ==> 0 <= m[n] < |names| && names[m[n]] == n
  {
    map n | n in names :: Sequencer.LastHeader(names, n)
  }

  // ---------------------------------------------------------------- step lemmas

  lemma CapsStep(rows: seq<Row>, newId: nat -> string, lv: Level, i: nat)
    requires i < |rows|
    ensures Caps(rows[..i + 1], newId, lv) ==
            Caps(rows[..i], newId, lv) + (if LevelOf(rows[i]) == lv then [Made(rows[i], newId(i))] else [])
  {
    assert rows[..i + 1][..i] == rows[..i];
  }

  lemma KeysStep(rows: seq<Row>, lv: Level, i: nat)
    requires i < |rows|
    ensures Keys(rows[..i + 1], lv) ==
            Keys(rows[..i], lv) + (if LevelOf(rows[i]) == lv && ParentKey(rows[i]) !in Keys(rows[..i], lv) then [ParentKey(rows[i])] else [])
  {
    assert rows[..i + 1][..i] == rows[..i];
  }

  lemma BucketStep(rows: seq<Row>, newId: nat -> string, lv: Level, p: string, i: nat)
    requires i < |rows|
    ensures Bucket(rows[..i + 1], newId, lv, p) ==
            Bucket(rows[..i], newId, lv, p) + (if LevelOf(rows[i]) == lv && ParentKey(rows[i]) == p then [Made(rows[i], newId(i))] else [])
  {
    assert rows[..i + 1][..i] == rows[..i];
  }

  /** A key no row of that level has collects nothing. */
  lemma {:induction false} BucketEmpty(rows: seq<Row>, newId: nat -> string, lv: Level, p: string)
    requires p !in Keys(rows, lv)
    ensures Bucket(rows, newId, lv, p) == []
    decreases |rows|
  {
    if |rows| > 0 {
      var init := rows[..|rows| - 1];
      assert forall k :: 0 <= k < |init| ==> init[k] == rows[k];
      BucketEmpty(init, newId, lv, p);
    }
  }

  /** `b` holds, for each parent key of the level's rows, that key's bucket. */
  ghost predicate BucketsOf(b: map<string, seq<Capability>>, rows: seq<Row>, newId: nat -> string, lv: Level)
  {
    forall p :: (p in b <==> p in Keys(rows, lv)) && (p in b ==> b[p] == Bucket(rows, newId, lv, p))
  }

  /** One key's bucket after one more row: extended when the row is of level `lv` under that key. */
  lemma BucketsStepAt(b: map<string, seq<Capability>>, rows: seq<Row>, newId: nat -> string, lv: Level, i: nat, q: string)
    requires i < |rows| && BucketsOf(b, rows[..i], newId, lv)
    requires Keys(rows[..i + 1], lv) ==
             Keys(rows[..i], lv) + (if LevelOf(rows[i]) == lv && ParentKey(rows[i]) !in Keys(rows[..i], lv) then [ParentKey(rows[i])] else [])
    ensures var p := ParentKey(rows[i]);
            var e := if LevelOf(rows[i]) == lv then b[p := (if p in b then b[p] else []) + [Made(rows[i], newId(i))]] else b;
            (q in e <==> q in Keys(rows[..i + 1], lv)) && (q in e ==> e[q] == Bucket(rows[..i + 1], newId, lv, q))
  {
    BucketStep(rows, newId, lv, q, i);
    var p := ParentKey(rows[i]);
    if LevelOf(rows[i]) == lv && q == p && p !in b {
      BucketEmpty(rows[..i], newId, lv, p);
    }
  }

  /** One more row of level `lv` appends its node to its key's bucket, creating the bucket if needed. */
  lemma BucketsStep(b: map<string, seq<Capability>>, rows: seq<Row>, newId: nat -> string, lv: Level, i: nat)
    requires i < |rows| && BucketsOf(b, rows[..i], newId, lv)
    ensures var p := ParentKey(rows[i]);
            BucketsOf(if LevelOf(rows[i]) == lv then b[p := (if p in b then b[p] else []) + [Made(rows[i], newId(i))]] else b,
                      rows[..i + 1], newId, lv)
  {
    KeysStep(rows, lv, i);
    var p := ParentKey(rows[i]);
    var e := if LevelOf(rows[i]) == lv then b[p := (if p in b then b[p] else []) + [Made(rows[i], newId(i))]] else b;
    forall q
      ensures (q in e <==> q in Keys(rows[..i + 1], lv)) && (q in e ==> e[q] == Bucket(rows[..i + 1], newId, lv, q))
    {
      BucketsStepAt(b, rows, newId, lv, i, q);
    }
  }

  /** The buckets are `BucketMap`. */
  lemma BucketsAreMap(b: map<string, seq<Capability>>, rows: seq<Row>, newId: nat -> string, lv: Level)
    requires BucketsOf(b, rows, newId, lv)
    ensures b == BucketMap(rows, newId, lv)
  {
    var m := BucketMap(rows, newId, lv);
    assert b.Keys == m.Keys;
  }

  /** A name that is present has a last position. */
  lemma LastHeaderFound(names: seq<string>, n: string)
    requires n in names
    ensures Sequencer.LastHeader(names, n) >= 0
  {
    var y :| 0 <= y < |names| && names[y] == n;
  }

  /** Appending a name moves its index to the new position and keeps every other name's. */
  lemma IndexStep(names: seq<string>, n: string)
    ensures NameIndex(names + [n]) == NameIndex(names)[n := |names|]
  {
    var names' := names + [n];
    assert names'[..|names|] == names;
    var a := NameIndex(names');
    var e := NameIndex(names)[n := |names|];
    assert forall x :: x in names' <==> x in names || x == n;
    assert a.Keys == e.Keys;
    forall x | x in a
      ensures a[x] == e[x]
    {
    }
  }

  // ---------------------------------------------------------------- the classification loop

  /**
   * The first loop of `buildTree`: L1 rows become roots indexed by name;
   * L2 and L3 rows go to the bucket of their parent key, a new key
   * appended to that map's key order.
   */
  method Classify(rows: seq<Row>, newId: nat -> string)
    returns (l1s: seq<Capability>, l1ByName: map<string, int>,
             l2: map<string, seq<Capability>>, l2Keys: seq<string>,
             l3: map<string, seq<Capability>>, l3Keys: seq<string>)
    ensures l1s == Caps(rows, newId, L1) && l1ByName == NameIndex(Names(l1s))
    ensures l2 == BucketMap(rows, newId, L2) && l2Keys == Keys(rows, L2)
    ensures l3 == BucketMap(rows, newId, L3) && l3Keys == Keys(rows, L3)
  {
    l1s, l1ByName, l2, l2Keys, l3, l3Keys := [], map[], map[], [], map[], [];
    var i := 0;
    while i < |rows|
      invariant i <= |rows|
      invariant l1s == Caps(rows[..i], newId, L1) && l1ByName == NameIndex(Names(l1s))
      invariant BucketsOf(l2, rows[..i], newId, L2) && l2Keys == Keys(rows[..i], L2)
      invariant BucketsOf(l3, rows[..i], newId, L3) && l3Keys == Keys(rows[..i], L3)
    {
      var r := rows[i];
      var cap := Made(r, newId(i));
      CapsStep(rows, newId, L1, i);
      KeysStep(rows, L2, i);
      KeysStep(rows, L3, i);
      BucketsStep(l2, rows, newId, L2, i);
      BucketsStep(l3, rows, newId, L3, i);
      var lvl := LevelOf(r);
      if lvl == L1 {
        IndexStep(Names(l1s), r.name);
        assert Names(l1s + [cap]) == Names(l1s) + [r.name];
        l1ByName := l1ByName[r.name := |l1s|];
        l1s := l1s + [cap];
      } else if lvl == L2 {
        var key := ParentKey(r);
        var list := if key in l2 then l2[key] else [];
        if key !in l2 {
          l2Keys := l2Keys + [key];
        }
        l2 := l2[key := list + [cap]];
      } else {
        var key := ParentKey(r);
        var list := if key in l3 then l3[key] else [];
        if key !in l3 {
          l3Keys := l3Keys + [key];
        }
        l3 := l3[key := list + [cap]];
      }
      i := i + 1;
    }
    assert rows[..i] == rows;
    BucketsAreMap(l2, rows, newId, L2);
    BucketsAreMap(l3, rows, newId, L3);
  }

  // ---------------------------------------------------------------- orphan issues

  /** An entry of `issues`. */
  datatype Issue = OrphanL2(parent: string) | OrphanL3(parent: string)

  /** The text pushed to `issues`. */
  function Message(i: Issue): string
  {
    match i
    case OrphanL2(p) => "Orphan L2(s) missing L1 parent: \"" + p + "\""
    case OrphanL3(p) => "Orphan L3(s) missing L2 parent: \"" + p + "\""
  }

  /** Different issues read differently. */
  lemma MessageInjective(a: Issue, b: Issue)
    requires Message(a) == Message(b)
    ensures a == b
  {
    var prefix := |"Orphan L2(s) missing L1 parent: \""|;
    assert |Message(a)| == prefix + |a.parent| + 1;
    assert |Message(b)| == prefix + |b.parent| + 1;
    assert a.parent == Message(a)[prefix..|Message(a)| - 1];
    assert b.parent == Message(b)[prefix..|Message(b)| - 1];
    assert Message(a)[7] == Message(b)[7];
  }

  function Orphan(l3: bool, p: string): Issue
  {
    if l3 then OrphanL3(p) else OrphanL2(p)
  }

  /** One issue for each key, in key order, that is not among `names`. */
  function Orphans(keys: seq<string>, names: seq<string>, l3: bool): (r: seq<Issue>)
    ensures |r| <= |keys|
    ensures forall x :: x in r ==> x == Orphan(l3, x.parent) && x.parent in keys && x.parent !in names
    ensures forall p :: p in keys && p !in names ==> Orphan(l3, p) in r
  {
    if |keys| == 0 then []
    else
      var init := Orphans(keys[..|keys| - 1], names, l3);
      var p := keys[|keys| - 1];
      assert forall q :: q in keys <==> q in keys[..|keys| - 1] || q == p;
      if p in names then init else init + [Orphan(l3, p)]
  }

  lemma OrphansStep(keys: seq<string>, names: seq<string>, l3: bool, t: nat)
    requires t < |keys|
    ensures Orphans(keys[..t + 1], names, l3) ==
            Orphans(keys[..t], names, l3) + (if keys[t] in names then [] else [Orphan(l3, keys[t])])
  {
    assert keys[..t + 1][..t] == keys[..t];
  }

  // ---------------------------------------------------------------- L2 attach

  /** `l2.domain ?? parent.domain ?? "Unassigned"` on each L2 of a bucket. */
  function InheritL2(l2s: seq<Capability>, d: Option<string>): seq<Capability>
  {
    seq(|l2s|, k requires 0 <= k < |l2s| => l2s[k].(domain := Some(l2s[k].domain.GetOr(d.GetOr("Unassigned")))))
  }

  /**
   * Root `i` once the buckets of the keys in `done` are attached: the last
   * root of a name gets that name's bucket, every other root is unchanged.
   */
  function AttachedL2(l1s: seq<Capability>, b: map<string, seq<Capability>>, done: set<string>, i: nat): Capability
    requires i < |l1s|
  {
    var c := l1s[i];
    if Sequencer.LastHeader(Names(l1s), c.name) == i && c.name in done && c.name in b
    then c.(children := c.children + InheritL2(b[c.name], c.domain))
    else c
  }

  /** The roots after the L2 loop. */
  function WithL2(l1s: seq<Capability>, b: map<string, seq<Capability>>): (r: seq<Capability>)
    ensures |r| == |l1s|
  {
    seq(|l1s|, i requires 0 <= i < |l1s| => AttachedL2(l1s, b, b.Keys, i))
  }

  /** `for (const l2 of l2s) parent.children.push({ ...l2, domain: inheritedDomain })` */
  method PushL2s(children: seq<Capability>, l2s: seq<Capability>, d: Option<string>) returns (out: seq<Capability>)
    ensures out == children + InheritL2(l2s, d)
  {
    out := children;
    for u := 0 to |l2s|
      invariant out == children + InheritL2(l2s[..u], d)
    {
      var l2 := l2s[u];
      var inheritedDomain := l2.domain.GetOr(d.GetOr("Unassigned"));
      assert InheritL2(l2s[..u + 1], d) == InheritL2(l2s[..u], d) + [l2.(domain := Some(inheritedDomain))];
      out := out + [l2.(domain := Some(inheritedDomain))];
    }
    assert l2s[..|l2s|] == l2s;
  }

  /** The roots once the buckets of the keys in `done` are attached. */
  ghost predicate StageL2(l1s0: seq<Capability>, l1s: seq<Capability>, b: map<string, seq<Capability>>, done: set<string>)
  {
    |l1s| == |l1s0| && forall i :: 0 <= i < |l1s| ==> l1s[i] == AttachedL2(l1s0, b, done, i)
  }

  /** Attaching one more key's bucket: to the root the name index gives, or to none when it gives none. */
  lemma StageL2Step(l1s0: seq<Capability>, l1s: seq<Capability>, b: map<string, seq<Capability>>, done: set<string>,
                    m: map<string, int>, p: string)
    requires m == NameIndex(Names(l1s0))
    requires StageL2(l1s0, l1s, b, done) && p !in done && p in b
    ensures p !in m ==> p !in Names(l1s0) && StageL2(l1s0, l1s, b, done + {p})
    ensures p in m ==> (p in Names(l1s0) && 0 <= m[p] < |l1s| &&
                        StageL2(l1s0, l1s[m[p] := l1s[m[p]].(children := l1s[m[p]].children + InheritL2(b[p], l1s[m[p]].domain))], b, done + {p}))
  {
    if p in m {
      var i := m[p];
      assert i == Sequencer.LastHeader(Names(l1s0), p);
      assert l1s[i] == l1s0[i];
    }
  }

  lemma StageL2Done(l1s0: seq<Capability>, l1s: seq<Capability>, b: map<string, seq<Capability>>, done: set<string>)
    requires StageL2(l1s0, l1s, b, done) && forall p :: p in done <==> p in b
    ensures l1s == WithL2(l1s0, b)
  {
    assert done == b.Keys;
  }

  /**
   * The second loop of `buildTree`: each L2 bucket, in key order, goes under
   * the last root of its parent's name, or is reported as an orphan.
   */
  method AttachL2(l1s0: seq<Capability>, l1ByName: map<string, int>, l2: map<string, seq<Capability>>, l2Keys: seq<string>)
    returns (l1s: seq<Capability>, issues: seq<Issue>)
    requires l1ByName == NameIndex(Names(l1s0))
    requires Distinct(l2Keys) && forall p :: p in l2 <==> p in l2Keys
    ensures l1s == WithL2(l1s0, l2)
    ensures issues == Orphans(l2Keys, Names(l1s0), false)
  {
    l1s, issues := l1s0, [];
    ghost var done: set<string> := {};
    for t := 0 to |l2Keys|
      invariant forall p :: p in done <==> p in l2Keys[..t]
      invariant forall p :: p in done ==> p in l2
      invariant StageL2(l1s0, l1s, l2, done)
      invariant issues == Orphans(l2Keys[..t], Names(l1s0), false)
    {
      var parentName := l2Keys[t];
      OrphansStep(l2Keys, Names(l1s0), false, t);
      StageL2Step(l1s0, l1s, l2, done, l1ByName, parentName);
      if parentName !in l1ByName {
        issues := issues + [OrphanL2(parentName)];
      } else {
        var i := l1ByName[parentName];
        var parent := l1s[i];
        var children := PushL2s(parent.children, l2[parentName], parent.domain);
        l1s := l1s[i := parent.(children := children)];
      }
      done := done + {parentName};
      PrefixStep(l2Keys, t, t + 1);
    }
    assert l2Keys[..|l2Keys|] == l2Keys;
    StageL2Done(l1s0, l1s, l2, done);
  }

  // ---------------------------------------------------------------- the L2 index

  /** The names of the roots' children, root by root. */
  function L2Names(roots: seq<Capability>): seq<string>
  {
    if |roots| == 0 then [] else L2Names(roots[..|roots| - 1]) + Names(roots[|roots| - 1].children)
  }

  /**
   * `l2ByName.get(n)`: the position (root, child) of the last child named
   * `n`, roots in order and each root's children in order.
   */
  function LastSlot(roots: seq<Capability>, n: string): (r: Option<(int, int)>)
    ensures r.Some? ==> 0 <= r.value.0 < |roots| && 0 <= r.value.1 < |roots[r.value.0].children|
                        && roots[r.value.0].children[r.value.1].name == n
    ensures r.None? <==> n !in L2Names(roots)
  {
    if |roots| == 0 then None
    else
      var j := Sequencer.LastHeader(Names(roots[|roots| - 1].children), n);
      if j >= 0 then Some((|roots| - 1, j)) else LastSlot(roots[..|roots| - 1], n)
  }

  function Lookup<V>(m: map<string, V>, n: string): Option<V>
  {
    if n in m then Some(m[n]) else None
  }

  /** `l2ByName.get(n)` part way through the loop: roots before `i`, then the first `j` children of root `i`. */
  function SlotUpTo(roots: seq<Capability>, i: nat, j: nat, n: string): Option<(int, int)>
    requires i < |roots| && j <= |roots[i].children|
  {
    var c := Sequencer.LastHeader(Names(roots[i].children[..j]), n);
    if c >= 0 then Some((i as int, c)) else LastSlot(roots[..i], n)
  }

  lemma SlotStart(roots: seq<Capability>, i: nat, n: string)
    requires i < |roots|
    ensures SlotUpTo(roots, i, 0, n) == LastSlot(roots[..i], n)
  {
    assert Names(roots[i].children[..0]) == [];
  }

  lemma SlotNext(roots: seq<Capability>, i: nat, j: nat, n: string)
    requires i < |roots| && j < |roots[i].children|
    ensures SlotUpTo(roots, i, j + 1, n) ==
            if n == roots[i].children[j].name then Some((i as int, j as int)) else SlotUpTo(roots, i, j, n)
  {
    var cs := roots[i].children;
    assert Names(cs[..j + 1]) == Names(cs[..j]) + [cs[j].name];
    assert (Names(cs[..j]) + [cs[j].name])[..j] == Names(cs[..j]);
  }

  lemma SlotEnd(roots: seq<Capability>, i: nat, n: string)
    requires i < |roots|
    ensures SlotUpTo(roots, i, |roots[i].children|, n) == LastSlot(roots[..i + 1], n)
  {
    assert roots[i].children[..|roots[i].children|] == roots[i].children;
    assert roots[..i + 1][..i] == roots[..i];
  }

  /** The third loop of `buildTree`: every child of every root, by name, the last one winning. */
  method IndexL2(roots: seq<Capability>) returns (m: map<string, (int, int)>)
    ensures forall n :: Lookup(m, n) == LastSlot(roots, n)
  {
    m := map[];
    for i := 0 to |roots|
      invariant forall n :: Lookup(m, n) == LastSlot(roots[..i], n)
    {
      var children := roots[i].children;
      forall n
        ensures SlotUpTo(roots, i, 0, n) == LastSlot(roots[..i], n)
      {
        SlotStart(roots, i, n);
      }
      for j := 0 to |children|
        invariant forall n :: Lookup(m, n) == SlotUpTo(roots, i, j, n)
      {
        var next := m[children[j].name := (i, j)];
        forall n
          ensures Lookup(next, n) == SlotUpTo(roots, i, j + 1, n)
        {
          SlotNext(roots, i, j, n);
          assert Lookup(m, n) == SlotUpTo(roots, i, j, n);
        }
        m := next;
      }
      forall n
        ensures SlotUpTo(roots, i, |children|, n) == LastSlot(roots[..i + 1], n)
      {
        SlotEnd(roots, i, n);
      }
    }
    assert roots[..|roots|] == roots;
  }

  // ---------------------------------------------------------------- L3 attach

  /** `l3.domain ?? parent.domain` on each L3 of a bucket. */
  function InheritL3(l3s: seq<Capability>, d: Option<string>): seq<Capability>
  {
    seq(|l3s|, k requires 0 <= k < |l3s| => l3s[k].(domain := if l3s[k].domain.Some? then l3s[k].domain else d))
  }

  /** Child `j` of root `i` once the buckets of the keys in `done` are attached to the last child of each name. */
  function AttachedL3(roots: seq<Capability>, b: map<string, seq<Capability>>, done: set<string>, i: nat, j: nat): Capability
    requires i < |roots| && j < |roots[i].children|
  {
    var c := roots[i].children[j];
    if LastSlot(roots, c.name) == Some((i as int, j as int)) && c.name in done && c.name in b
    then c.(children := c.children + InheritL3(b[c.name], c.domain))
    else c
  }

  /** The roots after the L3 loop. */
  function WithL3(roots: seq<Capability>, b: map<string, seq<Capability>>): (r: seq<Capability>)
    ensures |r| == |roots|
  {
    seq(|roots|, i requires 0 <= i < |roots| =>
      roots[i].(children := seq(|roots[i].children|, j requires 0 <= j < |roots[i].children| => AttachedL3(roots, b, b.Keys, i, j))))
  }

  /** `roots` with child `j` of root `i` replaced by `c`. */
  function Put(roots: seq<Capability>, i: nat, j: nat, c: Capability): seq<Capability>
    requires i < |roots| && j < |roots[i].children|
  {
    roots[i := roots[i].(children := roots[i].children[j := c])]
  }

  /** The roots once the L3 buckets of the keys in `done` are attached; nothing else differs. */
  ghost predicate StageL3(roots0: seq<Capability>, roots: seq<Capability>, b: map<string, seq<Capability>>, done: set<string>)
  {
    |roots| == |roots0| &&
    forall i :: 0 <= i < |roots| ==>
      roots[i] == roots0[i].(children := roots[i].children) && |roots[i].children| == |roots0[i].children| &&
      forall j :: 0 <= j < |roots[i].children| ==> roots[i].children[j] == AttachedL3(roots0, b, done, i, j)
  }

  /** A key no child is named after attaches nothing. */
  lemma StageL3Skip(roots0: seq<Capability>, roots: seq<Capability>, b: map<string, seq<Capability>>, done: set<string>, p: string)
    requires StageL3(roots0, roots, b, done) && LastSlot(roots0, p).None?
    ensures StageL3(roots0, roots, b, done + {p})
  {
    forall i, j | 0 <= i < |roots| && 0 <= j < |roots[i].children|
      ensures AttachedL3(roots0, b, done + {p}, i, j) == AttachedL3(roots0, b, done, i, j)
    {
    }
  }

  /** A key's L3 bucket goes under the child the index gives for it. */
  lemma StageL3Put(roots0: seq<Capability>, roots: seq<Capability>, b: map<string, seq<Capability>>, done: set<string>,
                   p: string, i: nat, j: nat)
    requires StageL3(roots0, roots, b, done) && p !in done && p in b
    requires LastSlot(roots0, p) == Some((i as int, j as int))
    ensures i < |roots| && j < |roots[i].children|
    ensures var c := roots[i].children[j];
            StageL3(roots0, Put(roots, i, j, c.(children := c.children + InheritL3(b[p], c.domain))), b, done + {p})
  {
    var c := roots[i].children[j];
    assert c == AttachedL3(roots0, b, done, i, j);
    var c' := c.(children := c.children + InheritL3(b[p], c.domain));
    var r := Put(roots, i, j, c');
    forall i', j' | 0 <= i' < |r| && 0 <= j' < |r[i'].children|
      ensures r[i'].children[j'] == AttachedL3(roots0, b, done + {p}, i', j')
    {
      if i' == i && j' == j {
        assert c' == AttachedL3(roots0, b, done + {p}, i, j);
      } else {
        assert r[i'].children[j'] == roots[i'].children[j'];
      }
    }
    assert forall i' :: 0 <= i' < |r| && i' != i ==> r[i'] == roots[i'];
  }

  /** Attaching one more key's L3 bucket, as the loop does it: through the index. */
  lemma StageL3Step(roots0: seq<Capability>, roots: seq<Capability>, b: map<string, seq<Capability>>, done: set<string>,
                    m: map<string, (int, int)>, p: string)
    requires forall n :: Lookup(m, n) == LastSlot(roots0, n)
    requires StageL3(roots0, roots, b, done) && p !in done && p in b
    ensures p !in m ==> p !in L2Names(roots0) && StageL3(roots0, roots, b, done + {p})
    ensures p in m ==> (0 <= m[p].0 < |roots| && 0 <= m[p].1 < |roots[m[p].0].children| &&
                        p in L2Names(roots0) &&
                        var c := roots[m[p].0].children[m[p].1];
                        StageL3(roots0, Put(roots, m[p].0, m[p].1, c.(children := c.children + InheritL3(b[p], c.domain))), b, done + {p}))
  {
    assert Lookup(m, p) == LastSlot(roots0, p);
    if p in m {
      StageL3Put(roots0, roots, b, done, p, m[p].0, m[p].1);
    } else {
      StageL3Skip(roots0, roots, b, done, p);
    }
  }

  lemma StageL3Done(roots0: seq<Capability>, roots: seq<Capability>, b: map<string, seq<Capability>>, done: set<string>)
    requires StageL3(roots0, roots, b, done) && forall p :: p in done <==> p in b
    ensures roots == WithL3(roots0, b)
  {
    assert done == b.Keys;
    var w := WithL3(roots0, b);
    forall i | 0 <= i < |roots|
      ensures roots[i] == w[i]
    {
      assert roots[i].children == w[i].children;
    }
  }

  /** `for (const l3 of l3s) parent.children.push({ ...l3, domain: l3.domain ?? parent.domain })` */
  method PushL3s(children: seq<Capability>, l3s: seq<Capability>, d: Option<string>) returns (out: seq<Capability>)
    ensures out == children + InheritL3(l3s, d)
  {
    out := children;
    for u := 0 to |l3s|
      invariant out == children + InheritL3(l3s[..u], d)
    {
      var l3 := l3s[u];
      var domain := if l3.domain.Some? then l3.domain else d;
      assert InheritL3(l3s[..u + 1], d) == InheritL3(l3s[..u], d) + [l3.(domain := domain)];
      out := out + [l3.(domain := domain)];
    }
    assert l3s[..|l3s|] == l3s;
  }

  /**
   * The fourth loop of `buildTree`: each L3 bucket, in key order, goes under
   * the last L2 of its parent's name, or is reported as an orphan.
   */
  method AttachL3(roots0: seq<Capability>, l2ByName: map<string, (int, int)>, l3: map<string, seq<Capability>>, l3Keys: seq<string>)
    returns (roots: seq<Capability>, issues: seq<Issue>)
    requires forall n :: Lookup(l2ByName, n) == LastSlot(roots0, n)
    requires Distinct(l3Keys) && forall p :: p in l3 <==> p in l3Keys
    ensures roots == WithL3(roots0, l3)
    ensures issues == Orphans(l3Keys, L2Names(roots0), true)
  {
    roots, issues := roots0, [];
    ghost var done: set<string> := {};
    for t := 0 to |l3Keys|
      invariant forall p :: p in done <==> p in l3Keys[..t]
      invariant forall p :: p in done ==> p in l3
      invariant StageL3(roots0, roots, l3, done)
      invariant issues == Orphans(l3Keys[..t], L2Names(roots0), true)
    {
      var parentName := l3Keys[t];
      OrphansStep(l3Keys, L2Names(roots0), true, t);
      StageL3Step(roots0, roots, l3, done, l2ByName, parentName);
      if parentName !in l2ByName {
        issues := issues + [OrphanL3(parentName)];
      } else {
        var (i, j) := l2ByName[parentName];
        var parent := roots[i].children[j];
        var children := PushL3s(parent.children, l3[parentName], parent.domain);
        roots := Put(roots, i, j, parent.(children := children));
      }
      done := done + {parentName};
      PrefixStep(l3Keys, t, t + 1);
    }
    assert l3Keys[..|l3Keys|] == l3Keys;
    StageL3Done(roots0, roots, l3, done);
  }

  // ---------------------------------------------------------------- buildTree

  /** The roots once the L2 buckets are attached. */
  function RootsL2(rows: seq<Row>, newId: nat -> string): seq<Capability>
  {
    WithL2(Caps(rows, newId, L1), BucketMap(rows, newId, L2))
  }

  /** The tree `buildTree` returns. */
  function Tree(rows: seq<Row>, newId: nat -> string): seq<Capability>
  {
    WithL3(RootsL2(rows, newId), BucketMap(rows, newId, L3))
  }

  /** The issues `buildTree` returns: the L2 orphans, then the L3 orphans, each in key order. */
  function TreeIssues(rows: seq<Row>, newId: nat -> string): seq<Issue>
  {
    Orphans(Keys(rows, L2), Names(Caps(rows, newId, L1)), false) +
    Orphans(Keys(rows, L3), L2Names(RootsL2(rows, newId)), true)
  }

  /** `buildTree`: classify, attach the L2s, index them, attach the L3s. */
  method BuildTree(rows: seq<Row>, newId: nat -> string) returns (roots: seq<Capability>, issues: seq<Issue>)
    ensures roots == Tree(rows, newId)
    ensures issues == TreeIssues(rows, newId)
  {
    var l1s, l1ByName, l2, l2Keys, l3, l3Keys := Classify(rows, newId);
    var l2Issues, l3Issues;
    l1s, l2Issues := AttachL2(l1s, l1ByName, l2, l2Keys);
    var l2ByName := IndexL2(l1s);
    roots, l3Issues := AttachL3(l1s, l2ByName, l3, l3Keys);
    issues := l2Issues + l3Issues;
  }

  // ---------------------------------------------------------------- properties of the tree

  /** The L2 loop changes only the roots' children. */
  lemma WithL2Keeps(l1s: seq<Capability>, b: map<string, seq<Capability>>)
    ensures forall i :: 0 <= i < |l1s| ==> WithL2(l1s, b)[i] == l1s[i].(children := WithL2(l1s, b)[i].children)
    ensures Names(WithL2(l1s, b)) == Names(l1s)
  {
  }

  /** The L3 loop changes only the children of the roots' children. */
  lemma WithL3Keeps(roots: seq<Capability>, b: map<string, seq<Capability>>)
    ensures forall i :: 0 <= i < |roots| ==>
              var r := WithL3(roots, b)[i];
              r == roots[i].(children := r.children) && |r.children| == |roots[i].children| &&
              forall j :: 0 <= j < |r.children| ==> r.children[j] == roots[i].children[j].(children := r.children[j].children)
    ensures Names(WithL3(roots, b)) == Names(roots)
  {
  }

  lemma {:induction false} L2NamesMember(roots: seq<Capability>, n: string)
    ensures n in L2Names(roots) <==>
            exists i, j :: 0 <= i < |roots| && 0 <= j < |roots[i].children| && roots[i].children[j].name == n
    decreases |roots|
  {
    if |roots| > 0 {
      var init := roots[..|roots| - 1];
      L2NamesMember(init, n);
      var last := roots[|roots| - 1];
      assert n in Names(last.children) <==> exists j :: 0 <= j < |last.children| && last.children[j].name == n;
      if n in L2Names(init) {
        var i, j :| 0 <= i < |init| && 0 <= j < |init[i].children| && init[i].children[j].name == n;
        assert roots[i] == init[i];
      }
      if exists i, j :: 0 <= i < |roots| && 0 <= j < |roots[i].children| && roots[i].children[j].name == n {
        var i, j :| 0 <= i < |roots| && 0 <= j < |roots[i].children| && roots[i].children[j].name == n;
        if i < |roots| - 1 {
          assert init[i] == roots[i];
        }
      }
    }
  }

  /**
   * The roots are the L1 rows, in order: a row whose level is missing or
   * unknown is one of them. Each keeps its name and id and gets its domain
   * trimmed or "Unassigned".
   */
  lemma RootsAreL1Rows(rows: seq<Row>, newId: nat -> string)
    ensures var roots := Tree(rows, newId);
            var l1 := RowsAt(rows, L1);
            |roots| == |l1| &&
            forall i :: 0 <= i < |roots| ==>
              roots[i].name == l1[i].name && roots[i].level == L1 &&
              roots[i].domain == Some(EnsureDomain(l1[i].domain)) &&
              (l1[i].id.Some? ==> roots[i].id == l1[i].id.value)
  {
    CapsShape(rows, newId, L1);
    WithL2Keeps(Caps(rows, newId, L1), BucketMap(rows, newId, L2));
    WithL3Keeps(RootsL2(rows, newId), BucketMap(rows, newId, L3));
  }

  /** A missing or unrecognised level counts as L1. */
  lemma LevelDefault(r: Row)
    ensures LevelOf(r) == L1 <==> ToLevel(r.level) != Some(L2) && ToLevel(r.level) != Some(L3)
  {
  }

  /** An L2 orphan issue is reported for `p` exactly when some L2 row names `p` as parent and no root is named `p`. */
  lemma OrphanL2Iff(rows: seq<Row>, newId: nat -> string, p: string)
    ensures OrphanL2(p) in TreeIssues(rows, newId) <==>
            (exists k :: 0 <= k < |rows| && LevelOf(rows[k]) == L2 && ParentKey(rows[k]) == p) &&
            p !in Names(Tree(rows, newId))
  {
    KeysMember(rows, L2, p);
    WithL2Keeps(Caps(rows, newId, L1), BucketMap(rows, newId, L2));
    WithL3Keeps(RootsL2(rows, newId), BucketMap(rows, newId, L3));
    var a := Orphans(Keys(rows, L2), Names(Caps(rows, newId, L1)), false);
    var c := Orphans(Keys(rows, L3), L2Names(RootsL2(rows, newId)), true);
    assert OrphanL2(p) !in c;
    assert OrphanL2(p) in a + c <==> OrphanL2(p) in a;
  }

  /** An L3 orphan issue is reported for `p` exactly when some L3 row names `p` as parent and no L2 in the tree is named `p`. */
  lemma OrphanL3Iff(rows: seq<Row>, newId: nat -> string, p: string)
    ensures var roots := Tree(rows, newId);
            OrphanL3(p) in TreeIssues(rows, newId) <==>
            (exists k :: 0 <= k < |rows| && LevelOf(rows[k]) == L3 && ParentKey(rows[k]) == p) &&
            forall i, j :: 0 <= i < |roots| && 0 <= j < |roots[i].children| ==> roots[i].children[j].name != p
  {
    KeysMember(rows, L3, p);
    var r2 := RootsL2(rows, newId);
    var roots := Tree(rows, newId);
    WithL3Keeps(r2, BucketMap(rows, newId, L3));
    L2NamesMember(r2, p);
    var a := Orphans(Keys(rows, L2), Names(Caps(rows, newId, L1)), false);
    var c := Orphans(Keys(rows, L3), L2Names(r2), true);
    assert OrphanL3(p) !in a;
    assert OrphanL3(p) in a + c <==> OrphanL3(p) in c;
    assert forall i, j :: 0 <= i < |roots| && 0 <= j < |roots[i].children| ==> roots[i].children[j].name == r2[i].children[j].name;
  }

  /** Every node of every bucket has level `lv` and no children. */
  ghost predicate BucketsAt(b: map<string, seq<Capability>>, lv: Level)
  {
    forall p, c :: p in b && c in b[p] ==> c.level == lv && c.children == []
  }

  lemma BucketMapAt(rows: seq<Row>, newId: nat -> string, lv: Level)
    ensures BucketsAt(BucketMap(rows, newId, lv), lv)
  {
    forall p | p in BucketMap(rows, newId, lv)
      ensures forall c :: c in BucketMap(rows, newId, lv)[p] ==> c.level == lv && c.children == []
    {
      BucketShape(rows, newId, lv, p);
    }
  }

  /** A node in the bucket of a root's name ends up among the children of the last root of that name. */
  lemma L2Into(l1s: seq<Capability>, b: map<string, seq<Capability>>, p: string, x: Capability)
    requires p in Names(l1s) && p in b && x in b[p]
    ensures var r := WithL2(l1s, b);
            exists i, j :: 0 <= i < |r| && 0 <= j < |r[i].children| &&
              r[i].name == p && r[i].children[j].name == x.name && r[i].children[j].level == x.level &&
              r[i].children[j].domain.Some?
  {
    var r := WithL2(l1s, b);
    var i := Sequencer.LastHeader(Names(l1s), p);
    LastHeaderFound(Names(l1s), p);
    assert r[i] == AttachedL2(l1s, b, b.Keys, i);
    var t :| 0 <= t < |b[p]| && b[p][t] == x;
    var j := |l1s[i].children| + t;
    assert r[i].children[j] == InheritL2(b[p], l1s[i].domain)[t];
  }

  /** An L2 row whose parent names a root is a child of that root, with a domain. */
  lemma L2Attached(rows: seq<Row>, newId: nat -> string, k: nat)
    requires k < |rows| && LevelOf(rows[k]) == L2 && ParentKey(rows[k]) in Names(Tree(rows, newId))
    ensures var roots := Tree(rows, newId);
            exists i, j :: 0 <= i < |roots| && 0 <= j < |roots[i].children| &&
              roots[i].name == ParentKey(rows[k]) && roots[i].children[j].name == rows[k].name &&
              roots[i].children[j].level == L2 && roots[i].children[j].domain.Some?
  {
    var p := ParentKey(rows[k]);
    var l1s := Caps(rows, newId, L1);
    var b := BucketMap(rows, newId, L2);
    var r2 := RootsL2(rows, newId);
    WithL2Keeps(l1s, b);
    WithL3Keeps(r2, BucketMap(rows, newId, L3));
    KeysMember(rows, L2, p);
    BucketHas(rows, newId, L2, p, k);
    L2Into(l1s, b, p, Made(rows[k], newId(k)));
    var i, j :| 0 <= i < |r2| && 0 <= j < |r2[i].children| &&
              r2[i].name == p && r2[i].children[j].name == rows[k].name && r2[i].children[j].level == L2 &&
              r2[i].children[j].domain.Some?;
    var roots := Tree(rows, newId);
    assert roots[i].name == p && roots[i].children[j].name == rows[k].name;
  }

  /** A node in the L3 bucket of a child's name ends up among the children of the last child of that name. */
  lemma L3Into(roots: seq<Capability>, b: map<string, seq<Capability>>, p: string, i: nat, j: nat, x: Capability)
    requires i < |roots| && j < |roots[i].children| && LastSlot(roots, p) == Some((i as int, j as int))
    requires p in b && x in b[p]
    ensures var c := WithL3(roots, b)[i].children[j];
            exists g :: 0 <= g < |c.children| && c.children[g].name == x.name && c.children[g].level == x.level
  {
    var c := roots[i].children[j];
    var w := WithL3(roots, b)[i].children[j];
    assert w == AttachedL3(roots, b, b.Keys, i, j);
    var t :| 0 <= t < |b[p]| && b[p][t] == x;
    assert w.children[|c.children| + t] == InheritL3(b[p], c.domain)[t];
  }

  /** An L3 row whose parent names an L2 of the tree is a grandchild under the last L2 of that name. */
  lemma L3Attached(rows: seq<Row>, newId: nat -> string, k: nat, i: nat, j: nat)
    requires k < |rows| && LevelOf(rows[k]) == L3
    requires i < |RootsL2(rows, newId)| && j < |RootsL2(rows, newId)[i].children|
    requires LastSlot(RootsL2(rows, newId), ParentKey(rows[k])) == Some((i as int, j as int))
    ensures var roots := Tree(rows, newId);
            i < |roots| && j < |roots[i].children| && roots[i].children[j].name == ParentKey(rows[k]) &&
            exists g :: 0 <= g < |roots[i].children[j].children| &&
              roots[i].children[j].children[g].name == rows[k].name &&
              roots[i].children[j].children[g].level == L3
  {
    var p := ParentKey(rows[k]);
    var r2 := RootsL2(rows, newId);
    var b := BucketMap(rows, newId, L3);
    WithL3Keeps(r2, b);
    KeysMember(rows, L3, p);
    BucketHas(rows, newId, L3, p, k);
    L3Into(r2, b, p, i, j, Made(rows[k], newId(k)));
  }

  /** The shape after the L2 loop: L1 roots with domains, their children L2 with domains and no children. */
  ghost predicate ShapeL2(roots: seq<Capability>)
  {
    forall i :: 0 <= i < |roots| ==>
      roots[i].level == L1 && roots[i].domain.Some? &&
      forall j :: 0 <= j < |roots[i].children| ==>
        roots[i].children[j].level == L2 && roots[i].children[j].domain.Some? && roots[i].children[j].children == []
  }

  /** The shape of the finished tree. */
  ghost predicate ShapeTree(roots: seq<Capability>)
  {
    forall i :: 0 <= i < |roots| ==>
      roots[i].level == L1 && roots[i].domain.Some? &&
      forall j :: 0 <= j < |roots[i].children| ==>
        var c := roots[i].children[j];
        c.level == L2 && c.domain.Some? &&
        forall g :: 0 <= g < |c.children| ==>
          c.children[g].level == L3 && c.children[g].domain.Some? && c.children[g].children == []
  }

  lemma ShapeAfterL2(l1s: seq<Capability>, b: map<string, seq<Capability>>)
    requires forall i :: 0 <= i < |l1s| ==> l1s[i].level == L1 && l1s[i].domain.Some? && l1s[i].children == []
    requires BucketsAt(b, L2)
    ensures ShapeL2(WithL2(l1s, b))
  {
    var r := WithL2(l1s, b);
    forall i, j | 0 <= i < |r| && 0 <= j < |r[i].children|
      ensures r[i].children[j].level == L2 && r[i].children[j].domain.Some? && r[i].children[j].children == []
    {
      var c := l1s[i];
      assert r[i] == AttachedL2(l1s, b, b.Keys, i);
      assert r[i].children[j] == InheritL2(b[c.name], c.domain)[j];
      assert b[c.name][j] in b[c.name];
    }
  }

  lemma ShapeAfterL3(roots: seq<Capability>, b: map<string, seq<Capability>>)
    requires ShapeL2(roots) && BucketsAt(b, L3)
    ensures ShapeTree(WithL3(roots, b))
  {
    var r := WithL3(roots, b);
    WithL3Keeps(roots, b);
    forall i, j, g | 0 <= i < |r| && 0 <= j < |r[i].children| && 0 <= g < |r[i].children[j].children|
      ensures r[i].children[j].children[g].level == L3 && r[i].children[j].children[g].domain.Some?
              && r[i].children[j].children[g].children == []
    {
      var c := roots[i].children[j];
      assert r[i].children[j] == AttachedL3(roots, b, b.Keys, i, j);
      assert r[i].children[j].children[g] == InheritL3(b[c.name], c.domain)[g];
      assert b[c.name][g] in b[c.name];
    }
  }

  /** Roots are L1, their children L2, their grandchildren L3 with no children; every node has a domain. */
  lemma TreeLevels(rows: seq<Row>, newId: nat -> string)
    ensures ShapeTree(Tree(rows, newId))
  {
    CapsShape(rows, newId, L1);
    BucketMapAt(rows, newId, L2);
    BucketMapAt(rows, newId, L3);
    ShapeAfterL2(Caps(rows, newId, L1), BucketMap(rows, newId, L2));
    ShapeAfterL3(RootsL2(rows, newId), BucketMap(rows, newId, L3));
  }
}
