/**
 * Values shared by every module: optional values, results with an error
 * message, JavaScript numbers (which may be NaN or infinite) and parsed JSON.
 */
module Common {

  datatype Option<T> = None | Some(value: T)
  {
    function GetOr(default: T): T
    {
      if Some? then value else default
    }
  }

  datatype Result<T> = Success(value: T) | Failure(error: string)

  /** A string JavaScript reads as true: any but the empty one. */
  predicate Truthy(s: string) { s != "" }

  /** `s || undefined`: the falsy-to-undefined fallback of the JavaScript sources. */
  function Defined(s: string): (r: Option<string>)
    ensures r.Some? <==> Truthy(s)
    ensures r.Some? ==> r.value == s
  {
    if s == "" then None else Some(s)
  }

  /** A JavaScript/Python floating point number; finite values are exact reals here. */
  datatype Num = Finite(v: real) | NaN | PosInf | NegInf

  /** A parsed JSON document. Object members keep their textual order. */
  datatype Json =
    | JNull
    | JBool(b: bool)
    | JNum(n: real)
    | JStr(s: string)
    | JArr(items: seq<Json>)
    | JObj(members: seq<Member>)

  datatype Member = Member(key: string, value: Json)

  /** Member lookup; when a key is repeated the last one wins, as JSON.parse and json.loads do. */
  function Get(members: seq<Member>, key: string): (r: Option<Json>)
    ensures r.None? <==> forall i :: 0 <= i < |members| ==> members[i].key != key
    ensures r.Some? ==> exists i :: 0 <= i < |members| && members[i].key == key && members[i].value == r.value
                                     && forall k :: i < k < |members| ==> members[k].key != key
  {
    if |members| == 0 then None
    else if members[|members| - 1].key == key then Some(members[|members| - 1].value)
    else Get(members[..|members| - 1], key)
  }

  /** The value of field `key` of `j` when `j` is an object (`obj.key` in JavaScript). */
  function Field(j: Json, key: string): Option<Json>
  {
    if j.JObj? then Get(j.members, key) else None
  }

  /** JavaScript truthiness of a JSON value: null, false, 0 and "" are falsy; arrays and objects are truthy. */
  predicate JsTruthy(j: Json)
  {
    match j
    case JNull => false
    case JBool(b) => b
    case JNum(n) => n != 0.0
    case JStr(s) => s != ""
    case JArr(_) => true
    case JObj(_) => true
  }

  /** Python truthiness of a JSON value: unlike JavaScript, empty lists and dicts are falsy. */
  predicate PyTruthy(j: Json)
  {
    match j
    case JNull => false
    case JBool(b) => b
    case JNum(n) => n != 0.0
    case JStr(s) => s != ""
    case JArr(items) => items != []
    case JObj(ms) => ms != []
  }

  function Min(a: real, b: real): real { if a <= b then a else b }
  function Max(a: real, b: real): real { if a >= b then a else b }
  function MinInt(a: int, b: int): int { if a <= b then a else b }
  function MaxInt(a: int, b: int): int { if a >= b then a else b }

  /** JavaScript's `%`, which truncates toward zero (Dafny's `%` is Euclidean). */
  function JsRem(a: int, b: int): (r: int)
    requires b > 0
    ensures a >= 0 ==> 0 <= r < b
    ensures a < 0 ==> -b < r <= 0
  {
    if a >= 0 then a % b else -((-a) % b)
  }

  /** The values of a sequence with the duplicates after a first occurrence removed. */
  function Dedup<T(==,!new)>(s: seq<T>): (r: seq<T>)
    ensures forall x :: x in r <==> x in s
    ensures |r| <= |s|
  {
    if |s| == 0 then []
    else
      var rest := Dedup(s[..|s| - 1]);
      if s[|s| - 1] in rest then rest else rest + [s[|s| - 1]]
  }

  /** `Dedup` of a longer sequence: the new value is kept when it was not seen before. */
  lemma DedupSnoc<T(!new)>(s: seq<T>, x: T)
    ensures Dedup(s + [x]) == Dedup(s) + (if x in Dedup(s) then [] else [x])
  {
    assert (s + [x])[..|s|] == s;
  }

  /** `r` lists values of `s` in the order of their first occurrence in `s`. */
  ghost predicate FirstSeen<T>(s: seq<T>, r: seq<T>)
  {
    forall i, j, q :: 0 <= i < j < |r| && 0 <= q < |s| && s[q] == r[j] ==> exists p :: 0 <= p < q && s[p] == r[i]
  }

  /** `Dedup` keeps the first occurrences, in the order they occur (as iterating a JavaScript `Set` does). */
  lemma {:induction false} DedupFirstSeen<T(!new)>(s: seq<T>)
    ensures FirstSeen(s, Dedup(s))
  {
    if |s| > 0 {
      var init, x := s[..|s| - 1], s[|s| - 1];
      assert s == init + [x];
      var rest := Dedup(init);
      var r := Dedup(s);
      DedupFirstSeen(init);
      forall i, j, q | 0 <= i < j < |r| && 0 <= q < |s| && s[q] == r[j]
        ensures exists p :: 0 <= p < q && s[p] == r[i]
      {
        assert r[i] == rest[i] && rest[i] in init;
        var p' :| 0 <= p' < |init| && init[p'] == rest[i];
        if j < |rest| {
          if q == |init| {
            assert rest[j] in init;
            var q' :| 0 <= q' < |init| && init[q'] == rest[j];
            var p :| 0 <= p < q' && init[p] == rest[i];
            assert s[p] == r[i];
          } else {
            var p :| 0 <= p < q && init[p] == rest[i];
            assert s[p] == r[i];
          }
        } else {
          assert s[p'] == r[i];
        }
      }
    }
  }

  /** The values kept by `Dedup` are pairwise distinct. */
  lemma {:induction false} DedupDistinct<T(!new)>(s: seq<T>)
    ensures forall i, j :: 0 <= i < j < |Dedup(s)| ==> Dedup(s)[i] != Dedup(s)[j]
  {
    if |s| > 0 {
      DedupDistinct(s[..|s| - 1]);
    }
  }

  /** `Array.prototype.indexOf`: the first position of `x`, or -1. */
  function FirstIndex<T(==)>(s: seq<T>, x: T): (r: int)
    ensures -1 <= r < |s|
    ensures r >= 0 ==> s[r] == x && forall j :: 0 <= j < r ==> s[j] != x
    ensures r < 0 <==> x !in s
  {
    if |s| == 0 then -1
    else if s[0] == x then 0
    else
      var r := FirstIndex(s[1..], x);
      assert forall j :: 1 <= j < |s| ==> s[1..][j - 1] == s[j];
      if r < 0 then -1 else r + 1
  }

  /** Number of elements of `s` satisfying `p`. */
  function CountWhere<T>(s: seq<T>, p: T -> bool): (n: nat)
    ensures n <= |s|
  {
    if |s| == 0 then 0 else CountWhere(s[..|s| - 1], p) + (if p(s[|s| - 1]) then 1 else 0)
  }

  /** `r` can be obtained from `s` by deleting elements. */
  predicate IsSubsequence<T(==)>(r: seq<T>, s: seq<T>)
  {
    if |r| == 0 then true
    else if |s| == 0 then false
    else if r[|r| - 1] == s[|s| - 1] then IsSubsequence(r[..|r| - 1], s[..|s| - 1])
    else IsSubsequence(r, s[..|s| - 1])
  }

  /** The elements of `s` satisfying `p`, in order (`Array.prototype.filter`). */
  function Filter<T(!new)>(s: seq<T>, p: T -> bool): (r: seq<T>)
    ensures |r| == CountWhere(s, p)
    ensures forall x :: x in r <==> x in s && p(x)
    ensures IsSubsequence(r, s)
  {
    if |s| == 0 then []
    else
      var init := Filter(s[..|s| - 1], p);
      var x := s[|s| - 1];
      if p(x) then
        assert (init + [x])[..|init|] == init;
        init + [x]
      else
        assert |init| > 0 ==> init[|init| - 1] in init && init[|init| - 1] != x;
        init
  }

  /** Nothing is kept when no element satisfies the predicate. */
  lemma {:induction false} FilterNone<T(!new)>(s: seq<T>, p: T -> bool)
    requires forall x :: x in s ==> !p(x)
    ensures Filter(s, p) == []
  {
    if |s| > 0 {
      assert forall x :: x in s[..|s| - 1] ==> x in s;
      FilterNone(s[..|s| - 1], p);
    }
  }

  /** No value occurs twice. */
  predicate Distinct<T(==)>(s: seq<T>)
  {
    forall i, j :: 0 <= i < j < |s| ==> s[i] != s[j]
  }

  /** Filtering keeps values distinct. */
  lemma {:induction false} FilterDistinct<T(!new)>(s: seq<T>, p: T -> bool)
    requires Distinct(s)
    ensures Distinct(Filter(s, p))
  {
    if |s| > 0 {
      var init := s[..|s| - 1];
      var x := s[|s| - 1];
      assert Distinct(init);
      FilterDistinct(init, p);
      assert x !in init;
      var r := Filter(init, p);
      assert forall k :: 0 <= k < |r| ==> r[k] in init;
    }
  }

  lemma FilterAppend<T(!new)>(a: seq<T>, b: seq<T>, p: T -> bool)
    ensures Filter(a + b, p) == Filter(a, p) + Filter(b, p)
    decreases |b|
  {
    if |b| == 0 {
      assert a + b == a;
    } else {
      assert (a + b)[..|a + b| - 1] == a + b[..|b| - 1];
      FilterAppend(a, b[..|b| - 1], p);
    }
  }

  /** Every element the predicate accepts is kept. */
  lemma FilterKeeps<T(!new)>(s: seq<T>, p: T -> bool)
    ensures forall k :: 0 <= k < |s| && p(s[k]) ==> s[k] in Filter(s, p)
  {
    assert forall k :: 0 <= k < |s| ==> s[k] in s;
  }

  /** Filtering a list keeps or drops its first element, then filters the rest. */
  lemma FilterFront<T(!new)>(s: seq<T>, p: T -> bool)
    requires |s| > 0
    ensures Filter(s, p) == (if p(s[0]) then [s[0]] else []) + Filter(s[1..], p)
  {
    FilterAppend([s[0]], s[1..], p);
    assert [s[0]] + s[1..] == s;
    assert Filter([s[0]], p) == Filter([s[0]][..0], p) + (if p(s[0]) then [s[0]] else []);
    assert [s[0]][..0] == [];
  }

  /** All the values when every entry is present (a loop that stops at the first failure); None otherwise. */
  function Collect<T>(s: seq<Option<T>>): (r: Option<seq<T>>)
    ensures r.Some? <==> forall i :: 0 <= i < |s| ==> s[i].Some?
    ensures r.Some? ==> |r.value| == |s| && forall i :: 0 <= i < |s| ==> r.value[i] == s[i].value
  {
    if |s| == 0 then Some([])
    else
      var init := Collect(s[..|s| - 1]);
      if init.None? || s[|s| - 1].None? then None else Some(init.value + [s[|s| - 1].value])
  }

  /** The concatenation of all the pieces when every piece is present; None otherwise. */
  function Flatten<T>(s: seq<Option<seq<T>>>): (r: Option<seq<T>>)
    ensures r.Some? <==> forall i :: 0 <= i < |s| ==> s[i].Some?
  {
    if |s| == 0 then Some([])
    else
      var init := Flatten(s[..|s| - 1]);
      if init.None? || s[|s| - 1].None? then None else Some(init.value + s[|s| - 1].value)
  }

  /** One step of a loop that appends the pieces of `s` in order and stops at the first missing one. */
  lemma FlattenStep<T>(s: seq<Option<seq<T>>>, i: nat, next: nat, acc: seq<T>)
    requires i < |s| && next == i + 1 && Flatten(s[..i]) == Some(acc)
    ensures s[i].None? ==> Flatten(s).None?
    ensures s[i].Some? ==> Flatten(s[..next]) == Some(acc + s[i].value)
  {
    if s[i].Some? {
      var t := s[..next];
      assert t[..|t| - 1] == s[..i];
      assert t[|t| - 1] == s[i];
    }
  }

  /** One step of a loop that collects the values of `s` in order and stops at the first missing one. */
  lemma CollectStep<T>(s: seq<Option<T>>, i: nat, next: nat, acc: seq<T>)
    requires i < |s| && next == i + 1 && Collect(s[..i]) == Some(acc)
    ensures s[i].None? ==> Collect(s).None?
    ensures s[i].Some? ==> Collect(s[..next]) == Some(acc + [s[i].value])
  {
    if s[i].Some? {
      var t := s[..next];
      assert t[..|t| - 1] == s[..i];
      assert t[|t| - 1] == s[i];
    }
  }

  lemma {:induction false} MulMono(a: int, y: nat)
    requires a >= 1
    ensures a * y >= y
  {
    if a > 1 {
      MulMono(a - 1, y);
      assert a * y == (a - 1) * y + y;
    }
  }

  /** Euclidean division of `r * y + t` by `y` when `t` is a remainder. */
  lemma DivModUnique(r: int, y: nat, t: nat)
    requires 0 <= t < y
    ensures (r * y + t) % y == t
    ensures (r * y + t) / y == r
  {
    var x := r * y + t;
    var q := x / y;
    var m := x % y;
    assert x == q * y + m;
    assert (r - q) * y == r * y - q * y;
    if r > q {
      MulMono(r - q, y);
    } else if r < q {
      assert (q - r) * y == q * y - r * y;
      MulMono(q - r, y);
    }
  }

  /** One step of a loop that copies `s` element by element (`next` is the advanced index). */
  lemma PrefixStep<T>(s: seq<T>, k: nat, next: nat)
    requires k < |s| && next == k + 1
    ensures s[..next] == s[..k] + [s[k]]
  {
  }
}
