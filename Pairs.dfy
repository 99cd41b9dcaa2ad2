/**
 * The results of a function over every ordered pair `i < j` of a sequence,
 * in the order of the nested loops `for i … for j = i + 1 …`, keeping only
 * the pairs for which it yields a value.
 */
module Pairs {
  import opened Common

  function OptList<U>(o: Option<U>): (r: seq<U>)
    ensures |r| <= 1
  {
    if o.Some? then [o.value] else []
  }

  /** The results for `(xs[i], xs[k])`, `i < k < j`. */
  function Row<T, U>(xs: seq<T>, f: (T, T) -> Option<U>, i: nat, j: nat): seq<U>
    requires i < |xs| && j <= |xs|
  {
    if j <= i + 1 then [] else Row(xs, f, i, j - 1) + OptList(f(xs[i], xs[j - 1]))
  }

  /** The results for every pair whose first index is below `i`. */
  function Upto<T, U>(xs: seq<T>, f: (T, T) -> Option<U>, i: nat): seq<U>
    requires i <= |xs|
  {
    if i == 0 then [] else Upto(xs, f, i - 1) + Row(xs, f, i - 1, |xs|)
  }

  function All<T, U>(xs: seq<T>, f: (T, T) -> Option<U>): seq<U>
  {
    Upto(xs, f, |xs|)
  }

  /** One more pair of row `i` taken (`j` advanced to `next`): the row so far grows by that pair's result. */
  lemma RowNext<T, U>(xs: seq<T>, f: (T, T) -> Option<U>, i: nat, j: nat, next: nat,
                      prior: seq<U>, sofar: seq<U>, grown: seq<U>)
    requires i < j < |xs| && next == j + 1
    requires sofar == prior + Row(xs, f, i, j)
    requires grown == sofar + OptList(f(xs[i], xs[j]))
    ensures grown == prior + Row(xs, f, i, next)
  {
    assert Row(xs, f, i, next) == Row(xs, f, i, j) + OptList(f(xs[i], xs[j]));
  }

  /** Row `i` finished (`j` reached `|xs|`): the rows so far grow by the whole of row `i`. */
  lemma UptoNext<T, U>(xs: seq<T>, f: (T, T) -> Option<U>, i: nat, j: nat, prior: seq<U>, grown: seq<U>)
    requires i < |xs| && j == |xs| && prior == Upto(xs, f, i)
    requires grown == prior + Row(xs, f, i, j)
    ensures grown == Upto(xs, f, i + 1)
  {
  }

  /** The pair `(xs[i], xs[j])`, `i < j`, yields `u`. */
  ghost predicate Yields<T, U>(xs: seq<T>, f: (T, T) -> Option<U>, i: int, j: int, u: U)
  {
    0 <= i < j < |xs| && f(xs[i], xs[j]) == Some(u)
  }

  lemma {:induction false} RowMembers<T, U>(xs: seq<T>, f: (T, T) -> Option<U>, i: nat, j: nat, u: U)
    requires i < |xs| && j <= |xs|
    ensures u in Row(xs, f, i, j) <==> exists k :: k < j && Yields(xs, f, i, k, u)
  {
    if j > i + 1 {
      RowMembers(xs, f, i, j - 1, u);
      var last := OptList(f(xs[i], xs[j - 1]));
      assert Row(xs, f, i, j) == Row(xs, f, i, j - 1) + last;
      if u in Row(xs, f, i, j) {
        if u in Row(xs, f, i, j - 1) {
          var k :| k < j - 1 && Yields(xs, f, i, k, u);
          assert k < j;
        } else {
          assert u in last;
          assert Yields(xs, f, i, j - 1, u);
        }
      }
      if exists k :: k < j && Yields(xs, f, i, k, u) {
        var k :| k < j && Yields(xs, f, i, k, u);
        if k < j - 1 {
          assert u in Row(xs, f, i, j - 1);
        } else {
          assert u in last;
        }
      }
    }
  }

  /** Some pair whose first index is `p` yields `u`. */
  ghost predicate RowYields<T, U>(xs: seq<T>, f: (T, T) -> Option<U>, p: int, u: U)
  {
    exists k :: Yields(xs, f, p, k, u)
  }

  lemma {:induction false} UptoMembers<T, U>(xs: seq<T>, f: (T, T) -> Option<U>, i: nat, u: U)
    requires i <= |xs|
    ensures u in Upto(xs, f, i) <==> exists p :: 0 <= p < i && RowYields(xs, f, p, u)
  {
    if i > 0 {
      UptoMembers(xs, f, i - 1, u);
      RowMembers(xs, f, i - 1, |xs|, u);
      var row := Row(xs, f, i - 1, |xs|);
      assert u in row <==> RowYields(xs, f, i - 1, u);
      assert Upto(xs, f, i) == Upto(xs, f, i - 1) + row;
      if u in row {
        assert 0 <= i - 1 < i && RowYields(xs, f, i - 1, u);
      }
      if exists p :: 0 <= p < i && RowYields(xs, f, p, u) {
        var p :| 0 <= p < i && RowYields(xs, f, p, u);
        if p < i - 1 {
          assert u in Upto(xs, f, i - 1);
        }
      }
    }
  }

  /** A result is listed exactly when some pair `i < j` yields it. */
  lemma AllMembers<T, U>(xs: seq<T>, f: (T, T) -> Option<U>, u: U)
    ensures u in All(xs, f) <==> exists i, j :: Yields(xs, f, i, j, u)
  {
    UptoMembers(xs, f, |xs|, u);
    if exists i, j :: Yields(xs, f, i, j, u) {
      var i, j :| Yields(xs, f, i, j, u);
      assert 0 <= i < |xs| && RowYields(xs, f, i, u);
    }
  }
}
