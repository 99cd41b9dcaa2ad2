/**
 * Grouping of keyed entries into a dictionary of lists, as a JavaScript
 * object or Python dict does: a key is appended to the key order when it is
 * first assigned, and every entry is appended to its key's list.
 */
module Grouping {
  import opened Common

  /** The keys of the entries, in order, with repeats. */
  function Keys<K, V>(es: seq<(K, V)>): (r: seq<K>)
    ensures |r| == |es|
    ensures forall k :: 0 <= k < |es| ==> r[k] == es[k].0
  {
    if |es| == 0 then [] else Keys(es[..|es| - 1]) + [es[|es| - 1].0]
  }

  /** The values filed under `key`, in order. */
  function Listed<K(==), V>(es: seq<(K, V)>, key: K): seq<V>
  {
    if |es| == 0 then []
    else Listed(es[..|es| - 1], key) + (if es[|es| - 1].0 == key then [es[|es| - 1].1] else [])
  }

  /** `m[key] = [...(m[key] ?? []), value]`. */
  function Add<K, V>(m: map<K, seq<V>>, key: K, value: V): map<K, seq<V>>
  {
    m[key := (if key in m then m[key] else []) + [value]]
  }

  /** The key order after assigning `key`. */
  function Note<K, V>(order: seq<K>, m: map<K, seq<V>>, key: K): seq<K>
  {
    if key in m then order else order + [key]
  }

  /** A dictionary of lists together with its key order, as a JavaScript object or a Python dict keeps it. */
  datatype Dict<K, V> = Dict(lists: map<K, seq<V>>, order: seq<K>)

  /** `d[key] = [...(d[key] ?? []), value]`: a new key joins the end of the order. */
  function Push<K, V>(d: Dict<K, V>, key: K, value: V): Dict<K, V>
  {
    Dict(Add(d.lists, key, value), Note(d.order, d.lists, key))
  }

  /** The dictionary built by filing the entries one by one. */
  function Group<K, V>(es: seq<(K, V)>): Dict<K, V>
  {
    if |es| == 0 then Dict(map[], []) else Push(Group(es[..|es| - 1]), es[|es| - 1].0, es[|es| - 1].1)
  }

  /** `m` and `order` are a dictionary and key order that file exactly the entries `es`. */
  ghost predicate Groups<K(!new), V>(m: map<K, seq<V>>, order: seq<K>, es: seq<(K, V)>)
  {
    && order == Dedup(Keys(es))
    && (forall key :: key in m <==> key in order)
    && (forall key :: key in m ==> m[key] == Listed(es, key))
  }

  lemma {:induction false} Unlisted<K, V>(es: seq<(K, V)>, key: K)
    requires key !in Keys(es)
    ensures Listed(es, key) == []
  {
    if |es| > 0 {
      assert Keys(es[..|es| - 1]) == Keys(es)[..|es| - 1];
      Unlisted(es[..|es| - 1], key);
    }
  }

  /** Filing one more entry keeps the dictionary in step with the entries. */
  lemma FileEntry<K(!new), V>(m: map<K, seq<V>>, order: seq<K>, es: seq<(K, V)>, e: (K, V))
    requires Groups(m, order, es)
    ensures Groups(Add(m, e.0, e.1), Note(order, m, e.0), es + [e])
  {
    var es' := es + [e];
    assert es'[..|es|] == es;
    var ks := Keys(es);
    assert Keys(es') == ks + [e.0];
    DedupSnoc(ks, e.0);
    assert Dedup(Keys(es')) == Dedup(ks) + (if e.0 in Dedup(ks) then [] else [e.0]);
    if e.0 !in m {
      Unlisted(es, e.0);
    }
    var m' := Add(m, e.0, e.1);
    forall key | key in m'
      ensures m'[key] == Listed(es', key)
    {
      assert Listed(es', key) == Listed(es, key) + (if e.0 == key then [e.1] else []);
    }
  }

  /** The dictionary built from the entries files each key's values in order, and its keys come in first-assignment order. */
  lemma {:induction false} GroupGroups<K(!new), V>(es: seq<(K, V)>)
    ensures Groups(Group(es).lists, Group(es).order, es)
  {
    if |es| > 0 {
      var init, e := es[..|es| - 1], es[|es| - 1];
      assert init + [e] == es;
      GroupGroups(init);
      var g := Group(init);
      FileEntry(g.lists, g.order, init, e);
      GroupStep(init, e);
    }
  }

  /** Looking up a key of the order gives its list. */
  lemma GroupAt<K(!new), V>(es: seq<(K, V)>, key: K)
    requires key in Group(es).order
    ensures key in Group(es).lists && Group(es).lists[key] == Listed(es, key)
  {
    GroupGroups(es);
  }

  /** The dictionary's key order is the order in which keys were first seen. */
  lemma GroupOrder<K(!new), V>(es: seq<(K, V)>)
    ensures Group(es).order == Dedup(Keys(es))
  {
    GroupGroups(es);
  }

  /** Filing one entry into the dictionary of `es` gives the dictionary of `es + [e]`. */
  lemma GroupStep<K, V>(es: seq<(K, V)>, e: (K, V))
    ensures Push(Group(es), e.0, e.1) == Group(es + [e])
  {
    assert (es + [e])[..|es|] == es;
  }

  /** A key that occurs among the entries has a non-empty list. */
  lemma {:induction false} ListedNonEmpty<K, V>(es: seq<(K, V)>, key: K)
    requires key in Keys(es)
    ensures |Listed(es, key)| >= 1
  {
    var init := es[..|es| - 1];
    assert Keys(init) == Keys(es)[..|es| - 1];
    if key in Keys(init) {
      ListedNonEmpty(init, key);
    }
  }

  /** Every entry's value is filed under its key. */
  lemma {:induction false} EntryListed<K, V>(es: seq<(K, V)>, k: nat)
    requires k < |es|
    ensures es[k].1 in Listed(es, es[k].0)
  {
    if k < |es| - 1 {
      EntryListed(es[..|es| - 1], k);
    }
  }

  /** The entries of a prefix are listed in the same order within the whole. */
  lemma {:induction false} ListedPrefix<K, V>(es: seq<(K, V)>, n: nat, key: K)
    requires n <= |es|
    ensures forall v :: v in Listed(es[..n], key) ==> v in Listed(es, key)
    decreases |es| - n
  {
    if n < |es| {
      ListedPrefix(es, n + 1, key);
      assert es[..n + 1][..n] == es[..n];
    } else {
      assert es[..n] == es;
    }
  }
}
