/**
 * The `defaultdict(list)` grouping loop the summary routes share:
 * `for x in s: groups[key(x)].append(x)`. The dict's keys come out in order
 * of first appearance, and each key's list holds the elements with that key
 * in their original order.
 */
module Grouping {
  import Seqs

  /** The dict's keys: each key once, in order of first appearance. */
  function Keys<T, K(==)>(s: seq<T>, key: T -> K): seq<K> {
    Seqs.Dedup(Seqs.Map(s, key))
  }

  function HasKey<T, K(==)>(key: T -> K, k: K): T -> bool {
    (x: T) => key(x) == k
  }

  /** The list stored under `k`: the elements with that key, in order. */
  function Group<T, K(==)>(s: seq<T>, key: T -> K, k: K): seq<T> {
    Seqs.Filter(s, HasKey(key, k))
  }

  /** What the loop has built once it has seen `s`. */
  ghost predicate Grouped<T, K>(s: seq<T>, key: T -> K, order: seq<K>, groups: map<K, seq<T>>) {
    && order == Keys(s, key)
    && (forall k | k in groups :: k in order)
    && (forall k | k in order :: k in groups)
    && (forall k | k in groups :: groups[k] == Group(s, key, k))
  }

  lemma KeysSnoc<T, K>(s: seq<T>, x: T, key: T -> K)
    ensures Keys(s + [x], key) == if key(x) in Keys(s, key) then Keys(s, key) else Keys(s, key) + [key(x)]
  {
    Seqs.MapSnoc(s, x, key);
    Seqs.DedupSnoc(Seqs.Map(s, key), key(x));
  }

  lemma GroupSnoc<T, K>(s: seq<T>, x: T, key: T -> K, k: K)
    ensures Group(s + [x], key, k) == Group(s, key, k) + (if key(x) == k then [x] else [])
  {
    Seqs.FilterSnoc(s, x, HasKey(key, k));
  }

  /** A key is listed exactly when some element has it. */
  lemma KeysMembers<T, K>(s: seq<T>, key: T -> K)
    ensures Seqs.Distinct(Keys(s, key))
    ensures forall k :: k in Keys(s, key) <==> exists i :: 0 <= i < |s| && key(s[i]) == k
  {
    forall k ensures k in Keys(s, key) <==> exists i :: 0 <= i < |s| && key(s[i]) == k {
      if k in Seqs.Map(s, key) {
        var i :| 0 <= i < |s| && Seqs.Map(s, key)[i] == k;
      }
      if exists i :: 0 <= i < |s| && key(s[i]) == k {
        var i :| 0 <= i < |s| && key(s[i]) == k;
        assert Seqs.Map(s, key)[i] == k;
      }
    }
  }

  /** A group holds exactly the elements with its key, and is empty only for an unlisted key. */
  lemma {:induction false} GroupMembers<T, K>(s: seq<T>, key: T -> K, k: K)
    ensures forall x :: x in Group(s, key, k) <==> x in s && key(x) == k
    ensures Group(s, key, k) == [] <==> k !in Keys(s, key)
  {
    assert forall x :: HasKey(key, k)(x) == (key(x) == k);
    if s != [] {
      var pre, x := s[..|s| - 1], s[|s| - 1];
      assert s == pre + [x];
      GroupMembers(pre, key, k);
      GroupSnoc(pre, x, key, k);
      KeysSnoc(pre, x, key);
    }
  }

  /** Every listed key has a nonempty group. */
  lemma KeysGrouped<T, K>(s: seq<T>, key: T -> K)
    ensures forall k | k in Keys(s, key) :: Group(s, key, k) != []
  {
    forall k | k in Keys(s, key) ensures Group(s, key, k) != [] {
      GroupMembers(s, key, k);
    }
  }

  /** One pass of the loop body: create the list on first sight of the key, then append. */
  lemma GroupStep<T, K>(s: seq<T>, key: T -> K, order: seq<K>, groups: map<K, seq<T>>, x: T)
    requires Grouped(s, key, order, groups)
    ensures var k := key(x);
      var order' := if k in groups then order else order + [k];
      var groups' := groups[k := (if k in groups then groups[k] else []) + [x]];
      Grouped(s + [x], key, order', groups')
  {
    var k := key(x);
    KeysSnoc(s, x, key);
    GroupMembers(s, key, k);
    var groups' := groups[k := (if k in groups then groups[k] else []) + [x]];
    forall k' | k' in groups' ensures groups'[k'] == Group(s + [x], key, k') {
      GroupSnoc(s, x, key, k');
    }
  }

  /** The grouping loop itself. */
  method GroupBy<T, K(==)>(s: seq<T>, key: T -> K) returns (order: seq<K>, groups: map<K, seq<T>>)
    ensures Grouped(s, key, order, groups)
  {
    order := [];
    groups := map[];
    for i := 0 to |s|
      invariant Grouped(s[..i], key, order, groups)
    {
      Seqs.TakeSnoc(s, i);
      var x := s[i];
      var k := key(x);
      GroupStep(s[..i], key, order, groups, x);
      var members := if k in groups then groups[k] else [];
      if k !in groups {
        order := order + [k];
      }
      groups := groups[k := members + [x]];
    }
    assert s[..|s|] == s;
  }
}
