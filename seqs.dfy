/**
 * Sequence vocabulary shared by the aggregations: first-appearance key
 * order (the key order of a Python dict filled in a loop) and Python's
 * stable `list.sort`, which keeps equal elements in their input order
 * even with `reverse=True`.
 */
module Seqs {
  import opened Wrappers

  ghost predicate Total<T(!new)>(le: (T, T) -> bool) {
    forall x, y :: le(x, y) || le(y, x)
  }

  ghost predicate Transitive<T(!new)>(le: (T, T) -> bool) {
    forall x, y, z :: le(x, y) && le(y, z) ==> le(x, z)
  }

  /** `le` relates every pair and is transitive: what a sort key gives. */
  ghost predicate TotalPreorder<T(!new)>(le: (T, T) -> bool) {
    Total(le) && Transitive(le)
  }

  predicate SortedBy<T>(s: seq<T>, le: (T, T) -> bool) {
    forall i, j :: 0 <= i < j < |s| ==> le(s[i], s[j])
  }

  predicate Distinct<T(==)>(s: seq<T>) {
    forall i, j :: 0 <= i < j < |s| ==> s[i] != s[j]
  }

  /** The elements of `s` in the order they first appear, each once. */
  function Dedup<T(==)>(s: seq<T>): (r: seq<T>)
    ensures Distinct(r)
    ensures forall x | x in r :: x in s
    ensures forall x | x in s :: x in r
  {
    if s == [] then []
    else
      var d := Dedup(s[..|s| - 1]);
      assert forall x | x in s :: x in s[..|s| - 1] || x == s[|s| - 1];
      if s[|s| - 1] in d then d else d + [s[|s| - 1]]
  }

  lemma TakeSnoc<T>(s: seq<T>, i: int)
    requires 0 <= i < |s|
    ensures s[..i + 1] == s[..i] + [s[i]]
  {
  }

  lemma DedupSnoc<T>(s: seq<T>, x: T)
    ensures Dedup(s + [x]) == if x in Dedup(s) then Dedup(s) else Dedup(s) + [x]
  {
    assert (s + [x])[..|s|] == s;
  }

  /** `[f(x) for x in s]`. */
  function Map<A, B>(s: seq<A>, f: A -> B): (r: seq<B>)
    ensures |r| == |s|
    ensures forall i :: 0 <= i < |s| ==> r[i] == f(s[i])
  {
    if s == [] then [] else [f(s[0])] + Map(s[1..], f)
  }

  /** `x` placed before the first element it does not follow: one step of a stable sort. */
  function InsertBy<T>(x: T, s: seq<T>, le: (T, T) -> bool): (r: seq<T>)
    ensures |r| == |s| + 1
  {
    if s == [] then [x]
    else if le(x, s[0]) then [x] + s
    else
      assert s == [s[0]] + s[1..];
      [s[0]] + InsertBy(x, s[1..], le)
  }

  /** Python's `sorted(s, key=...)`: a stable sort by the preorder `le`. */
  function SortBy<T>(s: seq<T>, le: (T, T) -> bool): (r: seq<T>)
    ensures |r| == |s|
  {
    if s == [] then []
    else
      assert s == [s[0]] + s[1..];
      InsertBy(s[0], SortBy(s[1..], le), le)
  }

  lemma {:induction false} InsertByPerm<T>(x: T, s: seq<T>, le: (T, T) -> bool)
    ensures multiset(InsertBy(x, s, le)) == multiset(s) + multiset{x}
  {
    if s != [] && !le(x, s[0]) {
      assert s == [s[0]] + s[1..];
      InsertByPerm(x, s[1..], le);
    }
  }

  /** Sorting permutes: the result holds the same elements, as often. */
  lemma {:induction false} SortByPerm<T>(s: seq<T>, le: (T, T) -> bool)
    ensures multiset(SortBy(s, le)) == multiset(s)
  {
    if s != [] {
      assert s == [s[0]] + s[1..];
      SortByPerm(s[1..], le);
      InsertByPerm(s[0], SortBy(s[1..], le), le);
    }
  }

  /** A sorted element is an input element, and the other way round. */
  lemma SortByMembers<T>(s: seq<T>, le: (T, T) -> bool)
    ensures forall x :: x in SortBy(s, le) <==> x in s
  {
    SortByPerm(s, le);
    forall x ensures x in SortBy(s, le) <==> x in s {
      assert x in SortBy(s, le) <==> x in multiset(SortBy(s, le));
      assert x in s <==> x in multiset(s);
    }
  }

  /** `[y]` when `le` ranks `y` equal to `e`, else nothing. */
  function Peer<T>(y: T, e: T, le: (T, T) -> bool): seq<T> {
    if le(y, e) && le(e, y) then [y] else []
  }

  /** The elements of `s` that `le` ranks equal to `e`, in their order in `s`. */
  function Peers<T>(s: seq<T>, e: T, le: (T, T) -> bool): seq<T> {
    if s == [] then [] else Peer(s[0], e, le) + Peers(s[1..], e, le)
  }

  /** A lower bound of `x` and of every element of `s` bounds every element of `InsertBy(x, s)`. */
  lemma {:induction false} InsertByBound<T>(a: T, x: T, s: seq<T>, le: (T, T) -> bool)
    requires le(a, x) && forall j :: 0 <= j < |s| ==> le(a, s[j])
    ensures forall j :: 0 <= j < |InsertBy(x, s, le)| ==> le(a, InsertBy(x, s, le)[j])
  {
    if s != [] && !le(x, s[0]) {
      var t := InsertBy(x, s[1..], le);
      assert forall j :: 0 <= j < |s[1..]| ==> le(a, s[1..][j]) by {
        forall j | 0 <= j < |s[1..]| ensures le(a, s[1..][j]) {
          assert s[1..][j] == s[j + 1];
        }
      }
      InsertByBound(a, x, s[1..], le);
      var r := [s[0]] + t;
      forall j | 0 <= j < |r| ensures le(a, r[j]) {
        if j > 0 {
          assert r[j] == t[j - 1];
        }
      }
    }
  }

  lemma {:induction false} InsertBySorted<T(!new)>(x: T, s: seq<T>, le: (T, T) -> bool)
    requires TotalPreorder(le) && SortedBy(s, le)
    ensures SortedBy(InsertBy(x, s, le), le)
  {
    if s == [] {
    } else if le(x, s[0]) {
      var r := [x] + s;
      forall i, j | 0 <= i < j < |r| ensures le(r[i], r[j]) {
        if i == 0 {
          assert r[j] == s[j - 1];
          if j > 1 {
            assert le(s[0], s[j - 1]);
          }
        } else {
          assert r[i] == s[i - 1] && r[j] == s[j - 1];
        }
      }
    } else {
      var rest := s[1..];
      var t := InsertBy(x, rest, le);
      assert SortedBy(rest, le) by {
        forall i, j | 0 <= i < j < |rest| ensures le(rest[i], rest[j]) {
          assert rest[i] == s[i + 1] && rest[j] == s[j + 1];
        }
      }
      InsertBySorted(x, rest, le);
      assert le(s[0], x);
      assert forall j :: 0 <= j < |rest| ==> le(s[0], rest[j]) by {
        forall j | 0 <= j < |rest| ensures le(s[0], rest[j]) {
          assert rest[j] == s[j + 1];
        }
      }
      InsertByBound(s[0], x, rest, le);
      var r := [s[0]] + t;
      assert InsertBy(x, s, le) == r;
      forall i, j | 0 <= i < j < |r| ensures le(r[i], r[j]) {
        if i == 0 {
          assert r[j] == t[j - 1];
        } else {
          assert r[i] == t[i - 1] && r[j] == t[j - 1];
        }
      }
    }
  }

  /** The result of SortBy is ordered by `le`. */
  lemma {:induction false} SortBySorted<T(!new)>(s: seq<T>, le: (T, T) -> bool)
    requires TotalPreorder(le)
    ensures SortedBy(SortBy(s, le), le)
  {
    if s != [] {
      SortBySorted(s[1..], le);
      InsertBySorted(s[0], SortBy(s[1..], le), le);
    }
  }

  lemma {:induction false} InsertByPeers<T(!new)>(x: T, s: seq<T>, e: T, le: (T, T) -> bool)
    requires Transitive(le)
    ensures Peers(InsertBy(x, s, le), e, le) == Peers([x] + s, e, le)
  {
    if s != [] && !le(x, s[0]) {
      InsertByPeers(x, s[1..], e, le);
      PeerExclusive(x, s[0], e, le);
      InsertByPeersStep(x, s, e, le);
    }
  }

  lemma InsertByPeersStep<T>(x: T, s: seq<T>, e: T, le: (T, T) -> bool)
    requires s != [] && !le(x, s[0])
    requires Peers(InsertBy(x, s[1..], le), e, le) == Peers([x] + s[1..], e, le)
    requires Peer(x, e, le) == [] || Peer(s[0], e, le) == []
    ensures Peers(InsertBy(x, s, le), e, le) == Peers([x] + s, e, le)
  {
    var t := InsertBy(x, s[1..], le);
    PeersCons(s[0], t, e, le);
    PeersCons(x, s[1..], e, le);
    PeersCons(x, s, e, le);
    PeersCons(s[0], s[1..], e, le);
    assert [s[0]] + s[1..] == s;
    SwapEmpty(Peer(s[0], e, le), Peer(x, e, le), Peers(s[1..], e, le));
  }

  lemma PeersCons<T>(y: T, s: seq<T>, e: T, le: (T, T) -> bool)
    ensures Peers([y] + s, e, le) == Peer(y, e, le) + Peers(s, e, le)
  {
    assert ([y] + s)[1..] == s;
  }

  lemma SwapEmpty<T>(a: seq<T>, b: seq<T>, c: seq<T>)
    requires a == [] || b == []
    ensures a + (b + c) == b + (a + c)
  {
    if a == [] {
      assert a + (b + c) == b + c;
      assert a + c == c;
    } else {
      assert b + c == c;
      assert b + (a + c) == a + c;
    }
  }

  /** Two elements that `le` does not rank equal are never both peers of `e`. */
  lemma PeerExclusive<T(!new)>(x: T, y: T, e: T, le: (T, T) -> bool)
    requires Transitive(le) && !le(x, y)
    ensures Peer(x, e, le) == [] || Peer(y, e, le) == []
  {
    if le(x, e) {
      assert !le(e, y);
    }
  }

  /**
   * Stability: for every class of elements that `le` ranks equal, the
   * sorted sequence lists them in their input order.
   */
  lemma {:induction false} SortByStable<T(!new)>(s: seq<T>, e: T, le: (T, T) -> bool)
    requires Transitive(le)
    ensures Peers(SortBy(s, le), e, le) == Peers(s, e, le)
  {
    if s != [] {
      SortByStable(s[1..], e, le);
      InsertByPeers(s[0], SortBy(s[1..], le), e, le);
      assert ([s[0]] + SortBy(s[1..], le))[1..] == SortBy(s[1..], le);
      assert s == [s[0]] + s[1..];
    }
  }

  /** `[f(x) for x in s]` where any `f(x)` may raise: None (the exception) as soon as one does. */
  function AllOrNone<A, B>(s: seq<A>, f: A -> Option<B>): Option<seq<B>> {
    if s == [] then Some([])
    else
      match (AllOrNone(s[..|s| - 1], f), f(s[|s| - 1]))
      case (Some(bs), Some(b)) => Some(bs + [b])
      case _ => None
  }

  /** The list is built exactly when every element succeeds, and then holds each result in order. */
  lemma {:induction false} AllOrNoneSpec<A, B>(s: seq<A>, f: A -> Option<B>)
    ensures AllOrNone(s, f).Some? <==> forall i :: 0 <= i < |s| ==> f(s[i]).Some?
    ensures AllOrNone(s, f).Some? ==>
      var bs := AllOrNone(s, f).value;
      |bs| == |s| && forall i :: 0 <= i < |s| ==> Some(bs[i]) == f(s[i])
  {
    if s != [] {
      var pre := s[..|s| - 1];
      AllOrNoneSpec(pre, f);
      assert forall i :: 0 <= i < |pre| ==> pre[i] == s[i];
    }
  }

  /** A failure anywhere in a prefix fails the whole sequence, whatever follows it. */
  lemma {:induction false} AllOrNonePrefix<A, B>(s: seq<A>, n: int, f: A -> Option<B>)
    requires 0 <= n <= |s| && AllOrNone(s[..n], f).None?
    ensures AllOrNone(s, f).None?
    decreases |s| - n
  {
    if n < |s| {
      assert s[..n + 1][..n] == s[..n];
      AllOrNonePrefix(s, n + 1, f);
    } else {
      assert s[..n] == s;
    }
  }

  /** `[x for x in s if p(x)]`. */
  function Filter<T>(s: seq<T>, p: T -> bool): (r: seq<T>)
    ensures |r| <= |s|
    ensures forall x | x in r :: x in s && p(x)
    ensures forall x | x in s && p(x) :: x in r
  {
    if s == [] then []
    else
      assert forall x | x in s :: x in s[..|s| - 1] || x == s[|s| - 1];
      Filter(s[..|s| - 1], p) + (if p(s[|s| - 1]) then [s[|s| - 1]] else [])
  }

  /** Filtering keeps elements distinct. */
  lemma {:induction false} FilterDistinct<T>(s: seq<T>, p: T -> bool)
    requires Distinct(s)
    ensures Distinct(Filter(s, p))
  {
    if s != [] {
      var pre, x := s[..|s| - 1], s[|s| - 1];
      assert Distinct(pre);
      FilterDistinct(pre, p);
      if p(x) {
        var f := Filter(pre, p);
        assert x !in pre;
        assert x !in f;
        var r := f + [x];
        forall i, j | 0 <= i < j < |r| ensures r[i] != r[j] {
          if j == |f| {
            assert r[i] in f;
          }
        }
      }
    }
  }

  /** Filtering a sorted sequence leaves it sorted. */
  lemma {:induction false} FilterSorted<T>(s: seq<T>, p: T -> bool, le: (T, T) -> bool)
    requires SortedBy(s, le)
    ensures SortedBy(Filter(s, p), le)
  {
    if s != [] {
      var pre, x := s[..|s| - 1], s[|s| - 1];
      assert SortedBy(pre, le);
      FilterSorted(pre, p, le);
      var f := Filter(pre, p);
      if p(x) {
        var r := f + [x];
        forall i, j | 0 <= i < j < |r| ensures le(r[i], r[j]) {
          if j == |f| {
            assert r[i] in pre;
            var k :| 0 <= k < |pre| && pre[k] == r[i];
            assert s[k] == pre[k];
          }
        }
      }
    }
  }

  lemma FilterSnoc<T>(s: seq<T>, x: T, p: T -> bool)
    ensures Filter(s + [x], p) == Filter(s, p) + (if p(x) then [x] else [])
  {
    assert (s + [x])[..|s|] == s;
  }

  /** Filtering keeps each wanted element as often as it occurs, and drops the rest. */
  lemma {:induction false} FilterCount<T>(s: seq<T>, p: T -> bool, x: T)
    ensures multiset(Filter(s, p))[x] == if p(x) then multiset(s)[x] else 0
  {
    if s != [] {
      var pre := s[..|s| - 1];
      assert s == pre + [s[|s| - 1]];
      FilterCount(pre, p, x);
      FilterSnoc(pre, s[|s| - 1], p);
    }
  }

  /** Filtering two permutations of each other gives permutations of each other. */
  lemma FilterPerm<T>(a: seq<T>, b: seq<T>, p: T -> bool)
    requires multiset(a) == multiset(b)
    ensures multiset(Filter(a, p)) == multiset(Filter(b, p))
  {
    var fa, fb := multiset(Filter(a, p)), multiset(Filter(b, p));
    forall x ensures fa[x] == fb[x] {
      FilterCount(a, p, x);
      FilterCount(b, p, x);
    }
    MultisetExt(fa, fb);
  }

  lemma MultisetExt<T>(m: multiset<T>, n: multiset<T>)
    requires forall x :: m[x] == n[x]
    ensures m == n
  {
  }

  lemma MapSnoc<A, B>(s: seq<A>, x: A, f: A -> B)
    ensures Map(s + [x], f) == Map(s, f) + [f(x)]
  {
    var l, r := Map(s + [x], f), Map(s, f) + [f(x)];
    assert |l| == |r|;
    forall i | 0 <= i < |l| ensures l[i] == r[i] {
      if i < |s| {
        assert (s + [x])[i] == s[i];
      }
    }
  }

  lemma MapCons<A, B>(x: A, s: seq<A>, f: A -> B)
    ensures Map([x] + s, f) == [f(x)] + Map(s, f)
  {
    assert ([x] + s)[1..] == s;
  }

  lemma DistinctCons<T>(a: T, t: seq<T>)
    ensures Distinct([a] + t) <==> a !in t && Distinct(t)
  {
    var s := [a] + t;
    if a !in t && Distinct(t) {
      forall i, j | 0 <= i < j < |s| ensures s[i] != s[j] {
        assert s[j] == t[j - 1];
        if i > 0 {
          assert s[i] == t[i - 1];
        }
      }
    }
    if Distinct(s) {
      forall j | 0 <= j < |t| ensures t[j] != a {
        assert s[0] == a && s[j + 1] == t[j];
      }
      forall i, j | 0 <= i < j < |t| ensures t[i] != t[j] {
        assert t[i] == s[i + 1] && t[j] == s[j + 1];
      }
    }
  }

  /** Distinct elements are those that occur at most once. */
  lemma {:induction false} DistinctCounts<T>(s: seq<T>)
    ensures Distinct(s) <==> forall x :: multiset(s)[x] <= 1
  {
    if s != [] {
      var t := s[1..];
      assert s == [s[0]] + t;
      DistinctCounts(t);
      DistinctCons(s[0], t);
      if forall x :: multiset(s)[x] <= 1 {
        assert multiset(s)[s[0]] == multiset(t)[s[0]] + 1;
        forall x ensures multiset(t)[x] <= 1 {
          assert multiset(s)[x] >= multiset(t)[x];
        }
      }
    }
  }

  lemma DistinctPerm<T>(a: seq<T>, b: seq<T>)
    requires multiset(a) == multiset(b) && Distinct(a)
    ensures Distinct(b)
  {
    DistinctCounts(a);
    DistinctCounts(b);
  }

  lemma {:induction false} InsertByMap<T, K>(x: T, s: seq<T>, le: (T, T) -> bool, f: T -> K)
    ensures multiset(Map(InsertBy(x, s, le), f)) == multiset(Map(s, f)) + multiset{f(x)}
  {
    if s == [] {
      MapCons(x, [], f);
    } else if le(x, s[0]) {
      MapCons(x, s, f);
    } else {
      assert s == [s[0]] + s[1..];
      MapCons(s[0], s[1..], f);
      InsertByMap(x, s[1..], le, f);
      MapCons(s[0], InsertBy(x, s[1..], le), f);
    }
  }

  /** Sorting permutes the keys `f` of the elements along with the elements. */
  lemma {:induction false} SortByMap<T, K>(s: seq<T>, le: (T, T) -> bool, f: T -> K)
    ensures multiset(Map(SortBy(s, le), f)) == multiset(Map(s, f))
  {
    if s != [] {
      assert s == [s[0]] + s[1..];
      MapCons(s[0], s[1..], f);
      SortByMap(s[1..], le, f);
      InsertByMap(s[0], SortBy(s[1..], le), le, f);
    }
  }

  /**
   * Sorting keeps the keys `f` of the elements: distinct keys stay distinct
   * and no key is gained or lost.
   */
  lemma SortByKeys<T, K>(s: seq<T>, le: (T, T) -> bool, f: T -> K)
    requires Distinct(Map(s, f))
    ensures Distinct(Map(SortBy(s, le), f))
    ensures forall k :: k in Map(SortBy(s, le), f) <==> k in Map(s, f)
  {
    SortByMap(s, le, f);
    DistinctPerm(Map(s, f), Map(SortBy(s, le), f));
    forall k ensures k in Map(SortBy(s, le), f) <==> k in Map(s, f) {
      assert k in Map(s, f) <==> k in multiset(Map(s, f));
      assert k in Map(SortBy(s, le), f) <==> k in multiset(Map(SortBy(s, le), f));
    }
  }

  function Id<T>(x: T): T { x }

  lemma MapId<T>(s: seq<T>)
    ensures Map(s, Id) == s
  {
  }

  /** Python's `sorted(set(s))`: the distinct elements of `s`, in order. */
  lemma SortedSet<T(!new)>(s: seq<T>, le: (T, T) -> bool)
    requires TotalPreorder(le)
    ensures SortedBy(SortBy(Dedup(s), le), le)
    ensures Distinct(SortBy(Dedup(s), le))
    ensures forall x :: x in SortBy(Dedup(s), le) <==> x in s
  {
    SortBySorted(Dedup(s), le);
    MapId(Dedup(s));
    SortByKeys(Dedup(s), le, Id);
    MapId(SortBy(Dedup(s), le));
  }

  /**
   * The head of a sorted sequence is the first minimal element of the input:
   * it precedes every element, and every element before it in the input is
   * strictly greater.
   */
  lemma {:induction false} SortByHead<T(!new)>(s: seq<T>, le: (T, T) -> bool) returns (k: nat)
    requires TotalPreorder(le) && s != []
    ensures k < |s| && SortBy(s, le)[0] == s[k]
    ensures forall j :: 0 <= j < |s| ==> le(s[k], s[j])
    ensures forall j :: 0 <= j < k ==> !le(s[j], s[k])
  {
    assert le(s[0], s[0]);
    var rest := s[1..];
    if rest == [] {
      k := 0;
    } else {
      var k' := SortByHead(rest, le);
      assert le(s[0], rest[k']) || le(rest[k'], s[0]);
      if le(s[0], rest[k']) {
        BoundAll(s[0], rest[k'], rest, le);
      }
      k := SortByHeadStep(s, le, k');
    }
  }

  lemma BoundAll<T(!new)>(a: T, m: T, s: seq<T>, le: (T, T) -> bool)
    requires Transitive(le) && le(a, m) && forall j :: 0 <= j < |s| ==> le(m, s[j])
    ensures forall j :: 0 <= j < |s| ==> le(a, s[j])
  {
  }

  lemma SortByHeadStep<T>(s: seq<T>, le: (T, T) -> bool, k': nat) returns (k: nat)
    requires |s| > 1 && k' < |s| - 1 && SortBy(s[1..], le)[0] == s[1..][k']
    requires forall j :: 0 <= j < |s| - 1 ==> le(s[1..][k'], s[1..][j])
    requires forall j :: 0 <= j < k' ==> !le(s[1..][j], s[1..][k'])
    requires le(s[0], s[0]) && (le(s[0], s[1..][k']) || le(s[1..][k'], s[0]))
    requires le(s[0], s[1..][k']) ==> forall j :: 0 <= j < |s| - 1 ==> le(s[0], s[1..][j])
    ensures k < |s| && SortBy(s, le)[0] == s[k]
    ensures forall j :: 0 <= j < |s| ==> le(s[k], s[j])
    ensures forall j :: 0 <= j < k ==> !le(s[j], s[k])
  {
    var rest := s[1..];
    var m := rest[k'];
    var t := SortBy(rest, le);
    assert SortBy(s, le) == InsertBy(s[0], t, le);
    if le(s[0], m) {
      k := 0;
      forall j | 1 <= j < |s| ensures le(s[0], s[j]) {
        assert s[j] == rest[j - 1];
      }
    } else {
      k := k' + 1;
      assert s[k] == m;
      forall j | 1 <= j < |s| ensures le(m, s[j]) {
        assert s[j] == rest[j - 1];
      }
      forall j | 1 <= j < k ensures !le(s[j], m) {
        assert s[j] == rest[j - 1];
      }
    }
  }
}
