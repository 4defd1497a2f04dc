/** Ranking the keys of a count map, and its top `k`. */
module Rankings {
  import opened Basics
  import opened Sorting

  type Order<!K> = (K, K) -> bool

  datatype Ranked<K> = Ranked(key: K, count: nat)

  /** Largest counts first; ties by key. */
  function ByCount<K(==)>(le: Order<K>): (Ranked<K>, Ranked<K>) -> bool {
    (a: Ranked<K>, b: Ranked<K>) => a.count > b.count || (a.count == b.count && le(a.key, b.key))
  }

  lemma {:induction false} ByCountIsTotal<K(!new)>(le: Order<K>)
    requires TotalOrder(le)
    ensures TotalOrder(ByCount(le))
  {
    forall a: Ranked<K>, b: Ranked<K>
      ensures ByCount(le)(a, b) || ByCount(le)(b, a)
      ensures ByCount(le)(a, b) && ByCount(le)(b, a) ==> a == b
    {
      assert le(a.key, b.key) || le(b.key, a.key);
      assert le(a.key, b.key) && le(b.key, a.key) ==> a.key == b.key;
    }
    forall a: Ranked<K>, b: Ranked<K>, c: Ranked<K> | ByCount(le)(a, b) && ByCount(le)(b, c)
      ensures ByCount(le)(a, c)
    {
      assert le(a.key, b.key) && le(b.key, c.key) ==> le(a.key, c.key);
    }
  }

  /** Every key of the counts once, with its count. */
  ghost predicate Lists<K>(entries: seq<Ranked<K>>, counts: map<K, nat>) {
    && (forall i :: 0 <= i < |entries| ==> entries[i].key in counts && counts[entries[i].key] == entries[i].count)
    && (forall k :: k in counts ==> Ranked(k, counts[k]) in entries)
    && DistinctRanked(entries)
  }

  ghost predicate DistinctRanked<K>(entries: seq<Ranked<K>>) {
    forall i, j :: 0 <= i < j < |entries| ==> entries[i].key != entries[j].key
  }

  ghost predicate IsRanking<K(!new)>(ranking: seq<Ranked<K>>, counts: map<K, nat>, le: Order<K>) {
    Lists(ranking, counts) && Sorted(ranking, ByCount(le))
  }

  function Take<T>(s: seq<T>, k: nat): seq<T> {
    if |s| <= k then s else s[..k]
  }

  /** `top` is the front of the ranking of all counts. */
  ghost predicate IsTop<K(!new)>(top: seq<Ranked<K>>, counts: map<K, nat>, k: nat, le: Order<K>) {
    exists ranking: seq<Ranked<K>> :: IsRanking(ranking, counts, le) && top == Take(ranking, k)
  }

  /** The entries of a count map, in whatever order it iterates. */
  method Collect<K(==)>(counts: map<K, nat>) returns (entries: seq<Ranked<K>>)
    ensures Lists(entries, counts)
  {
    entries := [];
    var rest := counts.Keys;
    while rest != {}
      invariant rest <= counts.Keys
      invariant forall i :: 0 <= i < |entries| ==>
        entries[i].key in counts && entries[i].key !in rest && counts[entries[i].key] == entries[i].count
      invariant forall k :: k in counts && k !in rest ==> Ranked(k, counts[k]) in entries
      invariant DistinctRanked(entries)
      decreases |rest|
    {
      var k :| k in rest;
      rest := rest - {k};
      entries := entries + [Ranked(k, counts[k])];
    }
  }

  lemma {:induction false} PermutedLists<K>(a: seq<Ranked<K>>, b: seq<Ranked<K>>, counts: map<K, nat>)
    requires Lists(a, counts) && multiset(a) == multiset(b)
    ensures Lists(b, counts)
  {
    forall i | 0 <= i < |b|
      ensures b[i] in a
    {
      assert b[i] in multiset(a);
    }
    forall e | e in a
      ensures e in b
    {
      assert e in multiset(b);
    }
    forall i, j | 0 <= i < j < |b|
      ensures b[i].key != b[j].key
    {
      if b[i].key == b[j].key {
        SameEntry(a, b[i], b[j], counts);
        Twice(b, i, j);
        Once(a, b[i]);
      }
    }
  }

  lemma {:induction false} SameEntry<K>(a: seq<Ranked<K>>, x: Ranked<K>, y: Ranked<K>, counts: map<K, nat>)
    requires Lists(a, counts) && x in a && y in a && x.key == y.key
    ensures x == y
  {
  }

  lemma {:induction false} Once<K>(a: seq<Ranked<K>>, x: Ranked<K>)
    requires DistinctRanked(a)
    ensures multiset(a)[x] <= 1
    decreases |a|
  {
    if a != [] {
      var n := |a| - 1;
      Once(a[..n], x);
      assert a == a[..n] + [a[n]];
      if a[n] == x {
        assert forall i :: 0 <= i < n ==> a[..n][i] != x;
        assert x !in a[..n];
      }
    }
  }

  /** Two listings of the same counts hold the same entries. */
  lemma {:induction false} ListingsPermute<K(!new)>(a: seq<Ranked<K>>, b: seq<Ranked<K>>, counts: map<K, nat>)
    requires Lists(a, counts) && Lists(b, counts)
    ensures multiset(a) == multiset(b)
  {
    forall x: Ranked<K>
      ensures multiset(a)[x] == multiset(b)[x]
    {
      Once(a, x);
      Once(b, x);
      assert x in a <==> x in b;
      assert x in multiset(a) <==> x in multiset(b);
    }
  }

  /** The counts have one ranking. */
  lemma {:induction false} RankingIsUnique<K(!new)>(a: seq<Ranked<K>>, b: seq<Ranked<K>>, counts: map<K, nat>, le: Order<K>)
    requires TotalOrder(le) && IsRanking(a, counts, le) && IsRanking(b, counts, le)
    ensures a == b
  {
    ByCountIsTotal(le);
    ListingsPermute(a, b, counts);
    hide Lists, ByCount, TotalOrder, Sorted;
    SortedIsUnique(a, b, ByCount(le));
  }

  lemma {:induction false} TopIsUnique<K(!new)>(a: seq<Ranked<K>>, b: seq<Ranked<K>>, counts: map<K, nat>, k: nat, le: Order<K>)
    requires TotalOrder(le) && IsTop(a, counts, k, le) && IsTop(b, counts, k, le)
    ensures a == b
  {
    var x: seq<Ranked<K>> :| IsRanking(x, counts, le) && a == Take(x, k);
    var y: seq<Ranked<K>> :| IsRanking(y, counts, le) && b == Take(y, k);
    hide IsRanking, TotalOrder, IsTop;
    RankingIsUnique(x, y, counts, le);
  }

  lemma {:induction false} SortRanks<K(!new)>(entries: seq<Ranked<K>>, counts: map<K, nat>, le: Order<K>)
    requires TotalOrder(le) && Lists(entries, counts)
    ensures IsRanking(Sort(entries, ByCount(le)), counts, le)
  {
    ByCountIsTotal(le);
    SortSorts(entries, ByCount(le));
    PermutedLists(entries, Sort(entries, ByCount(le)), counts);
    hide ByCount, Lists, TotalOrder;
  }

  /** The top `k`: sort everything, truncate. */
  method TopOf<K(!new, ==)>(counts: map<K, nat>, k: nat, le: Order<K>) returns (top: seq<Ranked<K>>)
    requires TotalOrder(le)
    ensures IsTop(top, counts, k, le)
  {
    hide Lists, Sort, ByCount, TotalOrder;
    var entries := Collect(counts);
    SortRanks(entries, counts, le);
    top := Take(Sort(entries, ByCount(le)), k);
  }

  // ---------- scaling ----------

  /** Every count times `c`. */
  function Scaled<K>(counts: map<K, nat>, c: nat): map<K, nat> {
    map k | k in counts :: counts[k] * c
  }

  function ScaledRanks<K>(ranks: seq<Ranked<K>>, c: nat): (r: seq<Ranked<K>>)
    ensures |r| == |ranks|
  {
    seq(|ranks|, i requires 0 <= i < |ranks| => Ranked(ranks[i].key, ranks[i].count * c))
  }

  lemma {:induction false} ScaleKeepsOrder(a: nat, b: nat, c: nat)
    requires c > 0
    ensures a > b <==> a * c > b * c
    ensures a == b <==> a * c == b * c
  {
    if a > b {
      MulMonotone(b + 1, a, c);
      assert (b + 1) * c == b * c + c;
    } else if a < b {
      MulMonotone(a + 1, b, c);
      assert (a + 1) * c == a * c + c;
    }
  }

  lemma {:induction false} ScaledLists<K(!new)>(entries: seq<Ranked<K>>, counts: map<K, nat>, c: nat)
    requires Lists(entries, counts)
    ensures Lists(ScaledRanks(entries, c), Scaled(counts, c))
  {
    var scaled := ScaledRanks(entries, c);
    forall k | k in Scaled(counts, c)
      ensures Ranked(k, Scaled(counts, c)[k]) in scaled
    {
      assert Ranked(k, counts[k]) in entries;
      var i :| 0 <= i < |entries| && entries[i] == Ranked(k, counts[k]);
      assert scaled[i] == Ranked(k, counts[k] * c);
    }
  }

  /** Scaling all counts by the same positive factor keeps the ranking. */
  lemma {:induction false} ScalingKeepsTop<K(!new)>(top: seq<Ranked<K>>, counts: map<K, nat>, k: nat, le: Order<K>, c: nat)
    requires c > 0 && IsTop(top, counts, k, le)
    ensures IsTop(ScaledRanks(top, c), Scaled(counts, c), k, le)
  {
    var ranking: seq<Ranked<K>> :| IsRanking(ranking, counts, le) && top == Take(ranking, k);
    var scaled := ScaledRanks(ranking, c);
    ScaledLists(ranking, counts, c);
    forall i, j | 0 <= i < j < |scaled|
      ensures ByCount(le)(scaled[i], scaled[j])
    {
      assert ByCount(le)(ranking[i], ranking[j]);
      ScaleKeepsOrder(ranking[i].count, ranking[j].count, c);
    }
    assert IsRanking(scaled, Scaled(counts, c), le);
    assert ScaledRanks(top, c) == Take(scaled, k);
  }
}
