/** Per-key counts: shipped as entries in any order, and tallied again. */
module TopKCounts {
  import opened Basics
  import opened Rankings

  type Key = nat

  type Counts = map<Key, nat>

  /** One shipped entry: a key, its count, and how many entries its window has. */
  datatype Keyed = Keyed(key: Key, count: nat, total: nat)

  function Get(counts: Counts, k: Key): nat {
    if k in counts then counts[k] else 0
  }

  function Bump(counts: Counts, k: Key, n: nat): Counts {
    counts[k := Get(counts, k) + n]
  }

  /** The counts of a sequence of entries. */
  function TallyOf(entries: seq<Keyed>): Counts {
    if entries == [] then map[]
    else Bump(TallyOf(entries[..|entries| - 1]), entries[|entries| - 1].key, entries[|entries| - 1].count)
  }

  /** Two counts, added key by key. */
  function Plus(a: Counts, b: Counts): Counts {
    map k | k in a.Keys + b.Keys :: Get(a, k) + Get(b, k)
  }

  lemma {:induction false} PlusIs(a: Counts, b: Counts, k: Key)
    ensures k in Plus(a, b) <==> k in a || k in b
    ensures Get(Plus(a, b), k) == Get(a, k) + Get(b, k)
  {
  }

  lemma {:induction false} SameCounts(a: Counts, b: Counts)
    requires forall k: Key :: (k in a <==> k in b) && Get(a, k) == Get(b, k)
    ensures a == b
  {
    assert a.Keys == b.Keys;
    forall k | k in a
      ensures a[k] == b[k]
    {
      assert Get(a, k) == Get(b, k);
    }
  }

  lemma {:induction false} PlusBump(a: Counts, b: Counts, k: Key, n: nat)
    ensures Plus(a, Bump(b, k, n)) == Bump(Plus(a, b), k, n)
  {
    SameCounts(Plus(a, Bump(b, k, n)), Bump(Plus(a, b), k, n));
  }

  lemma {:induction false} PlusCommutes(a: Counts, b: Counts)
    ensures Plus(a, b) == Plus(b, a)
  {
    SameCounts(Plus(a, b), Plus(b, a));
  }

  lemma {:induction false} PlusAssociates(a: Counts, b: Counts, c: Counts)
    ensures Plus(Plus(a, b), c) == Plus(a, Plus(b, c))
  {
    forall k: Key
      ensures k in Plus(Plus(a, b), c) <==> k in Plus(a, Plus(b, c))
      ensures Get(Plus(Plus(a, b), c), k) == Get(Plus(a, Plus(b, c)), k)
    {
      PlusIs(a, b, k);
      PlusIs(b, c, k);
      PlusIs(Plus(a, b), c, k);
      PlusIs(a, Plus(b, c), k);
      hide Plus, Get;
    }
    hide Plus, Get;
    SameCounts(Plus(Plus(a, b), c), Plus(a, Plus(b, c)));
  }

  lemma {:induction false} PlusNothing(a: Counts)
    ensures Plus(a, map[]) == a == Plus(map[], a)
  {
    SameCounts(Plus(a, map[]), a);
    SameCounts(Plus(map[], a), a);
  }

  /** Where the entries come from does not matter. */
  lemma {:induction false} TallyConcat(x: seq<Keyed>, y: seq<Keyed>)
    ensures TallyOf(x + y) == Plus(TallyOf(x), TallyOf(y))
    decreases |y|
  {
    hide Plus, Bump;
    if y == [] {
      assert x + y == x;
      PlusNothing(TallyOf(x));
    } else {
      var init, e := y[..|y| - 1], y[|y| - 1];
      TallyConcat(x, init);
      assert (x + y)[..|x + y| - 1] == x + init;
      PlusBump(TallyOf(x), TallyOf(init), e.key, e.count);
    }
  }

  lemma {:induction false} TallyPush(x: seq<Keyed>, e: Keyed)
    ensures TallyOf(x + [e]) == Bump(TallyOf(x), e.key, e.count)
  {
    assert (x + [e])[..|x|] == x;
  }

  /** The entries as key and count, without the total. */
  function Bare(entries: seq<Keyed>): (r: seq<Ranked<Key>>)
    ensures |r| == |entries|
  {
    seq(|entries|, i requires 0 <= i < |entries| => Ranked(entries[i].key, entries[i].count))
  }

  /** A listing of the counts, in some order, each entry with the number of entries. */
  ghost predicate IsListing(entries: seq<Keyed>, counts: Counts) {
    Lists(Bare(entries), counts) && forall i :: 0 <= i < |entries| ==> entries[i].total == |entries|
  }

  function WithTotals(ranks: seq<Ranked<Key>>): (r: seq<Keyed>)
    ensures |r| == |ranks|
  {
    seq(|ranks|, i requires 0 <= i < |ranks| => Keyed(ranks[i].key, ranks[i].count, |ranks|))
  }

  /** The entries of a count map, in whatever order it iterates. */
  method ListEntries(counts: Counts) returns (entries: seq<Keyed>)
    ensures IsListing(entries, counts)
  {
    var ranks := Collect(counts);
    entries := WithTotals(ranks);
    assert Bare(entries) == ranks;
  }

  lemma {:induction false} ListingSize(entries: seq<Keyed>, counts: Counts)
    requires IsListing(entries, counts)
    ensures |entries| == |counts|
  {
    ListsSize(Bare(entries), counts);
  }

  lemma {:induction false} ListsSize(ranks: seq<Ranked<Key>>, counts: Counts)
    requires Lists(ranks, counts)
    ensures |ranks| == |counts|
    decreases |ranks|
  {
    if ranks == [] {
      assert counts.Keys == {};
      assert |counts| == |counts.Keys|;
    } else {
      var n := |ranks| - 1;
      var rest := counts - {ranks[n].key};
      LastUnlisted(ranks, counts);
      ListsSize(ranks[..n], rest);
      SmallerMap(counts, ranks[n].key);
    }
  }

  /** A listing without its last entry lists the counts without its key. */
  lemma {:induction false} LastUnlisted(ranks: seq<Ranked<Key>>, counts: Counts)
    requires Lists(ranks, counts) && ranks != []
    ensures ranks[|ranks| - 1].key in counts && counts[ranks[|ranks| - 1].key] == ranks[|ranks| - 1].count
    ensures Lists(ranks[..|ranks| - 1], counts - {ranks[|ranks| - 1].key})
  {
    var n := |ranks| - 1;
    var rest := counts - {ranks[n].key};
    forall k | k in rest
      ensures Ranked(k, rest[k]) in ranks[..n]
    {
      assert Ranked(k, counts[k]) in ranks;
      var i :| 0 <= i < |ranks| && ranks[i] == Ranked(k, counts[k]);
      assert i < n;
      assert ranks[..n][i] == ranks[i];
    }
  }

  /** Tallying a listing gives the counts back, whatever its order. */
  lemma {:induction false} ListingTallies(entries: seq<Keyed>, counts: Counts)
    requires Lists(Bare(entries), counts)
    ensures TallyOf(entries) == counts
    decreases |entries|
  {
    if entries == [] {
      assert counts.Keys == {};
    } else {
      var n := |entries| - 1;
      var e := entries[n];
      LastUnlisted(Bare(entries), counts);
      assert Bare(entries)[..n] == Bare(entries[..n]);
      ListingTallies(entries[..n], counts - {e.key});
      assert Bump(counts - {e.key}, e.key, e.count) == counts;
    }
  }

  // ---------- the keys of a corpus ----------

  /** How often each key occurs. */
  function CountsOf(keys: seq<Key>): Counts {
    if keys == [] then map[] else Bump(CountsOf(keys[..|keys| - 1]), keys[|keys| - 1], 1)
  }

  lemma {:induction false} CountsConcat(x: seq<Key>, y: seq<Key>)
    ensures CountsOf(x + y) == Plus(CountsOf(x), CountsOf(y))
    decreases |y|
  {
    hide Plus, Bump;
    if y == [] {
      assert x + y == x;
      PlusNothing(CountsOf(x));
    } else {
      var init, k := y[..|y| - 1], y[|y| - 1];
      CountsConcat(x, init);
      assert (x + y)[..|x + y| - 1] == x + init;
      PlusBump(CountsOf(x), CountsOf(init), k, 1);
    }
  }

  /** Several windows' counts, added up. */
  function PlusAll(history: seq<Counts>): Counts {
    if history == [] then map[] else Plus(PlusAll(history[..|history| - 1]), history[|history| - 1])
  }

  /** `c` equal windows scale every count by `c`. */
  lemma {:induction false} EqualWindowsScale(counts: Counts, history: seq<Counts>)
    requires history != [] && forall i :: 0 <= i < |history| ==> history[i] == counts
    ensures PlusAll(history) == Scaled(counts, |history|)
    decreases |history|
  {
    var n := |history| - 1;
    if n == 0 {
      assert history[..0] == [];
      PlusNothing(counts);
      SameCounts(Plus(map[], counts), Scaled(counts, 1));
    } else {
      EqualWindowsScale(counts, history[..n]);
      forall k: Key
        ensures Get(Plus(Scaled(counts, n), counts), k) == Get(Scaled(counts, n + 1), k)
      {
        assert Get(counts, k) * (n + 1) == Get(counts, k) * n + Get(counts, k);
      }
      SameCounts(Plus(Scaled(counts, n), counts), Scaled(counts, n + 1));
    }
  }
}
