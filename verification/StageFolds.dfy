/** What a store fed with answers holds. */
module StageFolds {
  import opened Basics
  import opened Envelopes
  import opened SeriesKeys
  import opened KllWindows
  import opened KllResults

  /** Where a delivered envelope comes from: the answer of upstream store `up` for the pane
      at `start` and one series. */
  datatype Origin = Origin(up: nat, start: u64, key: Key)

  /** Every entry a downstream store took in comes from one upstream answer, and no answer
      came twice. */
  ghost predicate Delivered(entries: seq<Entry>, origins: seq<Origin>, ups: seq<seq<Entry>>, pane: u64)
    requires pane > 0
  {
    && |entries| == |origins|
    && (forall n :: 0 <= n < |entries| ==>
         var o := origins[n];
         && o.up < |ups| && o.start % pane == 0
         && entries[n].start == o.start && entries[n].key == o.key
         && entries[n].items == ItemsOf(Range(ups[o.up], o.start, o.start + pane, o.key))
         && entries[n].count == CountOf(Range(ups[o.up], o.start, o.start + pane, o.key)))
    && (forall i, j :: 0 <= i < j < |origins| ==> origins[i] != origins[j])
  }

  /** Every pane of the range that holds anything upstream has been delivered. */
  ghost predicate Complete(origins: seq<Origin>, ups: seq<seq<Entry>>, pane: u64, from: int, to: int, key: Key)
    requires pane > 0
  {
    forall u: nat, start: u64 ::
      (u < |ups| && from <= start < to && start % pane == 0 && Range(ups[u], start, start + pane, key) != []) ==>
        Origin(u, start, key) in origins
  }

  /** All upstream entries as one flat log. */
  ghost function Flat(ups: seq<seq<Entry>>): seq<Entry> {
    if ups == [] then [] else Flat(ups[..|ups| - 1]) + ups[|ups| - 1]
  }

  /** The delivered entries of one pane and series from upstream stores `lo` to `hi`. */
  ghost function From(entries: seq<Entry>, origins: seq<Origin>, start: u64, key: Key, lo: int, hi: int): seq<Entry>
    requires |entries| == |origins|
  {
    if entries == [] then []
    else
      var n := |entries| - 1;
      var o := origins[n];
      From(entries[..n], origins[..n], start, key, lo, hi)
      + if o.start == start && o.key == key && lo <= o.up < hi then [entries[n]] else []
  }

  lemma {:induction false} FromPush(entries: seq<Entry>, origins: seq<Origin>, start: u64, key: Key, lo: int, hi: int)
    requires |entries| == |origins| && entries != []
    ensures var n := |entries| - 1;
      var o := origins[n];
      var picked := if o.start == start && o.key == key && lo <= o.up < hi then [entries[n]] else [];
      AddsUp(From(entries, origins, start, key, lo, hi), From(entries[..n], origins[..n], start, key, lo, hi), picked)
  {
    var n := |entries| - 1;
    var o := origins[n];
    FoldConcat(From(entries[..n], origins[..n], start, key, lo, hi),
               if o.start == start && o.key == key && lo <= o.up < hi then [entries[n]] else []);
  }

  lemma {:induction false} CrossSums(a: seq<Entry>, a0: seq<Entry>, x: seq<Entry>, l: seq<Entry>, l0: seq<Entry>, xl: seq<Entry>,
                  r: seq<Entry>, r0: seq<Entry>, xr: seq<Entry>)
    requires AddsUp(a, a0, x) && AddsUp(l, l0, xl) && AddsUp(r, r0, xr)
    requires AddsUp(a0, l0, r0) && ((x == xl && xr == []) || (x == xr && xl == []))
    ensures AddsUp(a, l, r)
  {
    FoldNone();
    hide ItemsOf, CountOf;
  }

  lemma {:induction false} FoldNone()
    ensures ItemsOf([]) == multiset{} && CountOf([]) == 0
  {
  }

  lemma {:induction false} FromAddsUp(entries: seq<Entry>, origins: seq<Origin>, start: u64, key: Key, lo: int, mid: int, hi: int)
    requires |entries| == |origins| && lo <= mid <= hi
    ensures AddsUp(From(entries, origins, start, key, lo, hi), From(entries, origins, start, key, lo, mid), From(entries, origins, start, key, mid, hi))
    decreases |entries|
  {
    if entries == [] {
      FoldNone();
    } else {
      hide *;
      var n := |entries| - 1;
      var o := origins[n];
      var here := o.start == start && o.key == key;
      FromAddsUp(entries[..n], origins[..n], start, key, lo, mid, hi);
      FromPush(entries, origins, start, key, lo, hi);
      FromPush(entries, origins, start, key, lo, mid);
      FromPush(entries, origins, start, key, mid, hi);
      CrossSums(From(entries, origins, start, key, lo, hi), From(entries[..n], origins[..n], start, key, lo, hi),
                if here && lo <= o.up < hi then [entries[n]] else [],
                From(entries, origins, start, key, lo, mid), From(entries[..n], origins[..n], start, key, lo, mid),
                if here && lo <= o.up < mid then [entries[n]] else [],
                From(entries, origins, start, key, mid, hi), From(entries[..n], origins[..n], start, key, mid, hi),
                if here && mid <= o.up < hi then [entries[n]] else []);
    }
  }

  /** One upstream store delivers a pane and series at most once. */
  lemma {:induction false} FromOne(entries: seq<Entry>, origins: seq<Origin>, start: u64, key: Key, u: nat, n: nat)
    requires |entries| == |origins| && forall i, j :: 0 <= i < j < |origins| ==> origins[i] != origins[j]
    requires n < |origins| ==> origins[n] == Origin(u, start, key)
    requires n >= |origins| ==> Origin(u, start, key) !in origins
    ensures From(entries, origins, start, key, u, u + 1) == if n < |origins| then [entries[n]] else []
    decreases |entries|
  {
    if entries != [] {
      var m := |entries| - 1;
      assert origins[m] in origins;
      if n == m {
        assert Origin(u, start, key) !in origins[..m];
        FromOne(entries[..m], origins[..m], start, key, u, m);
      } else {
        assert n < |origins| ==> origins[m] != origins[n];
        FromOne(entries[..m], origins[..m], start, key, u, if n < m then n else m);
      }
    }
  }

  /** The same contributions, seen as items and count. */
  ghost predicate SameFold(a: seq<Entry>, b: seq<Entry>) {
    ItemsOf(a) == ItemsOf(b) && CountOf(a) == CountOf(b)
  }

  ghost predicate AddsUp(whole: seq<Entry>, left: seq<Entry>, right: seq<Entry>) {
    ItemsOf(whole) == ItemsOf(left) + ItemsOf(right) && CountOf(whole) == CountOf(left) + CountOf(right)
  }

  lemma {:induction false} SameSums(a: seq<Entry>, a0: seq<Entry>, a1: seq<Entry>, b: seq<Entry>, b0: seq<Entry>, b1: seq<Entry>)
    requires AddsUp(a, a0, a1) && AddsUp(b, b0, b1) && SameFold(a0, b0) && SameFold(a1, b1)
    ensures SameFold(a, b)
  {
    hide ItemsOf, CountOf;
  }

  /** Whatever the upstream stores below `u` have for one pane and series has arrived. */
  lemma {:induction false} PaneArrived(entries: seq<Entry>, origins: seq<Origin>, ups: seq<seq<Entry>>, pane: u64, start: u64, key: Key, u: nat)
    requires pane > 0 && Delivered(entries, origins, ups, pane) && start % pane == 0 && u <= |ups|
    requires Complete(origins, ups, pane, start, start + pane, key)
    requires |entries| == |origins|
    ensures SameFold(From(entries, origins, start, key, 0, u), Range(Flat(ups[..u]), start, start + pane, key))
    decreases u
  {
    hide *;
    if u == 0 {
      FromNone(entries, origins, start, key);
      FlatNone(ups, start, start + pane, key);
      SameRefl([]);
    } else {
      PaneArrived(entries, origins, ups, pane, start, key, u - 1);
      FromAddsUp(entries, origins, start, key, 0, u - 1, u);
      OneArrived(entries, origins, ups, pane, start, key, u - 1);
      FlatPush(ups, u - 1, start, start + pane, key);
      SameSums(From(entries, origins, start, key, 0, u), From(entries, origins, start, key, 0, u - 1), From(entries, origins, start, key, u - 1, u),
               Range(Flat(ups[..u]), start, start + pane, key), Range(Flat(ups[..u - 1]), start, start + pane, key),
               Range(ups[u - 1], start, start + pane, key));
    }
  }

  lemma {:induction false} SameRefl(a: seq<Entry>)
    ensures SameFold(a, a)
  {
  }

  lemma {:induction false} FlatNone(ups: seq<seq<Entry>>, from: int, to: int, key: Key)
    ensures Range(Flat(ups[..0]), from, to, key) == []
  {
  }

  lemma {:induction false} FlatPush(ups: seq<seq<Entry>>, u: nat, from: int, to: int, key: Key)
    requires u < |ups|
    ensures AddsUp(Range(Flat(ups[..u + 1]), from, to, key), Range(Flat(ups[..u]), from, to, key), Range(ups[u], from, to, key))
  {
    hide Range, ItemsOf, CountOf;
    assert ups[..u + 1][..u] == ups[..u];
    RangeConcat(Flat(ups[..u]), ups[u], from, to, key);
    FoldConcat(Range(Flat(ups[..u]), from, to, key), Range(ups[u], from, to, key));
  }

  lemma {:induction false} FromNone(entries: seq<Entry>, origins: seq<Origin>, start: u64, key: Key)
    requires |entries| == |origins|
    ensures From(entries, origins, start, key, 0, 0) == []
    decreases |entries|
  {
    if entries != [] {
      FromNone(entries[..|entries| - 1], origins[..|entries| - 1], start, key);
    }
  }

  lemma {:induction false} OneArrived(entries: seq<Entry>, origins: seq<Origin>, ups: seq<seq<Entry>>, pane: u64, start: u64, key: Key, u: nat)
    requires pane > 0 && Delivered(entries, origins, ups, pane) && start % pane == 0 && u < |ups|
    requires Complete(origins, ups, pane, start, start + pane, key)
    requires |entries| == |origins|
    ensures SameFold(From(entries, origins, start, key, u, u + 1), Range(ups[u], start, start + pane, key))
  {
    hide From;
    if n :| 0 <= n < |origins| && origins[n] == Origin(u, start, key) {
      FromOne(entries, origins, start, key, u, n);
      FoldOne(entries[n]);
    } else {
      assert Origin(u, start, key) !in origins;
      FromOne(entries, origins, start, key, u, |origins|);
    }
  }

  /** The delivered entries of one pane are those whose start is the pane's. */
  lemma {:induction false} PaneIsFrom(entries: seq<Entry>, origins: seq<Origin>, ups: seq<seq<Entry>>, pane: u64, start: u64, key: Key)
    requires pane > 0 && Delivered(entries, origins, ups, pane) && start % pane == 0
    ensures From(entries, origins, start, key, 0, |ups|) == Range(entries, start, start + pane, key)
    decreases |entries|
  {
    if entries != [] {
      var n := |entries| - 1;
      assert Delivered(entries[..n], origins[..n], ups, pane);
      PaneIsFrom(entries[..n], origins[..n], ups, pane, start, key);
      OnlyMultiple(entries[n].start, start, pane);
    }
  }

  lemma {:induction false} OnlyMultiple(s: u64, start: u64, pane: u64)
    requires pane > 0 && s % pane == 0 && start % pane == 0
    ensures start <= s < start + pane <==> s == start
  {
    if start < s < start + pane {
      assert s == s / pane * pane + 0 && start == start / pane * pane + 0;
      DivUnique(s, start / pane, pane, s - start);
    }
  }

  /** If every upstream pane of the range was delivered once, the downstream store holds what the
      upstream stores do together. */
  lemma {:induction false} DeliveredIsFlat(entries: seq<Entry>, origins: seq<Origin>, ups: seq<seq<Entry>>, pane: u64, from: u64, to: u64, key: Key)
    requires pane > 0 && Delivered(entries, origins, ups, pane)
    requires from <= to && from % pane == 0 && to % pane == 0
    requires Complete(origins, ups, pane, from, to, key)
    ensures SameFold(Range(entries, from, to, key), Range(Flat(ups), from, to, key))
    decreases (to as int) - (from as int)
  {
    assert |entries| == |origins|;
    hide Range, From, Delivered, SameFold, AddsUp, ItemsOf, CountOf;
    if from == to {
      NothingInEmptyRange(entries, from, key);
      NothingInEmptyRange(Flat(ups), from, key);
      SameRefl([]);
    } else {
      NextMultiple(from, to, pane);
      var mid := from + pane;
      CompleteWithin(origins, ups, pane, from, mid, to, key);
      hide Complete;
      DeliveredIsFlat(entries, origins, ups, pane, mid, to, key);
      PaneArrived(entries, origins, ups, pane, from, key, |ups|);
      assert ups[..|ups|] == ups;
      PaneIsFrom(entries, origins, ups, pane, from, key);
      RangeSplits(entries, from, mid, to, key);
      RangeSplits(Flat(ups), from, mid, to, key);
      SameSums(Range(entries, from, to, key), Range(entries, from, mid, key), Range(entries, mid, to, key),
               Range(Flat(ups), from, to, key), Range(Flat(ups), from, mid, key), Range(Flat(ups), mid, to, key));
    }
  }

  lemma {:induction false} CompleteWithin(origins: seq<Origin>, ups: seq<seq<Entry>>, pane: u64, from: int, mid: int, to: int, key: Key)
    requires pane > 0 && from <= mid <= to && Complete(origins, ups, pane, from, to, key)
    ensures Complete(origins, ups, pane, from, mid, key) && Complete(origins, ups, pane, mid, to, key)
  {
    hide Range;
  }

  lemma {:induction false} RangeSplits(entries: seq<Entry>, from: int, mid: int, to: int, key: Key)
    requires from <= mid <= to
    ensures AddsUp(Range(entries, from, to, key), Range(entries, from, mid, key), Range(entries, mid, to, key))
  {
    RangesAddUp(entries, from, mid, to, key);
  }

  lemma {:induction false} NothingInEmptyRange(entries: seq<Entry>, at: int, key: Key)
    ensures Range(entries, at, at, key) == []
  {
    RangeNone(entries, at, at, key);
  }

  // ---------- and only then ----------

  /** Every entry counts at least one sample. */
  ghost predicate Weighty(entries: seq<Entry>) {
    forall i :: 0 <= i < |entries| ==> entries[i].count > 0
  }

  ghost predicate AllWeighty(ups: seq<seq<Entry>>) {
    forall u :: 0 <= u < |ups| ==> Weighty(ups[u])
  }

  lemma {:induction false} RangeCounts(entries: seq<Entry>, from: int, to: int, key: Key)
    requires Weighty(entries)
    ensures CountOf(Range(entries, from, to, key)) == 0 <==> Range(entries, from, to, key) == []
    decreases |entries|
  {
    if entries != [] {
      var init := entries[..|entries| - 1];
      assert Weighty(init);
      RangeCounts(init, from, to, key);
      RangePush(entries, from, to, key);
      hide Range, CountOf;
    }
  }

  /** What the upstream stores below `u` have for one pane and series has arrived. */
  ghost predicate PaneComplete(origins: seq<Origin>, ups: seq<seq<Entry>>, pane: u64, start: u64, key: Key, u: nat) {
    forall v: nat :: v < u && v < |ups| && Range(ups[v], start, start + pane, key) != [] ==> Origin(v, start, key) in origins
  }

  lemma {:induction false} OneAtMost(entries: seq<Entry>, origins: seq<Origin>, ups: seq<seq<Entry>>, pane: u64, start: u64, key: Key, u: nat)
    requires pane > 0 && Delivered(entries, origins, ups, pane) && start % pane == 0 && u < |ups| && AllWeighty(ups)
    requires |entries| == |origins|
    ensures var got, there := CountOf(From(entries, origins, start, key, u, u + 1)), CountOf(Range(ups[u], start, start + pane, key));
      && got <= there
      && (got == there <==> (Range(ups[u], start, start + pane, key) == [] || Origin(u, start, key) in origins))
  {
    hide From, CountOf, Range, ItemsOf;
    RangeCounts(ups[u], start, start + pane, key);
    if n :| 0 <= n < |origins| && origins[n] == Origin(u, start, key) {
      FromOne(entries, origins, start, key, u, n);
      FoldOne(entries[n]);
    } else {
      assert Origin(u, start, key) !in origins;
      FromOne(entries, origins, start, key, u, |origins|);
      FoldNone();
    }
  }

  lemma {:induction false} PaneAtMost(entries: seq<Entry>, origins: seq<Origin>, ups: seq<seq<Entry>>, pane: u64, start: u64, key: Key, u: nat)
    requires pane > 0 && Delivered(entries, origins, ups, pane) && start % pane == 0 && u <= |ups| && AllWeighty(ups)
    requires |entries| == |origins|
    ensures var got, there := CountOf(From(entries, origins, start, key, 0, u)), CountOf(Range(Flat(ups[..u]), start, start + pane, key));
      got <= there && (got == there <==> PaneComplete(origins, ups, pane, start, key, u))
    decreases u
  {
    hide Delivered, From, CountOf, Range, ItemsOf, Flat, AllWeighty;
    if u == 0 {
      FromNone(entries, origins, start, key);
      FlatNone(ups, start, start + pane, key);
    } else {
      PaneAtMost(entries, origins, ups, pane, start, key, u - 1);
      FromAddsUp(entries, origins, start, key, 0, u - 1, u);
      OneAtMost(entries, origins, ups, pane, start, key, u - 1);
      FlatPush(ups, u - 1, start, start + pane, key);
    }
  }

  lemma {:induction false} CompletePanes(origins: seq<Origin>, ups: seq<seq<Entry>>, pane: u64, from: u64, to: u64, key: Key)
    requires pane > 0 && from % pane == 0 && to % pane == 0 && from < to
    ensures from + pane <= to
    ensures Complete(origins, ups, pane, from, to, key)
      <==> PaneComplete(origins, ups, pane, from, key, |ups|) && Complete(origins, ups, pane, from + pane, to, key)
  {
    hide Range;
    NextMultiple(from, to, pane);
    forall start: u64 | from <= start < from + pane && start % pane == 0
      ensures start == from
    {
      OnlyMultiple(start, from, pane);
    }
  }

  /** The downstream store holds what the upstream stores do together exactly when every pane that
      holds anything has arrived; until then it holds less. */
  lemma {:induction false} FlatExactlyWhen(entries: seq<Entry>, origins: seq<Origin>, ups: seq<seq<Entry>>, pane: u64, from: u64, to: u64, key: Key)
    requires pane > 0 && Delivered(entries, origins, ups, pane) && AllWeighty(ups)
    requires from <= to && from % pane == 0 && to % pane == 0
    ensures SameFold(Range(entries, from, to, key), Range(Flat(ups), from, to, key)) <==> Complete(origins, ups, pane, from, to, key)
  {
    AtMost(entries, origins, ups, pane, from, to, key);
    if Complete(origins, ups, pane, from, to, key) {
      DeliveredIsFlat(entries, origins, ups, pane, from, to, key);
    }
    hide Range, Complete, Delivered, ItemsOf, CountOf;
  }

  lemma {:induction false} AtMost(entries: seq<Entry>, origins: seq<Origin>, ups: seq<seq<Entry>>, pane: u64, from: u64, to: u64, key: Key)
    requires pane > 0 && Delivered(entries, origins, ups, pane) && AllWeighty(ups)
    requires from <= to && from % pane == 0 && to % pane == 0
    ensures var got, there := CountOf(Range(entries, from, to, key)), CountOf(Range(Flat(ups), from, to, key));
      got <= there && (got == there <==> Complete(origins, ups, pane, from, to, key))
    decreases (to as int) - (from as int)
  {
    assert |entries| == |origins|;
    hide Range, From, Delivered, AddsUp, ItemsOf, CountOf, PaneComplete, AllWeighty, Flat;
    if from == to {
      NothingInEmptyRange(entries, from, key);
      NothingInEmptyRange(Flat(ups), from, key);
    } else {
      NextMultiple(from, to, pane);
      var mid := from + pane;
      CompletePanes(origins, ups, pane, from, to, key);
      hide Complete;
      AtMost(entries, origins, ups, pane, mid, to, key);
      PaneAtMost(entries, origins, ups, pane, from, key, |ups|);
      assert ups[..|ups|] == ups;
      PaneIsFrom(entries, origins, ups, pane, from, key);
      RangesAddUp(entries, from, mid, to, key);
      RangesAddUp(Flat(ups), from, mid, to, key);
    }
  }
}
