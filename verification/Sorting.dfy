/** Sorting by a total order, merging of two sorted runs, and copies; a sorted listing is unique. */
module Sorting {
  import opened Basics

  ghost predicate TotalOrder<T(!new)>(le: (T, T) -> bool) {
    && (forall a, b :: le(a, b) || le(b, a))
    && (forall a, b :: le(a, b) && le(b, a) ==> a == b)
    && (forall a, b, c :: le(a, b) && le(b, c) ==> le(a, c))
  }

  ghost predicate Sorted<T>(s: seq<T>, le: (T, T) -> bool) {
    forall i, j :: 0 <= i < j < |s| ==> le(s[i], s[j])
  }

  function Insert<T>(s: seq<T>, x: T, le: (T, T) -> bool): seq<T> {
    if s == [] || le(x, s[0]) then [x] + s else [s[0]] + Insert(s[1..], x, le)
  }

  function Sort<T>(s: seq<T>, le: (T, T) -> bool): seq<T> {
    if s == [] then [] else Insert(Sort(s[1..], le), s[0], le)
  }

  lemma {:induction false} InsertSorts<T(!new)>(s: seq<T>, x: T, le: (T, T) -> bool)
    requires TotalOrder(le) && Sorted(s, le)
    ensures Sorted(Insert(s, x, le), le) && multiset(Insert(s, x, le)) == multiset(s) + multiset{x}
    decreases |s|
  {
    if s != [] && !le(x, s[0]) {
      assert s == [s[0]] + s[1..];
      InsertSorts(s[1..], x, le);
      PrependSorted(s[0], Insert(s[1..], x, le), s[1..], x, le);
    } else if s != [] {
      PrependSorted(x, s, s[1..], s[0], le);
    }
  }

  /** A least element in front keeps a listing sorted. */
  lemma {:induction false} PrependSorted<T(!new)>(first: T, s: seq<T>, rest: seq<T>, x: T, le: (T, T) -> bool)
    requires TotalOrder(le) && Sorted(s, le)
    requires multiset(s) == multiset(rest) + multiset{x} || s == [x] + rest
    requires le(first, x)
    requires (forall i :: 0 <= i < |rest| ==> le(first, rest[i])) || s == [x] + rest
    ensures Sorted([first] + s, le)
  {
    forall i | 0 <= i < |s|
      ensures le(first, s[i])
    {
      if s == [x] + rest {
        assert le(s[0], s[i]) || i == 0;
      } else {
        assert s[i] in multiset(rest) + multiset{x};
        assert s[i] == x || s[i] in rest;
      }
    }
  }

  lemma {:induction false} SortSorts<T(!new)>(s: seq<T>, le: (T, T) -> bool)
    requires TotalOrder(le)
    ensures Sorted(Sort(s, le), le) && multiset(Sort(s, le)) == multiset(s)
    ensures |Sort(s, le)| == |s|
    decreases |s|
  {
    if s != [] {
      SortSorts(s[1..], le);
      InsertSorts(Sort(s[1..], le), s[0], le);
      assert s == [s[0]] + s[1..];
    }
    assert |multiset(Sort(s, le))| == |Sort(s, le)| && |multiset(s)| == |s|;
  }

  lemma {:induction false} SortedStays<T>(s: seq<T>, le: (T, T) -> bool)
    requires Sorted(s, le)
    ensures Sort(s, le) == s
    decreases |s|
  {
    if s != [] {
      SortedStays(s[1..], le);
      assert s == [s[0]] + s[1..];
    }
  }

  lemma {:induction false} MultisetTail<T>(a: seq<T>, b: seq<T>)
    requires a != [] && b != [] && a[0] == b[0] && multiset(a) == multiset(b)
    ensures multiset(a[1..]) == multiset(b[1..])
  {
    assert a == [a[0]] + a[1..] && b == [b[0]] + b[1..];
    assert multiset(a[1..]) == multiset(a) - multiset{a[0]};
    assert multiset(b[1..]) == multiset(b) - multiset{b[0]};
  }

  lemma {:induction false} SameHead<T(!new)>(a: seq<T>, b: seq<T>, le: (T, T) -> bool)
    requires TotalOrder(le) && Sorted(a, le) && Sorted(b, le) && multiset(a) == multiset(b) && a != [] && b != []
    ensures a[0] == b[0]
  {
    assert a[0] in multiset(b) && b[0] in multiset(a);
    var i :| 0 <= i < |b| && b[i] == a[0];
    var j :| 0 <= j < |a| && a[j] == b[0];
    assert le(b[0], a[0]) || i == 0;
    assert le(a[0], b[0]) || j == 0;
  }

  /** A multiset has one sorted listing. */
  lemma {:induction false} SortedIsUnique<T(!new)>(a: seq<T>, b: seq<T>, le: (T, T) -> bool)
    requires TotalOrder(le) && Sorted(a, le) && Sorted(b, le) && multiset(a) == multiset(b)
    ensures a == b
    decreases |a|
  {
    assert |multiset(a)| == |a| && |multiset(b)| == |b|;
    if a != [] {
      SameHead(a, b, le);
      MultisetTail(a, b);
      SortedIsUnique(a[1..], b[1..], le);
      assert a == [a[0]] + a[1..] && b == [b[0]] + b[1..];
    }
  }

  lemma {:induction false} SortIsUnique<T(!new)>(a: seq<T>, b: seq<T>, le: (T, T) -> bool)
    requires TotalOrder(le) && multiset(a) == multiset(b)
    ensures Sort(a, le) == Sort(b, le)
  {
    SortSorts(a, le);
    SortSorts(b, le);
    SortedIsUnique(Sort(a, le), Sort(b, le), le);
  }

  // ---------- merging two runs ----------

  /** The standard two-run merge; equals go left first. */
  function Merged<T>(a: seq<T>, b: seq<T>, le: (T, T) -> bool): seq<T> {
    if a == [] then b
    else if b == [] then a
    else if le(a[0], b[0]) then [a[0]] + Merged(a[1..], b, le)
    else [b[0]] + Merged(a, b[1..], le)
  }

  lemma {:induction false} MergedKeeps<T>(a: seq<T>, b: seq<T>, le: (T, T) -> bool)
    ensures multiset(Merged(a, b, le)) == multiset(a) + multiset(b)
    ensures |Merged(a, b, le)| == |a| + |b|
    decreases |a| + |b|
  {
    if a != [] && b != [] {
      assert a == [a[0]] + a[1..] && b == [b[0]] + b[1..];
      if le(a[0], b[0]) {
        MergedKeeps(a[1..], b, le);
      } else {
        MergedKeeps(a, b[1..], le);
      }
    }
  }

  lemma {:induction false} MergedSorts<T(!new)>(a: seq<T>, b: seq<T>, le: (T, T) -> bool)
    requires TotalOrder(le) && Sorted(a, le) && Sorted(b, le)
    ensures Sorted(Merged(a, b, le), le)
    decreases |a| + |b|
  {
    if a != [] && b != [] {
      if le(a[0], b[0]) {
        MergedSorts(a[1..], b, le);
        MergedHead(a[0], a[1..], b, le);
      } else {
        MergedSorts(a, b[1..], le);
        MergedHead(b[0], a, b[1..], le);
      }
    }
  }

  lemma {:induction false} MergedHead<T(!new)>(x: T, a: seq<T>, b: seq<T>, le: (T, T) -> bool)
    requires TotalOrder(le) && Sorted(Merged(a, b, le), le)
    requires Sorted(a, le) && Sorted(b, le)
    requires forall i :: 0 <= i < |a| ==> le(x, a[i])
    requires b != [] ==> le(x, b[0])
    ensures Sorted([x] + Merged(a, b, le), le)
  {
    var m := Merged(a, b, le);
    MergedKeeps(a, b, le);
    forall i | 0 <= i < |m|
      ensures le(x, m[i])
    {
      assert m[i] in multiset(a) + multiset(b);
      if m[i] in b {
        var j :| 0 <= j < |b| && b[j] == m[i];
        assert j == 0 || le(b[0], b[j]);
      }
    }
  }

  /** Merging two sorted runs sorts their concatenation. */
  lemma {:induction false} MergedIsSort<T(!new)>(a: seq<T>, b: seq<T>, le: (T, T) -> bool)
    requires TotalOrder(le)
    ensures Merged(Sort(a, le), Sort(b, le), le) == Sort(a + b, le)
  {
    SortSorts(a, le);
    SortSorts(b, le);
    SortSorts(a + b, le);
    MergedSorts(Sort(a, le), Sort(b, le), le);
    MergedKeeps(Sort(a, le), Sort(b, le), le);
    SortedIsUnique(Merged(Sort(a, le), Sort(b, le), le), Sort(a + b, le), le);
  }

  // ---------- copies ----------

  function Concat<T>(ss: seq<seq<T>>): seq<T> {
    if ss == [] then [] else Concat(ss[..|ss| - 1]) + ss[|ss| - 1]
  }

  /** Every element `c` times in a row. */
  ghost function Stretched<T>(s: seq<T>, c: nat): (r: seq<T>)
    requires c > 0
    ensures |r| == |s| * c
  {
    if s == [] then []
    else
      MulSucc(|s|, c);
      Stretched(s[..|s| - 1], c) + seq(c, _ => s[|s| - 1])
  }

  lemma {:induction false} MulSucc(n: nat, c: nat)
    requires n > 0
    ensures n * c == (n - 1) * c + c
  {
  }

  lemma {:induction false} StretchedAt<T>(s: seq<T>, c: nat, i: nat)
    requires c > 0 && i < |s| * c
    ensures i / c < |s| && Stretched(s, c)[i] == s[i / c]
    decreases |s|
  {
    if s == [] {
      assert false;
    } else {
      var n := |s| - 1;
      MulSucc(|s|, c);
      if i < n * c {
        StretchedAt(s[..n], c, i);
      } else {
        DivUnique(i, n, c, i - n * c);
      }
    }
  }

  lemma {:induction false} StretchedSorted<T(!new)>(s: seq<T>, c: nat, le: (T, T) -> bool)
    requires TotalOrder(le) && Sorted(s, le) && c > 0
    ensures Sorted(Stretched(s, c), le)
  {
    hide Stretched, TotalOrder;
    var r := Stretched(s, c);
    forall i, j | 0 <= i < j < |r|
      ensures le(r[i], r[j])
    {
      StretchedAt(s, c, i);
      StretchedAt(s, c, j);
      DivMonotone(i, j, c);
      SortedPair(s, i / c, j / c, le);
    }
  }

  lemma {:induction false} SortedPair<T(!new)>(s: seq<T>, i: nat, j: nat, le: (T, T) -> bool)
    requires TotalOrder(le) && Sorted(s, le) && i <= j < |s|
    ensures le(s[i], s[j])
  {
  }

  /** One more copy adds the elements once more. */
  lemma {:induction false} StretchedMore<T>(s: seq<T>, c: nat)
    requires c > 0
    ensures multiset(Stretched(s, c + 1)) == multiset(Stretched(s, c)) + multiset(s)
    decreases |s|
  {
    if s != [] {
      var n := |s| - 1;
      StretchedMore(s[..n], c);
      assert s == s[..n] + [s[n]];
      assert seq(c + 1, _ => s[n]) == seq(c, _ => s[n]) + [s[n]];
    }
  }

  lemma {:induction false} StretchedOnce<T>(s: seq<T>)
    ensures Stretched(s, 1) == s
    decreases |s|
  {
    if s != [] {
      StretchedOnce(s[..|s| - 1]);
      assert s == s[..|s| - 1] + [s[|s| - 1]];
    }
  }

  ghost function Copies<T>(s: seq<T>, c: nat): (r: seq<seq<T>>)
    ensures |r| == c && forall i :: 0 <= i < c ==> r[i] == s
  {
    seq(c, _ => s)
  }

  lemma {:induction false} CopiesAreStretched<T>(s: seq<T>, c: nat)
    requires c > 0
    ensures multiset(Concat(Copies(s, c))) == multiset(Stretched(s, c))
    decreases c
  {
    assert Copies(s, c)[..c - 1] == Copies(s, c - 1);
    assert Concat(Copies(s, c)) == Concat(Copies(s, c - 1)) + s;
    if c == 1 {
      StretchedOnce(s);
      assert Concat(Copies(s, 0)) == [];
    } else {
      CopiesAreStretched(s, c - 1);
      StretchedMore(s, c - 1);
    }
  }

  /** Sorting `c` copies of `s` puts at `i` what sorting `s` puts at `i / c`. */
  lemma {:induction false} CopiesSorted<T(!new)>(s: seq<T>, c: nat, le: (T, T) -> bool, i: nat)
    requires TotalOrder(le) && c > 0 && i < |s| * c
    ensures |Sort(Concat(Copies(s, c)), le)| == |s| * c
    ensures i / c < |Sort(s, le)| && Sort(Concat(Copies(s, c)), le)[i] == Sort(s, le)[i / c]
  {
    var sorted := Sort(s, le);
    SortSorts(s, le);
    SortSorts(Concat(Copies(s, c)), le);
    CopiesAreStretched(s, c);
    CopiesAreStretched(sorted, c);
    CopiesPermute(s, sorted, c);
    StretchedSorted(sorted, c, le);
    SortedIsUnique(Sort(Concat(Copies(s, c)), le), Stretched(sorted, c), le);
    StretchedAt(sorted, c, i);
  }

  lemma {:induction false} CopiesPermute<T>(s: seq<T>, t: seq<T>, c: nat)
    requires multiset(s) == multiset(t)
    ensures multiset(Concat(Copies(s, c))) == multiset(Concat(Copies(t, c)))
    decreases c
  {
    if c == 0 {
      assert Copies(s, c) == [] && Copies(t, c) == [];
    } else {
      CopiesPermute(s, t, c - 1);
      OneMoreCopy(s, c);
      OneMoreCopy(t, c);
      hide Concat, Copies;
    }
  }

  lemma {:induction false} OneMoreCopy<T>(s: seq<T>, c: nat)
    requires c > 0
    ensures multiset(Concat(Copies(s, c))) == multiset(Concat(Copies(s, c - 1))) + multiset(s)
  {
    assert Copies(s, c)[..c - 1] == Copies(s, c - 1) && Copies(s, c)[c - 1] == s;
    assert Concat(Copies(s, c)) == Concat(Copies(s, c - 1)) + s;
  }
}
