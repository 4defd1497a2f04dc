/** Machine integers, failure datatypes, and sums over sequences and maps. */
module Basics {

  const U64_MAX: int := 0xFFFF_FFFF_FFFF_FFFF

  /** The source's `u64`; arithmetic on it saturates or is shown not to overflow. */
  type u64 = x: int | 0 <= x <= U64_MAX

  datatype Option<+T> = None | Some(value: T)

  datatype Result<+T, +E> = Ok(value: T) | Err(error: E)

  function SatSub(a: u64, b: u64): u64 {
    if a < b then 0 else a - b
  }

  function SatAdd(a: u64, b: u64): u64 {
    if a + b > U64_MAX then U64_MAX else a + b
  }

  function Max(a: int, b: int): int {
    if a < b then b else a
  }

  function Min(a: int, b: int): int {
    if a < b then a else b
  }

  lemma {:induction false} MulAtLeast(d: int, p: int)
    requires d >= 1 && p > 0
    ensures d * p >= p
  {
  }

  lemma {:induction false} MulMonotone(a: int, b: int, p: int)
    requires a <= b && p > 0
    ensures a * p <= b * p
  {
    assert (b - a) * p == b * p - a * p;
    if b > a {
      MulAtLeast(b - a, p);
    }
  }

  lemma {:induction false} DivMonotone(a: nat, b: nat, p: nat)
    requires a <= b && p > 0
    ensures a / p <= b / p
  {
    assert a == a / p * p + a % p && b == b / p * p + b % p;
    assert (b / p + 1) * p == b / p * p + p;
    if a / p > b / p {
      MulMonotone(b / p + 1, a / p, p);
    }
  }

  /** Division and remainder are determined by `a == q * p + r`. */
  lemma {:induction false} DivUnique(a: int, q: int, p: int, r: int)
    requires 0 <= r < p && a == q * p + r
    ensures a / p == q && a % p == r
  {
    var q', r' := a / p, a % p;
    assert a == q' * p + r';
    var d := q - q';
    assert d * p == q * p - q' * p == r' - r;
    assert (-d) * p == -(d * p);
    if d >= 1 {
      MulAtLeast(d, p);
    } else if d <= -1 {
      MulAtLeast(-d, p);
    }
  }

  /** The largest member of a set of times, 0 when there is none. */
  ghost function MaxOf(s: set<u64>): (r: u64)
    ensures forall e :: e in s ==> e <= r
    ensures s != {} ==> r in s
    ensures s == {} ==> r == 0
  {
    if s == {} then 0
    else
      var x :| x in s;
      var rest := MaxOf(s - {x});
      assert forall e :: e in s ==> e == x || e in s - {x};
      if s - {x} != {} && rest > x then rest else x
  }

  /** The entries from `at` on: what an ordered map's `split_off(at)` returns. */
  function SplitOff<V>(m: map<u64, V>, at: u64): map<u64, V> {
    map k | k in m && k >= at :: m[k]
  }

  /** The entries before `at`: what `split_off(at)` leaves behind. */
  function Before<V>(m: map<u64, V>, at: u64): map<u64, V> {
    map k | k in m && k < at :: m[k]
  }

  // ---------- sums over sequences ----------

  ghost function Sum<T(!new)>(s: seq<T>, f: T -> nat): nat {
    if s == [] then 0 else Sum(s[..|s| - 1], f) + f(s[|s| - 1])
  }

  lemma {:induction false} SumPush<T(!new)>(s: seq<T>, x: T, f: T -> nat)
    ensures Sum(s + [x], f) == Sum(s, f) + f(x)
  {
    assert (s + [x])[..|s|] == s;
  }

  lemma {:induction false} SumConcat<T(!new)>(s: seq<T>, t: seq<T>, f: T -> nat)
    ensures Sum(s + t, f) == Sum(s, f) + Sum(t, f)
    decreases |t|
  {
    if t == [] {
      assert s + t == s;
    } else {
      var init := t[..|t| - 1];
      SumConcat(s, init, f);
      SumPush(s + init, t[|t| - 1], f);
      assert s + t == (s + init) + [t[|t| - 1]];
    }
  }

  lemma {:induction false} SumSplit<T(!new)>(s: seq<T>, i: nat, f: T -> nat)
    requires i < |s|
    ensures Sum(s, f) == Sum(s[..i] + s[i + 1..], f) + f(s[i])
  {
    assert s == s[..i] + ([s[i]] + s[i + 1..]);
    SumConcat(s[..i], [s[i]] + s[i + 1..], f);
    SumConcat([s[i]], s[i + 1..], f);
    SumConcat(s[..i], s[i + 1..], f);
    SumPush([], s[i], f);
    assert [] + [s[i]] == [s[i]];
  }

  lemma {:induction false} MultisetSplit<T>(s: seq<T>, i: nat)
    requires i < |s|
    ensures multiset(s) == multiset(s[..i] + s[i + 1..]) + multiset{s[i]}
  {
    assert s == s[..i] + [s[i]] + s[i + 1..];
  }

  lemma {:induction false} Twice<T>(s: seq<T>, i: nat, j: nat)
    requires i < j < |s| && s[i] == s[j]
    ensures multiset(s)[s[i]] >= 2
  {
    assert s == s[..i] + [s[i]] + s[i + 1..j] + [s[j]] + s[j + 1..];
  }

  lemma {:induction false} SameTail<T>(head: seq<T>, x: seq<T>, y: seq<T>)
    requires head + x == head + y
    ensures x == y
  {
    assert x == (head + x)[|head|..] && y == (head + y)[|head|..];
  }

  lemma {:induction false} MultisetCancel<T>(a: multiset<T>, b: multiset<T>, x: T)
    requires a + multiset{x} == b + multiset{x}
    ensures a == b
  {
    assert a == (a + multiset{x}) - multiset{x};
    assert b == (b + multiset{x}) - multiset{x};
  }

  lemma {:induction false} RemoveSame<T>(init: seq<T>, x: T, h: seq<T>, g: seq<T>) returns (i: nat, rest: seq<T>)
    requires h == init + [x] && multiset(h) == multiset(g)
    ensures i < |g| && g[i] == x && rest == g[..i] + g[i + 1..] && multiset(init) == multiset(rest)
  {
    assert x in multiset(h);
    i :| 0 <= i < |g| && g[i] == x;
    rest := g[..i] + g[i + 1..];
    MultisetSplit(g, i);
    MultisetCancel(multiset(init), multiset(rest), x);
  }

  lemma {:induction false} SumPermutation<T(!new)>(s: seq<T>, t: seq<T>, f: T -> nat)
    requires multiset(s) == multiset(t)
    ensures Sum(s, f) == Sum(t, f)
    decreases |s|
  {
    if s == [] {
      assert |multiset(t)| == |t|;
    } else {
      var init, x := s[..|s| - 1], s[|s| - 1];
      assert s == init + [x];
      var i, rest := RemoveSame(init, x, s, t);
      SumSplit(t, i, f);
      SumPermutation(init, rest, f);
    }
  }

  lemma {:induction false} SumEqual<T(!new)>(s: seq<T>, f: T -> nat, g: T -> nat)
    requires forall x :: x in s ==> f(x) == g(x)
    ensures Sum(s, f) == Sum(s, g)
    decreases |s|
  {
    if s != [] {
      SumEqual(s[..|s| - 1], f, g);
    }
  }

  // ---------- sums over maps ----------

  /** The sum of `f` over the values of a map. */
  ghost function MapSum<K(!new), V(!new)>(m: map<K, V>, f: V -> nat): nat
    decreases |m|
  {
    if m == map[] then 0
    else
      var k :| k in m;
      SmallerMap(m, k);
      f(m[k]) + MapSum(m - {k}, f)
  }

  lemma {:induction false} SmallerMap<K, V>(m: map<K, V>, k: K)
    requires k in m
    ensures |m - {k}| == |m| - 1
  {
    assert (m - {k}).Keys == m.Keys - {k};
    assert |m| == |m.Keys| && |m - {k}| == |(m - {k}).Keys|;
  }

  lemma {:induction false} MapSumRemove<K(!new), V(!new)>(m: map<K, V>, k: K, f: V -> nat)
    requires k in m
    ensures MapSum(m, f) == f(m[k]) + MapSum(m - {k}, f)
    decreases |m|
  {
    var k0 :| k0 in m && MapSum(m, f) == f(m[k0]) + MapSum(m - {k0}, f);
    if k0 != k {
      SmallerMap(m, k0);
      SmallerMap(m, k);
      MapSumRemove(m - {k0}, k, f);
      MapSumRemove(m - {k}, k0, f);
      assert m - {k0} - {k} == m - {k} - {k0};
    }
  }

  lemma {:induction false} MapSumUpdate<K(!new), V(!new)>(m: map<K, V>, k: K, v: V, f: V -> nat)
    ensures k in m ==> MapSum(m[k := v], f) == MapSum(m, f) - f(m[k]) + f(v)
    ensures k !in m ==> MapSum(m[k := v], f) == MapSum(m, f) + f(v)
  {
    MapSumRemove(m[k := v], k, f);
    assert m[k := v] - {k} == m - {k};
    if k in m {
      MapSumRemove(m, k, f);
    } else {
      assert m - {k} == m;
    }
  }

  lemma {:induction false} MapSumZero<K(!new), V(!new)>(m: map<K, V>, f: V -> nat)
    requires forall k :: k in m ==> f(m[k]) == 0
    ensures MapSum(m, f) == 0
    decreases |m|
  {
    if m != map[] {
      var k :| k in m && MapSum(m, f) == f(m[k]) + MapSum(m - {k}, f);
      SmallerMap(m, k);
      MapSumZero(m - {k}, f);
    }
  }

  // ---------- finite sets ----------

  lemma {:induction false} SubsetSize<T>(a: set<T>, b: set<T>)
    requires a <= b
    ensures |a| <= |b|
    ensures |a| == |b| ==> a == b
    decreases |a|
  {
    if a != {} {
      var x :| x in a;
      SubsetSize(a - {x}, b - {x});
      assert a == (a - {x}) + {x} && b == (b - {x}) + {x};
    } else if |b| == 0 {
      assert b == {};
    }
  }

  /** The numbers 0, ..., n - 1 as a set. */
  ghost function Below(n: nat): (r: set<nat>)
    ensures forall i :: i in r <==> 0 <= i < n
    ensures |r| == n
  {
    if n == 0 then {} else Below(n - 1) + {n - 1}
  }

  /** An iteration over `all` by increasing key that is past `done`. */
  ghost predicate Iterating(all: set<u64>, done: set<u64>, rest: set<u64>) {
    && rest <= all
    && done == all - rest
    && (done != {} ==> forall e :: e in rest ==> MaxOf(done) < e)
  }

  lemma {:induction false} IterateStart(all: set<u64>)
    ensures Iterating(all, {}, all)
  {
  }

  lemma {:induction false} IterateNext(all: set<u64>, done: set<u64>, rest: set<u64>, e: u64)
    requires Iterating(all, done, rest)
    requires e in rest && forall x :: x in rest ==> e <= x
    ensures Iterating(all, done + {e}, rest - {e})
    ensures e in all && forall d :: d in done ==> d < e
  {
    assert MaxOf(done + {e}) == e;
  }

  lemma {:induction false} IterateEnd(all: set<u64>, done: set<u64>)
    requires Iterating(all, done, {})
    ensures done == all
  {
  }

  /** The smallest end: the source's maps iterate by increasing key. */
  method First(ends: set<u64>) returns (first: u64)
    requires ends != {}
    ensures first in ends && forall e :: e in ends ==> first <= e
  {
    first :| first in ends;
    var rest := ends - {first};
    while rest != {}
      invariant rest <= ends && first in ends
      invariant forall e :: e in ends && e !in rest ==> first <= e
      decreases |rest|
    {
      var e :| e in rest;
      rest := rest - {e};
      if e < first {
        first := e;
      }
    }
  }

  // ---------- windows ----------

  /** The end of the window of a time: the first multiple of `size` after it. */
  lemma {:induction false} NextEnd(t: nat, size: nat, e: nat)
    requires size > 0
    ensures t / size * size + size == e <==> t < e <= t + size && e % size == 0
  {
    var q := t / size;
    FloorAndRest(t, size);
    if q * size + size == e {
      assert (q + 1) * size == q * size + size;
      DivUnique(e, q + 1, size, 0);
    } else if t < e <= t + size && e % size == 0 {
      FloorAndRest(e, size);
      hide *;
      BetweenMultiples(q, e / size, size, t % size);
    }
  }

  lemma {:induction false} BetweenMultiples(q: nat, n: nat, size: nat, r: nat)
    requires r < size && q * size + r < n * size <= q * size + r + size
    ensures n * size == q * size + size
  {
    if n <= q {
      MulMonotone(n, q, size);
    } else if n >= q + 2 {
      assert (q + 2) * size == q * size + 2 * size;
      MulMonotone(q + 2, n, size);
    } else {
      assert n == q + 1;
      assert (q + 1) * size == q * size + size;
    }
  }

  lemma {:induction false} FloorAndRest(t: nat, size: nat)
    requires size > 0
    ensures t == t / size * size + t % size && t % size < size
  {
  }
}
