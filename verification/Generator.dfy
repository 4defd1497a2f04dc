/** The scenario generator: rates, batches and unique identifiers. */
module Generator {
  import opened Basics
  import opened Envelopes
  import opened SeriesKeys
  import L = LabelSets

  /** A scheduled change; only its rate matters here. */
  datatype Change = Change(afterSeconds: nat, rate: Option<nat>)

  /** The settings; `unique` says of each attribute whether its values never repeat. */
  datatype Scenario = Scenario(rate: nat, maxBatch: nat, changes: seq<Change>, unique: seq<bool>) {
    /** What the constructor accepts. */
    ghost predicate Valid() {
      rate > 0 && maxBatch > 0 && forall i :: 0 <= i < |changes| ==> changes[i].rate != Some(0)
    }
  }

  // ---------- rates ----------

  function Applies(c: Change, second: nat): bool {
    second >= c.afterSeconds && c.rate.Some?
  }

  /** The latest change that applies; of several at one time, the last listed. */
  function Latest(changes: seq<Change>, second: nat): Option<Change> {
    if changes == [] then None
    else
      var c := changes[|changes| - 1];
      var before := Latest(changes[..|changes| - 1], second);
      if Applies(c, second) && (before.None? || c.afterSeconds >= before.value.afterSeconds) then Some(c) else before
  }

  function RateAt(s: Scenario, second: nat): nat {
    match Latest(s.changes, second)
    case None => s.rate
    case Some(c) => if c.rate.Some? then c.rate.value else s.rate
  }

  function MaxOver(changes: seq<Change>, rate: nat): nat {
    if changes == [] then rate
    else
      var c := changes[|changes| - 1];
      var before := MaxOver(changes[..|changes| - 1], rate);
      if c.rate.Some? then Max(before, c.rate.value) else before
  }

  function MaxRate(s: Scenario): nat {
    MaxOver(s.changes, s.rate)
  }

  /** `a / b`, rounded up. */
  function DivCeil(a: nat, b: nat): nat
    requires b > 0
  {
    if a % b == 0 then a / b else a / b + 1
  }

  function BatchesPerSecond(s: Scenario): nat
    requires s.maxBatch > 0
  {
    DivCeil(MaxRate(s), s.maxBatch)
  }

  /** The rate in force: that of a change that applies, none later in time, and none at the
      same time listed after it. */
  lemma {:induction false} LatestIsInForce(changes: seq<Change>, second: nat)
    ensures Latest(changes, second).None? ==> forall i :: 0 <= i < |changes| ==> !Applies(changes[i], second)
    ensures Latest(changes, second).Some? ==>
      exists i :: 0 <= i < |changes| && InForce(changes, second, i) && Latest(changes, second) == Some(changes[i])
    decreases |changes|
  {
    if changes != [] {
      var n := |changes| - 1;
      LatestIsInForce(changes[..n], second);
      var before := Latest(changes[..n], second);
      if before.None? {
        if Applies(changes[n], second) {
          assert InForce(changes, second, n);
        }
      } else {
        var i :| 0 <= i < n && InForce(changes[..n], second, i) && before == Some(changes[..n][i]);
        if Applies(changes[n], second) && changes[n].afterSeconds >= before.value.afterSeconds {
          assert InForce(changes, second, n);
        } else {
          assert InForce(changes, second, i);
        }
      }
    }
  }

  ghost predicate InForce(changes: seq<Change>, second: nat, i: nat) {
    && i < |changes| && Applies(changes[i], second)
    && forall j :: 0 <= j < |changes| && Applies(changes[j], second) ==>
         (if j > i then changes[j].afterSeconds < changes[i].afterSeconds else changes[j].afterSeconds <= changes[i].afterSeconds)
  }

  lemma {:induction false} OneInForce(changes: seq<Change>, second: nat, i: nat, j: nat)
    requires i < |changes| && j < |changes| && InForce(changes, second, i) && InForce(changes, second, j)
    ensures i == j
  {
  }

  /** The rate of a second is that of the change with a rate whose time has come, than which none such
      is later in time, nor as late and listed after it; and the base rate if there is none. */
  lemma {:induction false} RateIsInForce(s: Scenario, second: nat)
    ensures forall i :: 0 <= i < |s.changes| && s.changes[i].rate.Some? && InForce(s.changes, second, i) ==> RateAt(s, second) == s.changes[i].rate.value
    ensures (forall i :: 0 <= i < |s.changes| && s.changes[i].rate.Some? ==> second < s.changes[i].afterSeconds) ==> RateAt(s, second) == s.rate
  {
    hide InForce;
    LatestIsInForce(s.changes, second);
    forall i | 0 <= i < |s.changes| && s.changes[i].rate.Some? && InForce(s.changes, second, i)
      ensures RateAt(s, second) == s.changes[i].rate.value
    {
      assert Applies(s.changes[i], second) by { ForceApplies(s.changes, second, i); }
      var j :| 0 <= j < |s.changes| && InForce(s.changes, second, j) && Latest(s.changes, second) == Some(s.changes[j]);
      OneInForce(s.changes, second, i, j);
    }
    if Latest(s.changes, second).Some? {
      var j :| 0 <= j < |s.changes| && InForce(s.changes, second, j) && Latest(s.changes, second) == Some(s.changes[j]);
      ForceApplies(s.changes, second, j);
    }
  }

  lemma {:induction false} ForceApplies(changes: seq<Change>, second: nat, i: nat)
    requires InForce(changes, second, i)
    ensures i < |changes| && second >= changes[i].afterSeconds && changes[i].rate.Some?
  {
  }

  lemma {:induction false} MaxOverBounds(changes: seq<Change>, rate: nat)
    ensures MaxOver(changes, rate) >= rate
    ensures forall i :: 0 <= i < |changes| && changes[i].rate.Some? ==> changes[i].rate.value <= MaxOver(changes, rate)
    decreases |changes|
  {
    if changes != [] {
      MaxOverBounds(changes[..|changes| - 1], rate);
    }
  }

  /** The highest rate is the base rate or that of some change. */
  lemma {:induction false} MaxIsReached(changes: seq<Change>, rate: nat)
    ensures MaxOver(changes, rate) == rate || exists i :: 0 <= i < |changes| && changes[i].rate == Some(MaxOver(changes, rate))
    decreases |changes|
  {
    if changes != [] {
      MaxIsReached(changes[..|changes| - 1], rate);
      assert forall i :: 0 <= i < |changes| - 1 ==> changes[..|changes| - 1][i] == changes[i];
    }
  }

  lemma {:induction false} RateIsBounded(s: Scenario, second: nat)
    ensures RateAt(s, second) <= MaxRate(s)
  {
    MaxOverBounds(s.changes, s.rate);
    LatestIsInForce(s.changes, second);
  }

  // ---------- batches ----------

  /** First point and number of points of batch `index` of a second. */
  function BatchRange(s: Scenario, second: nat, index: nat): (r: (nat, nat))
    requires s.maxBatch > 0 && BatchesPerSecond(s) > 0
  {
    var rate, slots := RateAt(s, second), BatchesPerSecond(s);
    var first := index * rate / slots;
    StepUp(index, rate);
    DivMonotone(index * rate, (index + 1) * rate, slots);
    (first, (index + 1) * rate / slots - first)
  }

  lemma {:induction false} StepUp(index: nat, rate: nat)
    ensures (index + 1) * rate == index * rate + rate
  {
  }

  lemma {:induction false} SlotsSuffice(s: Scenario, second: nat)
    requires s.Valid()
    ensures BatchesPerSecond(s) > 0
    ensures RateAt(s, second) <= BatchesPerSecond(s) * s.maxBatch
  {
    RateIsBounded(s, second);
    MaxOverBounds(s.changes, s.rate);
    DivCeilCovers(MaxRate(s), s.maxBatch);
  }

  lemma {:induction false} DivCeilCovers(a: nat, b: nat)
    requires a > 0 && b > 0
    ensures DivCeil(a, b) > 0 && a <= DivCeil(a, b) * b
  {
    assert a == a / b * b + a % b;
    StepUp(a / b, b);
  }

  /** No fewer batches a second hold the highest rate. */
  lemma {:induction false} FewestBatches(s: Scenario)
    requires s.Valid()
    ensures BatchesPerSecond(s) > 0 && (BatchesPerSecond(s) - 1) * s.maxBatch < MaxRate(s)
  {
    MaxOverBounds(s.changes, s.rate);
    DivCeilCovers(MaxRate(s), s.maxBatch);
    DivCeilIsLeast(MaxRate(s), s.maxBatch);
    hide MaxRate, DivCeil;
  }

  lemma {:induction false} DivCeilIsLeast(a: nat, b: nat)
    requires a > 0 && b > 0
    ensures (DivCeil(a, b) - 1) * b < a
  {
    assert a == a / b * b + a % b;
    if a % b == 0 {
      assert (a / b - 1) * b == a / b * b - b;
    }
  }

  /** A floor moves by at most `m` when its numerator moves by at most `m` steps. */
  lemma {:induction false} FloorStep(a: nat, b: nat, slots: nat, m: nat)
    requires slots > 0 && a <= b <= a + slots * m
    ensures a / slots <= b / slots <= a / slots + m
  {
    DivMonotone(a, b, slots);
    DivMonotone(b, a + slots * m, slots);
    var q, r := a / slots, a % slots;
    assert a == q * slots + r;
    assert (q + m) * slots == q * slots + m * slots;
    assert slots * m == m * slots;
    DivUnique(a + slots * m, q + m, slots, r);
  }

  /** The batches of a second are contiguous, start at its first point, and none is larger
      than the limit. */
  lemma {:induction false} BatchesAreContiguous(s: Scenario, second: nat, index: nat)
    requires s.Valid() && BatchesPerSecond(s) > 0
    ensures BatchRange(s, second, 0).0 == 0
    ensures BatchRange(s, second, index + 1).0 == BatchRange(s, second, index).0 + BatchRange(s, second, index).1
    ensures BatchRange(s, second, index).1 <= s.maxBatch
  {
    var rate, slots := RateAt(s, second), BatchesPerSecond(s);
    SlotsSuffice(s, second);
    StepUp(index, rate);
    FloorStep(index * rate, (index + 1) * rate, slots, s.maxBatch);
    ZeroRange(rate, slots);
    hide RateAt, BatchesPerSecond;
  }

  lemma {:induction false} ZeroRange(rate: nat, slots: nat)
    requires slots > 0
    ensures 0 * rate / slots == 0 && slots * rate / slots == rate
  {
    DivUnique(0 * rate, 0, slots, 0);
    assert slots * rate == rate * slots;
    DivUnique(slots * rate, rate, slots, 0);
  }

  /** The points of the first `n` batches. */
  ghost function PointsIn(s: Scenario, second: nat, n: nat): nat
    requires s.maxBatch > 0 && BatchesPerSecond(s) > 0
  {
    if n == 0 then 0 else PointsIn(s, second, n - 1) + BatchRange(s, second, n - 1).1
  }

  lemma {:induction false} PointsAreFirst(s: Scenario, second: nat, n: nat)
    requires s.Valid() && BatchesPerSecond(s) > 0
    ensures PointsIn(s, second, n) == BatchRange(s, second, n).0
    decreases n
  {
    if n == 0 {
      BatchesAreContiguous(s, second, 0);
    } else {
      PointsAreFirst(s, second, n - 1);
      BatchesAreContiguous(s, second, n - 1);
      hide BatchRange;
    }
  }

  /** A second's batches add up to its rate, exactly. */
  lemma {:induction false} BatchesAddUp(s: Scenario, second: nat)
    requires s.Valid()
    ensures BatchesPerSecond(s) > 0
    ensures PointsIn(s, second, BatchesPerSecond(s)) == RateAt(s, second)
  {
    SlotsSuffice(s, second);
    PointsAreFirst(s, second, BatchesPerSecond(s));
    ZeroRange(RateAt(s, second), BatchesPerSecond(s));
    hide RateAt, BatchesPerSecond, PointsIn;
  }

  /** Every point of every batch is one point of its second. */
  lemma {:induction false} FirstsGrow(s: Scenario, second: nat, i: nat, j: nat)
    requires s.Valid() && BatchesPerSecond(s) > 0 && i <= j
    ensures BatchRange(s, second, i).0 <= BatchRange(s, second, j).0
    decreases j
  {
    if i < j {
      FirstsGrow(s, second, i, j - 1);
      BatchesAreContiguous(s, second, j - 1);
      hide BatchRange;
    }
  }

  // ---------- identifiers ----------

  /** How many of the first `n` attributes are unique. */
  function UniqueBefore(unique: seq<bool>, n: nat): nat
    requires n <= |unique|
  {
    if n == 0 then 0 else UniqueBefore(unique, n - 1) + if unique[n - 1] then 1 else 0
  }

  /** The counter that names attribute `a` of point `j` of a batch. */
  ghost function CounterOf(s: Scenario, second: nat, index: nat, j: nat, a: nat): nat
    requires s.maxBatch > 0 && BatchesPerSecond(s) > 0 && a < |s.unique|
  {
    second * MaxRate(s) + BatchRange(s, second, index).0 + j * UniqueBefore(s.unique, |s.unique|) + UniqueBefore(s.unique, a) + 1
  }

  class Generator {
    const s: Scenario
    var uniqueCounter: nat

    constructor (s: Scenario)
      ensures this.s == s && uniqueCounter == 0
    {
      this.s := s;
      uniqueCounter := 0;
    }

    /** The counters of a batch: for each point, each attribute's (None if it draws its value). */
    method Batch(second: nat, index: nat) returns (points: seq<seq<Option<nat>>>)
      requires s.Valid() && BatchesPerSecond(s) > 0
      modifies this
      ensures |points| == BatchRange(s, second, index).1
      ensures forall j :: 0 <= j < |points| ==> |points[j]| == |s.unique|
      ensures forall j, a :: 0 <= j < |points| && 0 <= a < |s.unique| ==>
        points[j][a] == if s.unique[a] then Some(CounterOf(s, second, index, j, a)) else None
    {
      hide BatchRange, MaxRate, BatchesPerSecond;
      var (first, count) := BatchRange(s, second, index);
      uniqueCounter := second * MaxRate(s) + first;
      ghost var start := uniqueCounter;
      ghost var u := UniqueBefore(s.unique, |s.unique|);
      points := [];
      for j := 0 to count
        invariant |points| == j && uniqueCounter == start + j * u
        invariant forall i :: 0 <= i < j ==> |points[i]| == |s.unique|
        invariant forall i, a :: 0 <= i < j && 0 <= a < |s.unique| ==>
          points[i][a] == if s.unique[a] then Some(CounterOf(s, second, index, i, a)) else None
      {
        var point := Values();
        StepUp(j, u);
        assert forall a :: 0 <= a < |s.unique| && s.unique[a] ==> point[a] == Some(CounterOf(s, second, index, j, a));
        points := points + [point];
      }
    }

    /** One point: every unique attribute takes the next counter. */
    method Values() returns (point: seq<Option<nat>>)
      modifies this
      ensures |point| == |s.unique| && uniqueCounter == old(uniqueCounter) + UniqueBefore(s.unique, |s.unique|)
      ensures forall a :: 0 <= a < |point| ==>
        point[a] == if s.unique[a] then Some(old(uniqueCounter) + UniqueBefore(s.unique, a) + 1) else None
    {
      point := [];
      for a := 0 to |s.unique|
        invariant |point| == a && uniqueCounter == old(uniqueCounter) + UniqueBefore(s.unique, a)
        invariant forall i :: 0 <= i < a ==> point[i] == if s.unique[i] then Some(old(uniqueCounter) + UniqueBefore(s.unique, i) + 1) else None
      {
        if s.unique[a] {
          uniqueCounter := uniqueCounter + 1;
          point := point + [Some(uniqueCounter)];
        } else {
          point := point + [None];
        }
      }
    }
  }

  /** The value of a unique attribute: its key, the seed and the counter. */
  function UniqueValue(key: seq<byte>, seed: nat, counter: nat): seq<byte> {
    key + [0x2D] + Decimal(seed) + [0x2D] + Decimal(counter)
  }

  /** With one unique attribute, a batch's counters number its points within the scenario. */
  lemma {:induction false} SingleCounter(s: Scenario, second: nat, index: nat, j: nat, a: nat)
    requires s.Valid() && BatchesPerSecond(s) > 0 && a < |s.unique| && s.unique[a] && UniqueBefore(s.unique, |s.unique|) == 1
    requires j < BatchRange(s, second, index).1 && index < BatchesPerSecond(s)
    ensures var point := BatchRange(s, second, index).0 + j;
      point < RateAt(s, second) <= MaxRate(s) && CounterOf(s, second, index, j, a) == second * MaxRate(s) + point + 1
  {
    UniqueGrows(s.unique, a + 1, |s.unique|);
    BatchesAreContiguous(s, second, index);
    FirstsGrow(s, second, index + 1, BatchesPerSecond(s));
    PointsAreFirst(s, second, BatchesPerSecond(s));
    BatchesAddUp(s, second);
    RateIsBounded(s, second);
    hide BatchRange, RateAt, MaxRate, BatchesPerSecond, PointsIn;
  }

  lemma {:induction false} UniqueGrows(unique: seq<bool>, m: nat, n: nat)
    requires m <= n <= |unique|
    ensures UniqueBefore(unique, m) <= UniqueBefore(unique, n)
    decreases n
  {
    if m < n {
      UniqueGrows(unique, m, n - 1);
    }
  }

  lemma {:induction false} SameSlot(second: nat, point: nat, second': nat, point': nat, width: nat)
    requires point < width && point' < width && second * width + point == second' * width + point'
    ensures second == second' && point == point'
  {
    DivUnique(second * width + point, second, width, point);
    DivUnique(second' * width + point', second', width, point');
  }

  /** With a single unique attribute, no two points of the whole scenario have the same
      identifier. */
  lemma {:induction false} IdentifiersAreDistinct(s: Scenario, key: seq<byte>, seed: nat, a: nat,
                               second: nat, index: nat, j: nat, second': nat, index': nat, j': nat)
    requires s.Valid() && BatchesPerSecond(s) > 0 && a < |s.unique| && s.unique[a] && UniqueBefore(s.unique, |s.unique|) == 1
    requires index < BatchesPerSecond(s) && index' < BatchesPerSecond(s)
    requires j < BatchRange(s, second, index).1 && j' < BatchRange(s, second', index').1
    requires UniqueValue(key, seed, CounterOf(s, second, index, j, a)) == UniqueValue(key, seed, CounterOf(s, second', index', j', a))
    ensures (second, index, j) == (second', index', j')
  {
    var n, m := CounterOf(s, second, index, j, a), CounterOf(s, second', index', j', a);
    SameTail(key + [0x2D] + Decimal(seed) + [0x2D], Decimal(n), Decimal(m));
    DecimalIsInjective(n, m);
    SingleCounter(s, second, index, j, a);
    SingleCounter(s, second', index', j', a);
    SameSlot(second, BatchRange(s, second, index).0 + j, second', BatchRange(s, second', index').0 + j', MaxRate(s));
    SameBatch(s, second, index, j, index', j');
    SameBatch(s, second, index', j', index, j);
    hide BatchRange, BatchesPerSecond, CounterOf, MaxRate;
  }

  lemma {:induction false} SameBatch(s: Scenario, second: nat, index: nat, j: nat, index': nat, j': nat)
    requires s.Valid() && BatchesPerSecond(s) > 0
    requires j < BatchRange(s, second, index).1
    requires BatchRange(s, second, index).0 + j == BatchRange(s, second, index').0 + j'
    ensures index' <= index
  {
    BatchesAreContiguous(s, second, index);
    if index < index' {
      FirstsGrow(s, second, index + 1, index');
    }
    hide BatchRange;
  }

  /** Within a batch no two unique attributes share a counter, on one point or on several. */
  lemma {:induction false} BatchCountersDiffer(s: Scenario, second: nat, index: nat, j: nat, a: nat, j': nat, a': nat)
    requires s.maxBatch > 0 && BatchesPerSecond(s) > 0
    requires a < |s.unique| && a' < |s.unique| && s.unique[a] && s.unique[a']
    requires CounterOf(s, second, index, j, a) == CounterOf(s, second, index, j', a')
    ensures j == j' && a == a'
  {
    hide MaxRate, BatchRange, BatchesPerSecond;
    var u := UniqueBefore(s.unique, |s.unique|);
    UniqueGrows(s.unique, a + 1, |s.unique|);
    UniqueGrows(s.unique, a' + 1, |s.unique|);
    SameSlot(j, UniqueBefore(s.unique, a), j', UniqueBefore(s.unique, a'), u);
    if a < a' {
      UniqueGrows(s.unique, a + 1, a');
    } else if a' < a {
      UniqueGrows(s.unique, a' + 1, a);
    }
  }

  lemma {:induction false} DecimalUndashed(n: nat)
    ensures 0x2D !in Decimal(n)
    decreases n
  {
    if n >= 10 {
      DecimalUndashed(n / 10);
    }
  }

  /** Sources with different seeds never share an identifier of one attribute. */
  lemma {:induction false} SeedsKeepApart(key: seq<byte>, seed: nat, counter: nat, seed': nat, counter': nat)
    requires UniqueValue(key, seed, counter) == UniqueValue(key, seed', counter')
    ensures seed == seed' && counter == counter'
  {
    hide Decimal;
    var a, b := Decimal(seed) + [0x2D] + Decimal(counter), Decimal(seed') + [0x2D] + Decimal(counter');
    assert key + [0x2D] + a == UniqueValue(key, seed, counter) && key + [0x2D] + b == UniqueValue(key, seed', counter');
    SameTail(key + [0x2D], a, b);
    DecimalUndashed(seed);
    DecimalUndashed(seed');
    L.SplitAtMark(Decimal(seed), Decimal(counter), Decimal(seed'), Decimal(counter'), 0x2D);
    DecimalIsInjective(seed, seed');
    DecimalIsInjective(counter, counter');
  }

  // ---------- when identifiers are distinct ----------

  /** Point `j` of batch `index` of a second. */
  datatype Place = Place(second: nat, index: nat, j: nat)

  ghost predicate Exists(s: Scenario, at: Place)
    requires s.maxBatch > 0 && BatchesPerSecond(s) > 0
  {
    at.index < BatchesPerSecond(s) && at.j < BatchRange(s, at.second, at.index).1
  }

  ghost function CounterAt(s: Scenario, at: Place, a: nat): nat
    requires s.maxBatch > 0 && BatchesPerSecond(s) > 0 && a < |s.unique|
  {
    CounterOf(s, at.second, at.index, at.j, a)
  }

  /** Attribute `a` never takes a counter twice. */
  ghost predicate NeverRepeats(s: Scenario, a: nat)
    requires s.maxBatch > 0 && BatchesPerSecond(s) > 0 && a < |s.unique|
  {
    forall p: Place, q: Place :: Exists(s, p) && Exists(s, q) && CounterAt(s, p, a) == CounterAt(s, q, a) ==> p == q
  }

  /** The scenarios with these attributes never repeat a counter of attribute `a`. */
  ghost predicate NoneRepeats(unique: seq<bool>, a: nat)
    requires a < |unique|
  {
    forall s: Scenario :: s.Valid() && s.unique == unique ==> BatchesPerSecond(s) > 0 && NeverRepeats(s, a)
  }

  /** Whatever the rates and the batch size, a unique attribute never repeats a counter exactly
      when it is the only unique one. */
  lemma {:induction false} DistinctExactlyWhenSingle(unique: seq<bool>, a: nat)
    requires a < |unique| && unique[a]
    ensures NoneRepeats(unique, a) <==> forall i :: 0 <= i < |unique| && unique[i] ==> i == a
  {
    hide NeverRepeats;
    if i :| 0 <= i < |unique| && unique[i] && i != a {
      AnotherCounts(unique, a, i);
      SeveralRepeat(unique, a);
      var s := Colliding(unique);
      assert s.Valid() && s.unique == unique;
    } else {
      OnlyOneCounts(unique, a, |unique|);
      forall s: Scenario | s.Valid() && s.unique == unique
        ensures BatchesPerSecond(s) > 0 && NeverRepeats(s, a)
      {
        SlotsSuffice(s, 0);
        SingleNeverRepeats(s, a);
      }
    }
  }

  lemma {:induction false} OnlyOneCounts(unique: seq<bool>, a: nat, n: nat)
    requires a < |unique| && n <= |unique| && forall i :: 0 <= i < |unique| ==> (unique[i] <==> i == a)
    ensures UniqueBefore(unique, n) == if a < n then 1 else 0
    decreases n
  {
    if n > 0 {
      OnlyOneCounts(unique, a, n - 1);
    }
  }

  lemma {:induction false} AnotherCounts(unique: seq<bool>, a: nat, i: nat)
    requires a < |unique| && i < |unique| && unique[a] && unique[i] && i != a
    ensures UniqueBefore(unique, |unique|) >= 2
  {
    UniqueGrows(unique, Min(a, i) + 1, Max(a, i));
    UniqueGrows(unique, Max(a, i) + 1, |unique|);
  }

  lemma {:induction false} SingleNeverRepeats(s: Scenario, a: nat)
    requires s.Valid() && BatchesPerSecond(s) > 0 && a < |s.unique| && s.unique[a] && UniqueBefore(s.unique, |s.unique|) == 1
    ensures NeverRepeats(s, a)
  {
    hide BatchRange, CounterOf, BatchesPerSecond;
    forall p: Place, q: Place | Exists(s, p) && Exists(s, q) && CounterAt(s, p, a) == CounterAt(s, q, a)
      ensures p == q
    {
      IdentifiersAreDistinct(s, [], 0, a, p.second, p.index, p.j, q.second, q.index, q.j);
    }
  }

  /** Two full batches of as many points as there are unique attributes. */
  ghost function Colliding(unique: seq<bool>): Scenario {
    Scenario(2 * UniqueBefore(unique, |unique|), UniqueBefore(unique, |unique|), [], unique)
  }

  /** The counters of neighbouring batches overlap: the second point of batch 0 and the first
      of batch 1 get the same. */
  lemma {:induction false} SeveralRepeat(unique: seq<bool>, a: nat)
    requires a < |unique| && UniqueBefore(unique, |unique|) >= 2
    ensures var s := Colliding(unique);
      s.Valid() && BatchesPerSecond(s) == 2 && !NeverRepeats(s, a)
  {
    var s, u := Colliding(unique), UniqueBefore(unique, |unique|);
    DivUnique(2 * u, 2, u, 0);
    assert BatchesPerSecond(s) == 2;
    assert BatchRange(s, 0, 0) == (0, u) && BatchRange(s, 0, 1) == (u, u);
    var p, q := Place(0, 0, 1), Place(0, 1, 0);
    assert Exists(s, p) && Exists(s, q);
    assert CounterAt(s, p, a) == CounterAt(s, q, a);
  }

  // ---------- a given scenario ----------

  /** The number of points before a batch, the seconds counted at the highest rate. */
  ghost function StartOf(s: Scenario, second: nat, index: nat): nat
    requires s.maxBatch > 0 && BatchesPerSecond(s) > 0
  {
    second * MaxRate(s) + BatchRange(s, second, index).0
  }

  /** No batch starts `j` steps of `u` after another, while that one still has a point `j`. */
  ghost predicate NoneAhead(s: Scenario, u: nat)
    requires s.maxBatch > 0 && BatchesPerSecond(s) > 0
  {
    forall p: Place, q: Place :: Exists(s, p) && Exists(s, q) && p.j > 0 && q.j == 0 ==>
      StartOf(s, q.second, q.index) != StartOf(s, p.second, p.index) + p.j * u
  }

  /** Batches with points start at different points. */
  lemma {:induction false} StartsDiffer(s: Scenario, p: Place, q: Place)
    requires s.Valid() && BatchesPerSecond(s) > 0 && Exists(s, p) && Exists(s, q)
    requires StartOf(s, p.second, p.index) == StartOf(s, q.second, q.index)
    ensures p.second == q.second && p.index == q.index
  {
    WithinSecond(s, p);
    WithinSecond(s, q);
    SameSlot(p.second, BatchRange(s, p.second, p.index).0, q.second, BatchRange(s, q.second, q.index).0, MaxRate(s));
    hide BatchRange, MaxRate, BatchesPerSecond;
    SameBatch(s, p.second, p.index, 0, q.index, 0);
    SameBatch(s, p.second, q.index, 0, p.index, 0);
  }

  lemma {:induction false} WithinSecond(s: Scenario, p: Place)
    requires s.Valid() && BatchesPerSecond(s) > 0 && Exists(s, p)
    ensures BatchRange(s, p.second, p.index).0 < MaxRate(s)
  {
    hide BatchRange, RateAt, MaxRate, BatchesPerSecond, PointsIn;
    BatchesAreContiguous(s, p.second, p.index);
    FirstsGrow(s, p.second, p.index + 1, BatchesPerSecond(s));
    PointsAreFirst(s, p.second, BatchesPerSecond(s));
    BatchesAddUp(s, p.second);
    RateIsBounded(s, p.second);
  }

  lemma {:induction false} StepsBetween(x: nat, y: nat, j: nat, i: nat, u: nat)
    requires x + j * u == y + i * u && i <= j
    ensures y == x + (j - i) * u
  {
    assert j * u == (j - i) * u + i * u;
  }

  /** Two places whose counters agree, the first further into its batch: the second batch is
      ahead of the first. */
  lemma {:induction false} AgreeMeansAhead(s: Scenario, a: nat, p: Place, q: Place)
    requires s.Valid() && BatchesPerSecond(s) > 0 && a < |s.unique| && NoneAhead(s, UniqueBefore(s.unique, |s.unique|))
    requires Exists(s, p) && Exists(s, q) && q.j <= p.j && CounterAt(s, p, a) == CounterAt(s, q, a)
    ensures p == q
  {
    hide BatchRange, MaxRate, BatchesPerSecond, UniqueBefore;
    var u := UniqueBefore(s.unique, |s.unique|);
    StepsBetween(StartOf(s, p.second, p.index), StartOf(s, q.second, q.index), p.j, q.j, u);
    var p', q' := Place(p.second, p.index, p.j - q.j), Place(q.second, q.index, 0);
    assert Exists(s, p') && Exists(s, q');
    if p.j == q.j {
      assert (p.j - q.j) * u == 0;
      StartsDiffer(s, p, q);
    }
  }

  /** In a given scenario an attribute never repeats a counter exactly when no batch starts a
      multiple of the number of unique attributes after another, within that one's points. */
  lemma {:induction false} RepeatsExactlyWhen(s: Scenario, a: nat)
    requires s.Valid() && a < |s.unique|
    ensures BatchesPerSecond(s) > 0
    ensures NeverRepeats(s, a) <==> NoneAhead(s, UniqueBefore(s.unique, |s.unique|))
  {
    SlotsSuffice(s, 0);
    hide BatchRange, MaxRate, BatchesPerSecond, UniqueBefore;
    var u := UniqueBefore(s.unique, |s.unique|);
    if NoneAhead(s, u) {
      forall p: Place, q: Place | Exists(s, p) && Exists(s, q) && CounterAt(s, p, a) == CounterAt(s, q, a)
        ensures p == q
      {
        if q.j <= p.j {
          AgreeMeansAhead(s, a, p, q);
        } else {
          AgreeMeansAhead(s, a, q, p);
        }
      }
    } else {
      var p: Place, q: Place :| Exists(s, p) && Exists(s, q) && p.j > 0 && q.j == 0
        && StartOf(s, q.second, q.index) == StartOf(s, p.second, p.index) + p.j * u;
      assert q.j * u == 0;
      assert CounterAt(s, p, a) == CounterAt(s, q, a);
    }
  }

  // ---------- a steady scenario ----------

  /** One rate, and batches of one size. */
  ghost predicate Steady(s: Scenario, c: nat) {
    s.Valid() && s.changes == [] && BatchesPerSecond(s) > 0 && c > 0 && s.rate == BatchesPerSecond(s) * c
  }

  lemma {:induction false} SteadyBatch(s: Scenario, c: nat, second: nat, index: nat)
    requires Steady(s, c)
    ensures MaxRate(s) == s.rate && BatchRange(s, second, index) == (index * c, c)
  {
    var slots := BatchesPerSecond(s);
    assert RateAt(s, second) == s.rate;
    hide BatchesPerSecond;
    Product(index, slots, c);
    Product(index + 1, slots, c);
    DivUnique(index * s.rate, index * c, slots, 0);
    DivUnique((index + 1) * s.rate, (index + 1) * c, slots, 0);
    assert (index + 1) * c == index * c + c;
  }

  lemma {:induction false} Product(n: nat, slots: nat, c: nat)
    ensures n * (slots * c) == (n * c) * slots
  {
  }

  lemma {:induction false} SteadyStart(s: Scenario, c: nat, second: nat, index: nat)
    requires Steady(s, c)
    ensures StartOf(s, second, index) == (second * BatchesPerSecond(s) + index) * c
  {
    SteadyBatch(s, c, second, index);
    hide BatchesPerSecond, BatchRange, MaxRate;
    var slots := BatchesPerSecond(s);
    assert second * (slots * c) == second * slots * c;
    assert (second * slots + index) * c == second * slots * c + index * c;
  }

  /** In a steady scenario a unique attribute never repeats exactly when no number of points short
      of a batch takes a multiple of the batch size in counters: nine points a batch and two
      unique attributes never repeat, ten points do. */
  lemma {:induction false} SteadyRepeatsWhen(s: Scenario, c: nat, a: nat)
    requires Steady(s, c) && a < |s.unique|
    ensures NeverRepeats(s, a) <==> forall j: nat :: 0 < j < c ==> j * UniqueBefore(s.unique, |s.unique|) % c != 0
  {
    var u := UniqueBefore(s.unique, |s.unique|);
    RepeatsExactlyWhen(s, a);
    hide NeverRepeats, UniqueBefore;
    if j: nat :| 0 < j < c && j * u % c == 0 {
      SteadyAhead(s, c, u, j);
    } else {
      forall p: Place, q: Place | Exists(s, p) && Exists(s, q) && p.j > 0 && q.j == 0
        ensures StartOf(s, q.second, q.index) != StartOf(s, p.second, p.index) + p.j * u
      {
        SteadyApart(s, c, u, p, q);
      }
    }
  }

  lemma {:induction false} SteadyAhead(s: Scenario, c: nat, u: nat, j: nat)
    requires Steady(s, c) && 0 < j < c && j * u % c == 0
    ensures !NoneAhead(s, u)
  {
    hide Steady;
    var n := j * u / c;
    QuotientRemainder(j * u, c);
    SlotOf(s, c, n);
    SlotOf(s, c, 0);
    hide *;
    var (second, index) := Slot(s, n);
    var (second0, index0) := Slot(s, 0);
    SteadyPlace(s, c, second0, index0, j);
    SteadyPlace(s, c, second, index, 0);
    IsAhead(s, u, Place(second0, index0, j), Place(second, index, 0));
  }

  /** The second and the index of the `n`-th batch of a run. */
  ghost function Slot(s: Scenario, n: nat): (nat, nat)
    requires s.maxBatch > 0 && BatchesPerSecond(s) > 0
  {
    (n / BatchesPerSecond(s), n % BatchesPerSecond(s))
  }

  lemma {:induction false} SlotOf(s: Scenario, c: nat, n: nat)
    requires Steady(s, c)
    ensures s.maxBatch > 0 && BatchesPerSecond(s) > 0 && Slot(s, n).1 < BatchesPerSecond(s)
    ensures StartOf(s, Slot(s, n).0, Slot(s, n).1) == n * c
  {
    hide StartOf;
    QuotientRemainder(n, BatchesPerSecond(s));
    SteadyStart(s, c, Slot(s, n).0, Slot(s, n).1);
  }

  lemma {:induction false} QuotientRemainder(n: nat, d: nat)
    requires d > 0
    ensures n == n / d * d + n % d
  {
  }

  lemma {:induction false} SteadyPlace(s: Scenario, c: nat, second: nat, index: nat, j: nat)
    requires Steady(s, c) && index < BatchesPerSecond(s) && j < c
    ensures Exists(s, Place(second, index, j))
    ensures StartOf(s, second, index) == (second * BatchesPerSecond(s) + index) * c
  {
    SteadyBatch(s, c, second, index);
    SteadyStart(s, c, second, index);
    hide BatchesPerSecond, BatchRange, StartOf;
  }

  lemma {:induction false} IsAhead(s: Scenario, u: nat, p: Place, q: Place)
    requires s.maxBatch > 0 && BatchesPerSecond(s) > 0 && Exists(s, p) && Exists(s, q) && p.j > 0 && q.j == 0
    requires StartOf(s, q.second, q.index) == StartOf(s, p.second, p.index) + p.j * u
    ensures !NoneAhead(s, u)
  {
    hide BatchesPerSecond, Exists, StartOf;
  }

  lemma {:induction false} SteadyApart(s: Scenario, c: nat, u: nat, p: Place, q: Place)
    requires Steady(s, c) && Exists(s, p) && Exists(s, q) && p.j > 0
    requires forall j: nat :: 0 < j < c ==> j * u % c != 0
    ensures StartOf(s, q.second, q.index) != StartOf(s, p.second, p.index) + p.j * u
  {
    SteadyBatch(s, c, p.second, p.index);
    SteadyStart(s, c, p.second, p.index);
    SteadyStart(s, c, q.second, q.index);
    hide BatchesPerSecond, BatchRange, MaxRate, StartOf;
    var x, y := p.second * BatchesPerSecond(s) + p.index, q.second * BatchesPerSecond(s) + q.index;
    if y * c == x * c + p.j * u {
      Multiple(x, y, c, p.j * u);
      assert false;
    }
  }

  lemma {:induction false} Multiple(x: nat, y: nat, c: nat, d: nat)
    requires c > 0 && y * c == x * c + d
    ensures d % c == 0
  {
    if y < x {
      MulMonotone(y, x, c);
    }
    assert d == (y - x) * c + 0;
    if y >= x {
      DivUnique(d, y - x, c, 0);
    }
  }
}
