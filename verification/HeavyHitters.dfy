/** Heavy-hitter accuracy from two truncated top-k lists. */
module HeavyHitters {
  import opened Basics
  import opened Envelopes
  import opened Rankings
  import opened Sorting
  import opened SeriesKeys

  type Key = Text

  /** Largest counts first; ties by key, byte by byte. */
  ghost predicate IsExactTop(top: seq<Ranked<Key>>, counts: map<Key, nat>, k: nat) {
    IsTop(top, counts, k, InOrder)
  }

  method ExactTop(counts: map<Key, nat>, k: nat) returns (top: seq<Ranked<Key>>)
    ensures IsExactTop(top, counts, k)
  {
    ByteOrderIsTotal();
    top := TopOf(counts, k, InOrder);
  }

  // ---------- lists as reported ----------

  /** A `(key, count)` pair as a gauge carries it; the count is a double. */
  datatype Pair = Pair(key: Key, count: real)

  function Reported(top: seq<Ranked<Key>>): seq<Pair> {
    seq(|top|, i requires 0 <= i < |top| => Pair(top[i].key, top[i].count as real))
  }

  datatype Metric = TopK | OtherMetric

  /** An answer gauge: the labels it has, and its value. */
  datatype Gauge = Gauge(metric: Metric, estimate: bool, rank: Option<nat>, key: Option<Key>, value: real)

  /** One gauge a rank, from 1 on. */
  function TopGauges(top: seq<Ranked<Key>>): seq<Gauge> {
    seq(|top|, i requires 0 <= i < |top| => Gauge(TopK, true, Some(i + 1), Some(top[i].key), top[i].count as real))
  }

  datatype RankedPair = RankedPair(rank: nat, pair: Pair)

  predicate ByRank(a: RankedPair, b: RankedPair) {
    a.rank <= b.rank
  }

  /** The top-k estimates among the answers. */
  function TopEstimates(answers: seq<Gauge>): seq<RankedPair> {
    if answers == [] then []
    else
      var g := answers[|answers| - 1];
      TopEstimates(answers[..|answers| - 1]) +
      if g.metric.TopK? && g.estimate && g.rank.Some? && g.key.Some? then [RankedPair(g.rank.value, Pair(g.key.value, g.value))] else []
  }

  function Pairs(ranked: seq<RankedPair>): seq<Pair> {
    seq(|ranked|, i requires 0 <= i < |ranked| => ranked[i].pair)
  }

  /** The pairs of every top-k estimate, by rank. */
  function TopkOf(answers: seq<Gauge>): seq<Pair> {
    Pairs(Sort(TopEstimates(answers), ByRank))
  }

  lemma {:induction false} EstimatesConcat(x: seq<Gauge>, y: seq<Gauge>)
    ensures TopEstimates(x + y) == TopEstimates(x) + TopEstimates(y)
    decreases |y|
  {
    if y == [] {
      assert x + y == x;
    } else {
      EstimatesConcat(x, y[..|y| - 1]);
      assert (x + y)[..|x + y| - 1] == x + y[..|y| - 1];
    }
  }

  /** A top-k gauge of the sketch's answer that has both a rank and a key. */
  ghost predicate IsEstimate(g: Gauge) {
    g.metric.TopK? && g.estimate && g.rank.Some? && g.key.Some?
  }

  lemma {:induction false} NoEstimates(x: seq<Gauge>)
    requires forall i :: 0 <= i < |x| ==> !IsEstimate(x[i])
    ensures TopEstimates(x) == []
    decreases |x|
  {
    if x != [] {
      NoEstimates(x[..|x| - 1]);
    }
  }

  lemma {:induction false} GaugesRead(top: seq<Ranked<Key>>)
    ensures |TopEstimates(TopGauges(top))| == |top|
    ensures forall i :: 0 <= i < |top| ==>
      TopEstimates(TopGauges(top))[i] == RankedPair(i + 1, Pair(top[i].key, top[i].count as real))
    decreases |top|
  {
    if top != [] {
      var n := |top| - 1;
      GaugesRead(top[..n]);
      assert TopGauges(top)[..n] == TopGauges(top[..n]);
    }
  }

  /** Whatever other gauges the answers hold, the top-k is read back as it was ranked. */
  lemma {:induction false} TopkRoundTrip(before: seq<Gauge>, top: seq<Ranked<Key>>, after: seq<Gauge>)
    requires forall i :: 0 <= i < |before| ==> !IsEstimate(before[i])
    requires forall i :: 0 <= i < |after| ==> !IsEstimate(after[i])
    ensures TopkOf(before + TopGauges(top) + after) == Reported(top)
  {
    OnlyTopEstimates(before, top, after);
    GaugesRead(top);
    var read := TopEstimates(TopGauges(top));
    hide TopEstimates, TopGauges, Sort;
    SortedStays(read, ByRank);
    assert Pairs(read) == Reported(top);
  }

  lemma {:induction false} OnlyTopEstimates(before: seq<Gauge>, top: seq<Ranked<Key>>, after: seq<Gauge>)
    requires forall i :: 0 <= i < |before| ==> !IsEstimate(before[i])
    requires forall i :: 0 <= i < |after| ==> !IsEstimate(after[i])
    ensures TopEstimates(before + TopGauges(top) + after) == TopEstimates(TopGauges(top))
  {
    hide *;
    NoEstimates(before);
    NoEstimates(after);
    EstimatesConcat(before, TopGauges(top));
    EstimatesConcat(before + TopGauges(top), after);
    var read := TopEstimates(TopGauges(top));
    assert [] + read + [] == read;
  }

  // ---------- accuracy ----------

  datatype Accuracy = Accuracy(truth: nat, reported: nat, truePositives: nat, precision: real, recall: real, f1: real)

  function AtLeast(list: seq<Pair>, threshold: real): seq<Pair> {
    if list == [] then []
    else
      var e := list[|list| - 1];
      AtLeast(list[..|list| - 1], threshold) + if e.count >= threshold then [e] else []
  }

  function KeysOf(list: seq<Pair>): set<Key> {
    set i | 0 <= i < |list| :: list[i].key
  }

  /** A full list whose smallest count still reaches the threshold. */
  predicate CutShort(list: seq<Pair>, k: nat, threshold: real) {
    |list| >= k && forall i :: 0 <= i < |list| ==> list[i].count >= threshold
  }

  /** How many of a list's entries have a key in `keys`. */
  function Hits(list: seq<Pair>, keys: set<Key>): nat {
    if list == [] then 0 else Hits(list[..|list| - 1], keys) + if list[|list| - 1].key in keys then 1 else 0
  }

  function Ratio(n: nat, d: nat): real {
    if d == 0 then 1.0 else n as real / d as real
  }

  function F1(p: real, r: real): real {
    if p + r == 0.0 then 0.0 else 2.0 * p * r / (p + r)
  }

  /** Compare a sketch's top-k with the exact top-k at a threshold. */
  function HeavyHitterAccuracy(phi: real, points: real, k: nat, exact: seq<Pair>, sketch: seq<Pair>): Option<Accuracy> {
    var threshold := phi * points;
    if CutShort(exact, k, threshold) || CutShort(sketch, k, threshold) then None
    else
      var truth := KeysOf(AtLeast(exact, threshold));
      var reported := AtLeast(sketch, threshold);
      var tp := Hits(reported, truth);
      var precision, recall := Ratio(tp, |reported|), Ratio(tp, |truth|);
      Some(Accuracy(|truth|, |reported|, tp, precision, recall, F1(precision, recall)))
  }

  // ---------- truncation loses no heavy hitter ----------

  lemma {:induction false} AtLeastKeeps(list: seq<Pair>, threshold: real)
    ensures forall e :: e in AtLeast(list, threshold) <==> e in list && e.count >= threshold
    ensures |AtLeast(list, threshold)| <= |list|
    decreases |list|
  {
    if list != [] {
      AtLeastKeeps(list[..|list| - 1], threshold);
      assert list == list[..|list| - 1] + [list[|list| - 1]];
    }
  }

  /** The heavy hitters of the full counts. */
  ghost function HeavyKeys(counts: map<Key, nat>, threshold: real): set<Key> {
    set k | k in counts && counts[k] as real >= threshold
  }

  /** A key left out by the truncation has at most the count of any key kept. */
  lemma {:induction false} LeftOutIsSmaller(ranking: seq<Ranked<Key>>, k: nat, i: nat, e: Ranked<Key>)
    requires Sorted(ranking, ByCount<Key>(InOrder)) && i < k < |ranking| && e in ranking && e !in ranking[..k]
    ensures e.count <= ranking[i].count
  {
    assert forall x :: 0 <= x < k ==> ranking[..k][x] == ranking[x];
    var j :| 0 <= j < |ranking| && ranking[j] == e;
    assert ByCount<Key>(InOrder)(ranking[i], ranking[j]);
  }

  lemma {:induction false} ShownKeys(list: seq<Pair>, threshold: real, key: Key)
    ensures key in KeysOf(AtLeast(list, threshold)) <==> exists i :: 0 <= i < |list| && list[i].key == key && list[i].count >= threshold
  {
    var shown := AtLeast(list, threshold);
    AtLeastKeeps(list, threshold);
    if i :| 0 <= i < |list| && list[i].key == key && list[i].count >= threshold {
      assert list[i] in shown;
    }
    if key in KeysOf(shown) {
      var j :| 0 <= j < |shown| && shown[j].key == key;
      assert shown[j] in list;
    }
  }

  /** If the exact list is the top-k of the full counts and is not cut short, the keys it shows
      at the threshold are exactly the heavy hitters of the full counts. */
  lemma {:induction false} TruncationIsSound(counts: map<Key, nat>, top: seq<Ranked<Key>>, k: nat, threshold: real)
    requires IsExactTop(top, counts, k) && !CutShort(Reported(top), k, threshold)
    ensures KeysOf(AtLeast(Reported(top), threshold)) == HeavyKeys(counts, threshold)
  {
    var ranking :| IsRanking(ranking, counts, InOrder) && top == Take(ranking, k);
    hide IsExactTop, IsTop, AtLeast, KeysOf, CutShort, IsRanking;
    forall key: Key
      ensures key in KeysOf(AtLeast(Reported(top), threshold)) <==> key in HeavyKeys(counts, threshold)
    {
      ShownKeys(Reported(top), threshold, key);
      HeavyAreShown(counts, ranking, top, k, threshold, key);
    }
    hide Reported, HeavyKeys;
  }

  lemma {:induction false} HeavyAreShown(counts: map<Key, nat>, ranking: seq<Ranked<Key>>, top: seq<Ranked<Key>>, k: nat, threshold: real, key: Key)
    requires IsRanking(ranking, counts, InOrder) && top == Take(ranking, k) && !CutShort(Reported(top), k, threshold)
    ensures key in HeavyKeys(counts, threshold)
      <==> exists i :: 0 <= i < |top| && Reported(top)[i].key == key && Reported(top)[i].count >= threshold
  {
    assert forall i :: 0 <= i < |top| ==> top[i] == ranking[i];
    if key in HeavyKeys(counts, threshold) {
      var e := Ranked(key, counts[key]);
      if e !in top {
        LeftOutIsLight(ranking, top, k, threshold, e);
        assert false;
      }
      var i :| 0 <= i < |top| && top[i] == e;
      assert Reported(top)[i] == Pair(key, e.count as real);
    }
  }

  /** What the truncation leaves out is below the threshold. */
  lemma {:induction false} LeftOutIsLight(ranking: seq<Ranked<Key>>, top: seq<Ranked<Key>>, k: nat, threshold: real, e: Ranked<Key>)
    requires Sorted(ranking, ByCount<Key>(InOrder)) && top == Take(ranking, k) && !CutShort(Reported(top), k, threshold)
    requires e in ranking && e !in top
    ensures (e.count as real) < threshold
  {
    var i :| 0 <= i < |top| && Reported(top)[i].count < threshold;
    LeftOutIsSmaller(ranking, k, i, e);
    assert top[i] == ranking[i];
  }

  // ---------- the measures ----------

  ghost predicate DistinctKeys(list: seq<Pair>) {
    forall i, j :: 0 <= i < j < |list| ==> list[i].key != list[j].key
  }

  lemma {:induction false} AtLeastDistinct(list: seq<Pair>, threshold: real)
    requires DistinctKeys(list)
    ensures DistinctKeys(AtLeast(list, threshold))
    decreases |list|
  {
    if list != [] {
      var init, last := list[..|list| - 1], list[|list| - 1];
      AtLeastDistinct(init, threshold);
      AtLeastKeeps(init, threshold);
      forall i | 0 <= i < |AtLeast(init, threshold)|
        ensures AtLeast(init, threshold)[i].key != last.key
      {
        assert AtLeast(init, threshold)[i] in init;
      }
    }
  }

  lemma {:induction false} HitsBounded(list: seq<Pair>, keys: set<Key>)
    ensures Hits(list, keys) <= |list|
    decreases |list|
  {
    if list != [] {
      HitsBounded(list[..|list| - 1], keys);
    }
  }

  /** With distinct keys, no key is hit twice. */
  lemma {:induction false} HitsAreKeys(list: seq<Pair>, keys: set<Key>)
    requires DistinctKeys(list)
    ensures Hits(list, keys) == |KeysOf(list) * keys|
    decreases |list|
  {
    if list == [] {
      assert KeysOf(list) * keys == {};
    } else {
      var init, last := list[..|list| - 1], list[|list| - 1];
      HitsAreKeys(init, keys);
      KeysPush(init, last, keys);
      assert list == init + [last];
    }
    hide KeysOf;
  }

  lemma {:induction false} KeysPush(init: seq<Pair>, last: Pair, keys: set<Key>)
    requires DistinctKeys(init + [last])
    ensures |KeysOf(init + [last]) * keys| == |KeysOf(init) * keys| + if last.key in keys then 1 else 0
  {
    var list := init + [last];
    assert forall i :: 0 <= i < |init| ==> list[i] == init[i];
    assert list[|init|] == last;
    assert last.key !in KeysOf(init);
    KeysUnion(init, last);
    hide KeysOf, DistinctKeys;
    if last.key in keys {
      assert KeysOf(list) * keys == (KeysOf(init) * keys) + {last.key};
    } else {
      assert KeysOf(list) * keys == KeysOf(init) * keys;
    }
  }

  lemma {:induction false} KeysUnion(init: seq<Pair>, last: Pair)
    ensures KeysOf(init + [last]) == KeysOf(init) + {last.key}
  {
    var list := init + [last];
    assert list[|init|] == last;
    forall k | k in KeysOf(init)
      ensures k in KeysOf(list)
    {
      var i :| 0 <= i < |init| && init[i].key == k;
      assert list[i].key == k;
    }
  }

  lemma {:induction false} RatioBounds(n: nat, d: nat)
    requires n <= d
    ensures 0.0 <= Ratio(n, d) <= 1.0
  {
    if d > 0 {
      QuotientBounds(n as real, d as real);
    }
  }

  /** The harmonic mean of two fractions is at most the larger, and never negative. */
  lemma {:induction false} F1Bounds(p: real, r: real)
    requires 0.0 <= p <= 1.0 && 0.0 <= r <= 1.0
    ensures 0.0 <= F1(p, r) <= 1.0
  {
    if p + r != 0.0 {
      ProductBelow(p, r);
      TwiceBelow(p, r);
      QuotientBounds(2.0 * p * r, p + r);
    }
  }

  lemma {:induction false} ProductBelow(p: real, r: real)
    requires 0.0 <= p <= 1.0 && 0.0 <= r <= 1.0
    ensures 0.0 <= p * r <= p && p * r <= r
  {
    Nonnegative(p, r);
    Nonnegative(p, 1.0 - r);
    Nonnegative(1.0 - p, r);
    assert p * (1.0 - r) == p - p * r;
    assert (1.0 - p) * r == r - p * r;
  }

  lemma {:induction false} TwiceBelow(p: real, r: real)
    requires 0.0 <= p * r <= p && p * r <= r
    ensures 0.0 <= 2.0 * p * r <= p + r
  {
    Twice(p, r);
    SumBelow(p * r, p, r);
  }

  lemma {:induction false} Twice(p: real, r: real)
    ensures 2.0 * p * r == p * r + p * r
  {
  }

  lemma {:induction false} SumBelow(m: real, p: real, r: real)
    requires 0.0 <= m <= p && m <= r
    ensures 0.0 <= m + m <= p + r
  {
  }

  lemma {:induction false} Nonnegative(p: real, r: real)
    requires 0.0 <= p && 0.0 <= r
    ensures 0.0 <= p * r
  {
  }

  lemma {:induction false} QuotientBounds(n: real, d: real)
    requires 0.0 <= n <= d && d > 0.0
    ensures 0.0 <= n / d <= 1.0
  {
    var x := n / d;
    QuotientTimes(n, d);
    LessOne(x, d);
    Sign(x, d);
    Sign(1.0 - x, d);
  }

  lemma {:induction false} LessOne(x: real, d: real)
    ensures (1.0 - x) * d == d - x * d
  {
  }

  lemma {:induction false} Sign(x: real, d: real)
    requires d > 0.0 && x * d >= 0.0
    ensures x >= 0.0
  {
  }

  /** With the exact top-k and a sketch list of distinct keys, the measures mean what they
      say: `truth` counts all heavy hitters of the full counts, the true positives are the
      reported ones among them, and precision, recall and F1 are fractions. */
  lemma {:induction false} AccuracyIsSound(phi: real, points: real, k: nat, counts: map<Key, nat>, top: seq<Ranked<Key>>, sketch: seq<Pair>)
    requires IsExactTop(top, counts, k) && DistinctKeys(sketch)
    requires HeavyHitterAccuracy(phi, points, k, Reported(top), sketch).Some?
    ensures var a := HeavyHitterAccuracy(phi, points, k, Reported(top), sketch).value;
      var heavy := HeavyKeys(counts, phi * points);
      var reported := KeysOf(AtLeast(sketch, phi * points));
      && a.truth == |heavy| && a.reported == |reported|
      && a.truePositives == |reported * heavy| <= Min(a.truth, a.reported)
      && 0.0 <= a.precision <= 1.0 && 0.0 <= a.recall <= 1.0 && 0.0 <= a.f1 <= 1.0
  {
    var threshold := phi * points;
    var heavy := HeavyKeys(counts, threshold);
    var reported := AtLeast(sketch, threshold);
    TruncationIsSound(counts, top, k, threshold);
    AtLeastDistinct(sketch, threshold);
    HitsAreKeys(reported, heavy);
    HitsAreKeys(reported, KeysOf(reported));
    AllHit(reported, KeysOf(reported));
    assert KeysOf(reported) * KeysOf(reported) == KeysOf(reported);
    SubsetSize(KeysOf(reported) * heavy, heavy);
    SubsetSize(KeysOf(reported) * heavy, KeysOf(reported));
    RatioBounds(Hits(reported, heavy), |reported|);
    RatioBounds(Hits(reported, heavy), |heavy|);
    F1Bounds(Ratio(Hits(reported, heavy), |reported|), Ratio(Hits(reported, heavy), |heavy|));
    hide Hits, AtLeast, F1, Ratio, KeysOf, HeavyKeys, CutShort, IsExactTop;
  }

  lemma {:induction false} AllHit(list: seq<Pair>, keys: set<Key>)
    requires forall i :: 0 <= i < |list| ==> list[i].key in keys
    ensures Hits(list, keys) == |list|
    decreases |list|
  {
    if list != [] {
      AllHit(list[..|list| - 1], keys);
    }
  }

  /** The measures, each against its own denominator: precision is the share of the reported keys that are
      heavy hitters, recall the share of the heavy hitters that are reported, each 1 when there
      are none to count, and F1 is their harmonic mean. */
  lemma {:induction false} MeasuresAre(phi: real, points: real, k: nat, exact: seq<Pair>, sketch: seq<Pair>)
    requires HeavyHitterAccuracy(phi, points, k, exact, sketch).Some?
    ensures var a := HeavyHitterAccuracy(phi, points, k, exact, sketch).value;
      && (if a.reported == 0 then a.precision == 1.0 else a.precision * a.reported as real == a.truePositives as real)
      && (if a.truth == 0 then a.recall == 1.0 else a.recall * a.truth as real == a.truePositives as real)
      && (if a.precision + a.recall == 0.0 then a.f1 == 0.0 else a.f1 * (a.precision + a.recall) == 2.0 * a.precision * a.recall)
  {
    hide AtLeast, KeysOf, Hits, CutShort, Ratio, F1;
    var a := HeavyHitterAccuracy(phi, points, k, exact, sketch).value;
    RatioIs(a.truePositives, a.reported);
    RatioIs(a.truePositives, a.truth);
    F1Is(a.precision, a.recall);
  }

  lemma {:induction false} RatioIs(n: nat, d: nat)
    ensures if d == 0 then Ratio(n, d) == 1.0 else Ratio(n, d) * d as real == n as real
  {
    if d != 0 {
      QuotientTimes(n as real, d as real);
    }
  }

  lemma {:induction false} F1Is(p: real, r: real)
    ensures if p + r == 0.0 then F1(p, r) == 0.0 else F1(p, r) * (p + r) == 2.0 * p * r
  {
    if p + r != 0.0 {
      QuotientTimes(2.0 * p * r, p + r);
    }
  }

  lemma {:induction false} QuotientTimes(n: real, d: real)
    requires d != 0.0
    ensures n / d * d == n
  {
  }

  /** There is an answer exactly when both lists show all that reaches the threshold: each is shorter than
      `k` or ends below it. */
  lemma {:induction false} AnsweredExactlyWhen(phi: real, points: real, k: nat, exact: seq<Pair>, sketch: seq<Pair>)
    ensures HeavyHitterAccuracy(phi, points, k, exact, sketch).Some? <==>
      && (|exact| < k || exists i :: 0 <= i < |exact| && exact[i].count < phi * points)
      && (|sketch| < k || exists i :: 0 <= i < |sketch| && sketch[i].count < phi * points)
  {
    hide AtLeast, KeysOf, Hits, Ratio, F1;
  }

  // ---------- distinct keys are needed ----------

  /** Whatever was counted, the recall of a sketch list against the exact top-k is a fraction. */
  ghost predicate RecallInRange(phi: real, points: real, k: nat, sketch: seq<Pair>) {
    forall counts: map<Key, nat>, top: seq<Ranked<Key>> :: Occurred(counts) && IsExactTop(top, counts, k) ==>
      RecallAtMostOne(phi, points, k, Reported(top), sketch)
  }

  /** Every key has been counted at least once. */
  ghost predicate Occurred(counts: map<Key, nat>) {
    forall key :: key in counts ==> counts[key] > 0
  }

  ghost predicate RecallAtMostOne(phi: real, points: real, k: nat, exact: seq<Pair>, sketch: seq<Pair>) {
    var a := HeavyHitterAccuracy(phi, points, k, exact, sketch);
    a.Some? ==> a.value.recall <= 1.0
  }

  /** The recall of a sketch's top-k is in range for every exact top-k exactly when the keys it
      reports at the threshold are distinct. */
  lemma {:induction false} RecallNeedsDistinctKeys(phi: real, points: real, k: nat, sketch: seq<Pair>)
    requires |sketch| <= k && !CutShort(sketch, k, phi * points)
    ensures RecallInRange(phi, points, k, sketch) <==> DistinctKeys(AtLeast(sketch, phi * points))
  {
    var reported := AtLeast(sketch, phi * points);
    hide RecallAtMostOne, AtLeast, CutShort, IsExactTop, Reported;
    if i, j :| 0 <= i < j < |reported| && reported[i].key == reported[j].key {
      var counts, top := RepeatedKeyIsCountedTwice(phi, points, k, sketch, i, j);
    } else {
      forall counts: map<Key, nat>, top: seq<Ranked<Key>> | Occurred(counts) && IsExactTop(top, counts, k)
        ensures RecallAtMostOne(phi, points, k, Reported(top), sketch)
      {
        DistinctRecall(phi, points, k, Reported(top), sketch);
      }
    }
  }

  lemma {:induction false} DistinctRecall(phi: real, points: real, k: nat, exact: seq<Pair>, sketch: seq<Pair>)
    requires DistinctKeys(AtLeast(sketch, phi * points))
    ensures RecallAtMostOne(phi, points, k, exact, sketch)
  {
    var reported, truth := AtLeast(sketch, phi * points), KeysOf(AtLeast(exact, phi * points));
    HitsAreKeys(reported, truth);
    SubsetSize(KeysOf(reported) * truth, truth);
    RatioBounds(Hits(reported, truth), |truth|);
    hide Hits, AtLeast, F1, Ratio, KeysOf, CutShort;
  }

  /** A count that reaches a threshold. */
  function Enough(threshold: real): (n: nat)
    ensures n > 0 && n as real >= threshold
  {
    if threshold <= 1.0 then 1 else threshold.Floor + 1
  }

  /** If a key is reported twice and is all that was counted, the recall is at least 2. */
  lemma {:induction false} RepeatedKeyIsCountedTwice(phi: real, points: real, k: nat, sketch: seq<Pair>, i: nat, j: nat)
    returns (counts: map<Key, nat>, top: seq<Ranked<Key>>)
    requires |sketch| <= k && !CutShort(sketch, k, phi * points)
    requires i < j < |AtLeast(sketch, phi * points)|
    requires AtLeast(sketch, phi * points)[i].key == AtLeast(sketch, phi * points)[j].key
    ensures counts == map[AtLeast(sketch, phi * points)[i].key := Enough(phi * points)]
    ensures Occurred(counts) && IsExactTop(top, counts, k) && !RecallAtMostOne(phi, points, k, Reported(top), sketch)
  {
    var threshold := phi * points;
    var reported := AtLeast(sketch, threshold);
    AtLeastKeeps(sketch, threshold);
    var heavy := Ranked(reported[i].key, Enough(threshold));
    counts, top := map[heavy.key := heavy.count], [heavy];
    OneKeyRanks(heavy, k);
    assert Reported(top) == [Pair(heavy.key, heavy.count as real)];
    OnlyHeavy(Pair(heavy.key, heavy.count as real), threshold);
    HitsTwice(reported, i, j, {heavy.key});
    hide Hits, AtLeast, F1, KeysOf, IsExactTop;
    var a := HeavyHitterAccuracy(phi, points, k, Reported(top), sketch);
    assert a.Some? && a.value.truth == 1 && a.value.truePositives == Hits(reported, {heavy.key});
  }

  lemma {:induction false} OneKeyRanks(heavy: Ranked<Key>, k: nat)
    requires k > 0
    ensures IsExactTop([heavy], map[heavy.key := heavy.count], k)
  {
    var ranking := [heavy];
    assert Ranked(heavy.key, heavy.count) in ranking;
    assert Lists(ranking, map[heavy.key := heavy.count]);
    assert Take(ranking, k) == ranking;
    assert IsRanking(ranking, map[heavy.key := heavy.count], InOrder);
  }

  lemma {:induction false} OnlyHeavy(heavy: Pair, threshold: real)
    requires heavy.count >= threshold
    ensures KeysOf(AtLeast([heavy], threshold)) == {heavy.key}
  {
    assert [heavy][..0] == [];
    assert AtLeast([], threshold) == [] && AtLeast([heavy], threshold) == [] + [heavy] == [heavy];
    KeysUnion([], heavy);
    assert [] + [heavy] == [heavy] && KeysOf([]) == {};
  }

  lemma {:induction false} HitsTwice(list: seq<Pair>, i: nat, j: nat, keys: set<Key>)
    requires i < j < |list| && list[i].key in keys && list[j].key in keys
    ensures Hits(list, keys) >= 2
    decreases |list|
  {
    if j == |list| - 1 {
      HitsOnce(list[..j], i, keys);
    } else {
      HitsTwice(list[..|list| - 1], i, j, keys);
    }
  }

  lemma {:induction false} HitsOnce(list: seq<Pair>, i: nat, keys: set<Key>)
    requires i < |list| && list[i].key in keys
    ensures Hits(list, keys) >= 1
    decreases |list|
  {
    if i < |list| - 1 {
      HitsOnce(list[..|list| - 1], i, keys);
    }
  }
}
