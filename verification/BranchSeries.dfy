/** The series a branch makes, and their keys. */
module BranchSeries {
  import opened Basics
  import opened Envelopes
  import opened WindowProtocol
  import opened ExactWindows
  import opened ExactBranches
  import opened ExactMerges

  /** A series some point can have: the projection of its labels, or a selected attribute. */
  ghost predicate Proper(cfg: BranchConfig, s: Series) {
    match s
    case Quantile(labels) => exists all: seq<KeyValue> :: labels == Project(all, cfg.groupBy)
    case Attribute(key) => Selected(cfg, key)
  }

  /** No attribute is selected, or `groupBy` does not name the label that marks attribute series
      exactly once. */
  ghost predicate NoClash(cfg: BranchConfig) {
    cfg.perAttribute == [] || multiset(cfg.groupBy)[AttributeKey()] != 1
  }

  /** The key a series has at the merge: under the metric of its first point. */
  function SeriesKey(cfg: BranchConfig, metric: Text, s: Series, end: u64): MergeKey
    requires end >= cfg.Size()
  {
    MergeKey(metric, LabelsOf(s), end - cfg.Size())
  }

  // ---------- projections ----------

  function Named(labels: seq<KeyValue>, key: Text): nat {
    if labels == [] then 0 else (if labels[0].key == key then 1 else 0) + Named(labels[1..], key)
  }

  /** A label that is there is projected as often as `groupBy` names it. */
  lemma {:induction false} ProjectNames(labels: seq<KeyValue>, groupBy: seq<Text>, key: Text)
    ensures Named(Project(labels, groupBy), key) == if LookupLabel(labels, key).None? then 0 else multiset(groupBy)[key]
    decreases |groupBy|
  {
    if groupBy != [] {
      ProjectNames(labels, groupBy[1..], key);
      assert groupBy == [groupBy[0]] + groupBy[1..];
      var rest := Project(labels, groupBy[1..]);
      match LookupLabel(labels, groupBy[0])
      case None =>
      case Some(v) => assert ([KeyValue(groupBy[0], v)] + rest)[1..] == rest;
    }
  }

  /** A single label is projected alone if `groupBy` names it once. */
  lemma {:induction false} ProjectSingle(kv: KeyValue, groupBy: seq<Text>)
    ensures Project([kv], groupBy) == seq(multiset(groupBy)[kv.key], _ => kv)
    decreases |groupBy|
  {
    if groupBy != [] {
      ProjectSingle(kv, groupBy[1..]);
      assert groupBy == [groupBy[0]] + groupBy[1..];
      assert LookupLabel([kv], groupBy[0]) == if kv.key == groupBy[0] then Some(kv.value) else None;
    }
  }

  // ---------- keys at the merge ----------

  /** Without a clash, different series have different keys. */
  lemma {:induction false} KeysAreDistinct(cfg: BranchConfig, metric: Text, s: Series, other: Text, t: Series, end: u64)
    requires NoClash(cfg) && Proper(cfg, s) && Proper(cfg, t) && end >= cfg.Size()
    requires SeriesKey(cfg, metric, s, end) == SeriesKey(cfg, other, t, end)
    ensures metric == other && s == t
  {
    hide AttributeKey;
    assert LabelsOf(s) == LabelsOf(t);
    if s.Attribute? && t.Quantile? {
      NotProjected(cfg, s.key, t.labels);
    }
    if s.Quantile? && t.Attribute? {
      NotProjected(cfg, t.key, s.labels);
    }
  }

  /** Without a clash, the label that stands for a selected attribute is no projection. */
  lemma {:induction false} NotProjected(cfg: BranchConfig, key: Text, labels: seq<KeyValue>)
    requires NoClash(cfg) && Proper(cfg, Attribute(key)) && Proper(cfg, Quantile(labels))
    ensures labels != [KeyValue(AttributeKey(), key)]
  {
    hide AttributeKey;
    var marked := [KeyValue(AttributeKey(), key)];
    assert Named(marked[1..], AttributeKey()) == 0;
    var all: seq<KeyValue> :| labels == Project(all, cfg.groupBy);
    ProjectNames(all, cfg.groupBy, AttributeKey());
  }

  /** Whatever two points add to one window, their series have one key only if they are one. */
  ghost predicate PointsApart(cfg: BranchConfig, p: Point, q: Point) {
    forall a, b :: Adds(cfg, p, a) && Adds(cfg, q, b) && a.end == b.end && SameKey(cfg, a, b) ==> a.key == b.key
  }

  ghost predicate Adds(cfg: BranchConfig, p: Point, a: Arrival<Series, Tagged>) {
    EndOf(cfg.Size(), p.timestampMs) <= U64_MAX && a in PointArrivals(cfg, p)
  }

  ghost predicate SameKey(cfg: BranchConfig, a: Arrival<Series, Tagged>, b: Arrival<Series, Tagged>) {
    && a.end >= cfg.Size() && b.end >= cfg.Size()
    && SeriesKey(cfg, a.body.metric, a.key, a.end) == SeriesKey(cfg, b.body.metric, b.key, b.end)
  }

  lemma {:induction false} AttributesAreProper(cfg: BranchConfig, p: Point, end: u64, n: nat)
    requires n <= |p.labels|
    ensures forall a :: a in AttributeArrivals(cfg, p, end, n) ==> Proper(cfg, a.key)
    decreases n
  {
    if n > 0 {
      AttributesAreProper(cfg, p, end, n - 1);
    }
  }

  lemma {:induction false} PointsAreProper(cfg: BranchConfig, p: Point, a: Arrival<Series, Tagged>)
    requires Adds(cfg, p, a)
    ensures Proper(cfg, a.key)
  {
    hide EndOf;
    AttributesAreProper(cfg, p, EndOf(cfg.Size(), p.timestampMs), |p.labels|);
    assert Proper(cfg, Quantile(Project(p.labels, cfg.groupBy)));
  }

  /** The merge tells the series of all points apart exactly when there is no clash. */
  lemma {:induction false} KeysTellSeriesApart(cfg: BranchConfig)
    ensures (forall p: Point, q: Point :: PointsApart(cfg, p, q)) <==> NoClash(cfg)
  {
    hide AttributeKey;
    if NoClash(cfg) {
      forall p: Point, q: Point
        ensures PointsApart(cfg, p, q)
      {
        NoClashApart(cfg, p, q);
      }
    } else {
      var x: F64 :| true;
      TwoPointsClash(cfg, x);
    }
  }

  lemma {:induction false} NoClashApart(cfg: BranchConfig, p: Point, q: Point)
    requires NoClash(cfg)
    ensures PointsApart(cfg, p, q)
  {
    hide Adds, NoClash, Proper, SeriesKey;
    forall a, b | Adds(cfg, p, a) && Adds(cfg, q, b) && a.end == b.end && SameKey(cfg, a, b)
      ensures a.key == b.key
    {
      PointsAreProper(cfg, p, a);
      PointsAreProper(cfg, q, b);
      KeysAreDistinct(cfg, a.body.metric, a.key, b.body.metric, b.key, a.end);
    }
  }

  /** A clash: a point with the first selected attribute, and one whose only label has the
      marking key and that attribute as its value. */
  lemma {:induction false} TwoPointsClash(cfg: BranchConfig, x: F64)
    requires !NoClash(cfg)
    ensures var k := cfg.perAttribute[0];
      !PointsApart(cfg, Point(0, [], [KeyValue(k, [])], Some(x)), Point(0, [], [KeyValue(AttributeKey(), k)], Some(x)))
  {
    hide AttributeKey;
    var k := cfg.perAttribute[0];
    var p, q := Point(0, [], [KeyValue(k, [])], Some(x)), Point(0, [], [KeyValue(AttributeKey(), k)], Some(x));
    var end := cfg.Size();
    assert EndOf(end, 0) == end;
    ProjectSingle(q.labels[0], cfg.groupBy);
    assert Project(q.labels, cfg.groupBy) == q.labels;
    var a := Arrival(end, Attribute(k), true, Tagged([], Occurrence([])));
    var b := Arrival(end, Quantile(q.labels), true, Tagged([], Value(x)));
    assert AttributeArrivals(cfg, p, end, 1) == AttributeArrivals(cfg, p, end, 0) + [a];
    assert a in AttributeArrivals(cfg, p, end, 1);
    assert cfg.groupBy != [];
    assert QuantileArrivals(cfg, q, x, end) == [b];
    assert Adds(cfg, p, a) && Adds(cfg, q, b);
    assert SameKey(cfg, a, b);
  }
}
