/** What the exact baseline answers, counted on the points. */
module BaselinePoints {
  import opened Basics
  import opened Envelopes
  import opened WindowProtocol
  import opened Confluence
  import opened ExactWindows
  import opened ExactBranches
  import opened ExactMerges
  import opened BranchSeries
  import opened EndToEnd
  import opened EmissionCounts

  // ---------- one point ----------

  /** A scalar point of the window that ends at `e`. */
  ghost predicate Within(cfg: BranchConfig, p: Point, e: u64) {
    p.float.Some? && p.timestampMs < e <= p.timestampMs + cfg.Size() && e % cfg.Size() == 0
  }

  ghost predicate Keeps(cfg: BranchConfig, key: Text) {
    Wildcard in cfg.perAttribute || key in cfg.perAttribute
  }

  /** How often a point gives an item to a series of a window: its own float to the series of its
      projection, and an attribute value as often as it has that label. */
  ghost function Gives(cfg: BranchConfig, p: Point, e: u64, s: Series, item: Item): nat {
    if !Within(cfg, p, e) then 0
    else
      match (s, item)
      case (Quantile(labels), Value(v)) =>
        if cfg.groupBy != [] && labels == Project(p.labels, cfg.groupBy) && p.float.value == v then 1 else 0
      case (Attribute(k), Occurrence(x)) => if Keeps(cfg, k) then multiset(p.labels)[KeyValue(k, x)] else 0
      case _ => 0
  }

  /** A point that gives anything to a series. */
  ghost predicate Touches(cfg: BranchConfig, p: Point, e: u64, s: Series) {
    && Within(cfg, p, e)
    && match s
       case Quantile(labels) => cfg.groupBy != [] && labels == Project(p.labels, cfg.groupBy)
       case Attribute(k) => Keeps(cfg, k) && exists i :: 0 <= i < |p.labels| && p.labels[i].key == k
  }

  /** The window of a point is the one it falls into. */
  lemma {:induction false} WindowOfPoint(cfg: BranchConfig, p: Point, e: u64)
    requires p.float.Some?
    ensures EndOf(cfg.Size(), p.timestampMs) == e <==> Within(cfg, p, e)
  {
    NextEnd(p.timestampMs, cfg.Size(), e);
  }

  lemma {:induction false} ItemsConcat(a: seq<Tagged>, b: seq<Tagged>)
    ensures Items(a + b) == Items(a) + Items(b)
  {
  }

  lemma {:induction false} LabelPush(labels: seq<KeyValue>, n: nat, kv: KeyValue)
    requires n < |labels|
    ensures multiset(labels[..n + 1])[kv] == multiset(labels[..n])[kv] + if labels[n] == kv then 1 else 0
  {
    assert labels[..n + 1] == labels[..n] + [labels[n]];
  }

  /** The selected attributes of a point give each of its labels' values once. */
  lemma {:induction false} AttributesGive(cfg: BranchConfig, p: Point, end: u64, n: nat, s: Series, item: Item)
    requires n <= |p.labels|
    ensures multiset(Items(Accepted(AttributeArrivals(cfg, p, end, n), end, s)))[item] == AttributeGives(cfg, p, n, s, item)
    decreases n
  {
    hide Accepted, Items;
    if n == 0 {
      NothingAccepted(end, s);
      assert Items([]) == [] by { ItemsOfNone(); }
    } else {
      AttributesGive(cfg, p, end, n - 1, s, item);
      AttributesPush(cfg, p, end, n);
      hide AttributeArrivals;
      var kv := p.labels[n - 1];
      var init := AttributeArrivals(cfg, p, end, n - 1);
      LabelGives(cfg, p, n - 1, s, item);
      hide AttributeGives;
      if Selected(cfg, kv.key) {
        OneMoreAccepted(init, Arrival(end, Attribute(kv.key), true, Tagged(p.metric, Occurrence(kv.value))), end, s);
      } else {
        assert init + [] == init;
      }
    }
  }

  ghost function AttributeGives(cfg: BranchConfig, p: Point, n: nat, s: Series, item: Item): nat
    requires n <= |p.labels|
  {
    if s.Attribute? && item.Occurrence? && Keeps(cfg, s.key) then multiset(p.labels[..n])[KeyValue(s.key, item.key)] else 0
  }

  lemma {:induction false} LabelGives(cfg: BranchConfig, p: Point, n: nat, s: Series, item: Item)
    requires n < |p.labels|
    ensures var kv := p.labels[n];
      AttributeGives(cfg, p, n + 1, s, item) == AttributeGives(cfg, p, n, s, item)
        + if Selected(cfg, kv.key) && s == Attribute(kv.key) && item == Occurrence(kv.value) then 1 else 0
  {
    if s.Attribute? && item.Occurrence? {
      LabelPush(p.labels, n, KeyValue(s.key, item.key));
    }
  }

  lemma {:induction false} ItemsOfNone()
    ensures Items([]) == []
  {
  }

  lemma {:induction false} AttributesPush(cfg: BranchConfig, p: Point, end: u64, n: nat)
    requires 0 < n <= |p.labels|
    ensures var kv := p.labels[n - 1];
      AttributeArrivals(cfg, p, end, n) == AttributeArrivals(cfg, p, end, n - 1)
        + if Selected(cfg, kv.key) then [Arrival(end, Attribute(kv.key), true, Tagged(p.metric, Occurrence(kv.value)))] else []
  {
  }

  lemma {:induction false} OneMoreAccepted(hist: seq<Arrival<Series, Tagged>>, a: Arrival<Series, Tagged>, e: u64, s: Series)
    requires a.ok
    ensures Accepted(hist + [a], e, s) == Accepted(hist, e, s) + if a.end == e && a.key == s then [a.body] else []
    ensures forall x ::
      multiset(Items(Accepted(hist + [a], e, s)))[x]
      == multiset(Items(Accepted(hist, e, s)))[x] + if a.end == e && a.key == s && a.body.item == x then 1 else 0
  {
    assert (hist + [a])[..|hist|] == hist;
    var list := Accepted(hist, e, s);
    if a.end == e && a.key == s {
      ItemsConcat(list, [a.body]);
      assert Items([a.body]) == [a.body.item];
    } else {
      assert list + [] == list;
    }
  }

  lemma {:induction false} QuantileGives(cfg: BranchConfig, p: Point, value: F64, end: u64, s: Series, item: Item)
    ensures multiset(Items(Accepted(QuantileArrivals(cfg, p, value, end), end, s)))[item]
         == if cfg.groupBy != [] && s == Quantile(Project(p.labels, cfg.groupBy)) && item == Value(value) then 1 else 0
  {
    hide Project;
    if cfg.groupBy != [] {
      var a := Arrival(end, Quantile(Project(p.labels, cfg.groupBy)), true, Tagged(p.metric, Value(value)));
      OneMoreAccepted([], a, end, s);
      assert [] + [a] == QuantileArrivals(cfg, p, value, end);
    }
  }

  /** What a point adds to a window is what it gives. */
  lemma {:induction false} PointGives(cfg: BranchConfig, p: Point, e: u64, s: Series, item: Item)
    requires EndOf(cfg.Size(), p.timestampMs) <= U64_MAX
    ensures multiset(Items(Accepted(PointArrivals(cfg, p), e, s)))[item] == Gives(cfg, p, e, s, item)
  {
    hide Accepted, AttributeArrivals, QuantileArrivals, EndOf, Project;
    if p.float.None? {
      assert Accepted(PointArrivals(cfg, p), e, s) == [] by { NothingAccepted(e, s); }
    } else {
      EndsAfterStart(cfg.Size(), p.timestampMs);
      var end: u64 := EndOf(cfg.Size(), p.timestampMs);
      var quantile, attributes := QuantileArrivals(cfg, p, p.float.value, end), AttributeArrivals(cfg, p, end, |p.labels|);
      WindowOfPoint(cfg, p, e);
      if e == end {
        AcceptedConcat(quantile, attributes, e, s);
        ItemsConcat(Accepted(quantile, e, s), Accepted(attributes, e, s));
        QuantileGives(cfg, p, p.float.value, end, s, item);
        AttributesGive(cfg, p, end, |p.labels|, s, item);
        assert p.labels[..|p.labels|] == p.labels;
      } else {
        PointEnds(cfg, p);
        ElsewhereNothing(PointArrivals(cfg, p), end, e, s);
      }
    }
  }

  lemma {:induction false} NothingAccepted(e: u64, s: Series)
    ensures Accepted<Series, Tagged>([], e, s) == []
  {
  }

  lemma {:induction false} ElsewhereNothing(hist: seq<Arrival<Series, Tagged>>, end: u64, e: u64, s: Series)
    requires e != end && forall a :: a in hist ==> a.end == end
    ensures Accepted(hist, e, s) == []
    decreases |hist|
  {
    if hist != [] {
      ElsewhereNothing(hist[..|hist| - 1], end, e, s);
    }
  }

  /** Every contribution of a point to a series is under the point's metric. */
  lemma {:induction false} UnderOwnMetric(cfg: BranchConfig, p: Point, e: u64, s: Series)
    requires EndOf(cfg.Size(), p.timestampMs) <= U64_MAX
    ensures forall t :: t in Accepted(PointArrivals(cfg, p), e, s) ==> t.metric == p.metric
  {
    hide EndOf, Project;
    if p.float.Some? {
      var end := EndOf(cfg.Size(), p.timestampMs);
      EndsAfterStart(cfg.Size(), p.timestampMs);
      AttributeMetrics(cfg, p, end, |p.labels|);
      AcceptedUnder(PointArrivals(cfg, p), p.metric, e, s);
    }
  }

  lemma {:induction false} AttributeMetrics(cfg: BranchConfig, p: Point, end: u64, n: nat)
    requires n <= |p.labels|
    ensures forall a :: a in AttributeArrivals(cfg, p, end, n) ==> a.body.metric == p.metric
    decreases n
  {
    if n > 0 {
      AttributeMetrics(cfg, p, end, n - 1);
    }
  }

  lemma {:induction false} AcceptedUnder(hist: seq<Arrival<Series, Tagged>>, metric: Text, e: u64, s: Series)
    requires forall a :: a in hist ==> a.body.metric == metric
    ensures forall t :: t in Accepted(hist, e, s) ==> t.metric == metric
    decreases |hist|
  {
    if hist != [] {
      AcceptedUnder(hist[..|hist| - 1], metric, e, s);
      assert hist[|hist| - 1] in hist;
    }
  }

  /** A point contributes to a series exactly when it touches it. */
  lemma {:induction false} ContributesWhen(cfg: BranchConfig, p: Point, e: u64, s: Series)
    requires EndOf(cfg.Size(), p.timestampMs) <= U64_MAX
    ensures Accepted(PointArrivals(cfg, p), e, s) != [] <==> Touches(cfg, p, e, s)
  {
    hide PointArrivals, Accepted, Project, EndOf;
    var list := Accepted(PointArrivals(cfg, p), e, s);
    if list != [] {
      var item := Items(list)[0];
      assert item in multiset(Items(list));
      PointGives(cfg, p, e, s, item);
      GivesTouches(cfg, p, e, s, item);
    }
    if Touches(cfg, p, e, s) {
      var item := TouchGives(cfg, p, e, s);
      PointGives(cfg, p, e, s, item);
      assert item in multiset(Items(list));
    }
  }

  lemma {:induction false} GivesTouches(cfg: BranchConfig, p: Point, e: u64, s: Series, item: Item)
    requires Gives(cfg, p, e, s, item) > 0
    ensures Touches(cfg, p, e, s)
  {
    hide Within, Project;
    if s.Attribute? {
      var kv := KeyValue(s.key, item.key);
      assert kv in multiset(p.labels);
      assert kv in p.labels;
    }
  }

  lemma {:induction false} TouchGives(cfg: BranchConfig, p: Point, e: u64, s: Series) returns (item: Item)
    requires Touches(cfg, p, e, s)
    ensures Gives(cfg, p, e, s, item) > 0
  {
    hide Project;
    if s.Quantile? {
      item := Value(p.float.value);
    } else {
      var i :| 0 <= i < |p.labels| && p.labels[i].key == s.key;
      item := Occurrence(p.labels[i].value);
      assert p.labels[i] in multiset(p.labels);
    }
  }

  // ---------- one source ----------

  ghost function PointsOf(steps: seq<BranchStep>): seq<Point> {
    if steps == [] then []
    else PointsOf(steps[..|steps| - 1]) + if steps[|steps| - 1].Observe? then [steps[|steps| - 1].point] else []
  }

  /** How often some points give an item. */
  ghost function GivenBy(cfg: BranchConfig, points: seq<Point>, e: u64, s: Series, item: Item): nat {
    if points == [] then 0
    else GivenBy(cfg, points[..|points| - 1], e, s, item) + Gives(cfg, points[|points| - 1], e, s, item)
  }

  /** The metric of the first point that touches the series. */
  ghost function FirstMetric(cfg: BranchConfig, points: seq<Point>, e: u64, s: Series): Option<Text> {
    if points == [] then None
    else
      var first := FirstMetric(cfg, points[..|points| - 1], e, s);
      if first.Some? then first
      else if Touches(cfg, points[|points| - 1], e, s) then Some(points[|points| - 1].metric)
      else None
  }

  lemma {:induction false} GivenByPush(cfg: BranchConfig, points: seq<Point>, p: Point, e: u64, s: Series, item: Item)
    ensures GivenBy(cfg, points + [p], e, s, item) == GivenBy(cfg, points, e, s, item) + Gives(cfg, p, e, s, item)
    ensures FirstMetric(cfg, points + [p], e, s)
         == if FirstMetric(cfg, points, e, s).Some? then FirstMetric(cfg, points, e, s)
            else if Touches(cfg, p, e, s) then Some(p.metric) else None
  {
    hide Gives, Touches;
    assert (points + [p])[..|points|] == points;
  }

  /** Whether a list of contributions is headed by a metric. */
  ghost predicate HeadedBy(list: seq<Tagged>, first: Option<Text>) {
    (list == [] <==> first.None?) && (list != [] ==> first == Some(list[0].metric))
  }

  /** What a branch took in for a series is what its points give, under the first one's metric. */
  lemma {:induction false} TakenGives(cfg: BranchConfig, steps: seq<BranchStep>, e: u64, s: Series, item: Item)
    requires Fits(cfg, steps)
    ensures multiset(Items(Accepted(Taken(cfg, steps), e, s)))[item] == GivenBy(cfg, PointsOf(steps), e, s, item)
    ensures HeadedBy(Accepted(Taken(cfg, steps), e, s), FirstMetric(cfg, PointsOf(steps), e, s))
    decreases |steps|
  {
    hide PointArrivals, Gives, Touches, EndOf, Accepted;
    if steps == [] {
      NothingAccepted(e, s);
    } else {
      var init, last := steps[..|steps| - 1], steps[|steps| - 1];
      TakenGives(cfg, init, e, s, item);
      if last.Observe? {
        OnePointMore(cfg, Taken(cfg, init), PointsOf(init), last.point, e, s, item);
      } else {
        assert Taken(cfg, init) + [] == Taken(cfg, init);
        assert PointsOf(init) + [] == PointsOf(init);
      }
    }
  }

  lemma {:induction false} OnePointMore(cfg: BranchConfig, taken: seq<Arrival<Series, Tagged>>, points: seq<Point>, p: Point, e: u64, s: Series, item: Item)
    requires EndOf(cfg.Size(), p.timestampMs) <= U64_MAX
    requires multiset(Items(Accepted(taken, e, s)))[item] == GivenBy(cfg, points, e, s, item)
    requires HeadedBy(Accepted(taken, e, s), FirstMetric(cfg, points, e, s))
    ensures multiset(Items(Accepted(taken + PointArrivals(cfg, p), e, s)))[item] == GivenBy(cfg, points + [p], e, s, item)
    ensures HeadedBy(Accepted(taken + PointArrivals(cfg, p), e, s), FirstMetric(cfg, points + [p], e, s))
  {
    hide PointArrivals, Gives, Touches, EndOf, Accepted, GivenBy, FirstMetric;
    AcceptedConcat(taken, PointArrivals(cfg, p), e, s);
    ItemsConcat(Accepted(taken, e, s), Accepted(PointArrivals(cfg, p), e, s));
    PointGives(cfg, p, e, s, item);
    GivenByPush(cfg, points, p, e, s, item);
    UnderOwnMetric(cfg, p, e, s);
    ContributesWhen(cfg, p, e, s);
  }

  // ---------- all sources ----------

  /** How often the points of the sources that send a series under `metric` give an item. */
  ghost function GivenUnder(cfg: BranchConfig, sources: seq<Source>, metric: Text, e: u64, s: Series, item: Item): nat {
    if sources == [] then 0
    else
      var points := PointsOf(sources[|sources| - 1].steps);
      GivenUnder(cfg, sources[..|sources| - 1], metric, e, s, item)
      + if FirstMetric(cfg, points, e, s) == Some(metric) then GivenBy(cfg, points, e, s, item) else 0
  }

  /** Some source's first point for the series has the metric. */
  ghost predicate SentUnder(cfg: BranchConfig, sources: seq<Source>, metric: Text, e: u64, s: Series) {
    exists n :: 0 <= n < |sources| && FirstMetric(cfg, PointsOf(sources[n].steps), e, s) == Some(metric)
  }

  lemma {:induction false} AllItemsGiven(cfg: BranchConfig, sources: seq<Source>, metric: Text, e: u64, s: Series, item: Item)
    requires GoodSources(cfg, sources)
    ensures multiset(AllItems(cfg, sources, metric, e, s))[item] == GivenUnder(cfg, sources, metric, e, s, item)
    decreases |sources|
  {
    hide GoodSource, Taken, Accepted, FirstMetric, GivenBy;
    if sources != [] {
      var last := sources[|sources| - 1];
      AllItemsGiven(cfg, sources[..|sources| - 1], metric, e, s, item);
      GoodFits(cfg, last);
      TakenGives(cfg, last.steps, e, s, item);
    }
  }

  lemma {:induction false} SentUnderWhen(cfg: BranchConfig, sources: seq<Source>, metric: Text, e: u64, s: Series)
    requires GoodSources(cfg, sources)
    ensures AllItems(cfg, sources, metric, e, s) != [] <==> SentUnder(cfg, sources, metric, e, s)
    decreases |sources|
  {
    hide GoodSource, Taken, Accepted, SentUnder;
    SentUnderPush(cfg, sources, metric, e, s);
    if sources != [] {
      var last := sources[|sources| - 1];
      SentUnderWhen(cfg, sources[..|sources| - 1], metric, e, s);
      GoodFits(cfg, last);
      TakenGives(cfg, last.steps, e, s, Value(0));
    }
  }

  lemma {:induction false} SentUnderPush(cfg: BranchConfig, sources: seq<Source>, metric: Text, e: u64, s: Series)
    ensures SentUnder(cfg, sources, metric, e, s) <==>
      sources != [] && (SentUnder(cfg, sources[..|sources| - 1], metric, e, s)
                        || FirstMetric(cfg, PointsOf(sources[|sources| - 1].steps), e, s) == Some(metric))
  {
    hide FirstMetric, PointsOf;
    if sources != [] {
      var init := sources[..|sources| - 1];
      if n :| 0 <= n < |init| && FirstMetric(cfg, PointsOf(init[n].steps), e, s) == Some(metric) {
        assert FirstMetric(cfg, PointsOf(sources[n].steps), e, s) == Some(metric);
      }
      if n :| 0 <= n < |init| && FirstMetric(cfg, PointsOf(sources[n].steps), e, s) == Some(metric) {
        assert FirstMetric(cfg, PointsOf(init[n].steps), e, s) == Some(metric);
      }
    }
  }

  /** A window holds each value and counts each attribute value as often as those points give it. */
  ghost predicate HoldsPoints(w: ExactWindow, cfg: BranchConfig, sources: seq<Source>, metric: Text, e: u64, s: Series) {
    && (forall v: F64 :: multiset(w.values)[v] == GivenUnder(cfg, sources, metric, e, s, Value(v)))
    && (forall x: Text :: CountIn(w.counts, x) == GivenUnder(cfg, sources, metric, e, s, Occurrence(x)))
    && (forall x: Text :: x in w.counts <==> GivenUnder(cfg, sources, metric, e, s, Occurrence(x)) > 0)
  }

  lemma {:induction false} SameDataHolds(w: ExactWindow, cfg: BranchConfig, sources: seq<Source>, metric: Text, e: u64, s: Series)
    requires GoodSources(cfg, sources) && SameData(w, Holding(AllItems(cfg, sources, metric, e, s)))
    ensures HoldsPoints(w, cfg, sources, metric, e, s)
  {
    hide GoodSources, AllItems, GivenUnder, Holding;
    var items := AllItems(cfg, sources, metric, e, s);
    HoldingHolds(items);
    forall v: F64
      ensures multiset(w.values)[v] == GivenUnder(cfg, sources, metric, e, s, Value(v))
    {
      AllItemsGiven(cfg, sources, metric, e, s, Value(v));
    }
    forall x: Text
      ensures CountIn(w.counts, x) == GivenUnder(cfg, sources, metric, e, s, Occurrence(x))
      ensures x in w.counts <==> GivenUnder(cfg, sources, metric, e, s, Occurrence(x)) > 0
    {
      AllItemsGiven(cfg, sources, metric, e, s, Occurrence(x));
    }
  }

  /** The merge emitted a window for the series under the metric, with the data of the points. */
  ghost predicate EmittedFor(m: Merger<MergeKey, ExactWindow>, cfg: BranchConfig, sources: seq<Source>, metric: Text, e: u64, s: Series) {
    exists i, k :: 0 <= i < |m.emitted| && m.emitted[i].end == e && k in m.emitted[i].series
      && IsKey(k, cfg, metric, e, s) && HoldsPoints(MergedAll(m.emitted[i].series[k]), cfg, sources, metric, e, s)
  }

  /** The fields by which an emitted window names its series. */
  ghost predicate IsKey(k: MergeKey, cfg: BranchConfig, metric: Text, e: u64, s: Series) {
    && k.metricName == metric && k.windowStartMs + cfg.Size() == e
    && k.labels == match s case Quantile(labels) => labels case Attribute(key) => [KeyValue(AttributeKey(), key)]
  }

  /** On the points: however messages interleave, the merge emits for a window, a series and a metric
      exactly when some source's first point of that window for the series has the metric; then
      the emitted window holds each value and each attribute count as often as the points of those
      sources have them. */
  lemma {:induction false} AnswersCountPoints(cfg: BranchConfig, sources: seq<Source>, steps: seq<Step>, graceMs: u64, metric: Text, e: u64, s: Series)
    requires NoClash(cfg) && GoodSources(cfg, sources) && Finishes(Sending(sources), steps, false)
    requires Proper(cfg, s) && cfg.Size() <= e <= U64_MAX - graceMs && e < U64_MAX
    ensures After(Sending(sources), steps, false).Some?
    ensures var m := Ended(sources, steps, U64_MAX - graceMs);
      && (SentUnder(cfg, sources, metric, e, s) ==> EmittedFor(m, cfg, sources, metric, e, s))
      && ((exists i, k :: 0 <= i < |m.emitted| && m.emitted[i].end == e && k in m.emitted[i].series && IsKey(k, cfg, metric, e, s))
          ==> SentUnder(cfg, sources, metric, e, s))
  {
    hide *;
    var limit: u64 := U64_MAX - graceMs;
    var m := EndedExactly(cfg, sources, steps, limit);
    SentUnderWhen(cfg, sources, metric, e, s);
    if SentUnder(cfg, sources, metric, e, s) {
      EmitsPoints(cfg, sources, m, limit, metric, e, s);
    }
    if i, k :| 0 <= i < |m.emitted| && m.emitted[i].end == e && k in m.emitted[i].series && IsKey(k, cfg, metric, e, s) {
      OnlyIfSent(cfg, sources, m, limit, i, k, metric, e, s);
    }
  }

  lemma {:induction false} EmitsPoints(cfg: BranchConfig, sources: seq<Source>, m: Merger<MergeKey, ExactWindow>, limit: u64, metric: Text, e: u64, s: Series)
    requires NoClash(cfg) && GoodSources(cfg, sources) && ExactlyOnce(cfg, sources, m, limit)
    requires Proper(cfg, s) && cfg.Size() <= e <= limit && e < U64_MAX && AllItems(cfg, sources, metric, e, s) != []
    ensures EmittedFor(m, cfg, sources, metric, e, s)
  {
    hide *;
    var i := WindowEmitted(cfg, sources, m, limit, metric, e, s);
    var k := SeriesKey(cfg, metric, s, e);
    KeyIsKey(cfg, metric, e, s);
    SameDataHolds(MergedAll(m.emitted[i].series[k]), cfg, sources, metric, e, s);
    Found(m, i, k, cfg, sources, metric, e, s);
  }

  lemma {:induction false} Found(m: Merger<MergeKey, ExactWindow>, i: nat, k: MergeKey, cfg: BranchConfig, sources: seq<Source>, metric: Text, e: u64, s: Series)
    requires i < |m.emitted| && m.emitted[i].end == e && k in m.emitted[i].series
    requires IsKey(k, cfg, metric, e, s) && HoldsPoints(MergedAll(m.emitted[i].series[k]), cfg, sources, metric, e, s)
    ensures EmittedFor(m, cfg, sources, metric, e, s)
  {
    hide IsKey, HoldsPoints, MergedAll;
  }

  lemma {:induction false} KeyIsKey(cfg: BranchConfig, metric: Text, e: u64, s: Series)
    requires e >= cfg.Size()
    ensures IsKey(SeriesKey(cfg, metric, s, e), cfg, metric, e, s)
    ensures forall k :: IsKey(k, cfg, metric, e, s) ==> k == SeriesKey(cfg, metric, s, e)
  {
    hide AttributeKey;
  }

  lemma {:induction false} OnlyIfSent(cfg: BranchConfig, sources: seq<Source>, m: Merger<MergeKey, ExactWindow>, limit: u64, i: nat, k: MergeKey,
                                      metric: Text, e: u64, s: Series)
    requires NoClash(cfg) && GoodSources(cfg, sources) && ExactlyOnce(cfg, sources, m, limit) && Proper(cfg, s) && e >= cfg.Size()
    requires i < |m.emitted| && m.emitted[i].end == e && k in m.emitted[i].series && IsKey(k, cfg, metric, e, s)
    ensures AllItems(cfg, sources, metric, e, s) != []
  {
    hide *;
    KeyIsKey(cfg, metric, e, s);
    var other, t := EmissionIsOf(cfg, sources, m, limit, i, k);
    IsOfTheSeries(cfg, sources, metric, other, e, s, t, m.emitted[i].series[k]);
  }

  // ---------- labels and projections ----------

  ghost predicate FirstAt(labels: seq<KeyValue>, key: Text, i: int) {
    0 <= i < |labels| && labels[i].key == key && forall h :: 0 <= h < i ==> labels[h].key != key
  }

  /** A label's value is that of its first occurrence. */
  lemma {:induction false} LookupIsFirst(labels: seq<KeyValue>, key: Text)
    ensures LookupLabel(labels, key).None? <==> forall i :: 0 <= i < |labels| ==> labels[i].key != key
    ensures LookupLabel(labels, key).Some? ==> exists i :: FirstAt(labels, key, i) && labels[i].value == LookupLabel(labels, key).value
    decreases |labels|
  {
    if labels != [] && labels[0].key != key {
      var rest := labels[1..];
      LookupIsFirst(rest, key);
      if LookupLabel(rest, key).Some? {
        var i :| FirstAt(rest, key, i) && rest[i].value == LookupLabel(rest, key).value;
        forall h | 0 <= h < i + 1
          ensures labels[h].key != key
        {
          assert h > 0 ==> labels[h] == rest[h - 1];
        }
        assert FirstAt(labels, key, i + 1);
      } else {
        forall i | 0 <= i < |labels|
          ensures labels[i].key != key
        {
          assert i > 0 ==> labels[i] == rest[i - 1];
        }
      }
    }
  }

  /** Label `i` of `r` has the name at `at[i]` and that name's first value. */
  ghost predicate PickedRight(r: seq<KeyValue>, labels: seq<KeyValue>, groupBy: seq<Text>, at: seq<nat>) {
    && |at| == |r|
    && forall i :: 0 <= i < |r| ==> at[i] < |groupBy| && r[i].key == groupBy[at[i]] && LookupLabel(labels, groupBy[at[i]]) == Some(r[i].value)
  }

  ghost predicate Ascending(at: seq<nat>) {
    forall i, j :: 0 <= i < j < |at| ==> at[i] < at[j]
  }

  ghost predicate PickedAll(labels: seq<KeyValue>, groupBy: seq<Text>, at: seq<nat>) {
    forall g :: 0 <= g < |groupBy| && LookupLabel(labels, groupBy[g]).Some? ==> g in at
  }

  /** `r` lists the names of `groupBy` that are there, in its order and each with its first value;
      `at` says which name each label has. */
  ghost predicate Picks(r: seq<KeyValue>, labels: seq<KeyValue>, groupBy: seq<Text>, at: seq<nat>) {
    PickedRight(r, labels, groupBy, at) && Ascending(at) && PickedAll(labels, groupBy, at)
  }

  /** A quantile series is named by exactly the group labels of its points. */
  lemma {:induction false} ProjectionPicks(labels: seq<KeyValue>, groupBy: seq<Text>) returns (at: seq<nat>)
    ensures Picks(Project(labels, groupBy), labels, groupBy, at)
    decreases |groupBy|
  {
    hide Picks, LookupLabel;
    if groupBy == [] {
      at := [];
      NothingPicked(labels);
    } else {
      var rest := ProjectionPicks(labels, groupBy[1..]);
      at := PickOneMore(Project(labels, groupBy[1..]), labels, groupBy, rest);
    }
  }

  lemma {:induction false} NothingPicked(labels: seq<KeyValue>)
    ensures Picks([], labels, [], [])
  {
  }

  ghost function Shifted(at: seq<nat>): (r: seq<nat>)
    ensures |r| == |at| && forall i :: 0 <= i < |at| ==> r[i] == at[i] + 1
  {
    seq(|at|, i requires 0 <= i < |at| => at[i] + 1)
  }

  lemma {:induction false} ShiftedAll(labels: seq<KeyValue>, groupBy: seq<Text>, at: seq<nat>)
    requires groupBy != [] && PickedAll(labels, groupBy[1..], at)
    ensures forall g :: 0 < g < |groupBy| && LookupLabel(labels, groupBy[g]).Some? ==> g in Shifted(at)
  {
    hide LookupLabel;
    forall g | 0 < g < |groupBy| && LookupLabel(labels, groupBy[g]).Some?
      ensures g in Shifted(at)
    {
      assert groupBy[1..][g - 1] == groupBy[g];
      var i :| 0 <= i < |at| && at[i] == g - 1;
      assert Shifted(at)[i] == g;
    }
  }

  lemma {:induction false} PickOneMore(r: seq<KeyValue>, labels: seq<KeyValue>, groupBy: seq<Text>, rest: seq<nat>) returns (at: seq<nat>)
    requires groupBy != [] && Picks(r, labels, groupBy[1..], rest)
    ensures Picks(match LookupLabel(labels, groupBy[0]) case None => r case Some(v) => [KeyValue(groupBy[0], v)] + r, labels, groupBy, at)
  {
    ShiftedAll(labels, groupBy, rest);
    ShiftedRight(r, labels, groupBy, rest);
    ShiftedAscends(rest);
    hide LookupLabel, Shifted, PickedRight, Ascending;
    at := Shifted(rest);
    match LookupLabel(labels, groupBy[0])
    case None =>
    case Some(v) =>
      at := [0] + at;
      FrontRight(r, labels, groupBy, Shifted(rest), v);
      FrontAscends(rest);
  }

  lemma {:induction false} FrontRight(r: seq<KeyValue>, labels: seq<KeyValue>, groupBy: seq<Text>, at: seq<nat>, v: Text)
    requires groupBy != [] && LookupLabel(labels, groupBy[0]) == Some(v) && PickedRight(r, labels, groupBy, at)
    ensures PickedRight([KeyValue(groupBy[0], v)] + r, labels, groupBy, [0] + at)
  {
    hide LookupLabel;
  }

  lemma {:induction false} FrontAscends(at: seq<nat>)
    requires Ascending(Shifted(at))
    ensures Ascending([0] + Shifted(at))
  {
  }

  lemma {:induction false} ShiftedAscends(at: seq<nat>)
    requires Ascending(at)
    ensures Ascending(Shifted(at))
  {
  }

  lemma {:induction false} ShiftedRight(r: seq<KeyValue>, labels: seq<KeyValue>, groupBy: seq<Text>, at: seq<nat>)
    requires groupBy != [] && PickedRight(r, labels, groupBy[1..], at)
    ensures PickedRight(r, labels, groupBy, Shifted(at))
  {
    hide LookupLabel;
    forall i | 0 <= i < |r|
      ensures groupBy[1..][at[i]] == groupBy[Shifted(at)[i]]
    {
    }
  }
}
