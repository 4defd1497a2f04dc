/** How many windows the merge emits for one series. */
module EmissionCounts {
  import opened Basics
  import opened Envelopes
  import opened WindowProtocol
  import opened Confluence
  import opened ExactWindows
  import opened ExactBranches
  import opened ExactMerges
  import opened BranchSeries
  import opened EndToEnd

  /** What a source took in for a window and series. */
  ghost function Contributed(cfg: BranchConfig, src: Source, e: u64, s: Series): seq<Tagged>
    requires GoodSource(cfg, src)
  {
    GoodFits(cfg, src);
    Accepted(Taken(cfg, src.steps), e, s)
  }

  /** The metrics of the sources' first points for the series. */
  ghost function FirstMetrics(cfg: BranchConfig, sources: seq<Source>, e: u64, s: Series): set<Text>
    requires GoodSources(cfg, sources)
  {
    if sources == [] then {}
    else
      var list := Contributed(cfg, sources[|sources| - 1], e, s);
      FirstMetrics(cfg, sources[..|sources| - 1], e, s) + if list == [] then {} else {list[0].metric}
  }

  /** Every source that has a point for the series has it first under the same metric. */
  ghost predicate SameFirstMetric(cfg: BranchConfig, sources: seq<Source>, e: u64, s: Series)
    requires GoodSources(cfg, sources)
  {
    forall i, j :: 0 <= i < |sources| && 0 <= j < |sources| ==>
      var a, b := Contributed(cfg, sources[i], e, s), Contributed(cfg, sources[j], e, s);
      a != [] && b != [] ==> a[0].metric == b[0].metric
  }

  /** All items of all sources for the series, whatever their metrics. */
  ghost function Everything(cfg: BranchConfig, sources: seq<Source>, e: u64, s: Series): seq<Item>
    requires GoodSources(cfg, sources)
  {
    if sources == [] then []
    else Everything(cfg, sources[..|sources| - 1], e, s) + Items(Contributed(cfg, sources[|sources| - 1], e, s))
  }

  lemma {:induction false} MetricsHaveItems(cfg: BranchConfig, sources: seq<Source>, e: u64, s: Series, metric: Text)
    requires GoodSources(cfg, sources)
    ensures metric in FirstMetrics(cfg, sources, e, s) <==> AllItems(cfg, sources, metric, e, s) != []
    decreases |sources|
  {
    hide GoodSource, Taken, Accepted;
    if sources != [] {
      MetricsHaveItems(cfg, sources[..|sources| - 1], e, s, metric);
    }
  }

  lemma {:induction false} MetricsComeFrom(cfg: BranchConfig, sources: seq<Source>, e: u64, s: Series, metric: Text) returns (n: nat)
    requires GoodSources(cfg, sources) && metric in FirstMetrics(cfg, sources, e, s)
    ensures n < |sources| && Contributed(cfg, sources[n], e, s) != [] && Contributed(cfg, sources[n], e, s)[0].metric == metric
    decreases |sources|
  {
    hide GoodSource, Contributed;
    n := |sources| - 1;
    if metric in FirstMetrics(cfg, sources[..n], e, s) {
      n := MetricsComeFrom(cfg, sources[..n], e, s, metric);
    }
  }

  lemma {:induction false} MetricIsFirst(cfg: BranchConfig, sources: seq<Source>, e: u64, s: Series, n: nat)
    requires GoodSources(cfg, sources) && n < |sources| && Contributed(cfg, sources[n], e, s) != []
    ensures Contributed(cfg, sources[n], e, s)[0].metric in FirstMetrics(cfg, sources, e, s)
    decreases |sources|
  {
    hide GoodSource, Contributed;
    if n < |sources| - 1 {
      MetricIsFirst(cfg, sources[..|sources| - 1], e, s, n);
    }
  }

  /** There is one first metric exactly when all sources agree on it. */
  lemma {:induction false} OneFirstMetric(cfg: BranchConfig, sources: seq<Source>, e: u64, s: Series)
    requires GoodSources(cfg, sources) && FirstMetrics(cfg, sources, e, s) != {}
    ensures |FirstMetrics(cfg, sources, e, s)| == 1 <==> SameFirstMetric(cfg, sources, e, s)
  {
    hide GoodSource, Contributed, FirstMetrics;
    var all := FirstMetrics(cfg, sources, e, s);
    var metric :| metric in all;
    if SameFirstMetric(cfg, sources, e, s) {
      forall x | x in all
        ensures x == metric
      {
        var i := MetricsComeFrom(cfg, sources, e, s, x);
        var j := MetricsComeFrom(cfg, sources, e, s, metric);
      }
      assert all == {metric};
    } else if |all| == 1 {
      Single(all, metric);
      forall i, j | 0 <= i < |sources| && 0 <= j < |sources| && Contributed(cfg, sources[i], e, s) != [] && Contributed(cfg, sources[j], e, s) != []
        ensures Contributed(cfg, sources[i], e, s)[0].metric == Contributed(cfg, sources[j], e, s)[0].metric
      {
        MetricIsFirst(cfg, sources, e, s, i);
        MetricIsFirst(cfg, sources, e, s, j);
      }
    }
  }

  lemma {:induction false} Single<T>(s: set<T>, x: T)
    requires |s| == 1 && x in s
    ensures s == {x}
  {
    assert |s - {x}| == 0;
    assert s == (s - {x}) + {x};
  }

  /** Under the one first metric travel all items of all sources. */
  lemma {:induction false} AllUnderOneMetric(cfg: BranchConfig, sources: seq<Source>, e: u64, s: Series, metric: Text)
    requires GoodSources(cfg, sources) && FirstMetrics(cfg, sources, e, s) <= {metric}
    ensures AllItems(cfg, sources, metric, e, s) == Everything(cfg, sources, e, s)
    decreases |sources|
  {
    hide GoodSource, Taken, Accepted;
    if sources != [] {
      AllUnderOneMetric(cfg, sources[..|sources| - 1], e, s, metric);
      var list := Contributed(cfg, sources[|sources| - 1], e, s);
      assert list != [] ==> list[0].metric in FirstMetrics(cfg, sources, e, s);
      assert list == [] ==> Items(list) == [];
    }
  }

  // ---------- emissions ----------

  /** The emissions for a series in the window that ends at `e`, by their keys. */
  ghost function EmittedKeys(m: Merger<MergeKey, ExactWindow>, e: u64, s: Series): set<MergeKey> {
    set i, k | 0 <= i < |m.emitted| && k in m.emitted[i].series && m.emitted[i].end == e && k.labels == LabelsOf(s) :: k
  }

  ghost function MetricKeys(cfg: BranchConfig, metrics: set<Text>, s: Series, e: u64): set<MergeKey>
    requires e >= cfg.Size()
  {
    set metric | metric in metrics :: SeriesKey(cfg, metric, s, e)
  }

  lemma {:induction false} AsManyKeys(cfg: BranchConfig, metrics: set<Text>, s: Series, e: u64)
    requires e >= cfg.Size()
    ensures |MetricKeys(cfg, metrics, s, e)| == |metrics|
    decreases metrics
  {
    if metrics != {} {
      var metric :| metric in metrics;
      AsManyKeys(cfg, metrics - {metric}, s, e);
      assert MetricKeys(cfg, metrics, s, e) == MetricKeys(cfg, metrics - {metric}, s, e) + {SeriesKey(cfg, metric, s, e)};
      assert SeriesKey(cfg, metric, s, e) !in MetricKeys(cfg, metrics - {metric}, s, e);
    }
  }

  /** The emissions for a series are one for each first metric. */
  lemma {:induction false} OneForEachMetric(cfg: BranchConfig, sources: seq<Source>, m: Merger<MergeKey, ExactWindow>, limit: u64, e: u64, s: Series)
    requires NoClash(cfg) && GoodSources(cfg, sources) && ExactlyOnce(cfg, sources, m, limit)
    requires Proper(cfg, s) && cfg.Size() <= e <= limit && e < U64_MAX
    ensures EmittedKeys(m, e, s) == MetricKeys(cfg, FirstMetrics(cfg, sources, e, s), s, e)
  {
    hide GoodSources, FirstMetrics, AllItems, NoClash, Proper, ExactlyOnce, SeriesKey;
    var metrics := FirstMetrics(cfg, sources, e, s);
    forall metric | metric in metrics
      ensures SeriesKey(cfg, metric, s, e) in EmittedKeys(m, e, s)
    {
      MetricsHaveItems(cfg, sources, e, s, metric);
      var i := SomeEmission(cfg, sources, m, limit, metric, e, s);
      KeyIsEmitted(cfg, m, i, metric, e, s);
    }
    forall k | k in EmittedKeys(m, e, s)
      ensures k in MetricKeys(cfg, metrics, s, e)
    {
      var i :| 0 <= i < |m.emitted| && k in m.emitted[i].series && m.emitted[i].end == e;
      var metric := KeyHasMetric(cfg, sources, m, limit, i, k, e, s);
      MetricsHaveItems(cfg, sources, e, s, metric);
    }
  }

  lemma {:induction false} KeyHasMetric(cfg: BranchConfig, sources: seq<Source>, m: Merger<MergeKey, ExactWindow>, limit: u64, i: nat, k: MergeKey, e: u64, s: Series)
    returns (metric: Text)
    requires NoClash(cfg) && GoodSources(cfg, sources) && ExactlyOnce(cfg, sources, m, limit) && Proper(cfg, s) && e >= cfg.Size()
    requires i < |m.emitted| && m.emitted[i].end == e && k in m.emitted[i].series && k.labels == LabelsOf(s)
    ensures k == SeriesKey(cfg, metric, s, e) && AllItems(cfg, sources, metric, e, s) != []
  {
    hide GoodSources, AllItems, NoClash, Proper, ExactlyOnce, SameData, Holding, MergedAll;
    var t;
    metric, t := EmissionIsOf(cfg, sources, m, limit, i, k);
    assert SeriesKey(cfg, metric, t, e) == SeriesKey(cfg, metric, s, e);
    IsOfTheSeries(cfg, sources, metric, metric, e, s, t, m.emitted[i].series[k]);
  }

  /** What a run of the merge ends with. */
  ghost function Ended(sources: seq<Source>, steps: seq<Step>, limit: u64): Merger<MergeKey, ExactWindow>
    requires After(Sending(sources), steps, false).Some?
  {
    Due(After(Sending(sources), steps, false).value.merger, limit, |sources|)
  }

  /** One of the emissions for a series holds all items of all sources. */
  ghost predicate HoldsEverything(cfg: BranchConfig, sources: seq<Source>, m: Merger<MergeKey, ExactWindow>, e: u64, s: Series)
    requires GoodSources(cfg, sources)
  {
    exists i, k :: 0 <= i < |m.emitted| && k in m.emitted[i].series && m.emitted[i].end == e && k in EmittedKeys(m, e, s)
      && SameData(MergedAll(m.emitted[i].series[k]), Holding(Everything(cfg, sources, e, s)))
  }

  /** A series with a point gets one emission for each first metric: so exactly one if and only
      if its sources agree on the first metric, and then that one is the exact window over all
      points of all sources. */
  lemma {:induction false} OneWindowExactlyWhen(cfg: BranchConfig, sources: seq<Source>, steps: seq<Step>, graceMs: u64, e: u64, s: Series)
    requires NoClash(cfg) && GoodSources(cfg, sources) && Finishes(Sending(sources), steps, false)
    requires Proper(cfg, s) && cfg.Size() <= e <= U64_MAX - graceMs && e < U64_MAX && FirstMetrics(cfg, sources, e, s) != {}
    ensures After(Sending(sources), steps, false).Some? && Counts(cfg, sources, Ended(sources, steps, U64_MAX - graceMs), e, s)
  {
    hide *;
    var limit: u64 := U64_MAX - graceMs;
    var m := EndedExactly(cfg, sources, steps, limit);
    CountsHold(cfg, sources, m, limit, e, s);
  }

  /** As many emissions as first metrics: one exactly when the sources agree, and then it holds
      everything. */
  ghost predicate Counts(cfg: BranchConfig, sources: seq<Source>, m: Merger<MergeKey, ExactWindow>, e: u64, s: Series)
    requires GoodSources(cfg, sources)
  {
    && |EmittedKeys(m, e, s)| == |FirstMetrics(cfg, sources, e, s)|
    && (|EmittedKeys(m, e, s)| == 1 <==> SameFirstMetric(cfg, sources, e, s))
    && (SameFirstMetric(cfg, sources, e, s) ==> HoldsEverything(cfg, sources, m, e, s))
  }

  lemma {:induction false} EndedExactly(cfg: BranchConfig, sources: seq<Source>, steps: seq<Step>, limit: u64) returns (m: Merger<MergeKey, ExactWindow>)
    requires NoClash(cfg) && GoodSources(cfg, sources) && Finishes(Sending(sources), steps, false)
    ensures After(Sending(sources), steps, false).Some? && m == Ended(sources, steps, limit) && ExactlyOnce(cfg, sources, m, limit)
  {
    ExactBaselineIsExact(cfg, sources, steps, U64_MAX - limit);
    hide GoodSources, After, Due, ExactlyOnce, NoClash;
    m := Ended(sources, steps, limit);
  }

  lemma {:induction false} CountsHold(cfg: BranchConfig, sources: seq<Source>, m: Merger<MergeKey, ExactWindow>, limit: u64, e: u64, s: Series)
    requires NoClash(cfg) && GoodSources(cfg, sources) && ExactlyOnce(cfg, sources, m, limit)
    requires Proper(cfg, s) && cfg.Size() <= e <= limit && e < U64_MAX && FirstMetrics(cfg, sources, e, s) != {}
    ensures Counts(cfg, sources, m, e, s)
  {
    hide GoodSources, FirstMetrics, ExactlyOnce, NoClash, Proper, SameFirstMetric, EmittedKeys, MetricKeys, HoldsEverything;
    OneForEachMetric(cfg, sources, m, limit, e, s);
    AsManyKeys(cfg, FirstMetrics(cfg, sources, e, s), s, e);
    OneFirstMetric(cfg, sources, e, s);
    if SameFirstMetric(cfg, sources, e, s) {
      TheOneHoldsAll(cfg, sources, m, limit, e, s);
    }
  }

  lemma {:induction false} TheOneHoldsAll(cfg: BranchConfig, sources: seq<Source>, m: Merger<MergeKey, ExactWindow>, limit: u64, e: u64, s: Series)
    requires NoClash(cfg) && GoodSources(cfg, sources) && ExactlyOnce(cfg, sources, m, limit)
    requires Proper(cfg, s) && cfg.Size() <= e <= limit && e < U64_MAX && |FirstMetrics(cfg, sources, e, s)| == 1
    ensures HoldsEverything(cfg, sources, m, e, s)
  {
    hide FirstMetrics, GoodSources, ExactlyOnce, NoClash, Proper, SeriesKey, AllItems, Everything, SameData, Holding, MergedAll;
    var metric :| metric in FirstMetrics(cfg, sources, e, s);
    Single(FirstMetrics(cfg, sources, e, s), metric);
    MetricsHaveItems(cfg, sources, e, s, metric);
    AllUnderOneMetric(cfg, sources, e, s, metric);
    var i := WindowEmitted(cfg, sources, m, limit, metric, e, s);
    KeyIsEmitted(cfg, m, i, metric, e, s);
  }

  lemma {:induction false} KeyIsEmitted(cfg: BranchConfig, m: Merger<MergeKey, ExactWindow>, i: nat, metric: Text, e: u64, s: Series)
    requires i < |m.emitted| && m.emitted[i].end == e && e >= cfg.Size() && SeriesKey(cfg, metric, s, e) in m.emitted[i].series
    ensures SeriesKey(cfg, metric, s, e) in EmittedKeys(m, e, s)
  {
  }

  /** The emission for a series under a metric it has. */
  lemma {:induction false} WindowEmitted(cfg: BranchConfig, sources: seq<Source>, m: Merger<MergeKey, ExactWindow>, limit: u64, metric: Text, e: u64, s: Series)
    returns (i: nat)
    requires NoClash(cfg) && GoodSources(cfg, sources) && ExactlyOnce(cfg, sources, m, limit)
    requires Proper(cfg, s) && cfg.Size() <= e <= limit && e < U64_MAX && AllItems(cfg, sources, metric, e, s) != []
    ensures i < |m.emitted| && m.emitted[i].end == e && SeriesKey(cfg, metric, s, e) in m.emitted[i].series
    ensures SameData(MergedAll(m.emitted[i].series[SeriesKey(cfg, metric, s, e)]), Holding(AllItems(cfg, sources, metric, e, s)))
  {
    hide *;
    i := SomeEmission(cfg, sources, m, limit, metric, e, s);
    var other, t := EmissionIsOf(cfg, sources, m, limit, i, SeriesKey(cfg, metric, s, e));
    IsOfTheSeries(cfg, sources, metric, other, e, s, t, m.emitted[i].series[SeriesKey(cfg, metric, s, e)]);
  }

  lemma {:induction false} IsOfTheSeries(cfg: BranchConfig, sources: seq<Source>, metric: Text, other: Text, e: u64, s: Series, t: Series, list: seq<ExactWindow>)
    requires NoClash(cfg) && GoodSources(cfg, sources) && Proper(cfg, s) && e >= cfg.Size()
    requires IsWindowOf(cfg, sources, other, e, t, SeriesKey(cfg, metric, s, e), list)
    ensures metric == other && s == t && AllItems(cfg, sources, metric, e, s) != []
    ensures SameData(MergedAll(list), Holding(AllItems(cfg, sources, metric, e, s)))
  {
    hide GoodSources, AllItems, NoClash, Proper, SeriesKey, SameData, Holding, MergedAll;
    KeysAreDistinct(cfg, metric, s, other, t, e);
  }

  lemma {:induction false} SomeEmission(cfg: BranchConfig, sources: seq<Source>, m: Merger<MergeKey, ExactWindow>, limit: u64, metric: Text, e: u64, s: Series)
    returns (i: nat)
    requires GoodSources(cfg, sources) && ExactlyOnce(cfg, sources, m, limit)
    requires Proper(cfg, s) && cfg.Size() <= e <= limit && e < U64_MAX && AllItems(cfg, sources, metric, e, s) != []
    ensures i < |m.emitted| && m.emitted[i].end == e && SeriesKey(cfg, metric, s, e) in m.emitted[i].series
  {
    hide GoodSources, AllItems, Proper, SeriesKey, IsWindowOf;
    i :| 0 <= i < |m.emitted| && m.emitted[i].end == e && SeriesKey(cfg, metric, s, e) in m.emitted[i].series;
  }

  lemma {:induction false} EmissionIsOf(cfg: BranchConfig, sources: seq<Source>, m: Merger<MergeKey, ExactWindow>, limit: u64, i: nat, k: MergeKey)
    returns (metric: Text, s: Series)
    requires GoodSources(cfg, sources) && ExactlyOnce(cfg, sources, m, limit) && i < |m.emitted| && k in m.emitted[i].series
    ensures m.emitted[i].end >= cfg.Size() && IsWindowOf(cfg, sources, metric, m.emitted[i].end, s, k, m.emitted[i].series[k])
  {
    hide GoodSources, AllItems, Proper, SeriesKey, IsWindowOf;
    metric, s :| IsWindowOf(cfg, sources, metric, m.emitted[i].end, s, k, m.emitted[i].series[k]);
  }

  // ---------- a source that exists, and two that split a series ----------

  lemma {:induction false} OrderExists(counts: map<Text, nat>) returns (order: seq<Text>)
    ensures Iterates(order, counts)
    decreases |counts|
  {
    if counts == map[] {
      order := [];
    } else {
      var k :| k in counts;
      SmallerMap(counts, k);
      var rest := OrderExists(counts - {k});
      order := rest + [k];
      forall i, j | 0 <= i < j < |order|
        ensures order[i] != order[j]
      {
        if j == |rest| {
          assert rest[i] in rest;
        }
      }
    }
  }

  /** Every series can be put on the wire. */
  lemma {:induction false} SeriesOnWire(end: u64, s: Series, list: seq<Tagged>, size: u64) returns (e: ExactBranches.Envelope)
    requires list != [] && size <= end
    ensures CarriesSeries(e, end, s, list, size)
  {
    hide Holding, Encoded;
    var data := Holding(Items(list));
    var order := OrderExists(data.counts);
    e := SketchEnvelope(1, SketchType.Exact, 0, [], LabelsOf(s), end - size, end, Encoded(data, order), list[0].metric, data.points, 0);
  }

  lemma {:induction false} PartOnWire(c: Closed<Series, Tagged>, done: set<Series>, size: u64) returns (out: seq<ExactBranches.Envelope>, names: seq<Series>)
    requires size <= c.end && done <= c.series.Keys && forall s :: s in c.series ==> c.series[s] != []
    ensures CarriesPart(out, names, c.end, c.series, done, size)
    decreases |done|
  {
    hide CarriesSeries;
    if done == {} {
      out, names := [], [];
    } else {
      var s :| s in done;
      assert (done - {s}) + {s} == done;
      out, names := PartOnWire(c, done - {s}, size);
      var e := SeriesOnWire(c.end, s, c.series[s], size);
      CarriesPush(out, names, c.end, c.series, done - {s}, size, e, s);
      out, names := out + [e], names + [s];
    }
  }

  lemma {:induction false} WindowsOnWire(cfg: BranchConfig, closed: seq<Closed<Series, Tagged>>) returns (out: seq<ExactBranches.Envelope>, parts: Parts)
    requires AllClean(cfg, closed)
    ensures CarriesAll(out, parts, closed, cfg.Size())
    decreases |closed|
  {
    hide CarriesSeries, CarriesPart;
    if closed == [] {
      out, parts := [], Parts([], []);
    } else {
      var n := |closed| - 1;
      out, parts := WindowsOnWire(cfg, closed[..n]);
      var envelopes, names := PartOnWire(closed[n], closed[n].series.Keys, cfg.Size());
      PartIsWindow(envelopes, names, closed[n], cfg.Size());
      CarriesOneMore(out, parts, closed[..n], cfg.Size(), envelopes, names, closed[n]);
      assert closed[..n] + [closed[n]] == closed;
      out, parts := out + envelopes, Parts(parts.envelopes + [envelopes], parts.names + [names]);
    }
  }

  lemma {:induction false} PartIsWindow(out: seq<ExactBranches.Envelope>, names: seq<Series>, c: Closed<Series, Tagged>, size: u64)
    requires CarriesPart(out, names, c.end, c.series, c.series.Keys, size)
    ensures CarriesWindow(out, names, c, size)
  {
    hide CarriesSeries;
  }

  /** Every orderly branch can send what it emits. */
  lemma {:induction false} MessagesOnWire(cfg: BranchConfig, messages: seq<seq<Closed<Series, Tagged>>>) returns (wires: seq<seq<ExactBranches.Envelope>>)
    requires AllClean(cfg, Concat(messages))
    ensures Wired(cfg, wires, messages)
    decreases |messages|
  {
    hide CarriesAll, AllClean;
    if messages == [] {
      wires := [];
    } else {
      var n := |messages| - 1;
      CleanParts(cfg, messages, n);
      wires := MessagesOnWire(cfg, messages[..n]);
      var out, parts := WindowsOnWire(cfg, messages[n]);
      assert OnWire(cfg, out, messages[n]);
      hide OnWire;
      wires := wires + [out];
    }
  }

  /** A source with one point, without labels, under a metric. */
  ghost function OnePoint(metric: Text, x: F64): seq<BranchStep> {
    [Observe(Point(0, metric, [], Some(x))), Close(U64_MAX)]
  }

  lemma {:induction false} OnePointFits(cfg: BranchConfig, metric: Text, x: F64)
    ensures Fits(cfg, OnePoint(metric, x)) && OnTime(cfg, OnePoint(metric, x))
  {
    assert EndOf(cfg.Size(), 0) == cfg.Size();
  }

  lemma {:induction false} OnePointArrives(cfg: BranchConfig, metric: Text, x: F64)
    requires cfg.groupBy != []
    ensures EndOf(cfg.Size(), 0) == cfg.Size()
    ensures PointArrivals(cfg, Point(0, metric, [], Some(x)))
         == [Arrival(cfg.Size(), Quantile(Project([], cfg.groupBy)), true, Tagged(metric, Value(x)))]
  {
    hide Project;
  }

  lemma {:induction false} OnePointTaken(cfg: BranchConfig, metric: Text, x: F64)
    requires cfg.groupBy != []
    ensures Orderly(cfg, OnePoint(metric, x))
    ensures Accepted(Taken(cfg, OnePoint(metric, x)), cfg.Size(), Quantile(Project([], cfg.groupBy))) == [Tagged(metric, Value(x))]
  {
    OnePointFits(cfg, metric, x);
    OnePointArrives(cfg, metric, x);
    hide PointArrivals, Project, OnTime, EndOf;
    var steps := OnePoint(metric, x);
    var a := Arrival(cfg.Size(), Quantile(Project([], cfg.groupBy)), true, Tagged(metric, Value(x)));
    assert steps[..1] == [steps[0]] && steps[..1][..0] == [];
    assert Taken(cfg, steps[..1]) == [] + [a] == [a];
    assert Taken(cfg, steps) == [a] + [] == [a];
    assert [a][..0] == [];
    assert Accepted([a], cfg.Size(), a.key) == [] + [a.body];
  }

  /** Two sources whose only points differ in their metric: the one series of the one window has two
      first metrics, so it is emitted twice however their messages reach the merge. */
  lemma {:induction false} TwoMetricsSplit(cfg: BranchConfig, x: F64, metric: Text, other: Text) returns (sources: seq<Source>)
    requires cfg.groupBy != [] && metric != other
    ensures |sources| == 2 && sources[0].steps == OnePoint(metric, x) && sources[1].steps == OnePoint(other, x)
    ensures GoodSources(cfg, sources)
    ensures FirstMetrics(cfg, sources, cfg.Size(), Quantile(Project([], cfg.groupBy))) == {metric, other}
  {
    hide Taken, Accepted, Orderly, Messages;
    OnePointTaken(cfg, metric, x);
    OnePointTaken(cfg, other, x);
    var a := OneSourceExists(cfg, OnePoint(metric, x));
    var b := OneSourceExists(cfg, OnePoint(other, x));
    sources := [a, b];
    var e, s := cfg.Size(), Quantile(Project([], cfg.groupBy));
    assert sources[..1] == [a] && [a][..0] == [];
    assert GoodSources(cfg, [a]) && GoodSources(cfg, []);
    hide GoodSource;
    assert FirstMetrics(cfg, [a], e, s) == FirstMetrics(cfg, [], e, s) + {metric};
  }

  lemma {:induction false} OneSourceExists(cfg: BranchConfig, steps: seq<BranchStep>) returns (src: Source)
    requires Orderly(cfg, steps) && steps != [] && steps[|steps| - 1] == Close(U64_MAX)
    ensures src.steps == steps && GoodSource(cfg, src)
  {
    OrderlyFits(cfg, steps);
    hide Orderly, BranchAfter, AllClean, Messages, OnWire;
    MessagesAreEmissions(cfg, steps);
    EmissionsAreClean(cfg, steps);
    var wires := MessagesOnWire(cfg, Messages(cfg, steps));
    src := Source(steps, wires);
  }
}
