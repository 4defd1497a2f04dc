/** Exact branches into the exact merge, end to end. */
module EndToEnd {
  import opened Basics
  import opened Envelopes
  import opened WindowProtocol
  import opened Confluence
  import opened ExactWindows
  import opened ExactBranches
  import opened ExactMerges
  import opened BranchSeries

  // ---------- one branch ----------

  /** What happens to a branch: a point, or the closing of every window up to a time. */
  datatype BranchStep = Observe(point: Point) | Close(until: u64)

  ghost function BranchAfter(cfg: BranchConfig, steps: seq<BranchStep>): Merger<Series, Tagged>
    requires Fits(cfg, steps)
  {
    if steps == [] then Fresh()
    else
      var m := BranchAfter(cfg, steps[..|steps| - 1]);
      match steps[|steps| - 1]
      case Observe(p) => AddAll(m, PointArrivals(cfg, p), false)
      case Close(until) => Due(m, until, 0)
  }

  /** The windows of all points end within the range of times. */
  ghost predicate Fits(cfg: BranchConfig, steps: seq<BranchStep>) {
    forall i :: 0 <= i < |steps| && steps[i].Observe? ==> EndOf(cfg.Size(), steps[i].point.timestampMs) <= U64_MAX
  }

  /** Everything the points of a run add, in order. */
  ghost function Taken(cfg: BranchConfig, steps: seq<BranchStep>): seq<Arrival<Series, Tagged>>
    requires Fits(cfg, steps)
  {
    if steps == [] then []
    else
      Taken(cfg, steps[..|steps| - 1]) +
      if steps[|steps| - 1].Observe? then PointArrivals(cfg, steps[|steps| - 1].point) else []
  }

  /** No window is closed before its last point. */
  ghost predicate OnTime(cfg: BranchConfig, steps: seq<BranchStep>) {
    forall i, j :: 0 <= i < j < |steps| && steps[i].Close? && steps[j].Observe? ==>
      EndOf(cfg.Size(), steps[j].point.timestampMs) > steps[i].until
  }

  ghost predicate BranchAgrees(m: Merger<Series, Tagged>, hist: seq<Arrival<Series, Tagged>>) {
    && Safe(m) && m.late == [] && OpenAgrees(m, hist) && EmittedAgrees(m, hist) && NoEmptySeries(m) && m.messages == map[]
  }

  ghost predicate AllClosedBy(steps: seq<BranchStep>, t: int) {
    forall i :: 0 <= i < |steps| && steps[i].Close? ==> steps[i].until < t
  }

  /** A branch emits only up to the times it was told to close. */
  lemma {:induction false} EmitsUpToCloses(cfg: BranchConfig, steps: seq<BranchStep>, t: int)
    requires Fits(cfg, steps) && AllClosedBy(steps, t) && t > 0
    ensures BranchAfter(cfg, steps).emittedUntil < t
    ensures BranchAfter(cfg, steps).messages == map[]
    decreases |steps|
  {
    if steps != [] {
      var init := steps[..|steps| - 1];
      EmitsUpToCloses(cfg, init, t);
      var m := BranchAfter(cfg, init);
      match steps[|steps| - 1]
      case Observe(p) =>
        AddAllUntil(m, PointArrivals(cfg, p));
      case Close(until) =>
        NoCounters(until);
        assert AllClosedBy(steps, t) && steps[|steps| - 1].until == until;
    }
  }

  lemma {:induction false} AddAllUntil(m: Merger<Series, Tagged>, msg: seq<Arrival<Series, Tagged>>)
    ensures AddAll(m, msg, false).emittedUntil == m.emittedUntil && AddAll(m, msg, false).messages == m.messages
    decreases |msg|
  {
    if msg != [] {
      AddAllUntil(m, msg[..|msg| - 1]);
    }
  }

  lemma {:induction false} PointEnds(cfg: BranchConfig, p: Point)
    requires EndOf(cfg.Size(), p.timestampMs) <= U64_MAX
    ensures forall a :: a in PointArrivals(cfg, p) ==> a.ok && a.end == EndOf(cfg.Size(), p.timestampMs)
    ensures forall e :: e in Ends(PointArrivals(cfg, p)) ==> e == EndOf(cfg.Size(), p.timestampMs)
  {
    AttributeEnds(cfg, p, EndOf(cfg.Size(), p.timestampMs), |p.labels|);
  }

  /** A branch on time drops no point. */
  lemma {:induction false} BranchIsExact(cfg: BranchConfig, steps: seq<BranchStep>)
    requires Fits(cfg, steps) && OnTime(cfg, steps)
    ensures BranchAgrees(BranchAfter(cfg, steps), Taken(cfg, steps))
    decreases |steps|
  {
    hide AddAll, Due, OpenAgrees, EmittedAgrees, NoEmptySeries, Safe, EndOf;
    if steps == [] {
      FreshAgrees();
    } else {
      var init := steps[..|steps| - 1];
      BranchIsExact(cfg, init);
      var m := BranchAfter(cfg, init);
      match steps[|steps| - 1]
      case Observe(p) =>
        PointEnds(cfg, p);
        EndsAfterStart(cfg.Size(), p.timestampMs);
        assert AllClosedBy(init, EndOf(cfg.Size(), p.timestampMs)) by {
          assert steps[|steps| - 1].Observe?;
        }
        EmitsUpToCloses(cfg, init, EndOf(cfg.Size(), p.timestampMs));
        AbsorbEnvelopes(m, Taken(cfg, init), PointArrivals(cfg, p), false);
      case Close(until) =>
        DueEmits(m, Taken(cfg, init), until, 0);
        DueSafe(m, until, 0);
        DueKeepsLate(m, until);
        assert Taken(cfg, steps) == Taken(cfg, init);
    }
  }

  lemma {:induction false} DueKeepsLate(m: Merger<Series, Tagged>, until: u64)
    ensures Due(m, until, 0).late == m.late
    ensures m.messages == map[] ==> Due(m, until, 0).messages == map[]
  {
  }

  lemma {:induction false} FreshAgrees()
    ensures BranchAgrees(Fresh(), [])
  {
  }

  /** The batches of a source: the first point of a batch closes the windows it is past,
      then every point is observed; shutdown closes the rest. */
  ghost function StepsOf(batches: seq<seq<Point>>): seq<BranchStep> {
    if batches == [] then []
    else
      var b := batches[|batches| - 1];
      StepsOf(batches[..|batches| - 1]) + if b == [] then [] else [Close(b[0].timestampMs)] + Observes(b)
  }

  ghost function Observes(b: seq<Point>): seq<BranchStep> {
    seq(|b|, i requires 0 <= i < |b| => Observe(b[i]))
  }

  ghost function AllPoints(batches: seq<seq<Point>>): seq<Point> {
    if batches == [] then [] else AllPoints(batches[..|batches| - 1]) + batches[|batches| - 1]
  }

  ghost predicate InTimeOrder(points: seq<Point>) {
    forall i, j :: 0 <= i < j < |points| ==> points[i].timestampMs <= points[j].timestampMs
  }

  /** Every step's time is that of a point seen so far. */
  ghost predicate StepsWithin(steps: seq<BranchStep>, points: seq<Point>) {
    && (forall i :: 0 <= i < |steps| && steps[i].Observe? ==> steps[i].point in points)
    && (forall i :: 0 <= i < |steps| && steps[i].Close? ==> exists p :: p in points && steps[i].until <= p.timestampMs)
  }

  /** A source that sends its points in time order is on time. */
  lemma {:induction false} TimeOrderIsOnTime(cfg: BranchConfig, batches: seq<seq<Point>>)
    requires InTimeOrder(AllPoints(batches))
    ensures OnTime(cfg, StepsOf(batches)) && StepsWithin(StepsOf(batches), AllPoints(batches))
    ensures OnTime(cfg, StepsOf(batches) + [Close(U64_MAX)])
    decreases |batches|
  {
    if batches != [] {
      var init, b := batches[..|batches| - 1], batches[|batches| - 1];
      var before := AllPoints(init);
      assert InTimeOrder(before) by {
        assert forall i :: 0 <= i < |before| ==> AllPoints(batches)[i] == before[i];
      }
      TimeOrderIsOnTime(cfg, init);
      if b != [] {
        NextBatch(cfg, StepsOf(init), before, b);
      }
    }
    var steps := StepsOf(batches);
    assert forall i :: 0 <= i < |steps| ==> (steps + [Close(U64_MAX)])[i] == steps[i];
  }

  lemma {:induction false} NextBatch(cfg: BranchConfig, steps: seq<BranchStep>, before: seq<Point>, b: seq<Point>)
    requires b != [] && InTimeOrder(before + b)
    requires OnTime(cfg, steps) && StepsWithin(steps, before)
    ensures OnTime(cfg, steps + ([Close(b[0].timestampMs)] + Observes(b)))
    ensures StepsWithin(steps + ([Close(b[0].timestampMs)] + Observes(b)), before + b)
  {
    var more := [Close(b[0].timestampMs)] + Observes(b);
    var all := steps + more;
    forall i, j | 0 <= i < j < |all| && all[i].Close? && all[j].Observe?
      ensures EndOf(cfg.Size(), all[j].point.timestampMs) > all[i].until
    {
      EndsAfterStart(cfg.Size(), all[j].point.timestampMs);
      if j >= |steps| {
        var n := j - |steps| - 1;
        assert all[j].point == b[n] && (before + b)[|before| + n] == b[n];
        if i < |steps| {
          var p :| p in before && steps[i].until <= p.timestampMs;
          var q :| 0 <= q < |before| && before[q] == p;
          assert (before + b)[q] == p;
        } else {
          assert (before + b)[|before|] == b[0];
        }
      }
    }
    assert b[0] in before + b;
  }

  // ---------- the messages of a branch ----------

  /** What each closing that emits something emits: one message each. */
  ghost function Messages(cfg: BranchConfig, steps: seq<BranchStep>): seq<seq<Closed<Series, Tagged>>>
    requires Fits(cfg, steps)
  {
    if steps == [] then []
    else
      var init := steps[..|steps| - 1];
      var before, after := BranchAfter(cfg, init).emitted, BranchAfter(cfg, steps).emitted;
      if |before| < |after| then Messages(cfg, init) + [after[|before|..]] else Messages(cfg, init)
  }

  ghost function Concat<T>(parts: seq<seq<T>>): seq<T> {
    if parts == [] then [] else Concat(parts[..|parts| - 1]) + parts[|parts| - 1]
  }

  lemma {:induction false} StepExtends(cfg: BranchConfig, steps: seq<BranchStep>)
    requires Fits(cfg, steps) && steps != []
    ensures BranchAfter(cfg, steps[..|steps| - 1]).emitted <= BranchAfter(cfg, steps).emitted
  {
    var m := BranchAfter(cfg, steps[..|steps| - 1]);
    match steps[|steps| - 1]
    case Observe(p) => AddAllEmitted(m, PointArrivals(cfg, p));
    case Close(until) =>
  }

  lemma {:induction false} AddAllEmitted(m: Merger<Series, Tagged>, msg: seq<Arrival<Series, Tagged>>)
    ensures AddAll(m, msg, false).emitted == m.emitted
    decreases |msg|
  {
    if msg != [] {
      AddAllEmitted(m, msg[..|msg| - 1]);
    }
  }

  /** The messages of a run, one after the other, are everything it emitted. */
  lemma {:induction false} MessagesAreEmissions(cfg: BranchConfig, steps: seq<BranchStep>)
    requires Fits(cfg, steps)
    ensures Concat(Messages(cfg, steps)) == BranchAfter(cfg, steps).emitted
    decreases |steps|
  {
    hide BranchAfter;
    if steps == [] {
      NothingEmitted(cfg);
    } else {
      var init := steps[..|steps| - 1];
      MessagesAreEmissions(cfg, init);
      StepExtends(cfg, steps);
      var before, after := BranchAfter(cfg, init).emitted, BranchAfter(cfg, steps).emitted;
      if |before| < |after| {
        assert Messages(cfg, steps)[..|Messages(cfg, init)|] == Messages(cfg, init);
        assert before + after[|before|..] == after;
      }
    }
  }

  lemma {:induction false} NothingEmitted(cfg: BranchConfig)
    ensures BranchAfter(cfg, []).emitted == []
  {
  }

  ghost predicate Increasing(closed: seq<Closed<Series, Tagged>>) {
    forall i, j :: 0 <= i < j < |closed| ==> closed[i].end < closed[j].end
  }

  /** Part `n` of a concatenation is a slice of it, before the slices of later parts. */
  lemma {:induction false} PartOf<T>(parts: seq<seq<T>>, n: nat, x: T) returns (i: nat)
    requires n < |parts| && x in parts[n]
    ensures i < |Concat(parts)| && Concat(parts)[i] == x
    ensures |Concat(parts[..n])| <= i < |Concat(parts[..n + 1])|
    decreases |parts|
  {
    var init := parts[..|parts| - 1];
    if n == |parts| - 1 {
      var k :| 0 <= k < |parts[n]| && parts[n][k] == x;
      assert parts[..n + 1] == parts;
      i := |Concat(init)| + k;
    } else {
      i := PartOf(init, n, x);
      assert init[..n] == parts[..n] && init[..n + 1] == parts[..n + 1];
    }
  }

  lemma {:induction false} ConcatGrows<T>(parts: seq<seq<T>>, i: nat, j: nat)
    requires i <= j <= |parts|
    ensures |Concat(parts[..i])| <= |Concat(parts[..j])|
    decreases j
  {
    if i < j {
      ConcatGrows(parts, i, j - 1);
      assert parts[..j][..j - 1] == parts[..j - 1];
    }
  }

  lemma {:induction false} PartsIncrease(parts: seq<seq<Closed<Series, Tagged>>>, m: nat, n: nat, c: Closed<Series, Tagged>, d: Closed<Series, Tagged>)
    requires Increasing(Concat(parts)) && m < n < |parts| && c in parts[m] && d in parts[n]
    ensures c.end < d.end
  {
    var i := PartOf(parts, m, c);
    var j := PartOf(parts, n, d);
    ConcatGrows(parts, m + 1, n);
  }

  // ---------- what a message carries ----------

  /** A series with its contributions, whose data fits. */
  ghost predicate CleanSeries(cfg: BranchConfig, end: u64, s: Series, list: seq<Tagged>) {
    && end >= cfg.Size() && Proper(cfg, s)
    && list != []
    && Addressable(Holding(Items(list))) && ShortKeys(Holding(Items(list)))
  }

  /** A closed window of a branch whose data fits. */
  ghost predicate Clean(cfg: BranchConfig, c: Closed<Series, Tagged>) {
    c.end >= cfg.Size() && forall s :: s in c.series ==> CleanSeries(cfg, c.end, s, c.series[s])
  }

  lemma {:induction false} EnvelopeDecodes(cfg: BranchConfig, e: ExactBranches.Envelope, end: u64, s: Series, list: seq<Tagged>)
    requires CarriesSeries(e, end, s, list, cfg.Size()) && CleanSeries(cfg, end, s, list)
    ensures list != [] && Proper(cfg, s)
    ensures ArrivalOf(e) == Arrival(end, SeriesKey(cfg, list[0].metric, s, end), true, Holding(Items(list)))
  {
    hide Addressable, ShortKeys, Decoded, Encoded, Holding, LabelsOf;
    var data := Holding(Items(list));
    var order :| Iterates(order, data.counts) && e.payload == Encoded(data, order);
    RoundTrip(data, order, []);
    assert Encoded(data, order) + [] == Encoded(data, order);
  }

  /** The items of contributions that travel under a metric: that of the first one. */
  ghost function ItemsUnder(metric: Text, list: seq<Tagged>): seq<Item> {
    if list == [] || list[0].metric != metric then [] else Items(list)
  }

  /** One exact window for them, or nothing. */
  ghost function DataFor(metric: Text, list: seq<Tagged>): seq<ExactWindow> {
    if list == [] || list[0].metric != metric then [] else [Holding(Items(list))]
  }

  /** The data a window has for a series under a metric, as the merge receives it. */
  ghost function DataOf(series: map<Series, seq<Tagged>>, metric: Text, s: Series): seq<ExactWindow> {
    if s in series then DataFor(metric, series[s]) else []
  }

  /** The first `n` envelopes of a window carry a series at most once. */
  lemma {:induction false} WindowCarriesOnce(cfg: BranchConfig, metric: Text, out: seq<ExactBranches.Envelope>, names: seq<Series>,
                                             c: Closed<Series, Tagged>, e: u64, s: Series, n: nat)
    requires CarriesWindow(out, names, c, cfg.Size()) && Clean(cfg, c)
    requires NoClash(cfg) && Proper(cfg, s) && e >= cfg.Size() && n <= |out|
    ensures Accepted(Arrivals(out[..n]), e, SeriesKey(cfg, metric, s, e))
         == if e == c.end && s in names[..n] then DataOf(c.series, metric, s) else []
    decreases n
  {
    hide *;
    if n == 0 {
      NothingCarried(cfg, metric, out, names, e, s);
    } else {
      WindowCarriesOnce(cfg, metric, out, names, c, e, s, n - 1);
      LastCarried(cfg, out, names, c, n);
      OneMoreCarried(cfg, metric, out, names, c, e, s, n);
    }
  }

  lemma {:induction false} NothingCarried(cfg: BranchConfig, metric: Text, out: seq<ExactBranches.Envelope>, names: seq<Series>, e: u64, s: Series)
    requires e >= cfg.Size()
    ensures Accepted(Arrivals(out[..0]), e, SeriesKey(cfg, metric, s, e)) == [] && s !in names[..0]
  {
    NothingAccepted(e, SeriesKey(cfg, metric, s, e));
    assert out[..0] == [];
    hide SeriesKey;
  }

  lemma {:induction false} LastCarried(cfg: BranchConfig, out: seq<ExactBranches.Envelope>, names: seq<Series>,
                                       c: Closed<Series, Tagged>, n: nat)
    requires CarriesWindow(out, names, c, cfg.Size()) && Clean(cfg, c) && 0 < n <= |out|
    ensures |out| == |names| && names[n - 1] in c.series && c.end >= cfg.Size()
    ensures CarriesSeries(out[n - 1], c.end, names[n - 1], c.series[names[n - 1]], cfg.Size())
    ensures CleanSeries(cfg, c.end, names[n - 1], c.series[names[n - 1]])
    ensures forall i :: 0 <= i < n - 1 ==> names[i] != names[n - 1]
  {
    hide CarriesSeries, CleanSeries;
  }

  lemma {:induction false} OneMoreCarried(cfg: BranchConfig, metric: Text, out: seq<ExactBranches.Envelope>, names: seq<Series>,
                                          c: Closed<Series, Tagged>, e: u64, s: Series, n: nat)
    requires 0 < n <= |out| == |names| && names[n - 1] in c.series
    requires CarriesSeries(out[n - 1], c.end, names[n - 1], c.series[names[n - 1]], cfg.Size())
    requires CleanSeries(cfg, c.end, names[n - 1], c.series[names[n - 1]])
    requires forall i :: 0 <= i < n - 1 ==> names[i] != names[n - 1]
    requires NoClash(cfg) && Proper(cfg, s) && e >= cfg.Size() && c.end >= cfg.Size()
    requires Accepted(Arrivals(out[..n - 1]), e, SeriesKey(cfg, metric, s, e))
         == if e == c.end && s in names[..n - 1] then DataOf(c.series, metric, s) else []
    ensures Accepted(Arrivals(out[..n]), e, SeriesKey(cfg, metric, s, e))
         == if e == c.end && s in names[..n] then DataOf(c.series, metric, s) else []
  {
    hide CarriesSeries, CleanSeries, Proper, AttributeKey, SeriesKey, ArrivalOf, Accepted, DataOf, Holding;
    var name := names[n - 1];
    EnvelopeDecodes(cfg, out[n - 1], c.end, name, c.series[name]);
    ArrivalsPush(out, n - 1);
    OneMoreEnvelope(Arrivals(out[..n - 1]), ArrivalOf(out[n - 1]), e, SeriesKey(cfg, metric, s, e));
    assert names[..n] == names[..n - 1] + [name];
    assert s in names[..n] <==> s in names[..n - 1] || s == name;
    DataIsThere(c.series, metric, name);
    hide Arrivals;
    if e == c.end && SeriesKey(cfg, metric, s, e) == SeriesKey(cfg, c.series[name][0].metric, name, e) {
      KeysAreDistinct(cfg, metric, s, c.series[name][0].metric, name, e);
    }
  }

  lemma {:induction false} NothingAccepted(e: u64, key: MergeKey)
    ensures Accepted(Arrivals([]), e, key) == []
  {
  }

  lemma {:induction false} DataIsThere(series: map<Series, seq<Tagged>>, metric: Text, s: Series)
    requires s in series
    ensures DataOf(series, metric, s) == DataFor(metric, series[s])
  {
  }

  lemma {:induction false} OneMoreEnvelope(hist: seq<Arrival<MergeKey, ExactWindow>>, a: Arrival<MergeKey, ExactWindow>, e: u64, key: MergeKey)
    requires a.ok
    ensures Accepted(hist + [a], e, key)
         == if a.end == e && a.key == key then Accepted(hist, e, key) + [a.body] else Accepted(hist, e, key)
  {
    assert (hist + [a])[..|hist|] == hist;
  }

  lemma {:induction false} ArrivalsConcat(a: seq<ExactBranches.Envelope>, b: seq<ExactBranches.Envelope>)
    ensures Arrivals(a + b) == Arrivals(a) + Arrivals(b)
    decreases |b|
  {
    if b == [] {
      assert a + b == a;
    } else {
      ArrivalsConcat(a, b[..|b| - 1]);
      assert (a + b)[..|a + b| - 1] == a + b[..|b| - 1];
    }
  }

  /** The data the windows that end at `e` have for a series. */
  ghost function DataAt(closed: seq<Closed<Series, Tagged>>, metric: Text, e: u64, s: Series): seq<ExactWindow> {
    if closed == [] then []
    else
      var c := closed[|closed| - 1];
      DataAt(closed[..|closed| - 1], metric, e, s) + if c.end == e then DataOf(c.series, metric, s) else []
  }

  ghost predicate AllClean(cfg: BranchConfig, closed: seq<Closed<Series, Tagged>>) {
    forall i :: 0 <= i < |closed| ==> Clean(cfg, closed[i])
  }

  /** A message delivers exactly the data of its windows. */
  lemma {:induction false} MessageDelivers(cfg: BranchConfig, metric: Text, out: seq<ExactBranches.Envelope>, parts: Parts,
                                           closed: seq<Closed<Series, Tagged>>, e: u64, s: Series)
    requires CarriesAll(out, parts, closed, cfg.Size()) && AllClean(cfg, closed)
    requires NoClash(cfg) && Proper(cfg, s) && e >= cfg.Size()
    ensures Accepted(Arrivals(out), e, SeriesKey(cfg, metric, s, e)) == DataAt(closed, metric, e, s)
    decreases |closed|
  {
    hide CarriesWindow, Clean, Proper, AttributeKey, SeriesKey;
    if closed != [] {
      var n := |closed| - 1;
      var init := Parts(parts.envelopes[..n], parts.names[..n]);
      MessageDelivers(cfg, metric, Joined(init.envelopes), init, closed[..n], e, s);
      var envelopes, names := parts.envelopes[n], parts.names[n];
      LastWindow(cfg, metric, envelopes, names, closed[n], e, s);
      ArrivalsConcat(Joined(init.envelopes), envelopes);
      AcceptedConcat(Arrivals(Joined(init.envelopes)), Arrivals(envelopes), e, SeriesKey(cfg, metric, s, e));
    }
  }

  lemma {:induction false} LastWindow(cfg: BranchConfig, metric: Text, out: seq<ExactBranches.Envelope>, names: seq<Series>, c: Closed<Series, Tagged>, e: u64, s: Series)
    requires CarriesWindow(out, names, c, cfg.Size()) && Clean(cfg, c)
    requires NoClash(cfg) && Proper(cfg, s) && e >= cfg.Size()
    ensures Accepted(Arrivals(out), e, SeriesKey(cfg, metric, s, e)) == if e == c.end then DataOf(c.series, metric, s) else []
  {
    hide *;
    AllNames(out, names, c, cfg.Size(), metric, s);
    Whole(out);
    Whole(names);
    WindowCarriesOnce(cfg, metric, out, names, c, e, s, |out|);
  }

  lemma {:induction false} Whole<T>(s: seq<T>)
    ensures s[..|s|] == s
  {
  }

  lemma {:induction false} AllNames(out: seq<ExactBranches.Envelope>, names: seq<Series>, c: Closed<Series, Tagged>, size: u64, metric: Text, s: Series)
    requires CarriesWindow(out, names, c, size)
    ensures |names| == |out| && (s !in names ==> DataOf(c.series, metric, s) == [])
  {
    hide CarriesSeries, DataFor;
  }

  // ---------- one source ----------

  /** What the theorem asks of a source: it is on time, its points carry short attribute
      values, and it takes in fewer than 2^64 items. */
  ghost predicate Orderly(cfg: BranchConfig, steps: seq<BranchStep>) {
    && Fits(cfg, steps) && OnTime(cfg, steps)
    && (forall i :: 0 <= i < |steps| && steps[i].Observe? ==> PlainPoint(steps[i].point))
    && |Taken(cfg, steps)| <= U64_MAX
  }

  ghost predicate PlainPoint(p: Point) {
    forall kv :: kv in p.labels ==> |kv.value| < 0x1_0000_0000
  }

  ghost predicate PlainArrival(cfg: BranchConfig, a: Arrival<Series, Tagged>) {
    && a.ok && a.end >= cfg.Size()
    && Proper(cfg, a.key)
    && (a.body.item.Occurrence? ==> |a.body.item.key| < 0x1_0000_0000)
  }

  lemma {:induction false} AttributesArePlain(cfg: BranchConfig, p: Point, end: u64, n: nat)
    requires PlainPoint(p) && n <= |p.labels| && end >= cfg.Size()
    ensures forall a :: a in AttributeArrivals(cfg, p, end, n) ==> PlainArrival(cfg, a)
    decreases n
  {
    if n > 0 {
      AttributesArePlain(cfg, p, end, n - 1);
      assert p.labels[n - 1] in p.labels;
    }
  }

  lemma {:induction false} PointIsPlain(cfg: BranchConfig, p: Point)
    requires PlainPoint(p) && EndOf(cfg.Size(), p.timestampMs) <= U64_MAX
    ensures forall a :: a in PointArrivals(cfg, p) ==> PlainArrival(cfg, a)
  {
    var end := EndOf(cfg.Size(), p.timestampMs);
    EndsAfterStart(cfg.Size(), p.timestampMs);
    hide EndOf;
    AttributesArePlain(cfg, p, end, |p.labels|);
    assert Proper(cfg, Quantile(Project(p.labels, cfg.groupBy)));
  }

  lemma {:induction false} TakenIsPlain(cfg: BranchConfig, steps: seq<BranchStep>)
    requires Fits(cfg, steps)
    requires forall i :: 0 <= i < |steps| && steps[i].Observe? ==> PlainPoint(steps[i].point)
    ensures forall a :: a in Taken(cfg, steps) ==> PlainArrival(cfg, a)
    decreases |steps|
  {
    if steps != [] {
      TakenIsPlain(cfg, steps[..|steps| - 1]);
      if steps[|steps| - 1].Observe? {
        PointIsPlain(cfg, steps[|steps| - 1].point);
      }
    }
  }

  /** The contributions to a series hold few items with short keys. */
  lemma {:induction false} ContributionsArePlain(cfg: BranchConfig, hist: seq<Arrival<Series, Tagged>>, e: u64, s: Series)
    requires forall a :: a in hist ==> PlainArrival(cfg, a)
    ensures var list := Accepted(hist, e, s);
      && |list| <= |hist|
      && (forall t :: t in list ==> t.item.Occurrence? ==> |t.item.key| < 0x1_0000_0000)
      && (list != [] ==> Proper(cfg, s) && e >= cfg.Size())
    decreases |hist|
  {
    if hist != [] {
      var init, last := hist[..|hist| - 1], hist[|hist| - 1];
      ContributionsArePlain(cfg, init, e, s);
      assert last in hist;
    }
  }

  lemma {:induction false} SeriesIsClean(cfg: BranchConfig, steps: seq<BranchStep>, i: nat, s: Series)
    requires Orderly(cfg, steps)
    requires i < |BranchAfter(cfg, steps).emitted| && s in BranchAfter(cfg, steps).emitted[i].series
    ensures CleanSeries(cfg, BranchAfter(cfg, steps).emitted[i].end, s, BranchAfter(cfg, steps).emitted[i].series[s])
  {
    hide BranchAfter, Taken, Addressable, ShortKeys, Accepted, Safe, OpenAgrees;
    BranchIsExact(cfg, steps);
    TakenIsPlain(cfg, steps);
    var m, hist := BranchAfter(cfg, steps), Taken(cfg, steps);
    var list := m.emitted[i].series[s];
    assert list == Held(m.emitted[i].series, s) == Accepted(hist, m.emitted[i].end, s);
    ContributionsArePlain(cfg, hist, m.emitted[i].end, s);
    assert list[0] in list;
    assert forall x :: x in Items(list) ==> exists t :: t in list && t.item == x;
    ItemsFit(Items(list));
  }

  /** Every window an orderly branch emits is clean. */
  lemma {:induction false} EmissionsAreClean(cfg: BranchConfig, steps: seq<BranchStep>)
    requires Orderly(cfg, steps)
    ensures AllClean(cfg, BranchAfter(cfg, steps).emitted)
  {
    hide BranchAfter, Orderly, Addressable, ShortKeys, Proper;
    OrderlyFits(cfg, steps);
    var m := BranchAfter(cfg, steps);
    EveryWindowHasSeries(cfg, steps);
    forall i | 0 <= i < |m.emitted|
      ensures Clean(cfg, m.emitted[i])
    {
      assert m.emitted[i].series.Keys != {};
      var s0 :| s0 in m.emitted[i].series.Keys;
      SeriesIsClean(cfg, steps, i, s0);
      forall s | s in m.emitted[i].series
        ensures CleanSeries(cfg, m.emitted[i].end, s, m.emitted[i].series[s])
      {
        SeriesIsClean(cfg, steps, i, s);
      }
    }
  }

  lemma {:induction false} OrderlyFits(cfg: BranchConfig, steps: seq<BranchStep>)
    requires Orderly(cfg, steps)
    ensures Fits(cfg, steps)
  {
  }

  /** No window without a series. */
  ghost predicate HasSeries(m: Merger<Series, Tagged>) {
    && (forall e :: e in m.open ==> m.open[e] != map[])
    && (forall i :: 0 <= i < |m.emitted| ==> m.emitted[i].series != map[])
  }

  lemma {:induction false} EveryWindowHasSeries(cfg: BranchConfig, steps: seq<BranchStep>)
    requires Fits(cfg, steps)
    ensures HasSeries(BranchAfter(cfg, steps))
    decreases |steps|
  {
    hide AddAll, Due, EndOf;
    if steps != [] {
      hide HasSeries;
      EveryWindowHasSeries(cfg, steps[..|steps| - 1]);
      var m := BranchAfter(cfg, steps[..|steps| - 1]);
      match steps[|steps| - 1]
      case Observe(p) =>
        AddAllHasSeries(m, PointArrivals(cfg, p));
      case Close(until) =>
        DueHasSeries(m, until);
    }
  }

  lemma {:induction false} AddAllHasSeries(m: Merger<Series, Tagged>, msg: seq<Arrival<Series, Tagged>>)
    requires HasSeries(m)
    ensures HasSeries(AddAll(m, msg, false))
    decreases |msg|
  {
    if msg != [] {
      var init, a := msg[..|msg| - 1], msg[|msg| - 1];
      AddAllHasSeries(m, init);
      var before := AddAll(m, init, false);
      var w := Window(before.open, a.end);
      NotEmpty(w, a.key, Held(w, a.key) + [a.body]);
    }
  }

  lemma {:induction false} DueHasSeries(m: Merger<Series, Tagged>, until: u64)
    requires HasSeries(m)
    ensures HasSeries(Due(m, until, 0))
  {
    var ready := Ready(m.open, Cutoff(m.messages, until, 0));
    InOrderIsSorted(m.open, ready);
    var n := Due(m, until, 0);
    forall i | 0 <= i < |n.emitted|
      ensures n.emitted[i].series != map[]
    {
      if i >= |m.emitted| {
        assert n.emitted[i] == InOrder(m.open, ready)[i - |m.emitted|];
      } else {
        assert n.emitted[i] == m.emitted[i];
      }
    }
  }

  lemma {:induction false} DataAtUnique(closed: seq<Closed<Series, Tagged>>, metric: Text, e: u64, s: Series, i: nat)
    requires Increasing(closed)
    requires i < |closed| ==> closed[i].end == e
    requires i >= |closed| ==> forall n :: 0 <= n < |closed| ==> closed[n].end != e
    ensures DataAt(closed, metric, e, s) == if i < |closed| then DataOf(closed[i].series, metric, s) else []
    decreases |closed|
  {
    hide DataOf, DataAt;
    if closed == [] {
      NoData(metric, e, s);
    } else {
      var n := |closed| - 1;
      assert closed == closed[..n] + [closed[n]];
      DataAtPush(closed[..n], closed[n], metric, e, s);
      if i < n {
        assert closed[i].end < closed[n].end;
      }
      DataAtUnique(closed[..n], metric, e, s, if i < n then i else n);
    }
  }

  /** After its last closing, a branch has emitted all data of every window, once. */
  lemma {:induction false} BranchEmitsAll(cfg: BranchConfig, metric: Text, steps: seq<BranchStep>, e: u64, s: Series)
    requires Orderly(cfg, steps)
    requires steps != [] && steps[|steps| - 1] == Close(U64_MAX) && e < U64_MAX
    ensures DataAt(BranchAfter(cfg, steps).emitted, metric, e, s) == DataFor(metric, Accepted(Taken(cfg, steps), e, s))
  {
    hide Taken, Accepted, Holding, DataAt;
    BranchIsExact(cfg, steps);
    var m, hist := BranchAfter(cfg, steps), Taken(cfg, steps);
    DueSafe(BranchAfter(cfg, steps[..|steps| - 1]), U64_MAX, 0) by {
      BranchIsExact(cfg, steps[..|steps| - 1]) by { PrefixOnTime(cfg, steps); }
    }
    assert e !in m.open;
    hide BranchAfter, Safe;
    SafeIncreases(m);
    if i :| 0 <= i < |m.emitted| && m.emitted[i].end == e {
      DataAtUnique(m.emitted, metric, e, s, i);
      assert Held(m.emitted[i].series, s) == Accepted(hist, e, s);
    } else {
      DataAtUnique(m.emitted, metric, e, s, |m.emitted|);
      assert Held(Window(m.open, e), s) == [];
    }
  }

  lemma {:induction false} PrefixOnTime(cfg: BranchConfig, steps: seq<BranchStep>)
    requires Fits(cfg, steps) && OnTime(cfg, steps) && steps != []
    ensures Fits(cfg, steps[..|steps| - 1]) && OnTime(cfg, steps[..|steps| - 1])
  {
  }

  lemma {:induction false} SafeIncreases(m: Merger<Series, Tagged>)
    requires Safe(m)
    ensures Increasing(m.emitted)
  {
  }

  // ---------- the messages of one source ----------

  ghost predicate OnWire(cfg: BranchConfig, wire: seq<ExactBranches.Envelope>, message: seq<Closed<Series, Tagged>>) {
    exists parts :: CarriesAll(wire, parts, message, cfg.Size())
  }

  /** `wires` are the messages of a branch on the wire. */
  ghost predicate Wired(cfg: BranchConfig, wires: seq<seq<ExactBranches.Envelope>>, messages: seq<seq<Closed<Series, Tagged>>>) {
    && |wires| == |messages|
    && forall j :: 0 <= j < |wires| ==> OnWire(cfg, wires[j], messages[j])
  }

  /** What the merge receives from a source. */
  ghost function Received(wires: seq<seq<ExactBranches.Envelope>>): seq<Message<MergeKey, ExactWindow>> {
    seq(|wires|, j requires 0 <= j < |wires| => Arrivals(wires[j]))
  }

  lemma {:induction false} DataAtConcat(a: seq<Closed<Series, Tagged>>, b: seq<Closed<Series, Tagged>>, metric: Text, e: u64, s: Series)
    ensures DataAt(a + b, metric, e, s) == DataAt(a, metric, e, s) + DataAt(b, metric, e, s)
    decreases |b|
  {
    hide *;
    if b == [] {
      assert a + b == a;
      NoData(metric, e, s);
    } else {
      var init, last := b[..|b| - 1], b[|b| - 1];
      DataAtConcat(a, init, metric, e, s);
      assert b == init + [last] && a + b == (a + init) + [last];
      DataAtPush(init, last, metric, e, s);
      DataAtPush(a + init, last, metric, e, s);
    }
  }

  lemma {:induction false} NoData(metric: Text, e: u64, s: Series)
    ensures DataAt([], metric, e, s) == []
  {
  }

  lemma {:induction false} DataAtPush(a: seq<Closed<Series, Tagged>>, c: Closed<Series, Tagged>, metric: Text, e: u64, s: Series)
    ensures DataAt(a + [c], metric, e, s) == DataAt(a, metric, e, s) + if c.end == e then DataOf(c.series, metric, s) else []
  {
    assert (a + [c])[..|a|] == a;
    hide DataOf;
  }

  lemma {:induction false} WiredPrefix(cfg: BranchConfig, wires: seq<seq<ExactBranches.Envelope>>, messages: seq<seq<Closed<Series, Tagged>>>, n: nat)
    requires Wired(cfg, wires, messages) && n <= |wires|
    ensures Wired(cfg, wires[..n], messages[..n])
  {
    hide OnWire;
  }

  /** A source's messages deliver exactly the data it emitted. */
  lemma {:induction false} SourceDelivers(cfg: BranchConfig, metric: Text, wires: seq<seq<ExactBranches.Envelope>>,
                                          messages: seq<seq<Closed<Series, Tagged>>>, e: u64, s: Series)
    requires Wired(cfg, wires, messages) && AllClean(cfg, Concat(messages))
    requires NoClash(cfg) && Proper(cfg, s) && e >= cfg.Size()
    ensures Accepted(Flatten(Received(wires)), e, SeriesKey(cfg, metric, s, e)) == DataAt(Concat(messages), metric, e, s)
    decreases |wires|
  {
    hide CarriesAll, Clean, Proper, NoClash, SeriesKey, DataAt, AllClean, Arrivals;
    if wires == [] {
      NoData(metric, e, s);
    } else {
      var n := |wires| - 1;
      CleanParts(cfg, messages, n);
      WiredPrefix(cfg, wires, messages, n);
      SourceDelivers(cfg, metric, wires[..n], messages[..n], e, s);
      assert Received(wires)[..n] == Received(wires[..n]);
      assert OnWire(cfg, wires[n], messages[n]);
      var parts :| CarriesAll(wires[n], parts, messages[n], cfg.Size());
      MessageDelivers(cfg, metric, wires[n], parts, messages[n], e, s);
      AcceptedConcat(Flatten(Received(wires[..n])), Arrivals(wires[n]), e, SeriesKey(cfg, metric, s, e));
      DataAtConcat(Concat(messages[..n]), messages[n], metric, e, s);
    }
  }

  lemma {:induction false} CleanParts(cfg: BranchConfig, messages: seq<seq<Closed<Series, Tagged>>>, n: nat)
    requires n + 1 == |messages| && AllClean(cfg, Concat(messages))
    ensures AllClean(cfg, Concat(messages[..n])) && AllClean(cfg, messages[n])
  {
    hide Clean;
    var all, before := Concat(messages), Concat(messages[..n]);
    assert all == before + messages[n];
    assert forall i :: 0 <= i < |before| ==> before[i] == all[i];
    assert forall i :: 0 <= i < |messages[n]| ==> messages[n][i] == all[|before| + i];
  }

  lemma {:induction false} ArrivalComesFrom(out: seq<ExactBranches.Envelope>, e: u64) returns (n: nat)
    requires e in Ends(Arrivals(out))
    ensures n < |out| && out[n].windowEndMs == e
    decreases |out|
  {
    n := |out| - 1;
    if out[n].windowEndMs != e {
      n := ArrivalComesFrom(out[..n], e);
    }
  }

  lemma {:induction false} EnvelopeComesFrom(out: seq<ExactBranches.Envelope>, parts: Parts, closed: seq<Closed<Series, Tagged>>,
                                             size: u64, n: nat) returns (i: nat, s: Series)
    requires CarriesAll(out, parts, closed, size) && n < |out|
    ensures i < |closed| && closed[i].end == out[n].windowEndMs
    ensures s in closed[i].series && CarriesSeries(out[n], closed[i].end, s, closed[i].series[s], size)
    decreases |closed|
  {
    i := |closed| - 1;
    var init := Parts(parts.envelopes[..i], parts.names[..i]);
    var before := Joined(init.envelopes);
    if n < |before| {
      i, s := EnvelopeComesFrom(before, init, closed[..i], size, n);
    } else {
      s := parts.names[i][n - |before|];
      assert CarriesWindow(parts.envelopes[i], parts.names[i], closed[i], size);
      assert out[n] == parts.envelopes[i][n - |before|];
    }
  }

  /** A source sends each window in one message, in order. */
  lemma {:induction false} SourceInOrder(cfg: BranchConfig, wires: seq<seq<ExactBranches.Envelope>>, messages: seq<seq<Closed<Series, Tagged>>>)
    requires Wired(cfg, wires, messages) && AllClean(cfg, Concat(messages)) && Increasing(Concat(messages))
    ensures SendsInOrder(Received(wires))
  {
    hide CarriesAll, Clean, Arrivals, Concat;
    forall j, x | 0 <= j < |wires| && x in Ends(Arrivals(wires[j]))
      ensures x > 0 && exists c :: c in messages[j] && c.end == x
    {
      assert OnWire(cfg, wires[j], messages[j]);
      var parts :| CarriesAll(wires[j], parts, messages[j], cfg.Size());
      var n := ArrivalComesFrom(wires[j], x);
      var i, _ := EnvelopeComesFrom(wires[j], parts, messages[j], cfg.Size(), n);
      assert messages[j][i] in messages[j];
      var k := PartOf(messages, j, messages[j][i]);
      CleanEnds(cfg, Concat(messages)[k]);
    }
    forall i, j, x, y | 0 <= i < j < |wires| && x in Ends(Arrivals(wires[i])) && y in Ends(Arrivals(wires[j]))
      ensures x < y
    {
      var c :| c in messages[i] && c.end == x;
      var d :| d in messages[j] && d.end == y;
      PartsIncrease(messages, i, j, c, d);
    }
  }

  lemma {:induction false} CleanEnds(cfg: BranchConfig, c: Closed<Series, Tagged>)
    requires Clean(cfg, c)
    ensures c.end > 0
  {
  }

  // ---------- all sources ----------

  /** A source: what happened to its branch, and its messages on the wire. */
  datatype Source = Source(steps: seq<BranchStep>, wires: seq<seq<ExactBranches.Envelope>>)

  ghost predicate GoodSource(cfg: BranchConfig, src: Source) {
    && Orderly(cfg, src.steps)
    && src.steps != [] && src.steps[|src.steps| - 1] == Close(U64_MAX)
    && Wired(cfg, src.wires, Messages(cfg, src.steps))
  }

  ghost predicate GoodSources(cfg: BranchConfig, sources: seq<Source>) {
    forall n :: 0 <= n < |sources| ==> GoodSource(cfg, sources[n])
  }

  ghost function Sending(sources: seq<Source>): seq<seq<Message<MergeKey, ExactWindow>>> {
    seq(|sources|, n requires 0 <= n < |sources| => Received(sources[n].wires))
  }

  /** Every item any source took in for a window and series. */
  ghost function AllItems(cfg: BranchConfig, sources: seq<Source>, metric: Text, e: u64, s: Series): seq<Item>
    requires GoodSources(cfg, sources)
  {
    if sources == [] then []
    else
      var last := sources[|sources| - 1];
      GoodFits(cfg, last);
      AllItems(cfg, sources[..|sources| - 1], metric, e, s) + ItemsUnder(metric, Accepted(Taken(cfg, last.steps), e, s))
  }

  lemma {:induction false} OneSource(cfg: BranchConfig, metric: Text, src: Source, e: u64, s: Series)
    requires GoodSource(cfg, src)
    requires NoClash(cfg) && Proper(cfg, s) && cfg.Size() <= e < U64_MAX
    ensures Accepted(Flatten(Received(src.wires)), e, SeriesKey(cfg, metric, s, e)) == DataFor(metric, Accepted(Taken(cfg, src.steps), e, s))
    ensures SendsInOrder(Received(src.wires))
  {
    hide Taken, Accepted, Messages, BranchAfter, AttributeKey, Proper, DataFor, DataAt, Safe;
    MessagesAreEmissions(cfg, src.steps);
    EmissionsAreClean(cfg, src.steps);
    BranchIsExact(cfg, src.steps);
    SafeIncreases(BranchAfter(cfg, src.steps));
    SourceDelivers(cfg, metric, src.wires, Messages(cfg, src.steps), e, s);
    BranchEmitsAll(cfg, metric, src.steps, e, s);
    SourceInOrder(cfg, src.wires, Messages(cfg, src.steps));
  }

  /** Everything the merge receives for a series adds up to the window of all items. */
  lemma {:induction false} AllSentIsAllItems(cfg: BranchConfig, sources: seq<Source>, metric: Text, e: u64, s: Series)
    requires GoodSources(cfg, sources)
    requires NoClash(cfg) && Proper(cfg, s) && cfg.Size() <= e < U64_MAX
    ensures var list := Accepted(AllSent(Sending(sources)), e, SeriesKey(cfg, metric, s, e));
      var items := AllItems(cfg, sources, metric, e, s);
      MergedAll(list) == Holding(items) && (list == [] <==> items == [])
    decreases |sources|
  {
    hide GoodSource, AttributeKey, Proper, Flatten, Received, SeriesKey;
    if sources != [] {
      hide Holding;
      var n := |sources| - 1;
      AllSentIsAllItems(cfg, sources[..n], metric, e, s);
      assert Sending(sources)[..n] == Sending(sources[..n]);
      OneSource(cfg, metric, sources[n], e, s);
      GoodFits(cfg, sources[n]);
      var key := SeriesKey(cfg, metric, s, e);
      AcceptedConcat(AllSent(Sending(sources[..n])), Flatten(Received(sources[n].wires)), e, key);
      AddSource(Accepted(AllSent(Sending(sources[..n])), e, key), AllItems(cfg, sources[..n], metric, e, s), metric,
                Accepted(Taken(cfg, sources[n].steps), e, s));
    }
  }

  lemma {:induction false} AddSource(before: seq<ExactWindow>, items: seq<Item>, metric: Text, taken: seq<Tagged>)
    requires MergedAll(before) == Holding(items) && (before == [] <==> items == [])
    ensures MergedAll(before + DataFor(metric, taken)) == Holding(items + ItemsUnder(metric, taken))
    ensures before + DataFor(metric, taken) == [] <==> items + ItemsUnder(metric, taken) == []
  {
    hide Holding, Merged;
    if taken == [] || taken[0].metric != metric {
      assert before + [] == before;
      assert items + [] == items;
    } else {
      MergedPush(before, Holding(Items(taken)));
      HoldingConcat(items, Items(taken));
    }
  }

  lemma {:induction false} GoodFits(cfg: BranchConfig, src: Source)
    requires GoodSource(cfg, src)
    ensures Fits(cfg, src.steps)
  {
  }

  /** An arrival of some series of the branches. */
  ghost predicate SeriesArrival(cfg: BranchConfig, a: Arrival<MergeKey, ExactWindow>) {
    a.end >= cfg.Size() && exists metric: Text, s: Series :: Proper(cfg, s) && a.key == SeriesKey(cfg, metric, s, a.end)
  }

  lemma {:induction false} EnvelopeIsOfSeries(cfg: BranchConfig, e: ExactBranches.Envelope, c: Closed<Series, Tagged>, s: Series)
    requires Clean(cfg, c) && s in c.series && CarriesSeries(e, c.end, s, c.series[s], cfg.Size())
    ensures SeriesArrival(cfg, ArrivalOf(e))
  {
    hide CarriesSeries, Proper, SeriesKey;
    EnvelopeDecodes(cfg, e, c.end, s, c.series[s]);
  }

  lemma {:induction false} MessageIsOfSeries(cfg: BranchConfig, out: seq<ExactBranches.Envelope>, parts: Parts,
                                             closed: seq<Closed<Series, Tagged>>, n: nat)
    requires CarriesAll(out, parts, closed, cfg.Size()) && AllClean(cfg, closed) && n <= |out|
    ensures forall a :: a in Arrivals(out[..n]) ==> SeriesArrival(cfg, a)
    decreases n
  {
    hide CarriesAll, Clean, SeriesArrival, CarriesSeries;
    if n > 0 {
      MessageIsOfSeries(cfg, out, parts, closed, n - 1);
      ArrivalsPush(out, n - 1);
      var i, s := EnvelopeComesFrom(out, parts, closed, cfg.Size(), n - 1);
      EnvelopeIsOfSeries(cfg, out[n - 1], closed[i], s);
    }
  }

  lemma {:induction false} SourceIsOfSeries(cfg: BranchConfig, wires: seq<seq<ExactBranches.Envelope>>,
                                            messages: seq<seq<Closed<Series, Tagged>>>)
    requires Wired(cfg, wires, messages) && AllClean(cfg, Concat(messages))
    ensures forall a :: a in Flatten(Received(wires)) ==> SeriesArrival(cfg, a)
    decreases |wires|
  {
    hide CarriesAll, Clean, SeriesArrival;
    if wires != [] {
      var n := |wires| - 1;
      CleanParts(cfg, messages, n);
      WiredPrefix(cfg, wires, messages, n);
      SourceIsOfSeries(cfg, wires[..n], messages[..n]);
      assert Received(wires)[..n] == Received(wires[..n]);
      assert OnWire(cfg, wires[n], messages[n]);
      var parts :| CarriesAll(wires[n], parts, messages[n], cfg.Size());
      MessageIsOfSeries(cfg, wires[n], parts, messages[n], |wires[n]|);
      assert wires[n][..|wires[n]|] == wires[n];
    }
  }

  lemma {:induction false} AllSentIsOfSeries(cfg: BranchConfig, sources: seq<Source>)
    requires GoodSources(cfg, sources)
    ensures forall a :: a in AllSent(Sending(sources)) ==> SeriesArrival(cfg, a)
    decreases |sources|
  {
    hide SeriesArrival, GoodSource, Received;
    if sources != [] {
      var n := |sources| - 1;
      AllSentIsOfSeries(cfg, sources[..n]);
      assert Sending(sources)[..n] == Sending(sources[..n]);
      GoodIsOfSeries(cfg, sources[n]);
    }
  }

  lemma {:induction false} GoodIsOfSeries(cfg: BranchConfig, src: Source)
    requires GoodSource(cfg, src)
    ensures forall a :: a in Flatten(Received(src.wires)) ==> SeriesArrival(cfg, a)
    ensures SendsInOrder(Received(src.wires))
  {
    hide BranchAfter, Messages, Taken, Safe, AllClean, Received;
    MessagesAreEmissions(cfg, src.steps);
    EmissionsAreClean(cfg, src.steps);
    SourceIsOfSeries(cfg, src.wires, Messages(cfg, src.steps));
    BranchIsExact(cfg, src.steps);
    SafeIncreases(BranchAfter(cfg, src.steps));
    SourceInOrder(cfg, src.wires, Messages(cfg, src.steps));
  }

  // ---------- the theorem ----------

  /** What the merge emitted is, for every window up to `limit` and every series with an item,
      one exact window of all the items of all sources; it emitted nothing else, and each
      window once. */
  ghost predicate ExactlyOnce(cfg: BranchConfig, sources: seq<Source>, m: Merger<MergeKey, ExactWindow>, limit: u64)
    requires GoodSources(cfg, sources)
  {
    && m.late == []
    && (forall i, j :: 0 <= i < j < |m.emitted| ==> m.emitted[i].end < m.emitted[j].end)
    && (forall e: u64, s: Series, metric: Text ::
         Proper(cfg, s) && cfg.Size() <= e <= limit && e < U64_MAX && AllItems(cfg, sources, metric, e, s) != [] ==>
           exists i :: 0 <= i < |m.emitted| && m.emitted[i].end == e && SeriesKey(cfg, metric, s, e) in m.emitted[i].series)
    && (forall i, k :: 0 <= i < |m.emitted| && k in m.emitted[i].series ==>
         && m.emitted[i].end >= cfg.Size()
         && exists metric, s :: IsWindowOf(cfg, sources, metric, m.emitted[i].end, s, k, m.emitted[i].series[k]))
  }

  /** `list` merges into the one exact window of a series: the window of all its items. */
  ghost predicate IsWindowOf(cfg: BranchConfig, sources: seq<Source>, metric: Text, e: u64, s: Series, k: MergeKey, list: seq<ExactWindow>)
    requires GoodSources(cfg, sources)
    requires e >= cfg.Size()
  {
    && Proper(cfg, s) && k == SeriesKey(cfg, metric, s, e)
    && AllItems(cfg, sources, metric, e, s) != []
    && SameData(MergedAll(list), Holding(AllItems(cfg, sources, metric, e, s)))
  }

  /** N branches on time, their messages interleaved in any order that keeps each source's,
      and no grace that runs out early: the merge, with `sources = N`, is exact. */
  lemma {:induction false} ExactBaselineIsExact(cfg: BranchConfig, sources: seq<Source>, steps: seq<Step>, graceMs: u64)
    requires NoClash(cfg)
    requires GoodSources(cfg, sources) && Finishes(Sending(sources), steps, false)
    ensures var m := Due(After(Sending(sources), steps, false).value.merger, U64_MAX - graceMs, |sources|);
      ExactlyOnce(cfg, sources, m, U64_MAX - graceMs)
  {
    hide *;
    var limit: u64 := U64_MAX - graceMs;
    AllSendInOrder(cfg, sources);
    var m := MergeEmits(Sending(sources), steps, limit, |sources|);
    ConcreteWindows(cfg, sources, m, limit);
  }

  /** The merge, run on messages in order until all are delivered, and closed. */
  lemma {:induction false} MergeEmits(messages: seq<seq<Message<MergeKey, ExactWindow>>>, steps: seq<Step>, limit: u64, threshold: nat)
    returns (m: Merger<MergeKey, ExactWindow>)
    requires AllInOrder(messages) && Finishes(messages, steps, false)
    ensures After(messages, steps, false).Some? && m == Due(After(messages, steps, false).value.merger, limit, threshold)
    ensures EmitsExactly(m, AllSent(messages), limit) && EndBelowMax(m)
  {
    hide After, Due, EmitsExactly, AllInOrder, EndBelowMax;
    m := Due(After(messages, steps, false).value.merger, limit, threshold);
    Confluence.Confluence(messages, steps, false, limit, threshold);
    EndsBelowMax(messages, steps, limit, threshold);
  }

  ghost predicate EndBelowMax(m: Merger<MergeKey, ExactWindow>) {
    forall i :: 0 <= i < |m.emitted| ==> m.emitted[i].end < U64_MAX
  }

  lemma {:induction false} AllSendInOrder(cfg: BranchConfig, sources: seq<Source>)
    requires GoodSources(cfg, sources)
    ensures AllInOrder(Sending(sources)) && |Sending(sources)| == |sources|
  {
    hide GoodSource, SendsInOrder, Received;
    forall n | 0 <= n < |sources|
      ensures SendsInOrder(Sending(sources)[n])
    {
      GoodIsOfSeries(cfg, sources[n]);
    }
  }

  lemma {:induction false} EndsBelowMax(sources: seq<seq<Message<MergeKey, ExactWindow>>>, steps: seq<Step>, timedOut: u64, threshold: nat)
    requires AllInOrder(sources) && After(sources, steps, false).Some?
    ensures EndBelowMax(Due(After(sources, steps, false).value.merger, timedOut, threshold))
  {
    hide Due;
    Reachable(sources, steps, false);
    DueSafe(After(sources, steps, false).value.merger, timedOut, threshold);
  }

  lemma {:induction false} ConcreteWindows(cfg: BranchConfig, sources: seq<Source>, m: Merger<MergeKey, ExactWindow>, limit: u64)
    requires NoClash(cfg)
    requires GoodSources(cfg, sources)
    requires EmitsExactly(m, AllSent(Sending(sources)), limit)
    requires EndBelowMax(m)
    ensures ExactlyOnce(cfg, sources, m, limit)
  {
    hide GoodSource, AttributeKey, AllItems, Proper, SeriesKey, AllSent, Accepted, Holding, MergedAll, SameData;
    var sent := AllSent(Sending(sources));
    forall e: u64, s: Series, metric: Text | Proper(cfg, s) && cfg.Size() <= e <= limit && e < U64_MAX && AllItems(cfg, sources, metric, e, s) != []
      ensures exists i :: 0 <= i < |m.emitted| && m.emitted[i].end == e && SeriesKey(cfg, metric, s, e) in m.emitted[i].series
    {
      AllSentIsAllItems(cfg, sources, metric, e, s);
    }
    forall i, k | 0 <= i < |m.emitted| && k in m.emitted[i].series
      ensures m.emitted[i].end >= cfg.Size()
      ensures exists metric, s :: IsWindowOf(cfg, sources, metric, m.emitted[i].end, s, k, m.emitted[i].series[k])
    {
      var metric, s := EmittedSeries(cfg, sources, m.emitted[i].end, k, m.emitted[i].series[k]);
    }
  }

  lemma {:induction false} EmittedSeries(cfg: BranchConfig, sources: seq<Source>, e: u64, k: MergeKey, list: seq<ExactWindow>) returns (metric: Text, s: Series)
    requires NoClash(cfg) && e < U64_MAX
    requires GoodSources(cfg, sources)
    requires Accepted(AllSent(Sending(sources)), e, k) != []
    requires multiset(list) == multiset(Accepted(AllSent(Sending(sources)), e, k))
    ensures e >= cfg.Size() && IsWindowOf(cfg, sources, metric, e, s, k, list)
  {
    hide GoodSource, AttributeKey, AllItems, Proper, SeriesKey, AllSent, Accepted, Holding, MergedAll, SameData;
    var sent := AllSent(Sending(sources));
    AllSentIsOfSeries(cfg, sources);
    var n := AcceptedComesFrom(sent, e, k);
    assert sent[n] in sent;
    metric, s :| Proper(cfg, s) && k == SeriesKey(cfg, metric, s, e);
    AllSentIsAllItems(cfg, sources, metric, e, s);
    MergedAllCommutes(list, Accepted(sent, e, k));
  }
}
