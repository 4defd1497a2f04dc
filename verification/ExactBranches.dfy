/** `exact_branch`: keeps every raw point of each event-time window, per quantile series and
    per selected attribute, until the window is closed and sent. */
module ExactBranches {
  import opened Basics
  import opened Envelopes
  import opened WindowProtocol
  import opened ExactWindows

  datatype BranchConfig = BranchConfig(windowMs: u64, groupBy: seq<Text>, perAttribute: seq<Text>) {
    function Size(): u64 {
      Max(windowMs, 1)
    }
  }

  /** A quantile series by its labels, or the values of one attribute. */
  datatype Series = Quantile(labels: seq<KeyValue>) | Attribute(key: Text)

  /** A data point; `float` is None when its value is not a scalar. */
  datatype Point = Point(timestampMs: u64, metric: Text, labels: seq<KeyValue>, float: Option<F64>)

  const Wildcard: Text := [0x2A]

  /** "attribute.key". */
  function AttributeKey(): Text {
    var name := [0x61, 0x74, 0x74, 0x72, 0x69, 0x62, 0x75, 0x74, 0x65, 0x2E, 0x6B, 0x65, 0x79];
    AsciiIsValid(name);
    name
  }

  /** The end of the window of a point. */
  function EndOf(size: u64, timestampMs: u64): nat
    requires size > 0
  {
    timestampMs / size * size + size
  }

  /** The labels of a point that identify its quantile series. */
  function Project(labels: seq<KeyValue>, groupBy: seq<Text>): seq<KeyValue> {
    if groupBy == [] then []
    else
      var rest := Project(labels, groupBy[1..]);
      match LookupLabel(labels, groupBy[0])
      case None => rest
      case Some(v) => [KeyValue(groupBy[0], v)] + rest
  }

  /** What one point adds to one series; a window keeps the metric of its first point. */
  datatype Tagged = Tagged(metric: Text, item: Item)

  predicate Selected(cfg: BranchConfig, key: Text) {
    Wildcard in cfg.perAttribute || key in cfg.perAttribute
  }

  function AttributeArrivals(cfg: BranchConfig, p: Point, end: u64, n: nat): seq<Arrival<Series, Tagged>>
    requires n <= |p.labels|
  {
    if n == 0 then []
    else
      var kv := p.labels[n - 1];
      AttributeArrivals(cfg, p, end, n - 1) +
      if Selected(cfg, kv.key) then [Arrival(end, Attribute(kv.key), true, Tagged(p.metric, Occurrence(kv.value)))] else []
  }

  /** What a point adds to its quantile series. */
  function QuantileArrivals(cfg: BranchConfig, p: Point, value: F64, end: u64): seq<Arrival<Series, Tagged>> {
    if cfg.groupBy == [] then []
    else [Arrival(end, Quantile(Project(p.labels, cfg.groupBy)), true, Tagged(p.metric, Value(value)))]
  }

  /** Everything a point adds to its window. */
  function PointArrivals(cfg: BranchConfig, p: Point): seq<Arrival<Series, Tagged>>
    requires EndOf(cfg.Size(), p.timestampMs) <= U64_MAX
  {
    if p.float.None? then []
    else
      var end := EndOf(cfg.Size(), p.timestampMs);
      QuantileArrivals(cfg, p, p.float.value, end) + AttributeArrivals(cfg, p, end, |p.labels|)
  }

  function Items(list: seq<Tagged>): seq<Item> {
    seq(|list|, i requires 0 <= i < |list| => list[i].item)
  }

  /** One series of an open window: the metric of its first point, and its data. */
  datatype Kept = Kept(metric: Text, data: ExactWindow)

  ghost predicate KeptOf(kept: Kept, list: seq<Tagged>) {
    list != [] && kept.metric == list[0].metric && kept.data == Holding(Items(list))
  }

  /** The labels an envelope of the series carries. */
  function LabelsOf(s: Series): seq<KeyValue> {
    match s
    case Quantile(labels) => labels
    case Attribute(key) => [KeyValue(AttributeKey(), key)]
  }

  type Envelope = SketchEnvelope<seq<byte>>

  /** `e` carries the data of one series of the window ending at `end`. */
  ghost predicate CarriesSeries(e: Envelope, end: u64, s: Series, list: seq<Tagged>, size: u64) {
    && list != []
    && e.sketchType == SketchType.Exact
    && e.metricName == list[0].metric
    && e.labels == LabelsOf(s)
    && e.windowEndMs == end
    && e.windowStartMs + size == end
    && e.count == Holding(Items(list)).points
    && exists order :: Iterates(order, Holding(Items(list)).counts) && e.payload == Encoded(Holding(Items(list)), order)
  }

  /** `out` carries each series of a closed window once; envelope `n` carries `names[n]`. */
  ghost predicate CarriesWindow(out: seq<Envelope>, names: seq<Series>, c: Closed<Series, Tagged>, size: u64) {
    && |names| == |out|
    && (forall n :: 0 <= n < |out| ==> names[n] in c.series && CarriesSeries(out[n], c.end, names[n], c.series[names[n]], size))
    && (forall i, j :: 0 <= i < j < |names| ==> names[i] != names[j])
    && (forall s :: s in c.series ==> s in names)
  }

  /** How a message is made up: the envelopes of each closed window, and the series of each. */
  datatype Parts = Parts(envelopes: seq<seq<Envelope>>, names: seq<seq<Series>>)

  ghost function Joined(parts: seq<seq<Envelope>>): seq<Envelope> {
    if parts == [] then [] else Joined(parts[..|parts| - 1]) + parts[|parts| - 1]
  }

  /** A message carries the closed windows, window after window. */
  ghost predicate CarriesAll(out: seq<Envelope>, parts: Parts, closed: seq<Closed<Series, Tagged>>, size: u64) {
    && out == Joined(parts.envelopes)
    && |parts.envelopes| == |parts.names| == |closed|
    && forall i :: 0 <= i < |closed| ==> CarriesWindow(parts.envelopes[i], parts.names[i], closed[i], size)
  }

  ghost predicate Keeps(series: map<Series, Kept>, lists: map<Series, seq<Tagged>>) {
    && series.Keys == lists.Keys
    && forall s :: s in series ==> KeptOf(series[s], lists[s])
  }

  /** The open windows of a branch stand for the machine `m`; a point that selects no
      series leaves a window without series, which is never emitted. */
  ghost predicate Represents(windows: map<u64, map<Series, Kept>>, emittedUntil: u64, m: Merger<Series, Tagged>) {
    && emittedUntil == m.emittedUntil
    && m.messages == map[]
    && m.open.Keys <= windows.Keys
    && (forall e :: e in m.open ==> m.open[e] != map[])
    && forall e :: e in windows ==> Keeps(windows[e], Window(m.open, e))
  }

  function Put(series: map<Series, Kept>, s: Series, t: Tagged): map<Series, Kept> {
    var kept := if s in series then series[s] else Kept(t.metric, EmptyWindow);
    series[s := kept.(data := AddItem(kept.data, t.item))]
  }

  lemma {:induction false} PutKeeps(series: map<Series, Kept>, lists: map<Series, seq<Tagged>>, s: Series, t: Tagged)
    requires Keeps(series, lists)
    ensures Keeps(Put(series, s, t), lists[s := Held(lists, s) + [t]])
  {
    var list := Held(lists, s);
    ItemsPush(list, t);
    if s in series {
      assert KeptOf(series[s], list);
    }
    assert KeptOf(Put(series, s, t)[s], list + [t]);
    hide KeptOf;
  }

  lemma {:induction false} ItemsPush(list: seq<Tagged>, t: Tagged)
    ensures Items(list + [t]) == Items(list) + [t.item]
    ensures Holding(Items(list + [t])) == AddItem(Holding(Items(list)), t.item)
    ensures Holding(Items([])) == EmptyWindow
  {
    assert Items(list + [t]) == Items(list) + [t.item];
    assert (Items(list) + [t.item])[..|list|] == Items(list);
  }

  /** One arrival with a later end, as the machine takes it. */
  lemma {:induction false} AddRepresents(windows: map<u64, map<Series, Kept>>, emittedUntil: u64, m: Merger<Series, Tagged>, a: Arrival<Series, Tagged>)
    requires Represents(windows, emittedUntil, m)
    requires a.ok && a.end > emittedUntil && a.end in windows
    ensures Represents(windows[a.end := Put(windows[a.end], a.key, a.body)], emittedUntil, Add(m, a, false))
  {
    hide Keeps, Put;
    var w := Window(m.open, a.end);
    var after := w[a.key := Held(w, a.key) + [a.body]];
    PutKeeps(windows[a.end], w, a.key, a.body);
    NotEmpty(w, a.key, Held(w, a.key) + [a.body]);
    ReplaceWindow(windows, emittedUntil, m, a.end, Put(windows[a.end], a.key, a.body), after);
    hide Represents;
  }

  lemma {:induction false} NotEmpty(w: map<Series, seq<Tagged>>, k: Series, list: seq<Tagged>)
    ensures w[k := list] != map[]
  {
    assert k in w[k := list];
  }

  lemma {:induction false} ReplaceWindow(windows: map<u64, map<Series, Kept>>, emittedUntil: u64, m: Merger<Series, Tagged>,
                      end: u64, series: map<Series, Kept>, lists: map<Series, seq<Tagged>>)
    requires Represents(windows, emittedUntil, m) && end in windows
    requires Keeps(series, lists) && lists != map[]
    ensures Represents(windows[end := series], emittedUntil, m.(open := m.open[end := lists]))
  {
    hide Keeps;
  }

  lemma {:induction false} LatePoint(m: Merger<Series, Tagged>, msg: seq<Arrival<Series, Tagged>>)
    requires forall a :: a in msg ==> a.end <= m.emittedUntil
    ensures AddAll(m, msg, false) == m.(late := m.late + msg)
    decreases |msg|
  {
    if msg == [] {
      assert m.late + [] == m.late;
    } else {
      LatePoint(m, msg[..|msg| - 1]);
      assert m.late + msg == (m.late + msg[..|msg| - 1]) + [msg[|msg| - 1]];
    }
  }

  lemma {:induction false} AttributeEnds(cfg: BranchConfig, p: Point, end: u64, n: nat)
    requires n <= |p.labels|
    ensures forall a :: a in AttributeArrivals(cfg, p, end, n) ==> a.end == end && a.ok
    decreases n
  {
    if n > 0 {
      AttributeEnds(cfg, p, end, n - 1);
    }
  }

  class ExactBranch {
    const cfg: BranchConfig
    var windows: map<u64, map<Series, Kept>>
    var emittedUntil: u64
    ghost var model: Merger<Series, Tagged>

    ghost predicate Valid()
      reads this
    {
      Represents(windows, emittedUntil, model) && forall e :: e in windows ==> e >= cfg.Size()
    }

    constructor (cfg: BranchConfig)
      ensures Valid() && model == Fresh() && this.cfg == cfg
    {
      this.cfg := cfg;
      windows, emittedUntil := map[], 0;
      model := Fresh();
    }

    /** One item of a point whose window is open. */
    method Record(end: u64, key: Series, t: Tagged)
      requires Valid() && end in windows && end > emittedUntil
      modifies this`windows, this`model
      ensures Valid() && end in windows
      ensures model == Add(old(model), Arrival(end, key, true, t), false)
    {
      hide Represents, Add;
      AddRepresents(windows, emittedUntil, model, Arrival(end, key, true, t));
      windows := windows[end := Put(windows[end], key, t)];
      model := Add(model, Arrival(end, key, true, t), false);
    }

    /** Put one point into its window, unless that has been emitted. */
    method Observe(p: Point)
      requires Valid()
      requires EndOf(cfg.Size(), p.timestampMs) <= U64_MAX
      modifies this
      ensures Valid()
      ensures model == AddAll(old(model), PointArrivals(cfg, p), false)
    {
      hide Represents, Add, EndOf;
      ghost var before := model;
      if p.float.None? {
        return;
      }
      var size := cfg.Size();
      EndsAfterStart(size, p.timestampMs);
      var end: u64 := EndOf(size, p.timestampMs);
      AttributeEnds(cfg, p, end, |p.labels|);
      if end <= emittedUntil {
        SameEmittedUntil(this);
        LatePoint(model, PointArrivals(cfg, p));
        model := AddAll(model, PointArrivals(cfg, p), false);
        LateRepresents(windows, emittedUntil, before, PointArrivals(cfg, p));
        return;
      }
      if end !in windows {
        OpensBlank(windows, emittedUntil, model, end);
        windows := windows[end := map[]];
      }
      RecordQuantile(end, p, p.float.value);
      ghost var quantiles := QuantileArrivals(cfg, p, p.float.value, end);
      RecordAttributes(end, p, before, quantiles);
    }

    /** The value of a point, if it has a quantile series. */
    method RecordQuantile(end: u64, p: Point, value: F64)
      requires Valid() && end in windows && end > emittedUntil
      modifies this`windows, this`model
      ensures Valid() && end in windows
      ensures model == AddAll(old(model), QuantileArrivals(cfg, p, value, end), false)
    {
      hide Represents, Add;
      if cfg.groupBy != [] {
        var key, t := Quantile(Project(p.labels, cfg.groupBy)), Tagged(p.metric, Value(value));
        AddAllPush(model, [], Arrival(end, key, true, t), false);
        Record(end, key, t);
        assert [] + [Arrival(end, key, true, t)] == [Arrival(end, key, true, t)];
      }
    }

    /** The selected attributes of a point, after its value. */
    method RecordAttributes(end: u64, p: Point, ghost before: Merger<Series, Tagged>, ghost quantiles: seq<Arrival<Series, Tagged>>)
      requires Valid() && end in windows && end > emittedUntil
      requires model == AddAll(before, quantiles, false)
      modifies this`windows, this`model
      ensures Valid()
      ensures model == AddAll(before, quantiles + AttributeArrivals(cfg, p, end, |p.labels|), false)
    {
      hide Represents, Add, AddAll;
      ghost var seen := quantiles;
      for n := 0 to |p.labels|
        invariant Valid() && end in windows && end > emittedUntil
        invariant seen == quantiles + AttributeArrivals(cfg, p, end, n)
        invariant model == AddAll(before, seen, false)
      {
        var kv := p.labels[n];
        if Selected(cfg, kv.key) {
          var t := Tagged(p.metric, Occurrence(kv.value));
          AddAllPush(before, seen, Arrival(end, Attribute(kv.key), true, t), false);
          Record(end, Attribute(kv.key), t);
          seen := seen + [Arrival(end, Attribute(kv.key), true, t)];
        }
      }
    }

    /** Close and emit every window ending at or before `until`. */
    method Close(until: u64) returns (out: seq<Envelope>, ghost parts: Parts)
      requires Valid()
      modifies this
      ensures Valid()
      ensures model == Due(old(model), until, 0)
      ensures |old(model).emitted| <= |model.emitted|
      ensures CarriesAll(out, parts, model.emitted[|old(model).emitted|..], cfg.Size())
    {
      hide CarriesAll, Due;
      var bound := SatAdd(until, 1);
      var ready := Before(windows, bound);
      var last;
      BeforeKeeps(windows, emittedUntil, model, bound);
      out, parts, last := EmitAll(ready, cfg.Size(), model.open);
      CloseRepresents(windows, emittedUntil, model, until, last);
      windows := SplitOff(windows, bound);
      emittedUntil := Max(emittedUntil, last);
      model := Due(model, until, 0);
    }
  }

  lemma {:induction false} EndsAfterStart(size: u64, timestampMs: u64)
    requires size > 0
    ensures EndOf(size, timestampMs) >= size
    ensures EndOf(size, timestampMs) > timestampMs
  {
    var q, r := timestampMs / size, timestampMs % size;
    assert timestampMs == q * size + r;
  }

  lemma {:induction false} SameEmittedUntil(b: ExactBranch)
    requires b.Valid()
    ensures b.emittedUntil == b.model.emittedUntil
  {
  }

  lemma {:induction false} LateRepresents(windows: map<u64, map<Series, Kept>>, emittedUntil: u64, m: Merger<Series, Tagged>, msg: seq<Arrival<Series, Tagged>>)
    requires Represents(windows, emittedUntil, m)
    ensures Represents(windows, emittedUntil, m.(late := m.late + msg))
  {
    hide Keeps;
  }

  lemma {:induction false} OpensBlank(windows: map<u64, map<Series, Kept>>, emittedUntil: u64, m: Merger<Series, Tagged>, end: u64)
    requires Represents(windows, emittedUntil, m) && end !in windows
    ensures Represents(windows[end := map[]], emittedUntil, m)
  {
  }

  lemma {:induction false} BeforeKeeps(windows: map<u64, map<Series, Kept>>, emittedUntil: u64, m: Merger<Series, Tagged>, bound: u64)
    requires Represents(windows, emittedUntil, m)
    ensures forall e :: e in Before(windows, bound) ==> Keeps(Before(windows, bound)[e], Window(m.open, e))
    ensures forall e :: e in Before(windows, bound) && Before(windows, bound)[e] != map[] ==> e in m.open
    ensures forall e :: e in m.open ==> m.open[e] != map[]
  {
  }

  /** The windows among `ends` that hold a series. */
  ghost function Nonblank(open: map<u64, map<Series, seq<Tagged>>>, ends: set<u64>): set<u64> {
    set e | e in ends && e in open
  }

  lemma {:induction false} NoCounters(until: u64)
    ensures Cutoff(map[], until, 0) == until
  {
    assert Complete(map[], 0) == {};
  }

  lemma {:induction false} CloseRepresents(windows: map<u64, map<Series, Kept>>, emittedUntil: u64, m: Merger<Series, Tagged>, until: u64, last: u64)
    requires Represents(windows, emittedUntil, m)
    requires last == MaxOf(Nonblank(m.open, Before(windows, SatAdd(until, 1)).Keys))
    ensures Represents(SplitOff(windows, SatAdd(until, 1)), Max(emittedUntil, last), Due(m, until, 0))
    ensures Due(m, until, 0).emitted == m.emitted + InOrder(m.open, Nonblank(m.open, Before(windows, SatAdd(until, 1)).Keys))
  {
    hide Keeps;
    NoCounters(until);
    assert Ready(m.open, until) == Nonblank(m.open, Before(windows, SatAdd(until, 1)).Keys);
  }

  /** The series of one window, in some order. */
  method EmitWindow(end: u64, series: map<Series, Kept>, size: u64, ghost lists: map<Series, seq<Tagged>>)
    returns (out: seq<Envelope>, ghost names: seq<Series>)
    requires Keeps(series, lists) && size <= end
    ensures CarriesWindow(out, names, Closed(end, lists), size)
    ensures out == [] <==> series == map[]
  {
    hide CarriesSeries, KeptOf;
    out, names := [], [];
    var rest := series.Keys;
    while rest != {}
      invariant rest <= series.Keys
      invariant CarriesPart(out, names, end, lists, series.Keys - rest, size)
      decreases |rest|
    {
      var s :| s in rest;
      var e := EmitSeries(end, s, series[s], size, lists[s]);
      CarriesPush(out, names, end, lists, series.Keys - rest, size, e, s);
      assert series.Keys - (rest - {s}) == series.Keys - rest + {s};
      out, names := out + [e], names + [s];
      rest := rest - {s};
    }
    assert series.Keys - rest == series.Keys;
    EmptyWindowIsBlank(out, names, end, lists, series.Keys, size);
  }

  lemma {:induction false} EmptyWindowIsBlank(out: seq<Envelope>, names: seq<Series>, end: u64, lists: map<Series, seq<Tagged>>, done: set<Series>, size: u64)
    requires CarriesPart(out, names, end, lists, done, size)
    ensures out == [] <==> done == {}
  {
    hide CarriesSeries;
    if names != [] {
      assert names[0] in names;
    }
    if done != {} {
      var s :| s in done;
      assert s in names;
    }
  }

  /** Some of the series of a window. */
  ghost predicate CarriesPart(out: seq<Envelope>, names: seq<Series>, end: u64, lists: map<Series, seq<Tagged>>, done: set<Series>, size: u64) {
    && |names| == |out|
    && (forall n :: 0 <= n < |out| ==> names[n] in lists && CarriesSeries(out[n], end, names[n], lists[names[n]], size))
    && (forall i, j :: 0 <= i < j < |names| ==> names[i] != names[j])
    && (forall s :: s in names <==> s in done)
  }

  lemma {:induction false} CarriesPush(out: seq<Envelope>, names: seq<Series>, end: u64, lists: map<Series, seq<Tagged>>, done: set<Series>, size: u64,
                    e: Envelope, s: Series)
    requires CarriesPart(out, names, end, lists, done, size)
    requires s !in done && s in lists && CarriesSeries(e, end, s, lists[s], size)
    ensures CarriesPart(out + [e], names + [s], end, lists, done + {s}, size)
  {
    hide CarriesSeries;
  }

  method EmitSeries(end: u64, s: Series, kept: Kept, size: u64, ghost list: seq<Tagged>) returns (e: Envelope)
    requires KeptOf(kept, list) && size <= end
    ensures CarriesSeries(e, end, s, list, size)
  {
    hide Holding, Encoded;
    var payload, order := Encode(kept.data);
    e := SketchEnvelope(1, SketchType.Exact, 0, [], LabelsOf(s), end - size, end, payload, kept.metric, kept.data.points, 0);
    assert Iterates(order, Holding(Items(list)).counts) && e.payload == Encoded(Holding(Items(list)), order);
  }

  method EmitAll(windows: map<u64, map<Series, Kept>>, size: u64, ghost open: map<u64, map<Series, seq<Tagged>>>)
    returns (out: seq<Envelope>, ghost parts: Parts, last: u64)
    requires forall e :: e in windows ==> e >= size && Keeps(windows[e], Window(open, e))
    requires forall e :: e in windows && windows[e] != map[] ==> e in open
    requires forall e :: e in open ==> open[e] != map[]
    ensures CarriesAll(out, parts, InOrder(open, Nonblank(open, windows.Keys)), size)
    ensures last == MaxOf(Nonblank(open, windows.Keys))
  {
    hide Progress, CarriesWindow, Keeps, Iterating;
    out, parts, last := [], Parts([], []), 0;
    var ready := windows.Keys;
    ghost var done: set<u64> := {};
    assert Iterating(windows.Keys, {}, ready) by { IterateStart(ready); }
    ProgressStart(open, size);
    while ready != {}
      invariant Iterating(windows.Keys, done, ready)
      invariant Progress(out, parts, last, open, done, size)
      decreases |ready|
    {
      var end := First(ready);
      IterateNext(windows.Keys, done, ready, end);
      var envelopes, names := EmitWindow(end, windows[end], size, Window(open, end));
      KeepsKeys(windows[end], Window(open, end));
      ProgressNext(out, parts, last, open, done, size, envelopes, names, end);
      if windows[end] != map[] {
        parts := Parts(parts.envelopes + [envelopes], parts.names + [names]);
        last := end;
      }
      out := out + envelopes;
      done := done + {end};
      ready := ready - {end};
    }
    IterateEnd(windows.Keys, done);
    ProgressEnd(out, parts, last, open, done, size);
  }

  /** What `EmitAll` has emitted when it is past the windows in `done`. */
  ghost predicate Progress(out: seq<Envelope>, parts: Parts, last: u64, open: map<u64, map<Series, seq<Tagged>>>, done: set<u64>, size: u64) {
    CarriesAll(out, parts, InOrder(open, Nonblank(open, done)), size) && last == MaxOf(Nonblank(open, done))
  }

  lemma {:induction false} ProgressStart(open: map<u64, map<Series, seq<Tagged>>>, size: u64)
    ensures Progress([], Parts([], []), 0, open, {}, size)
  {
    assert Nonblank(open, {}) == {};
  }

  lemma {:induction false} ProgressNext(out: seq<Envelope>, parts: Parts, last: u64, open: map<u64, map<Series, seq<Tagged>>>, done: set<u64>, size: u64,
                     envelopes: seq<Envelope>, names: seq<Series>, end: u64)
    requires Progress(out, parts, last, open, done, size)
    requires CarriesWindow(envelopes, names, Closed(end, Window(open, end)), size)
    requires envelopes == [] <==> end !in open
    requires forall d :: d in done ==> d < end
    ensures if end in open then
      Progress(out + envelopes, Parts(parts.envelopes + [envelopes], parts.names + [names]), end, open, done + {end}, size)
      else Progress(out + envelopes, parts, last, open, done + {end}, size)
  {
    hide CarriesAll, CarriesWindow;
    if end in open {
      CarriesOneMore(out, parts, InOrder(open, Nonblank(open, done)), size, envelopes, names, Closed(end, open[end]));
      NonblankNext(open, done, end);
    } else {
      BlankNext(open, done, end);
      assert out + envelopes == out;
    }
  }

  lemma {:induction false} ProgressEnd(out: seq<Envelope>, parts: Parts, last: u64, open: map<u64, map<Series, seq<Tagged>>>, done: set<u64>, size: u64)
    requires Progress(out, parts, last, open, done, size)
    ensures CarriesAll(out, parts, InOrder(open, Nonblank(open, done)), size) && last == MaxOf(Nonblank(open, done))
  {
  }

  lemma {:induction false} BlankNext(open: map<u64, map<Series, seq<Tagged>>>, done: set<u64>, end: u64)
    requires end !in open
    ensures Nonblank(open, done + {end}) == Nonblank(open, done)
  {
  }

  lemma {:induction false} KeepsKeys(series: map<Series, Kept>, lists: map<Series, seq<Tagged>>)
    requires Keeps(series, lists)
    ensures series == map[] <==> lists == map[]
  {
  }

  lemma {:induction false} NonblankNext(open: map<u64, map<Series, seq<Tagged>>>, done: set<u64>, end: u64)
    requires end in open && forall d :: d in done ==> d < end
    ensures InOrder(open, Nonblank(open, done + {end})) == InOrder(open, Nonblank(open, done)) + [Closed(end, open[end])]
    ensures MaxOf(Nonblank(open, done + {end})) == end
  {
    var before := Nonblank(open, done);
    assert Nonblank(open, done + {end}) == before + {end};
    assert before + {end} - {end} == before;
  }

  lemma {:induction false} CarriesOneMore(out: seq<Envelope>, parts: Parts, closed: seq<Closed<Series, Tagged>>, size: u64,
                       envelopes: seq<Envelope>, names: seq<Series>, c: Closed<Series, Tagged>)
    requires CarriesAll(out, parts, closed, size) && CarriesWindow(envelopes, names, c, size)
    ensures CarriesAll(out + envelopes, Parts(parts.envelopes + [envelopes], parts.names + [names]), closed + [c], size)
  {
    hide CarriesWindow;
    assert (parts.envelopes + [envelopes])[..|parts.envelopes|] == parts.envelopes;
  }
}
