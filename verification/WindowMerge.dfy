/** `window_merge`: merges sketches of many sources by the window they describe. */
module WindowMerge {
  import opened Basics
  import opened Envelopes
  import opened WindowProtocol
  import opened Confluence

  type Envelope = SketchEnvelope<Payload>

  /** The identity of a series within a window. The source sorts both label lists before it
      formats them, so the order of labels does not matter but their multiplicity does. */
  datatype SeriesKey = SeriesKey(
    metricName: Text,
    sketchType: SketchType,
    aggId: u64,
    windowStartMs: u64,
    resource: multiset<KeyValue>,
    labels: multiset<KeyValue>)

  function KeyOf(e: Envelope): SeriesKey {
    SeriesKey(e.metricName, e.sketchType, e.aggId, e.windowStartMs, multiset(e.resourceLabels), multiset(e.labels))
  }

  datatype Pending = Pending(envelope: Envelope, items: multiset<Sample>)

  /** One merged window: its series, each with the merged sketch as payload. */
  datatype MergedWindow = MergedWindow(end: u64, series: map<SeriesKey, Envelope>)

  /** What one envelope adds to its series. */
  datatype Contribution = Contribution(envelope: Envelope, items: multiset<Sample>, count: nat)

  ghost function MergedItems(list: seq<Contribution>): multiset<Sample> {
    if list == [] then multiset{} else MergedItems(list[..|list| - 1]) + list[|list| - 1].items
  }

  ghost function MergedCount(list: seq<Contribution>): nat {
    Sum(list, (c: Contribution) => c.count)
  }

  lemma {:induction false} MergedPush(list: seq<Contribution>, c: Contribution)
    ensures MergedItems(list + [c]) == MergedItems(list) + c.items
    ensures MergedCount(list + [c]) == MergedCount(list) + c.count
  {
    assert (list + [c])[..|list|] == list;
    SumPush(list, c, (c: Contribution) => c.count);
  }

  lemma {:induction false} MultiplicityIsSum(list: seq<Contribution>, x: Sample)
    ensures MergedItems(list)[x] == Sum(list, (c: Contribution) => c.items[x])
    decreases |list|
  {
    if list != [] {
      MultiplicityIsSum(list[..|list| - 1], x);
    }
  }

  /** Merging does not depend on the order of arrival. */
  lemma {:induction false} MergeCommutes(list: seq<Contribution>, other: seq<Contribution>)
    requires multiset(list) == multiset(other)
    ensures MergedItems(list) == MergedItems(other)
    ensures MergedCount(list) == MergedCount(other)
  {
    forall x: Sample
      ensures MergedItems(list)[x] == MergedItems(other)[x]
    {
      MultiplicityIsSum(list, x);
      MultiplicityIsSum(other, x);
      SumPermutation(list, other, (c: Contribution) => c.items[x]);
    }
    SumPermutation(list, other, (c: Contribution) => c.count);
  }

  /** A pending series is the fold of what arrived for it, under the first envelope. */
  ghost predicate FoldOf(p: Pending, list: seq<Contribution>, k: SeriesKey, end: u64) {
    && KeyOf(p.envelope) == k
    && p.envelope.windowEndMs == end
    && p.items == MergedItems(list)
    && list != [] && p.envelope == list[0].envelope.(count := MergedCount(list))
  }

  ghost predicate Folds(series: map<SeriesKey, Pending>, lists: map<SeriesKey, seq<Contribution>>, end: u64) {
    && series.Keys == lists.Keys
    && forall k :: k in series ==> FoldOf(series[k], lists[k], k, end)
  }

  /** The fields of a merger stand for the machine `m`: open windows are the folds of what
      arrived for them. */
  ghost predicate Represents(
    windows: map<u64, map<SeriesKey, Pending>>, emittedUntil: u64, late: nat, messages: map<u64, nat>,
    m: Merger<SeriesKey, Contribution>)
  {
    && emittedUntil == m.emittedUntil
    && late == |m.late|
    && messages == m.messages
    && windows.Keys == m.open.Keys
    && forall e :: e in windows ==> Folds(windows[e], m.open[e], e)
  }

  /** An emitted envelope is one of those that arrived, with the fold as its payload. */
  ghost predicate Carries(e: Envelope, list: seq<Contribution>, k: SeriesKey, end: u64) {
    && KeyOf(e) == k
    && e.windowEndMs == end
    && exists n :: 0 <= n < |list| && e == Stamped(list[n].envelope, MergedItems(list), MergedCount(list))
  }

  ghost function Stamped(e: Envelope, items: multiset<Sample>, count: nat): Envelope {
    e.(payload := SnapshotBytes(e.sketchType, items), count := count)
  }

  lemma {:induction false} CarriesPermuted(e: Envelope, list: seq<Contribution>, other: seq<Contribution>, k: SeriesKey, end: u64)
    requires Carries(e, list, k, end) && multiset(list) == multiset(other)
    ensures Carries(e, other, k, end)
  {
    hide MergedItems, MergedCount, Stamped;
    MergeCommutes(list, other);
    var n :| 0 <= n < |list| && e == Stamped(list[n].envelope, MergedItems(list), MergedCount(list));
    assert list[n] in multiset(other);
    var i :| 0 <= i < |other| && other[i] == list[n];
    assert e == Stamped(other[i].envelope, MergedItems(other), MergedCount(other));
  }

  ghost predicate Emits(out: MergedWindow, closed: Closed<SeriesKey, Contribution>) {
    && out.end == closed.end
    && out.series.Keys == closed.series.Keys
    && forall k :: k in out.series ==> Carries(out.series[k], closed.series[k], k, closed.end)
  }

  function SnapshotOf(p: Pending): Envelope {
    p.envelope.(payload := SnapshotBytes(p.envelope.sketchType, p.items))
  }

  lemma {:induction false} SnapshotsEmit(series: map<SeriesKey, Pending>, lists: map<SeriesKey, seq<Contribution>>, end: u64)
    requires Folds(series, lists, end)
    ensures Emits(MergedWindow(end, map k | k in series :: SnapshotOf(series[k])), Closed(end, lists))
  {
    hide MergedItems, MergedCount;
  }

  /** One envelope into the series of its window; None when its payload does not decode.
      Empty bytes merge into a sketch that is already there. */
  function MergeInto(series: map<SeriesKey, Pending>, e: Envelope): Option<map<SeriesKey, Pending>> {
    var key := KeyOf(e);
    if key in series then
      var pending := series[key];
      var envelope := pending.envelope.(count := pending.envelope.count + e.count);
      if e.payload.Empty? then Some(series[key := pending.(envelope := envelope)])
      else
        match DecodeSnapshot(e.sketchType, e.payload)
        case None => None
        case Some(items) => Some(series[key := Pending(envelope, pending.items + items)])
    else
      match DecodeSnapshot(e.sketchType, e.payload)
      case None => None
      case Some(items) => Some(series[key := Pending(e, items)])
  }

  ghost function ContributionOf(e: Envelope): Contribution {
    Contribution(e, match DecodeSnapshot(e.sketchType, e.payload) case Some(items) => items case None => multiset{}, e.count)
  }

  lemma {:induction false} MergeFolds(series: map<SeriesKey, Pending>, lists: map<SeriesKey, seq<Contribution>>, e: Envelope)
    requires Folds(series, lists, e.windowEndMs)
    ensures MergeInto(series, e).Some? ==>
      Folds(MergeInto(series, e).value, lists[KeyOf(e) := Held(lists, KeyOf(e)) + [ContributionOf(e)]], e.windowEndMs)
  {
    MergesOne(series, lists, e);
    MergesOnly(series, e);
    hide FoldOf, MergeInto, KeyOf, ContributionOf;
  }

  /** Only the series of the envelope changes. */
  lemma {:induction false} MergesOnly(series: map<SeriesKey, Pending>, e: Envelope)
    ensures MergeInto(series, e).Some? ==>
      var merged := MergeInto(series, e).value;
      KeyOf(e) in merged && merged == series[KeyOf(e) := merged[KeyOf(e)]]
  {
    hide KeyOf, DecodeSnapshot;
  }

  lemma {:induction false} MergesOne(series: map<SeriesKey, Pending>, lists: map<SeriesKey, seq<Contribution>>, e: Envelope)
    requires Folds(series, lists, e.windowEndMs)
    ensures MergeInto(series, e).Some? ==>
      && KeyOf(e) in MergeInto(series, e).value
      && FoldOf(MergeInto(series, e).value[KeyOf(e)], Held(lists, KeyOf(e)) + [ContributionOf(e)], KeyOf(e), e.windowEndMs)
  {
    hide FoldOf, KeyOf, ContributionOf, Folds, DecodeSnapshot, MergeInto, Grown;
    var k := KeyOf(e);
    SameSeries(series, lists, e.windowEndMs, k);
    MergedSeries(series, e);
    if k in series {
      GrownFolds(series[k], lists[k], e);
    } else {
      OpenedFolds(e);
    }
  }

  lemma {:induction false} MergedSeries(series: map<SeriesKey, Pending>, e: Envelope)
    ensures var merged, k := MergeInto(series, e), KeyOf(e);
      merged.Some? ==>
        && k in merged.value && (k !in series ==> DecodeSnapshot(e.sketchType, e.payload).Some?)
        && merged.value[k] == if k in series then Grown(series[k], e) else Pending(e, DecodeSnapshot(e.sketchType, e.payload).value)
  {
    hide KeyOf;
    if KeyOf(e) in series {
      GrownIs(series[KeyOf(e)], e);
    }
    hide Grown, DecodeSnapshot;
  }

  lemma {:induction false} GrownIs(p: Pending, e: Envelope)
    ensures e.payload.Empty? ==> Grown(p, e) == p.(envelope := p.envelope.(count := p.envelope.count + e.count))
    ensures DecodeSnapshot(e.sketchType, e.payload).Some? ==>
      Grown(p, e) == Pending(p.envelope.(count := p.envelope.count + e.count), p.items + DecodeSnapshot(e.sketchType, e.payload).value)
  {
  }

  /** The series of an envelope, with its samples and its count. */
  ghost function Grown(p: Pending, e: Envelope): Pending {
    Pending(p.envelope.(count := p.envelope.count + e.count), p.items + ContributionOf(e).items)
  }

  lemma {:induction false} GrownFolds(p: Pending, list: seq<Contribution>, e: Envelope)
    requires FoldOf(p, list, KeyOf(e), e.windowEndMs)
    ensures FoldOf(Grown(p, e), list + [ContributionOf(e)], KeyOf(e), e.windowEndMs)
  {
    hide MergedItems, MergedCount;
    MergedPush(list, ContributionOf(e));
  }

  lemma {:induction false} OpenedFolds(e: Envelope)
    ensures DecodeSnapshot(e.sketchType, e.payload).Some? ==>
      FoldOf(Pending(e, DecodeSnapshot(e.sketchType, e.payload).value), [] + [ContributionOf(e)], KeyOf(e), e.windowEndMs)
  {
    hide MergedItems, MergedCount;
    MergedPush([], ContributionOf(e));
    NothingMerged();
  }

  lemma {:induction false} SameSeries(series: map<SeriesKey, Pending>, lists: map<SeriesKey, seq<Contribution>>, end: u64, k: SeriesKey)
    requires Folds(series, lists, end)
    ensures k in series <==> k in lists
    ensures k in series ==> FoldOf(series[k], lists[k], k, end)
  {
    hide FoldOf;
  }

  lemma {:induction false} NothingMerged()
    ensures MergedItems([]) == multiset{} && MergedCount([]) == 0
  {
  }

  /** One envelope of a window that is not emitted, as the machine takes it. */
  lemma {:induction false} AddRepresents(
    windows: map<u64, map<SeriesKey, Pending>>, emittedUntil: u64, late: nat, messages: map<u64, nat>,
    m: Merger<SeriesKey, Contribution>, e: Envelope, window: map<SeriesKey, Pending>)
    requires Represents(windows, emittedUntil, late, messages, m) && e.windowEndMs > emittedUntil
    requires window == if e.windowEndMs in windows then windows[e.windowEndMs] else map[]
    ensures var merged := MergeInto(window, e);
      Represents(windows[e.windowEndMs := if merged.Some? then merged.value else window], emittedUntil, late, messages,
                 WindowProtocol.Add(m, Arrival(e.windowEndMs, KeyOf(e), merged.Some?, ContributionOf(e)), true))
  {
    var end, lists := e.windowEndMs, Window(m.open, e.windowEndMs);
    WindowFolds(windows, emittedUntil, late, messages, m, end);
    MergeFolds(window, lists, e);
    hide MergeInto, Folds, Represents, KeyOf, ContributionOf;
    var merged := MergeInto(window, e);
    if merged.Some? {
      ReplaceWindow(windows, emittedUntil, late, messages, m, end, merged.value,
                    lists[KeyOf(e) := Held(lists, KeyOf(e)) + [ContributionOf(e)]], m.rejected);
    } else {
      ReplaceWindow(windows, emittedUntil, late, messages, m, end, window, lists,
                    m.rejected + [Arrival(end, KeyOf(e), false, ContributionOf(e))]);
    }
    assert m.emittedUntil < end by { UntilIs(windows, emittedUntil, late, messages, m); }
  }

  lemma {:induction false} UntilIs(
    windows: map<u64, map<SeriesKey, Pending>>, emittedUntil: u64, late: nat, messages: map<u64, nat>, m: Merger<SeriesKey, Contribution>)
    requires Represents(windows, emittedUntil, late, messages, m)
    ensures emittedUntil == m.emittedUntil
  {
  }

  lemma {:induction false} WindowFolds(
    windows: map<u64, map<SeriesKey, Pending>>, emittedUntil: u64, late: nat, messages: map<u64, nat>,
    m: Merger<SeriesKey, Contribution>, end: u64)
    requires Represents(windows, emittedUntil, late, messages, m)
    ensures Folds(if end in windows then windows[end] else map[], Window(m.open, end), end)
  {
    hide FoldOf;
  }

  lemma {:induction false} ReplaceWindow(
    windows: map<u64, map<SeriesKey, Pending>>, emittedUntil: u64, late: nat, messages: map<u64, nat>,
    m: Merger<SeriesKey, Contribution>, end: u64, series: map<SeriesKey, Pending>, lists: map<SeriesKey, seq<Contribution>>,
    rejected: seq<Arrival<SeriesKey, Contribution>>)
    requires Represents(windows, emittedUntil, late, messages, m) && Folds(series, lists, end)
    ensures Represents(windows[end := series], emittedUntil, late, messages, m.(open := m.open[end := lists], rejected := rejected))
  {
    hide Folds;
  }

  class WindowMerger {
    var windows: map<u64, map<SeriesKey, Pending>>
    var emittedUntil: u64
    var late: nat
    var messages: map<u64, nat>
    ghost var model: Merger<SeriesKey, Contribution>

    ghost predicate Valid()
      reads this
    {
      Represents(windows, emittedUntil, late, messages, model)
    }

    constructor ()
      ensures Valid() && model == Fresh()
    {
      windows, emittedUntil, late, messages := map[], 0, 0, map[];
      model := Fresh();
    }

    /** Whether `Add` decodes `e`. */
    ghost predicate Decodes(e: Envelope)
      reads this
    {
      MergeInto(if e.windowEndMs in windows then windows[e.windowEndMs] else map[], e).Some?
    }

    ghost function ArrivalOf(e: Envelope): Arrival<SeriesKey, Contribution>
      reads this
    {
      Arrival(e.windowEndMs, KeyOf(e), Decodes(e), ContributionOf(e))
    }

    /** Add one source's sketch for a window. An envelope that does not decode still opens
        its window; its count is not added. */
    method Add(e: Envelope) returns (r: Result<(), ()>)
      requires Valid()
      modifies this
      ensures Valid()
      ensures model == WindowProtocol.Add(old(model), old(ArrivalOf(e)), true)
      ensures r.Err? <==> e.windowEndMs > old(emittedUntil) && !old(Decodes(e))
    {
      hide KeyOf, ContributionOf;
      ghost var arrival, before := ArrivalOf(e), model;
      model := WindowProtocol.Add(model, arrival, true);
      if e.windowEndMs <= emittedUntil {
        late := late + 1;
        return Ok(());
      }
      var end := e.windowEndMs;
      var window := if end in windows then windows[end] else map[];
      AddRepresents(windows, emittedUntil, late, messages, before, e, window);
      hide MergeInto, Represents, WindowProtocol.Add;
      match MergeInto(window, e) {
        case None =>
          windows := windows[end := window];
          r := Err(());
        case Some(merged) =>
          windows := windows[end := merged];
          r := Ok(());
      }
    }

    /** Count one message carrying window `end`. */
    method MessageCarried(end: u64)
      requires Valid()
      modifies this`messages, this`model
      ensures Valid()
      ensures model == CountAll(old(model), {end})
    {
      model := CountAll(model, {end});
      if end > emittedUntil {
        messages := messages[end := (if end in messages then messages[end] else 0) + 1];
      }
    }

    /** Close and return every window that `sources` messages carried, or that ended
        `graceMs` or more before `nowMs`, and every earlier one. */
    method Due(nowMs: u64, graceMs: u64, sources: nat) returns (out: seq<MergedWindow>)
      requires Valid()
      modifies this
      ensures Valid()
      ensures model == WindowProtocol.Due(old(model), SatSub(nowMs, graceMs), sources)
      ensures |old(model).emitted| + |out| == |model.emitted|
      ensures forall i :: 0 <= i < |out| ==> Emits(out[i], model.emitted[|old(model).emitted| + i])
    {
      hide Folds, Emits, Complete, InOrder, WindowProtocol.Due;
      var timedOut := SatSub(nowMs, graceMs);
      var complete := CompleteUntil(messages, sources);
      var cutoff: u64 := Max(timedOut, complete);
      assert cutoff == Cutoff(messages, timedOut, sources);
      var bound := SatAdd(cutoff, 1);
      var ready := Before(windows, bound);
      assert ready.Keys == Ready(model.open, cutoff);
      var last;
      out, last := EmitAll(ready, model.open);
      DueRepresents(windows, emittedUntil, late, messages, model, timedOut, sources, last);
      DueEmitted(model, timedOut, sources, out);
      hide Represents;
      messages := SplitOff(messages, bound);
      windows := SplitOff(windows, bound);
      emittedUntil := Max(emittedUntil, last);
      model := WindowProtocol.Due(model, timedOut, sources);
    }
  }

  lemma {:induction false} DueEmitted(m: Merger<SeriesKey, Contribution>, timedOut: u64, sources: nat, out: seq<MergedWindow>)
    requires AllEmit(out, InOrder(m.open, Ready(m.open, Cutoff(m.messages, timedOut, sources))))
    ensures var emitted := WindowProtocol.Due(m, timedOut, sources).emitted;
      && |m.emitted| + |out| == |emitted|
      && forall i :: 0 <= i < |out| ==> Emits(out[i], emitted[|m.emitted| + i])
  {
    hide Emits, InOrder;
  }

  lemma {:induction false} DueRepresents(
    windows: map<u64, map<SeriesKey, Pending>>, emittedUntil: u64, late: nat, messages: map<u64, nat>,
    m: Merger<SeriesKey, Contribution>, timedOut: u64, sources: nat, last: u64)
    requires Represents(windows, emittedUntil, late, messages, m)
    requires last == MaxOf(Ready(m.open, Cutoff(messages, timedOut, sources)))
    ensures var bound := SatAdd(Cutoff(messages, timedOut, sources), 1);
      Represents(
        SplitOff(windows, bound), Max(emittedUntil, last), late,
        SplitOff(messages, bound), WindowProtocol.Due(m, timedOut, sources))
  {
    hide Folds;
  }

  // ---------- the processor ----------

  /** What a merger reads of a message: the envelopes with a payload. */
  ghost function Arrivals(message: seq<Option<Envelope>>): seq<Arrival<SeriesKey, Contribution>> {
    if message == [] then []
    else
      var last := message[|message| - 1];
      Arrivals(message[..|message| - 1]) +
      if last.Some? && last.value.payload != Empty then [ArrivalOf(last.value)] else []
  }

  ghost function ArrivalOf(e: Envelope): Arrival<SeriesKey, Contribution> {
    Arrival(e.windowEndMs, KeyOf(e), DecodeSnapshot(e.sketchType, e.payload).Some?, ContributionOf(e))
  }

  /** What passes through: the envelopes without one. */
  ghost function Passthrough(message: seq<Option<Envelope>>): seq<Envelope> {
    if message == [] then []
    else
      var last := message[|message| - 1];
      Passthrough(message[..|message| - 1]) + if last.Some? && last.value.payload.Empty? then [last.value] else []
  }

  lemma {:induction false} ArrivalsPush(message: seq<Option<Envelope>>, n: nat)
    requires n < |message|
    ensures var last := message[n];
      && Arrivals(message[..n + 1]) == (
           if last.Some? && last.value.payload != Empty then Arrivals(message[..n]) + [ArrivalOf(last.value)]
           else Arrivals(message[..n]))
      && Passthrough(message[..n + 1]) == (
           if last.Some? && last.value.payload.Empty? then Passthrough(message[..n]) + [last.value]
           else Passthrough(message[..n]))
  {
    assert message[..n + 1][..n] == message[..n];
  }

  class WindowMergeProcessor {
    const graceMs: u64
    const sources: nat
    const merger: WindowMerger

    constructor (graceMs: u64, sources: nat)
      ensures fresh(merger) && merger.Valid() && merger.model == Fresh()
      ensures this.graceMs == graceMs && this.sources == sources
    {
      this.graceMs, this.sources := graceMs, sources;
      merger := new WindowMerger();
    }

    /** A data message; scalar observations (`None`) are ignored. */
    method OnData(message: seq<Option<Envelope>>, nowMs: u64)
      returns (passthrough: seq<Envelope>, out: seq<MergedWindow>)
      requires merger.Valid() && Safe(merger.model)
      modifies merger
      ensures merger.Valid() && Safe(merger.model)
      ensures passthrough == Passthrough(message)
      ensures merger.model
           == WindowProtocol.OnData(old(merger.model), Arrivals(message), SatSub(nowMs, graceMs), sources, true)
      ensures |old(merger.model).emitted| + |out| == |merger.model.emitted|
      ensures forall i :: 0 <= i < |out| ==> Emits(out[i], merger.model.emitted[|old(merger.model).emitted| + i])
    {
      hide WindowProtocol.Add, WindowProtocol.Due, CountAll, Safe, Emits, Represents, AddAll, Arrivals, Passthrough;
      ghost var added := AddAll(merger.model, Arrivals(message), true);
      AddAllSafe(merger.model, Arrivals(message), true);
      var carried;
      passthrough, carried := TakeAll(message);
      CountCarried(carried);
      CountAllSafe(added, carried);
      CountKeepsEmitted(added, carried);
      DueSafe(merger.model, SatSub(nowMs, graceMs), sources);
      out := merger.Due(nowMs, graceMs, sources);
    }

    /** Every envelope of a message: merged, or passed through. */
    method TakeAll(message: seq<Option<Envelope>>) returns (passthrough: seq<Envelope>, carried: set<u64>)
      requires merger.Valid()
      modifies merger
      ensures merger.Valid()
      ensures passthrough == Passthrough(message)
      ensures merger.model == AddAll(old(merger.model), Arrivals(message), true)
      ensures carried == Ends(Arrivals(message))
    {
      hide WindowProtocol.Add, Represents;
      ghost var before := merger.model;
      passthrough, carried := [], {};
      assert message[..0] == [];
      for n := 0 to |message|
        invariant merger.Valid()
        invariant passthrough == Passthrough(message[..n])
        invariant merger.model == AddAll(before, Arrivals(message[..n]), true)
        invariant carried == Ends(Arrivals(message[..n]))
      {
        ArrivalsPush(message, n);
        hide Arrivals, Passthrough;
        if message[n].Some? {
          var e := message[n].value;
          if e.payload != Empty {
            carried := carried + {e.windowEndMs};
            assert merger.ArrivalOf(e) == ArrivalOf(e);
            AddAllPush(before, Arrivals(message[..n]), ArrivalOf(e), true);
            hide AddAll, Ends;
            var _ := merger.Add(e);
          } else {
            passthrough := passthrough + [e];
          }
        }
      }
      assert message[..|message|] == message;
    }

    method CountCarried(carried: set<u64>)
      requires merger.Valid() && Safe(merger.model)
      modifies merger
      ensures merger.Valid() && merger.model == CountAll(old(merger.model), carried)
    {
      ghost var before := merger.model;
      ghost var done: set<u64> := {};
      CountNone(before);
      var rest := carried;
      while rest != {}
        invariant merger.Valid()
        invariant done !! rest && done + rest == carried
        invariant merger.model == CountAll(before, done)
        decreases |rest|
      {
        var end :| end in rest;
        CountOneMore(before, done, end);
        merger.MessageCarried(end);
        done, rest := done + {end}, rest - {end};
      }
      assert done == carried;
    }

    method OnTick(nowMs: u64) returns (out: seq<MergedWindow>)
      requires merger.Valid()
      modifies merger
      ensures merger.Valid()
      ensures merger.model == WindowProtocol.Due(old(merger.model), SatSub(nowMs, graceMs), sources)
      ensures |old(merger.model).emitted| + |out| == |merger.model.emitted|
      ensures forall i :: 0 <= i < |out| ==> Emits(out[i], merger.model.emitted[|old(merger.model).emitted| + i])
    {
      out := merger.Due(nowMs, graceMs, sources);
    }

    /** Shutdown closes everything: no grace, no source to wait for. */
    method OnShutdown() returns (out: seq<MergedWindow>)
      requires merger.Valid() && Safe(merger.model)
      modifies merger
      ensures merger.Valid()
      ensures merger.model == WindowProtocol.Due(old(merger.model), U64_MAX, 0)
      ensures |old(merger.model).emitted| + |out| == |merger.model.emitted|
      ensures forall i :: 0 <= i < |out| ==> Emits(out[i], merger.model.emitted[|old(merger.model).emitted| + i])
      ensures forall e :: e in merger.windows ==> e == U64_MAX
    {
      DueSafe(merger.model, U64_MAX, 0);
      out := merger.Due(U64_MAX, 0, 0);
    }
  }

  /** The emitted windows of a merger that is exact hold, for every window and series any
      source sent, one envelope: the merge of all its decodable sketches and the sum of
      their counts. */
  lemma {:induction false} MergedExactly(m: Merger<SeriesKey, Contribution>, out: seq<MergedWindow>, sent: seq<Arrival<SeriesKey, Contribution>>)
    requires EmitsExactly(m, sent, U64_MAX)
    requires |out| == |m.emitted| && forall i :: 0 <= i < |out| ==> Emits(out[i], m.emitted[i])
    ensures forall i, j :: 0 <= i < j < |out| ==> out[i].end < out[j].end
    ensures forall i, k :: 0 <= i < |out| && k in out[i].series ==>
      Carries(out[i].series[k], Accepted(sent, out[i].end, k), k, out[i].end)
    ensures forall e: u64, k: SeriesKey :: e < U64_MAX && Accepted(sent, e, k) != [] ==>
      exists i :: 0 <= i < |out| && out[i].end == e && k in out[i].series
  {
    hide MergedItems, MergedCount, Accepted;
    forall i, k | 0 <= i < |out| && k in out[i].series
      ensures Carries(out[i].series[k], Accepted(sent, out[i].end, k), k, out[i].end)
    {
      assert Emits(out[i], m.emitted[i]);
      CarriesPermuted(out[i].series[k], m.emitted[i].series[k], Accepted(sent, out[i].end, k), k, out[i].end);
    }
    forall e: u64, k: SeriesKey | e < U64_MAX && Accepted(sent, e, k) != []
      ensures exists i :: 0 <= i < |out| && out[i].end == e && k in out[i].series
    {
      var i :| 0 <= i < |m.emitted| && m.emitted[i].end == e && k in m.emitted[i].series;
      assert Emits(out[i], m.emitted[i]);
      assert out[i].end == e && k in out[i].series;
    }
  }

  /** Emit every ready window, by increasing end; `last` is the largest end, or 0. */
  method EmitAll(windows: map<u64, map<SeriesKey, Pending>>, ghost open: map<u64, map<SeriesKey, seq<Contribution>>>)
    returns (out: seq<MergedWindow>, last: u64)
    requires windows.Keys <= open.Keys
    requires forall e :: e in windows ==> Folds(windows[e], open[e], e)
    ensures AllEmit(out, InOrder(open, windows.Keys))
    ensures last == MaxOf(windows.Keys)
  {
    hide Folds, Emits, SnapshotOf, Iterating;
    var ready := windows.Keys;
    ghost var done: set<u64> := {};
    IterateStart(ready);
    out, last := [], 0;
    while ready != {}
      invariant Iterating(windows.Keys, done, ready) && done <= open.Keys
      invariant AllEmit(out, InOrder(open, done))
      invariant last == MaxOf(done)
      decreases |ready|
    {
      var end := First(ready);
      IterateNext(windows.Keys, done, ready, end);
      SnapshotsEmit(windows[end], open[end], end);
      InOrderNext(open, done, end);
      out := out + [MergedWindow(end, map k | k in windows[end] :: SnapshotOf(windows[end][k]))];
      last := end;
      done := done + {end};
      ready := ready - {end};
    }
    IterateEnd(windows.Keys, done);
  }

  ghost predicate AllEmit(out: seq<MergedWindow>, closed: seq<Closed<SeriesKey, Contribution>>) {
    |out| == |closed| && forall i :: 0 <= i < |out| ==> Emits(out[i], closed[i])
  }

}
