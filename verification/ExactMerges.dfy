/** `exact_merge`: adds up the exact windows of all sources. */
module ExactMerges {
  import opened Basics
  import opened Envelopes
  import opened WindowProtocol
  import opened ExactWindows

  type Envelope = SketchEnvelope<seq<byte>>

  /** The identity of a series: metric, labels in the order they come, and window start. */
  datatype MergeKey = MergeKey(metricName: Text, labels: seq<KeyValue>, windowStartMs: u64)

  function KeyOf(e: Envelope): MergeKey {
    MergeKey(e.metricName, e.labels, e.windowStartMs)
  }

  /** An envelope as the merger sees it. */
  function ArrivalOf(e: Envelope): Arrival<MergeKey, ExactWindow> {
    var data := Decoded(e.payload);
    Arrival(e.windowEndMs, KeyOf(e), data.Ok?, if data.Ok? then data.value else EmptyWindow)
  }

  ghost function MergedAll(list: seq<ExactWindow>): ExactWindow {
    if list == [] then EmptyWindow else Merged(MergedAll(list[..|list| - 1]), list[|list| - 1])
  }

  lemma {:induction false} MergedPush(list: seq<ExactWindow>, w: ExactWindow)
    ensures MergedAll(list + [w]) == Merged(MergedAll(list), w)
    ensures list == [] ==> MergedAll(list + [w]) == w
  {
    assert (list + [w])[..|list|] == list;
    assert [] + w.values == w.values;
    assert AddedCounts(map[], w.counts) == w.counts;
  }

  ghost function ValueCount(v: F64): ExactWindow -> nat {
    (w: ExactWindow) => multiset(w.values)[v]
  }

  ghost function KeyCount(k: Text): ExactWindow -> nat {
    (w: ExactWindow) => CountIn(w.counts, k)
  }

  ghost function KeyPresence(k: Text): ExactWindow -> nat {
    (w: ExactWindow) => if k in w.counts then 1 else 0
  }

  ghost function PointCount(): ExactWindow -> nat {
    (w: ExactWindow) => w.points
  }

  lemma {:induction false} MergedAllIsSum(list: seq<ExactWindow>, v: F64, k: Text)
    ensures multiset(MergedAll(list).values)[v] == Sum(list, ValueCount(v))
    ensures CountIn(MergedAll(list).counts, k) == Sum(list, KeyCount(k))
    ensures k in MergedAll(list).counts <==> Sum(list, KeyPresence(k)) > 0
    ensures MergedAll(list).points == Sum(list, PointCount())
    decreases |list|
  {
    if list != [] {
      MergedAllIsSum(list[..|list| - 1], v, k);
      assert multiset(MergedAll(list).values)
          == multiset(MergedAll(list[..|list| - 1]).values) + multiset(list[|list| - 1].values);
    }
  }

  /** The merge of several windows holds the same data whatever their order. */
  lemma {:induction false} MergedAllCommutes(list: seq<ExactWindow>, other: seq<ExactWindow>)
    requires multiset(list) == multiset(other)
    ensures SameData(MergedAll(list), MergedAll(other))
  {
    var a, b := MergedAll(list), MergedAll(other);
    forall v: F64
      ensures multiset(a.values)[v] == multiset(b.values)[v]
    {
      MergedAllIsSum(list, v, []);
      MergedAllIsSum(other, v, []);
      SumPermutation(list, other, ValueCount(v));
    }
    forall k: Text
      ensures CountIn(a.counts, k) == CountIn(b.counts, k)
      ensures k in a.counts <==> k in b.counts
    {
      SameKey(list, other, k);
    }
    SameCounts(a.counts, b.counts);
    MergedAllIsSum(list, 0, []);
    MergedAllIsSum(other, 0, []);
    SumPermutation(list, other, PointCount());
  }

  lemma {:induction false} SameKey(list: seq<ExactWindow>, other: seq<ExactWindow>, k: Text)
    requires multiset(list) == multiset(other)
    ensures CountIn(MergedAll(list).counts, k) == CountIn(MergedAll(other).counts, k)
    ensures k in MergedAll(list).counts <==> k in MergedAll(other).counts
  {
    MergedAllIsSum(list, 0, k);
    MergedAllIsSum(other, 0, k);
    SumPermutation(list, other, KeyCount(k));
    SumPermutation(list, other, KeyPresence(k));
  }

  lemma {:induction false} SameCounts(a: map<Text, nat>, b: map<Text, nat>)
    requires forall k :: k in a <==> k in b
    requires forall k :: CountIn(a, k) == CountIn(b, k)
    ensures a == b
  {
    forall k | k in a
      ensures a[k] == b[k]
    {
      assert CountIn(a, k) == CountIn(b, k);
    }
  }

  datatype Pending = Pending(envelope: Envelope, data: ExactWindow)

  ghost predicate FoldOf(p: Pending, list: seq<ExactWindow>, k: MergeKey, end: u64) {
    KeyOf(p.envelope) == k && p.envelope.windowEndMs == end && p.data == MergedAll(list)
  }

  ghost predicate Folds(series: map<MergeKey, Pending>, lists: map<MergeKey, seq<ExactWindow>>, end: u64) {
    && series.Keys == lists.Keys
    && (forall k :: k in lists ==> lists[k] != [])
    && forall k :: k in series ==> FoldOf(series[k], lists[k], k, end)
  }

  ghost predicate Represents(
    windows: map<u64, map<MergeKey, Pending>>, emittedUntil: u64, messages: map<u64, nat>, m: Merger<MergeKey, ExactWindow>)
  {
    && emittedUntil == m.emittedUntil
    && messages == m.messages
    && windows.Keys == m.open.Keys
    && (forall e :: e in windows ==> windows[e] != map[])
    && forall e :: e in windows ==> Folds(windows[e], m.open[e], e)
  }

  /** An emitted envelope: the merged data, encoded. */
  ghost predicate Carries(e: Envelope, data: ExactWindow, k: MergeKey, end: u64) {
    && KeyOf(e) == k
    && e.windowEndMs == end
    && e.count == data.points
    && exists order :: Iterates(order, data.counts) && e.payload == Encoded(data, order)
  }

  datatype MergedWindow = MergedWindow(end: u64, series: map<MergeKey, Envelope>)

  ghost predicate Emits(out: MergedWindow, closed: Closed<MergeKey, ExactWindow>) {
    && out.end == closed.end
    && out.series.Keys == closed.series.Keys
    && forall k :: k in out.series ==> Carries(out.series[k], MergedAll(closed.series[k]), k, closed.end)
  }

  ghost predicate AllEmit(out: seq<MergedWindow>, closed: seq<Closed<MergeKey, ExactWindow>>) {
    |out| == |closed| && forall i :: 0 <= i < |out| ==> Emits(out[i], closed[i])
  }

  lemma {:induction false} PutFolds(series: map<MergeKey, Pending>, lists: map<MergeKey, seq<ExactWindow>>, end: u64, k: MergeKey, p: Pending, w: ExactWindow)
    requires Folds(series, lists, end)
    requires KeyOf(p.envelope) == k && p.envelope.windowEndMs == end
    requires p.data == if k in series then Merged(series[k].data, w) else w
    ensures Folds(series[k := p], lists[k := Held(lists, k) + [w]], end)
  {
    MergedPush(Held(lists, k), w);
    if k in series {
      assert FoldOf(series[k], lists[k], k, end);
    }
    assert FoldOf(p, Held(lists, k) + [w], k, end);
    hide FoldOf;
  }

  lemma {:induction false} ReplaceWindow(windows: map<u64, map<MergeKey, Pending>>, emittedUntil: u64, messages: map<u64, nat>,
                      m: Merger<MergeKey, ExactWindow>, end: u64, series: map<MergeKey, Pending>, lists: map<MergeKey, seq<ExactWindow>>)
    requires Represents(windows, emittedUntil, messages, m)
    requires Folds(series, lists, end) && series != map[]
    ensures Represents(windows[end := series], emittedUntil, messages, m.(open := m.open[end := lists]))
  {
    hide Folds;
  }

  lemma {:induction false} RejectRepresents(windows: map<u64, map<MergeKey, Pending>>, emittedUntil: u64, messages: map<u64, nat>,
                         m: Merger<MergeKey, ExactWindow>, a: Arrival<MergeKey, ExactWindow>)
    requires Represents(windows, emittedUntil, messages, m)
    requires a.end <= emittedUntil || !a.ok
    ensures Represents(windows, emittedUntil, messages, Add(m, a, false))
  {
    hide Folds;
  }

  lemma {:induction false} OpenWindowFolds(windows: map<u64, map<MergeKey, Pending>>, emittedUntil: u64, messages: map<u64, nat>,
                        m: Merger<MergeKey, ExactWindow>, end: u64)
    requires Represents(windows, emittedUntil, messages, m)
    ensures Folds(if end in windows then windows[end] else map[], Window(m.open, end), end)
  {
  }

  lemma {:induction false} CountRepresents(windows: map<u64, map<MergeKey, Pending>>, emittedUntil: u64, messages: map<u64, nat>,
                        m: Merger<MergeKey, ExactWindow>, end: u64)
    requires Represents(windows, emittedUntil, messages, m)
    requires forall e :: e in m.messages ==> e > m.emittedUntil
    ensures Represents(windows, emittedUntil,
      if end > emittedUntil then messages[end := Counted(messages, end) + 1] else messages, CountAll(m, {end}))
  {
    hide Folds;
    var counted := if end > emittedUntil then messages[end := Counted(messages, end) + 1] else messages;
    assert CountAll(m, {end}).messages == counted;
  }

  lemma {:induction false} DueRepresents(windows: map<u64, map<MergeKey, Pending>>, emittedUntil: u64, messages: map<u64, nat>,
                      m: Merger<MergeKey, ExactWindow>, timedOut: u64, sources: nat, last: u64)
    requires Represents(windows, emittedUntil, messages, m)
    requires last == MaxOf(Ready(m.open, Cutoff(messages, timedOut, sources)))
    ensures var bound := SatAdd(Cutoff(messages, timedOut, sources), 1);
      Represents(SplitOff(windows, bound), Max(emittedUntil, last), SplitOff(messages, bound), Due(m, timedOut, sources))
  {
    hide Folds;
  }

  /** The envelopes of a message, as arrivals. */
  function Arrivals(message: seq<Envelope>): seq<Arrival<MergeKey, ExactWindow>> {
    if message == [] then [] else Arrivals(message[..|message| - 1]) + [ArrivalOf(message[|message| - 1])]
  }

  lemma {:induction false} ArrivalsPush(message: seq<Envelope>, n: nat)
    requires n < |message|
    ensures Arrivals(message[..n + 1]) == Arrivals(message[..n]) + [ArrivalOf(message[n])]
  {
    assert message[..n + 1][..n] == message[..n];
  }

  class ExactMerge {
    const graceMs: u64
    const sources: nat
    var windows: map<u64, map<MergeKey, Pending>>
    var messages: map<u64, nat>
    var emittedUntil: u64
    ghost var model: Merger<MergeKey, ExactWindow>

    ghost predicate Valid()
      reads this
    {
      Represents(windows, emittedUntil, messages, model) && Safe(model)
    }

    constructor (graceMs: u64, sources: nat)
      ensures Valid() && model == Fresh() && this.graceMs == graceMs && this.sources == sources
    {
      this.graceMs, this.sources := graceMs, sources;
      windows, messages, emittedUntil := map[], map[], 0;
      model := Fresh();
    }

    /** Add one source's window; false when it is too late. Nothing changes when the payload
        does not decode. */
    method Add(e: Envelope) returns (r: Result<bool, DecodeError>)
      requires Valid()
      modifies this`windows, this`model
      ensures Valid()
      ensures model == WindowProtocol.Add(old(model), ArrivalOf(e), false)
      ensures r == if e.windowEndMs <= old(emittedUntil) then Ok(false)
                   else if Decoded(e.payload).Err? then Err(Decoded(e.payload).error) else Ok(true)
    {
      hide Represents, Folds, FoldOf, Merged, Decoded, Safe;
      ghost var a := ArrivalOf(e);
      ghost var before := model;
      AddKeepsSafe(model, a);
      SameEmittedUntil(this);
      if e.windowEndMs <= emittedUntil {
        RejectRepresents(windows, emittedUntil, messages, model, a);
        model := WindowProtocol.Add(model, a, false);
        return Ok(false);
      }
      var decoded := Decode(e.payload);
      if decoded.Err? {
        RejectRepresents(windows, emittedUntil, messages, model, a);
        model := WindowProtocol.Add(model, a, false);
        return Err(decoded.error);
      }
      var end, key := e.windowEndMs, KeyOf(e);
      var window := if end in windows then windows[end] else map[];
      OpenWindowFolds(windows, emittedUntil, messages, model, end);
      FoldKeys(window, Window(model.open, end), end);
      var pending;
      if key in window {
        var data := Merge(window[key].data, decoded.value);
        pending := Pending(window[key].envelope, data);
      } else {
        pending := Pending(e, decoded.value);
      }
      PutFolds(window, Window(model.open, end), end, key, pending, decoded.value);
      assert key in window[key := pending];
      ReplaceWindow(windows, emittedUntil, messages, model, end, window[key := pending],
                    Window(model.open, end)[key := Held(Window(model.open, end), key) + [decoded.value]]);
      windows := windows[end := window[key := pending]];
      model := WindowProtocol.Add(model, a, false);
      return Ok(true);
    }

    /** Count the message for each window it carried. */
    method CountCarried(carried: set<u64>)
      requires Valid()
      modifies this`messages, this`model
      ensures Valid() && model == CountAll(old(model), carried)
    {
      hide Represents, CountAll;
      ghost var before := model;
      ghost var done: set<u64> := {};
      CountNone(before);
      var rest := carried;
      while rest != {}
        invariant Valid()
        invariant done !! rest && done + rest == carried
        invariant model == CountAll(before, done)
        decreases |rest|
      {
        var end :| end in rest;
        CountOneMore(before, done, end);
        CountRepresents(windows, emittedUntil, messages, model, end);
        CountAllSafe(model, {end});
        if end > emittedUntil {
          messages := messages[end := (if end in messages then messages[end] else 0) + 1];
        }
        model := CountAll(model, {end});
        done, rest := done + {end}, rest - {end};
      }
      assert done == carried;
    }

    /** Emit every window all sources sent, or that ended `graceMs` before `nowMs`, and every
        earlier one. */
    method Due(nowMs: u64) returns (out: seq<MergedWindow>)
      requires Valid()
      modifies this`windows, this`messages, this`emittedUntil, this`model
      ensures Valid()
      ensures model == WindowProtocol.Due(old(model), SatSub(nowMs, graceMs), sources)
      ensures |old(model).emitted| <= |model.emitted|
      ensures AllEmit(out, model.emitted[|old(model).emitted|..])
    {
      hide Folds, AllEmit, Safe, Complete;
      var timedOut := SatSub(nowMs, graceMs);
      var complete := CompleteUntil(messages, sources);
      var cutoff: u64 := Max(timedOut, complete);
      assert cutoff == Cutoff(messages, timedOut, sources);
      var bound := SatAdd(cutoff, 1);
      var ready := Before(windows, bound);
      assert ready.Keys == Ready(model.open, cutoff);
      var last;
      out, last := EmitAll(ready, model.open);
      DueRepresents(windows, emittedUntil, messages, model, timedOut, sources, last);
      DueSafe(model, timedOut, sources);
      hide Represents;
      messages := SplitOff(messages, bound);
      windows := SplitOff(windows, bound);
      emittedUntil := Max(emittedUntil, last);
      model := WindowProtocol.Due(model, timedOut, sources);
    }

    /** A data message: add its windows, count it, emit what is due. */
    method OnData(message: seq<Envelope>, nowMs: u64) returns (out: seq<MergedWindow>)
      requires Valid()
      modifies this
      ensures Valid()
      ensures model == WindowProtocol.OnData(old(model), Arrivals(message), SatSub(nowMs, graceMs), sources, false)
      ensures |old(model).emitted| <= |model.emitted|
      ensures AllEmit(out, model.emitted[|old(model).emitted|..])
    {
      hide Represents, WindowProtocol.Add, WindowProtocol.Due, CountAll, Safe, AllEmit;
      ghost var before := model;
      AddAllSafe(before, Arrivals(message), false);
      var carried: set<u64> := {};
      assert message[..0] == [];
      for n := 0 to |message|
        invariant Valid()
        invariant model == AddAll(before, Arrivals(message[..n]), false)
        invariant carried == Ends(Arrivals(message[..n]))
      {
        ArrivalsPush(message, n);
        AddAllPush(before, Arrivals(message[..n]), ArrivalOf(message[n]), false);
        hide Arrivals, AddAll;
        carried := carried + {message[n].windowEndMs};
        var _ := Add(message[n]);
      }
      assert message[..|message|] == message;
      CountCarried(carried);
      CountKeepsEmitted(AddAll(before, Arrivals(message), false), carried);
      out := Due(nowMs);
    }

    /** Shutdown still subtracts the grace: a window ending less than `graceMs` before the
        largest time stays open. */
    method OnShutdown() returns (out: seq<MergedWindow>)
      requires Valid()
      modifies this
      ensures Valid()
      ensures model == WindowProtocol.Due(old(model), U64_MAX - graceMs, sources)
      ensures |old(model).emitted| <= |model.emitted|
      ensures AllEmit(out, model.emitted[|old(model).emitted|..])
      ensures forall e :: e in windows ==> e > U64_MAX - graceMs || e == U64_MAX
    {
      DueSafe(model, U64_MAX - graceMs, sources);
      out := Due(U64_MAX);
    }
  }

  lemma {:induction false} AddKeepsSafe(m: Merger<MergeKey, ExactWindow>, a: Arrival<MergeKey, ExactWindow>)
    requires Safe(m)
    ensures Safe(Add(m, a, false))
  {
  }

  lemma {:induction false} SameEmittedUntil(merge: ExactMerge)
    requires merge.Valid()
    ensures merge.emittedUntil == merge.model.emittedUntil
  {
  }

  lemma {:induction false} FoldKeys(series: map<MergeKey, Pending>, lists: map<MergeKey, seq<ExactWindow>>, end: u64)
    requires Folds(series, lists, end)
    ensures forall k :: k in series ==> KeyOf(series[k].envelope) == k && series[k].envelope.windowEndMs == end
  {
  }

  /** Emit every ready window, by increasing end; `last` is the largest end, or 0. */
  method EmitAll(windows: map<u64, map<MergeKey, Pending>>, ghost open: map<u64, map<MergeKey, seq<ExactWindow>>>)
    returns (out: seq<MergedWindow>, last: u64)
    requires windows.Keys <= open.Keys
    requires forall e :: e in windows ==> Folds(windows[e], open[e], e)
    ensures AllEmit(out, InOrder(open, windows.Keys))
    ensures last == MaxOf(windows.Keys)
  {
    hide Folds, Emits, Iterating;
    var ready := windows.Keys;
    ghost var done: set<u64> := {};
    IterateStart(ready);
    out, last := [], 0;
    while ready != {}
      invariant Iterating(windows.Keys, done, ready) && done <= open.Keys
      invariant AllEmit(out, InOrder(open, done))
      invariant last == MaxOf(done)
      decreases |ready|
    {
      var end := First(ready);
      IterateNext(windows.Keys, done, ready, end);
      var emitted := EmitWindow(end, windows[end], open[end]);
      InOrderNext(open, done, end);
      out := out + [MergedWindow(end, emitted)];
      last := end;
      done := done + {end};
      ready := ready - {end};
    }
    IterateEnd(windows.Keys, done);
  }

  method EmitWindow(end: u64, series: map<MergeKey, Pending>, ghost lists: map<MergeKey, seq<ExactWindow>>)
    returns (emitted: map<MergeKey, Envelope>)
    requires Folds(series, lists, end)
    ensures Emits(MergedWindow(end, emitted), Closed(end, lists))
  {
    hide Carries, MergedAll;
    emitted := map[];
    var rest := series.Keys;
    while rest != {}
      invariant rest <= series.Keys
      invariant emitted.Keys == series.Keys - rest
      invariant forall k :: k in emitted ==> Carries(emitted[k], MergedAll(lists[k]), k, end)
      decreases |rest|
    {
      var k :| k in rest;
      var e := EmitSeries(end, k, series[k], lists[k]);
      emitted := emitted[k := e];
      rest := rest - {k};
    }
  }

  method EmitSeries(end: u64, k: MergeKey, p: Pending, ghost list: seq<ExactWindow>) returns (e: Envelope)
    requires FoldOf(p, list, k, end)
    ensures Carries(e, MergedAll(list), k, end)
  {
    hide MergedAll, Encoded;
    var payload, order := Encode(p.data);
    e := p.envelope.(count := p.data.points, payload := payload);
    assert Iterates(order, p.data.counts) && e.payload == Encoded(p.data, order);
  }
}
