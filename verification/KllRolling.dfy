/** The rolling estimator, over whole runs. */
module KllRolling {
  import opened Basics
  import opened Envelopes
  import opened SeriesKeys
  import opened KllWindows
  import KllResults
  import opened KllStore

  /** The shape's pane is the slide, its retention the window size. */
  datatype Rolling = Rolling(cfg: Config, shape: Shape, transmitSketch: bool, quantiles: seq<F64>) {
    /** Overlapping output is scalar, and scalar output needs a quantile. */
    ghost predicate Valid() {
      && shape.Valid()
      && (transmitSketch ==> shape.paneMs == shape.retentionMs)
      && (!transmitSketch ==> quantiles != [])
    }
  }

  /** A whole sketch, or one quantile estimated from `items`. */
  datatype Output = Sketch(envelope: Envelope) | Estimate(envelope: Envelope, items: multiset<Sample>, quantile: F64)

  type Outputs = map<Key, seq<Output>>

  datatype State = State(log: Log, lastEmit: Option<u64>, upstream: Option<u64>, closed: bool)

  const Init := State(EmptyLog, None, None, false)

  datatype Event = Observe(o: Observation) | ObserveEnvelope(e: Envelope) | Tick(now: u64, out: Outputs) | Shutdown

  // ---------- what a tick does, from the log alone ----------

  /** The end of the latest complete range: the wall boundary, held back by upstream. */
  function TickEnd(upstream: Option<u64>, pane: u64, now: u64): u64
    requires pane > 0
  {
    if upstream.None? then Floor(now, pane) else Min(upstream.value, Floor(now, pane))
  }

  ghost predicate Due(s: State, rc: Rolling, now: u64)
    requires rc.shape.paneMs > 0
  {
    var end := TickEnd(s.upstream, rc.shape.paneMs, now);
    !s.closed && end != 0 && (s.lastEmit.None? || s.lastEmit.value < end)
  }

  /** Only without upstream does a tick move the watermark. */
  ghost function TickLog(s: State, rc: Rolling, now: u64): Log
    requires rc.shape.paneMs > 0
  {
    if s.upstream.None? then Advanced(s.log, rc.shape, now) else s.log
  }

  /** What is sent for one envelope: itself, or one estimate a quantile. */
  function Rendered(rc: Rolling, e: Envelope): Option<seq<Output>> {
    if rc.transmitSketch then Some([Sketch(e)])
    else
      match DecodeSnapshot(KLLSketch, e.payload)
      case None => None
      case Some(items) => Some(EstimatesOf(e, items, rc.quantiles))
  }

  function EstimatesOf(e: Envelope, items: multiset<Sample>, quantiles: seq<F64>): (r: seq<Output>)
    ensures |r| == |quantiles|
  {
    if quantiles == [] then []
    else EstimatesOf(e, items, quantiles[..|quantiles| - 1]) + [Estimate(e.(payload := Empty), items, quantiles[|quantiles| - 1])]
  }

  ghost predicate AllRender(rc: Rolling, answer: map<Key, Envelope>) {
    forall k :: k in answer ==> Rendered(rc, answer[k]).Some?
  }

  /** The outputs are those of an answer to the range. */
  ghost predicate Sent(out: Outputs, answer: map<Key, Envelope>, rc: Rolling, log: Log, from: u64, to: u64) {
    && IsAnswer(answer, rc.cfg, log, from, to)
    && (AllRender(rc, answer) ==> out.Keys == answer.Keys && forall k :: k in out ==> Rendered(rc, answer[k]) == Some(out[k]))
    && (!AllRender(rc, answer) ==> out == map[])
  }

  /** What a due tick sends: nothing if the range is not answerable. */
  ghost predicate TickSends(out: Outputs, rc: Rolling, log: Log, end: u64)
    requires rc.shape.paneMs > 0
  {
    var from := SatSub(end, rc.shape.retentionMs);
    if Answerable(log, rc.shape, from, end) then exists answer :: Sent(out, answer, rc, log, from, end)
    else out == map[]
  }

  ghost predicate Ticked(s: State, s': State, rc: Rolling, now: u64, out: Outputs)
    requires rc.shape.paneMs > 0
  {
    if Due(s, rc, now) then
      var end := TickEnd(s.upstream, rc.shape.paneMs, now);
      && TickSends(out, rc, TickLog(s, rc, now), end)
      && s' == s.(log := TickLog(s, rc, now), lastEmit := if out != map[] then Some(end) else s.lastEmit)
    else
      s' == s && out == map[]
  }

  ghost function Joined(s: State, rc: Rolling, e: Envelope): State
    requires rc.shape.paneMs > 0
  {
    var (log, r) := PaneMerged(s.log, rc.cfg, rc.shape, e);
    if r.Ok? then s.(log := log, upstream := Some(Max(if s.upstream.Some? then s.upstream.value else 0, e.windowEndMs)))
    else s.(log := log)
  }

  ghost predicate Step(s: State, ev: Event, s': State, rc: Rolling)
    requires rc.shape.paneMs > 0
  {
    match ev
    case Observe(o) => s' == if s.closed then s else s.(log := Observed(s.log, rc.cfg, rc.shape, o).0)
    case ObserveEnvelope(e) => s' == if s.closed then s else Joined(s, rc, e)
    case Tick(now, out) => Ticked(s, s', rc, now, out)
    case Shutdown => s' == s.(closed := true)
  }

  // ---------- the estimator ----------

  class KllRollingPrecompute {
    const rc: Rolling
    const store: KllWindowStore
    var lastEmit: Option<u64>
    var upstream: Option<u64>
    var closed: bool

    ghost predicate Valid()
      reads this, store
    {
      && rc.Valid()
      && store.Valid() && store.cfg == rc.cfg && store.shape == rc.shape
      && StateOk(Abs(), rc)
    }

    ghost function Abs(): State
      reads this, store
    {
      State(store.log, lastEmit, upstream, closed)
    }

    constructor (rc: Rolling)
      requires rc.Valid()
      ensures Valid() && Abs() == Init && this.rc == rc && fresh(store)
    {
      this.rc := rc;
      store := new KllWindowStore(rc.cfg, rc.shape);
      lastEmit, upstream, closed := None, None, false;
      new;
      InitOk(rc);
    }

    method Observe(o: Observation) returns (r: Result<(), Error>)
      requires Valid()
      modifies this, store
      ensures Valid()
      ensures Step(old(Abs()), Event.Observe(o), Abs(), rc)
      ensures r == if old(closed) then Err(Invalid) else Observed(old(store.log), rc.cfg, rc.shape, o).1
    {
      hide StateOk, Observed, LogOk;
      ghost var s := Abs();
      if closed {
        return Err(Invalid);
      }
      r := store.Observe(o);
      StepOk(s, Event.Observe(o), Abs(), rc);
    }

    /** Merge an upstream pane; what it closes may be emitted. */
    method ObserveEnvelope(e: Envelope) returns (r: Result<(), Error>)
      requires Valid()
      modifies this, store
      ensures Valid()
      ensures Step(old(Abs()), Event.ObserveEnvelope(e), Abs(), rc)
      ensures r == if old(closed) then Err(Invalid) else PaneMerged(old(store.log), rc.cfg, rc.shape, e).1
    {
      hide StateOk, PaneMerged, LogOk;
      ghost var s := Abs();
      if closed {
        return Err(Invalid);
      }
      r := store.MergePane(e);
      if r.Ok? {
        upstream := Some(Max(if upstream.Some? then upstream.value else 0, e.windowEndMs));
      }
      assert Step(s, Event.ObserveEnvelope(e), Abs(), rc);
      StepOk(s, Event.ObserveEnvelope(e), Abs(), rc);
    }

    /** The most recent complete range, if it has not been sent yet. */
    method Tick(now: u64) returns (out: Outputs)
      requires Valid()
      modifies this, store
      ensures Valid()
      ensures Ticked(old(Abs()), Abs(), rc, now, out)
    {
      hide StateOk, LogOk, IsAnswer, Answerable, Floor;
      ghost var s := Abs();
      out := map[];
      if closed {
        return;
      }
      var end := TickEnd(upstream, rc.shape.paneMs, now);
      if (lastEmit.Some? && end <= lastEmit.value) || end == 0 {
        return;
      }
      if upstream.None? {
        store.Advance(now);
      }
      var start := SatSub(end, rc.shape.retentionMs);
      var answer := store.Query(start, end);
      if answer.Ok? {
        out := Render(answer.value);
        assert Sent(out, answer.value, rc, store.log, start, end);
      }
      if out != map[] {
        lastEmit := Some(end);
      }
      assert Ticked(s, Abs(), rc, now, out);
      StepOk(s, Event.Tick(now, out), Abs(), rc);
    }

    /** Render every envelope of an answer; one that cannot be decoded fails them all. */
    method Render(answer: map<Key, Envelope>) returns (out: Outputs)
      ensures AllRender(rc, answer) ==> out.Keys == answer.Keys && forall k :: k in out ==> Rendered(rc, answer[k]) == Some(out[k])
      ensures !AllRender(rc, answer) ==> out == map[]
    {
      hide Rendered;
      var rest := answer.Keys;
      out := map[];
      while rest != {}
        invariant rest <= answer.Keys && out.Keys == answer.Keys - rest
        invariant forall k :: k in out ==> Rendered(rc, answer[k]) == Some(out[k])
        decreases |rest|
      {
        var k :| k in rest;
        rest := rest - {k};
        var one := Rendered(rc, answer[k]);
        if one.None? {
          return map[];
        }
        out := out[k := one.value];
      }
    }

    method Shutdown()
      requires Valid()
      modifies this
      ensures Valid()
      ensures Abs() == old(Abs()).(closed := true)
    {
      closed := true;
    }
  }

  // ---------- what every run keeps ----------

  /** Emitted and upstream ends are pane boundaries the watermark has passed. */
  ghost predicate StateOk(s: State, rc: Rolling)
    requires rc.shape.paneMs > 0
  {
    && LogOk(s.log, rc.cfg, rc.shape)
    && (s.upstream.Some? ==> s.upstream.value % rc.shape.paneMs == 0 && s.upstream.value <= s.log.closedUntil)
    && (s.lastEmit.Some? ==> s.lastEmit.value % rc.shape.paneMs == 0 && 0 < s.lastEmit.value <= s.log.closedUntil)
  }

  lemma {:induction false} InitOk(rc: Rolling)
    requires rc.Valid()
    ensures StateOk(Init, rc)
  {
    KllResults.EmptyOk(rc.cfg, rc.shape);
  }

  /** A due tick's end is a closed boundary, not past the wall clock. */
  lemma {:induction false} TickEndOk(s: State, rc: Rolling, now: u64)
    requires rc.Valid() && StateOk(s, rc)
    ensures var end := TickEnd(s.upstream, rc.shape.paneMs, now);
      && end <= now && end % rc.shape.paneMs == 0
      && end <= TickLog(s, rc, now).closedUntil
      && s.log.closedUntil <= TickLog(s, rc, now).closedUntil
      && LogOk(TickLog(s, rc, now), rc.cfg, rc.shape)
  {
    FloorFits(now, rc.shape.paneMs);
    AdvancedOk(s.log, rc.cfg, rc.shape, now);
    hide LogOk;
  }

  lemma {:induction false} TickOk(s: State, s': State, rc: Rolling, now: u64, out: Outputs)
    requires rc.Valid() && StateOk(s, rc) && Ticked(s, s', rc, now, out)
    ensures StateOk(s', rc)
  {
    TickEndOk(s, rc, now);
    hide LogOk, TickSends, TickEnd, TickLog;
  }

  lemma {:induction false} JoinedOk(s: State, rc: Rolling, e: Envelope)
    requires rc.Valid() && StateOk(s, rc)
    ensures StateOk(Joined(s, rc, e), rc)
  {
    PaneMergedOk(s.log, rc.cfg, rc.shape, e);
    MergeCloses(s.log, rc.cfg, rc.shape, e);
    hide LogOk, PaneMerged;
  }

  /** Merging a pane closes it. */
  lemma {:induction false} MergeCloses(log: Log, cfg: Config, shape: Shape, e: Envelope)
    requires shape.Valid()
    ensures var (next, r) := PaneMerged(log, cfg, shape, e);
      && log.closedUntil <= next.closedUntil
      && (r.Ok? ==> e.windowEndMs % shape.paneMs == 0 && e.windowEndMs <= next.closedUntil)
  {
    hide KeyFor, PaneLabels, Admits;
    if e.windowStartMs % shape.paneMs == 0 && e.windowStartMs + shape.paneMs == e.windowEndMs {
      NextBoundary(e.windowStartMs, shape.paneMs);
      assert Floor(e.windowEndMs, shape.paneMs) == e.windowEndMs;
    }
  }

  lemma {:induction false} NextBoundary(start: u64, pane: u64)
    requires pane > 0 && start % pane == 0
    ensures (start + pane) % pane == 0
  {
    var q := start / pane;
    assert start == q * pane;
    assert (q + 1) * pane == q * pane + pane;
    DivUnique(start + pane, q + 1, pane, 0);
  }

  lemma {:induction false} StepOk(s: State, ev: Event, s': State, rc: Rolling)
    requires rc.Valid() && StateOk(s, rc) && Step(s, ev, s', rc)
    ensures StateOk(s', rc)
  {
    match ev
    case Observe(o) => ObservedOk(s.log, rc.cfg, rc.shape, o); hide LogOk, Observed;
    case ObserveEnvelope(e) => JoinedOk(s, rc, e); hide StateOk, Joined;
    case Tick(now, out) => TickOk(s, s', rc, now, out); hide StateOk, Ticked;
    case Shutdown => hide LogOk;
  }

  // ---------- runs ----------

  /** A run: the states between the events. */
  ghost predicate Runs(states: seq<State>, events: seq<Event>, rc: Rolling)
    requires rc.shape.paneMs > 0
  {
    && |states| == |events| + 1 && states[0] == Init
    && forall i :: 0 <= i < |events| ==> Step(states[i], events[i], states[i + 1], rc)
  }

  ghost predicate Emits(events: seq<Event>, i: nat) {
    i < |events| && events[i].Tick? && events[i].out != map[]
  }

  lemma {:induction false} RunOk(states: seq<State>, events: seq<Event>, rc: Rolling, i: nat)
    requires rc.Valid() && Runs(states, events, rc) && i < |states|
    ensures StateOk(states[i], rc)
    decreases i
  {
    if i == 0 {
      InitOk(rc);
    } else {
      RunOk(states, events, rc, i - 1);
      assert Step(states[i - 1], events[i - 1], states[i], rc);
      hide Step, StateOk;
      StepOk(states[i - 1], events[i - 1], states[i], rc);
    }
  }

  /** The end of the last emission only moves forward. */
  lemma {:induction false} LastEmitGrows(states: seq<State>, events: seq<Event>, rc: Rolling, i: nat, j: nat)
    requires rc.Valid() && Runs(states, events, rc) && i <= j < |states|
    ensures states[i].lastEmit.Some? ==> states[j].lastEmit.Some? && states[i].lastEmit.value <= states[j].lastEmit.value
    decreases j
  {
    hide TickSends, Observed, PaneMerged;
    if i < j {
      LastEmitGrows(states, events, rc, i, j - 1);
      assert Step(states[j - 1], events[j - 1], states[j], rc);
    }
  }

  /** An emission covers the `size` before its end, all of it closed, and holds, series by
      series, exactly what was admitted there. */
  lemma {:induction false} EmissionIsExact(states: seq<State>, events: seq<Event>, rc: Rolling, i: nat)
    requires rc.Valid() && Runs(states, events, rc) && Emits(events, i)
    ensures states[i + 1].lastEmit.Some?
    ensures var end := states[i + 1].lastEmit.value;
      var from := SatSub(end, rc.shape.retentionMs);
      && 0 < end <= events[i].now && end % rc.shape.paneMs == 0
      && (states[i].lastEmit.Some? ==> states[i].lastEmit.value < end)
      && Answerable(states[i + 1].log, rc.shape, from, end)
      && exists answer :: Sent(events[i].out, answer, rc, states[i + 1].log, from, end) && AllRender(rc, answer)
  {
    RunOk(states, events, rc, i);
    assert Step(states[i], events[i], states[i + 1], rc);
    TickEndOk(states[i], rc, events[i].now);
    hide StateOk, LogOk, Answerable, IsAnswer, TickEnd;
  }

  /** Emitted ends strictly increase: no range is emitted twice. With sketches transmitted,
      ranges are also disjoint, so no contribution is transmitted twice. */
  lemma {:induction false} EmissionsIncrease(states: seq<State>, events: seq<Event>, rc: Rolling, i: nat, j: nat)
    requires rc.Valid() && Runs(states, events, rc) && i < j && Emits(events, i) && Emits(events, j)
    ensures states[i + 1].lastEmit.Some? && states[j + 1].lastEmit.Some?
    ensures var a, b := states[i + 1].lastEmit.value, states[j + 1].lastEmit.value;
      && a + rc.shape.paneMs <= b
      && (rc.transmitSketch ==> a <= SatSub(b, rc.shape.retentionMs))
  {
    assert i + 1 <= j < |states|;
    hide *;
    EmissionIsExact(states, events, rc, i);
    EmissionIsExact(states, events, rc, j);
    LastEmitGrows(states, events, rc, i + 1, j);
    Later(rc, states[i + 1].lastEmit.value, states[j + 1].lastEmit.value);
  }

  lemma {:induction false} Later(rc: Rolling, a: u64, b: u64)
    requires rc.Valid() && a < b && a % rc.shape.paneMs == 0 && b % rc.shape.paneMs == 0
    ensures a + rc.shape.paneMs <= b
    ensures rc.transmitSketch ==> a <= SatSub(b, rc.shape.retentionMs)
  {
    KllResults.NextMultiple(a, b, rc.shape.paneMs);
  }

  /** What was emitted for a range stays the truth about it, as long as nothing arrives from
      upstream: observations below the watermark are refused. */
  lemma {:induction false} EmissionsAreFinal(states: seq<State>, events: seq<Event>, rc: Rolling, i: nat, j: nat, from: u64, to: u64, key: Key)
    requires rc.Valid() && Runs(states, events, rc) && i <= j < |states|
    requires forall n :: i <= n < j ==> !events[n].ObserveEnvelope?
    requires to <= states[i].log.closedUntil
    ensures Range(states[j].log.entries, from, to, key) == Range(states[i].log.entries, from, to, key)
    ensures states[i].log.closedUntil <= states[j].log.closedUntil
    decreases j
  {
    if i < j {
      assert Step(states[j - 1], events[j - 1], states[j], rc);
      hide *;
      EmissionsAreFinal(states, events, rc, i, j - 1, from, to, key);
      RunOk(states, events, rc, j - 1);
      StepKeepsClosed(states[j - 1], events[j - 1], states[j], rc, from, to, key);
    }
  }

  lemma {:induction false} StepKeepsClosed(s: State, ev: Event, s': State, rc: Rolling, from: u64, to: u64, key: Key)
    requires rc.Valid() && StateOk(s, rc) && Step(s, ev, s', rc) && !ev.ObserveEnvelope? && to <= s.log.closedUntil
    ensures Range(s'.log.entries, from, to, key) == Range(s.log.entries, from, to, key)
    ensures s.log.closedUntil <= s'.log.closedUntil
  {
    hide Range, LogOk, TickSends;
    match ev
    case Observe(o) =>
      ObservedOk(s.log, rc.cfg, rc.shape, o);
      hide Observed;
      if !s.closed {
        var more := s'.log.entries[|s.log.entries|..];
        assert s'.log.entries == s.log.entries + more;
        RangeConcat(s.log.entries, more, from, to, key);
        RangeNone(more, from, to, key);
      }
    case Tick(now, out) => AdvancedOk(s.log, rc.cfg, rc.shape, now);
    case Shutdown =>
  }

  /** When a due tick finds its range answerable: exactly when the watermark is not ahead of
      it. Otherwise (event time or upstream panes ahead of the wall clock) it sends nothing. */
  lemma {:induction false} AnswerableWhen(s: State, rc: Rolling, now: u64)
    requires rc.Valid() && StateOk(s, rc) && Due(s, rc, now)
    ensures var end := TickEnd(s.upstream, rc.shape.paneMs, now);
      Answerable(TickLog(s, rc, now), rc.shape, SatSub(end, rc.shape.retentionMs), end)
      <==> TickLog(s, rc, now).closedUntil <= Max(end, rc.shape.retentionMs)
  {
    var end := TickEnd(s.upstream, rc.shape.paneMs, now);
    TickEndOk(s, rc, now);
    StartAligned(end, rc.shape);
    hide TickEnd, TickLog, LogOk;
  }

  lemma {:induction false} StartAligned(end: u64, shape: Shape)
    requires shape.Valid() && end % shape.paneMs == 0
    ensures SatSub(end, shape.retentionMs) % shape.paneMs == 0
  {
    if end >= shape.retentionMs {
      MultiplesSubtract(end, shape.retentionMs, shape.paneMs);
    } else {
      MultiplesSubtract(end, end, shape.paneMs);
    }
  }

  lemma {:induction false} MultiplesSubtract(x: u64, y: u64, p: u64)
    requires p > 0 && y <= x && x % p == 0 && y % p == 0
    ensures (x - y) % p == 0
  {
    QuotientsSubtract(x, x / p, y, y / p, p);
  }

  lemma {:induction false} QuotientsSubtract(x: int, a: int, y: int, b: int, p: int)
    requires p > 0 && x == a * p && y == b * p
    ensures (x - y) % p == 0
  {
    assert (a - b) * p == a * p - b * p;
    DivUnique(x - y, a - b, p, 0);
  }
}
