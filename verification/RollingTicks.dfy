/** What each tick of the rolling estimator sends. */
module RollingTicks {
  import opened Basics
  import opened Envelopes
  import opened SeriesKeys
  import opened KllWindows
  import R = KllResults
  import P = PaneSamples
  import opened KllRolling

  // ---------- a run, by its inputs ----------

  ghost predicate ShutDown(events: seq<Event>) {
    exists n :: 0 <= n < |events| && events[n].Shutdown?
  }

  /** The largest end of the upstream panes that were accepted. */
  ghost function AcceptedEnd(rc: Rolling, inputs: seq<R.Event>): Option<u64>
    requires rc.shape.paneMs > 0
  {
    if inputs == [] then None
    else
      var init, last := inputs[..|inputs| - 1], inputs[|inputs| - 1];
      var before := AcceptedEnd(rc, init);
      if last.MergePane? && P.Verdict(rc.cfg, rc.shape, init, last).Ok? then
        Some(if before.Some? then Max(before.value, last.e.windowEndMs) else last.e.windowEndMs)
      else before
  }

  /** What the store is given: every input until shutdown; a tick closes panes as long as no upstream
      pane was accepted. */
  ghost function Inputs(rc: Rolling, events: seq<Event>): seq<R.Event>
    requires rc.shape.paneMs > 0
  {
    if events == [] then []
    else
      var init := events[..|events| - 1];
      var before := Inputs(rc, init);
      before + if ShutDown(init) then [] else InputOf(rc, before, events[|events| - 1])
  }

  ghost function InputOf(rc: Rolling, before: seq<R.Event>, event: Event): seq<R.Event>
    requires rc.shape.paneMs > 0
  {
    match event
    case Observe(o) => [R.Observe(o)]
    case ObserveEnvelope(e) => [R.MergePane(e)]
    case Tick(now, _) => if AcceptedEnd(rc, before).None? then [R.Advance(now)] else []
    case Shutdown => []
  }

  ghost function StoreAfter(rc: Rolling, inputs: seq<R.Event>): Log
    requires rc.shape.paneMs > 0
  {
    R.Run(EmptyLog, rc.cfg, rc.shape, inputs)
  }

  /** A state is given by the inputs so far. */
  ghost predicate Agrees(s: State, rc: Rolling, inputs: seq<R.Event>, down: bool)
    requires rc.shape.paneMs > 0
  {
    s.log == StoreAfter(rc, inputs) && s.upstream == AcceptedEnd(rc, inputs) && s.closed == down
  }

  lemma {:induction false} RunPush(rc: Rolling, inputs: seq<R.Event>, input: R.Event)
    requires rc.shape.paneMs > 0
    ensures StoreAfter(rc, inputs + [input]) == R.Step(StoreAfter(rc, inputs), rc.cfg, rc.shape, input)
    ensures AcceptedEnd(rc, inputs + [input]) ==
      var before := AcceptedEnd(rc, inputs);
      if input.MergePane? && P.Verdict(rc.cfg, rc.shape, inputs, input).Ok? then
        Some(if before.Some? then Max(before.value, input.e.windowEndMs) else input.e.windowEndMs)
      else before
  {
    assert (inputs + [input])[..|inputs|] == inputs;
    hide R.Step;
  }

  lemma {:induction false} ShutDownPush(events: seq<Event>)
    requires events != []
    ensures ShutDown(events) <==> ShutDown(events[..|events| - 1]) || events[|events| - 1].Shutdown?
  {
    var init := events[..|events| - 1];
    if n :| 0 <= n < |events| && events[n].Shutdown? {
      assert n < |init| ==> init[n].Shutdown?;
    }
    if n :| 0 <= n < |init| && init[n].Shutdown? {
      assert events[n].Shutdown?;
    }
  }

  /** A tick that is not due finds the panes up to its time closed. */
  lemma {:induction false} NotDueChangesNothing(s: State, rc: Rolling, now: u64)
    requires rc.Valid() && StateOk(s, rc) && !s.closed && s.upstream.None? && !Due(s, rc, now)
    ensures Advanced(s.log, rc.shape, now) == s.log
  {
    hide LogOk;
  }

  lemma {:induction false} TickAgrees(s: State, s': State, rc: Rolling, inputs: seq<R.Event>, now: u64, out: Outputs)
    requires rc.Valid() && StateOk(s, rc) && Agrees(s, rc, inputs, false) && Ticked(s, s', rc, now, out)
    ensures Agrees(s', rc, inputs + InputOf(rc, inputs, Tick(now, out)), false)
  {
    hide LogOk, StoreAfter, AcceptedEnd, TickSends, StateOk, Due, Advanced;
    if s.upstream.None? {
      RunPush(rc, inputs, R.Advance(now));
      if !Due(s, rc, now) {
        NotDueChangesNothing(s, rc, now);
      }
    } else {
      assert inputs + [] == inputs;
    }
  }

  lemma {:induction false} JoinAgrees(s: State, rc: Rolling, inputs: seq<R.Event>, e: Envelope)
    requires rc.Valid() && Agrees(s, rc, inputs, false)
    ensures Agrees(Joined(s, rc, e), rc, inputs + [R.MergePane(e)], false)
  {
    RunPush(rc, inputs, R.MergePane(e));
    hide PaneMerged, AcceptedEnd;
  }

  lemma {:induction false} StepAgrees(s: State, ev: Event, s': State, rc: Rolling, inputs: seq<R.Event>)
    requires rc.Valid() && StateOk(s, rc) && Step(s, ev, s', rc) && Agrees(s, rc, inputs, s.closed)
    ensures Agrees(s', rc, inputs + (if s.closed then [] else InputOf(rc, inputs, ev)), s.closed || ev.Shutdown?)
  {
    hide StateOk, Ticked, Joined, AcceptedEnd, Observed, StoreAfter;
    assert inputs + [] == inputs;
    if s.closed {
      ClosedStays(s, ev, s', rc);
    } else {
      match ev
      case Observe(o) =>
        RunPush(rc, inputs, R.Observe(o));
        hide Step;
        ObserveSteps(s, o, s', rc);
      case ObserveEnvelope(e) => JoinAgrees(s, rc, inputs, e);
      case Tick(now, out) => TickAgrees(s, s', rc, inputs, now, out);
      case Shutdown =>
    }
  }

  lemma {:induction false} ObserveSteps(s: State, o: Observation, s': State, rc: Rolling)
    requires rc.shape.paneMs > 0 && !s.closed && Step(s, Observe(o), s', rc)
    ensures s' == s.(log := R.Step(s.log, rc.cfg, rc.shape, R.Observe(o)))
  {
  }

  lemma {:induction false} ClosedStays(s: State, ev: Event, s': State, rc: Rolling)
    requires rc.shape.paneMs > 0 && s.closed && Step(s, ev, s', rc)
    ensures s' == s
    ensures ev.Tick? ==> ev.out == map[]
  {
  }

  /** In every run the store, the upstream end and the shutdown are those of the inputs so far. */
  lemma {:induction false} StateIsRun(states: seq<State>, events: seq<Event>, rc: Rolling, n: nat)
    requires rc.Valid() && Runs(states, events, rc) && n < |states|
    ensures Agrees(states[n], rc, Inputs(rc, events[..n]), ShutDown(events[..n]))
    decreases n
  {
    hide StateOk, Step, AcceptedEnd, ShutDown;
    if n == 0 {
      assert events[..0] == [];
      NothingRun(rc);
    } else {
      StateIsRun(states, events, rc, n - 1);
      RunOk(states, events, rc, n - 1);
      StepAgrees(states[n - 1], events[n - 1], states[n], rc, Inputs(rc, events[..n - 1]));
      assert events[..n][..n - 1] == events[..n - 1];
      ShutDownPush(events[..n]);
    }
  }

  lemma {:induction false} NothingRun(rc: Rolling)
    requires rc.shape.paneMs > 0
    ensures Agrees(Init, rc, [], false) && !ShutDown([])
  {
  }

  // ---------- where an emission ends ----------

  /** The last pane boundary by a time. */
  ghost predicate IsBoundary(b: u64, now: u64, pane: u64)
    requires pane > 0
  {
    b % pane == 0 && b <= now < b + pane
  }

  lemma {:induction false} BoundaryIsFloor(b: u64, now: u64, pane: u64)
    requires pane > 0
    ensures IsBoundary(b, now, pane) <==> b == Floor(now, pane)
  {
    FloorFits(now, pane);
    var f := Floor(now, pane);
    if IsBoundary(b, now, pane) && b < f {
      P.NoMultipleBetween(b, f, pane);
    }
    if IsBoundary(b, now, pane) && f < b {
      P.NoMultipleBetween(f, b, pane);
    }
  }

  /** The end of a tick's range: the boundary, or the largest accepted upstream end before it. */
  ghost predicate EndsAt(end: u64, rc: Rolling, inputs: seq<R.Event>, now: u64)
    requires rc.shape.paneMs > 0
  {
    exists b: u64 :: IsBoundary(b, now, rc.shape.paneMs)
      && end == match AcceptedEnd(rc, inputs) case None => b case Some(u) => if u < b then u else b
  }

  lemma {:induction false} TickEndsAt(s: State, rc: Rolling, inputs: seq<R.Event>, now: u64, end: u64)
    requires rc.shape.paneMs > 0 && s.upstream == AcceptedEnd(rc, inputs)
    ensures EndsAt(end, rc, inputs, now) <==> end == TickEnd(s.upstream, rc.shape.paneMs, now)
  {
    hide AcceptedEnd;
    var f := Floor(now, rc.shape.paneMs);
    BoundaryIsFloor(f, now, rc.shape.paneMs);
    if EndsAt(end, rc, inputs, now) {
      var b: u64 :| IsBoundary(b, now, rc.shape.paneMs)
        && end == match AcceptedEnd(rc, inputs) case None => b case Some(u) => if u < b then u else b;
      BoundaryIsFloor(b, now, rc.shape.paneMs);
    }
  }

  // ---------- what an emission holds ----------

  /** The outputs of one series: a sketch, or one estimate for each quantile, of the samples. */
  ghost predicate OutputHolds(outputs: seq<Output>, rc: Rolling, samples: multiset<Sample>, count: nat, from: u64, to: u64) {
    && (forall i :: 0 <= i < |outputs| ==>
         && outputs[i].envelope.count == count
         && outputs[i].envelope.windowStartMs == from && outputs[i].envelope.windowEndMs == to)
    && (rc.transmitSketch ==> |outputs| == 1 && outputs[0].Sketch? && outputs[0].envelope.payload == SnapshotBytes(KLLSketch, samples))
    && (!rc.transmitSketch ==> |outputs| == |rc.quantiles| && forall i :: 0 <= i < |outputs| ==> Estimates(outputs[i], samples, rc.quantiles[i]))
  }

  ghost predicate Estimates(o: Output, samples: multiset<Sample>, quantile: F64) {
    o.Estimate? && o.items == samples && o.quantile == quantile
  }

  lemma {:induction false} EstimatesAre(e: Envelope, items: multiset<Sample>, quantiles: seq<F64>)
    ensures var r := EstimatesOf(e, items, quantiles);
      |r| == |quantiles| && forall i :: 0 <= i < |r| ==> r[i] == Estimate(e.(payload := Empty), items, quantiles[i])
    decreases |quantiles|
  {
    if quantiles != [] {
      EstimatesAre(e, items, quantiles[..|quantiles| - 1]);
    }
  }

  lemma {:induction false} RenderedHolds(rc: Rolling, e: Envelope, samples: multiset<Sample>)
    requires Rendered(rc, e).Some? && e.payload == SnapshotBytes(KLLSketch, samples)
    ensures OutputHolds(Rendered(rc, e).value, rc, samples, e.count, e.windowStartMs, e.windowEndMs)
  {
    if !rc.transmitSketch {
      EstimatesAre(e, samples, rc.quantiles);
      hide EstimatesOf;
    }
  }

  /** The outputs for a range: one series each for those with an accepted input in it, made of exactly
      their samples. */
  ghost predicate HoldsInputs(out: Outputs, rc: Rolling, inputs: seq<R.Event>, from: u64, end: u64)
    requires rc.shape.paneMs > 0
  {
    && (forall k :: k in out <==> P.AnyIn(rc.cfg, rc.shape, inputs, from, end, k))
    && forall k :: k in out ==> SeriesHolds(out[k], rc, inputs, from, end, k)
  }

  ghost predicate SeriesHolds(outputs: seq<Output>, rc: Rolling, inputs: seq<R.Event>, from: u64, end: u64, k: Key)
    requires rc.shape.paneMs > 0
  {
    OutputHolds(outputs, rc, P.SamplesIn(rc.cfg, rc.shape, inputs, from, end, k), P.CountIn(rc.cfg, rc.shape, inputs, from, end, k), from, end)
  }

  /** An emission, on the inputs of the run: its range ends at the last pane boundary by the tick, or at
      the largest accepted upstream end if that is earlier; and it has an output for exactly
      the series with an accepted input in the `size` before, made of exactly their samples. */
  lemma {:induction false} EmissionHoldsSamples(states: seq<State>, events: seq<Event>, rc: Rolling, i: nat)
    requires rc.Valid() && Runs(states, events, rc) && Emits(events, i)
    ensures states[i + 1].lastEmit.Some? && !ShutDown(events[..i])
    ensures EndsAt(states[i + 1].lastEmit.value, rc, Inputs(rc, events[..i]), events[i].now)
    ensures var end := states[i + 1].lastEmit.value;
      HoldsInputs(events[i].out, rc, Inputs(rc, events[..i + 1]), SatSub(end, rc.shape.retentionMs), end)
  {
    var inputs, after := Inputs(rc, events[..i]), Inputs(rc, events[..i + 1]);
    StateIsRun(states, events, rc, i);
    StateIsRun(states, events, rc, i + 1);
    assert Step(states[i], events[i], states[i + 1], rc);
    hide *;
    AgreesParts(states[i], rc, inputs, ShutDown(events[..i]));
    AgreesParts(states[i + 1], rc, after, ShutDown(events[..i + 1]));
    IsTick(events, i);
    EmitsAtEnd(states[i], events[i], states[i + 1], rc, inputs);
    var end := states[i + 1].lastEmit.value;
    var answer := EmissionAnswers(states, events, rc, i);
    AnswerIsSent(events[i].out, answer, rc, after, SatSub(end, rc.shape.retentionMs), end);
  }

  lemma {:induction false} IsTick(events: seq<Event>, i: nat)
    requires Emits(events, i)
    ensures i < |events| && events[i].Tick? && events[i].out != map[]
  {
  }

  lemma {:induction false} AgreesParts(s: State, rc: Rolling, inputs: seq<R.Event>, down: bool)
    requires rc.shape.paneMs > 0 && Agrees(s, rc, inputs, down)
    ensures s.log == StoreAfter(rc, inputs) && s.upstream == AcceptedEnd(rc, inputs) && s.closed == down
  {
  }

  lemma {:induction false} EmissionAnswers(states: seq<State>, events: seq<Event>, rc: Rolling, i: nat) returns (answer: map<Key, Envelope>)
    requires rc.Valid() && Runs(states, events, rc) && Emits(events, i)
    ensures states[i + 1].lastEmit.Some?
    ensures var end := states[i + 1].lastEmit.value;
      var from := SatSub(end, rc.shape.retentionMs);
      Sent(events[i].out, answer, rc, states[i + 1].log, from, end) && AllRender(rc, answer) && Aligned(rc.shape, from, end)
  {
    EmissionIsExact(states, events, rc, i);
    hide Sent, AllRender, Runs, Emits;
    var end := states[i + 1].lastEmit.value;
    answer :| Sent(events[i].out, answer, rc, states[i + 1].log, SatSub(end, rc.shape.retentionMs), end) && AllRender(rc, answer);
  }

  lemma {:induction false} EmitsAtEnd(s: State, ev: Event, s': State, rc: Rolling, inputs: seq<R.Event>)
    requires rc.shape.paneMs > 0 && Step(s, ev, s', rc) && ev.Tick? && ev.out != map[] && s.upstream == AcceptedEnd(rc, inputs)
    ensures !s.closed && s'.lastEmit.Some? && EndsAt(s'.lastEmit.value, rc, inputs, ev.now)
  {
    hide AcceptedEnd, TickSends, EndsAt;
    TickEndsAt(s, rc, inputs, ev.now, TickEnd(s.upstream, rc.shape.paneMs, ev.now));
  }

  lemma {:induction false} AnswerIsSent(out: Outputs, answer: map<Key, Envelope>, rc: Rolling, inputs: seq<R.Event>, from: u64, end: u64)
    requires rc.Valid() && Sent(out, answer, rc, StoreAfter(rc, inputs), from, end) && AllRender(rc, answer) && Aligned(rc.shape, from, end)
    ensures HoldsInputs(out, rc, inputs, from, end)
  {
    hide IsAnswer, OutputHolds, P.AnyIn, P.SamplesIn, P.CountIn, Rendered, R.Run;
    P.AnswerHoldsSamples(rc.cfg, rc.shape, inputs, from, end, answer);
    forall k | k in out
      ensures SeriesHolds(out[k], rc, inputs, from, end, k)
    {
      RenderedHolds(rc, answer[k], P.SamplesIn(rc.cfg, rc.shape, inputs, from, end, k));
    }
  }

  // ---------- when a tick emits ----------

  ghost predicate SomeInput(rc: Rolling, inputs: seq<R.Event>, from: u64, end: u64)
    requires rc.shape.paneMs > 0
  {
    exists k :: P.AnyIn(rc.cfg, rc.shape, inputs, from, end, k)
  }

  /** No series of the range is made of sketches without samples only. */
  ghost predicate NoneBlank(rc: Rolling, inputs: seq<R.Event>, from: u64, end: u64)
    requires rc.shape.paneMs > 0
  {
    rc.transmitSketch
    || forall k :: P.AnyIn(rc.cfg, rc.shape, inputs, from, end, k) ==> P.SamplesIn(rc.cfg, rc.shape, inputs, from, end, k) != multiset{}
  }

  /** The watermark has not moved past the range. */
  ghost predicate NotAhead(rc: Rolling, inputs: seq<R.Event>, end: u64)
    requires rc.shape.paneMs > 0
  {
    Floor(P.Latest(rc.cfg, rc.shape, inputs), rc.shape.paneMs) <= Max(end, rc.shape.retentionMs)
  }

  lemma {:induction false} AnswerRenders(rc: Rolling, inputs: seq<R.Event>, from: u64, end: u64, answer: map<Key, Envelope>)
    requires rc.Valid() && Aligned(rc.shape, from, end)
    requires IsAnswer(answer, rc.cfg, StoreAfter(rc, inputs), from, end)
    ensures AllRender(rc, answer) <==> NoneBlank(rc, inputs, from, end)
    ensures answer != map[] <==> SomeInput(rc, inputs, from, end)
  {
    hide IsAnswer, P.AnyIn, P.SamplesIn, P.CountIn, R.Run, EstimatesOf;
    P.AnswerHoldsSamples(rc.cfg, rc.shape, inputs, from, end, answer);
    forall k | k in answer
      ensures Rendered(rc, answer[k]).Some? <==> rc.transmitSketch || P.SamplesIn(rc.cfg, rc.shape, inputs, from, end, k) != multiset{}
    {
    }
    hide Rendered;
    if k :| P.AnyIn(rc.cfg, rc.shape, inputs, from, end, k) {
      assert k in answer;
    }
  }

  lemma {:induction false} SendsWhen(out: Outputs, rc: Rolling, inputs: seq<R.Event>, end: u64)
    requires rc.Valid() && Aligned(rc.shape, SatSub(end, rc.shape.retentionMs), end)
    requires TickSends(out, rc, StoreAfter(rc, inputs), end)
    ensures var from := SatSub(end, rc.shape.retentionMs);
      out != map[] <==> Answerable(StoreAfter(rc, inputs), rc.shape, from, end) && SomeInput(rc, inputs, from, end) && NoneBlank(rc, inputs, from, end)
  {
    hide IsAnswer, Answerable, StoreAfter, SomeInput, NoneBlank, AllRender, Rendered;
    var from := SatSub(end, rc.shape.retentionMs);
    if Answerable(StoreAfter(rc, inputs), rc.shape, from, end) {
      var answer: map<Key, Envelope> :| Sent(out, answer, rc, StoreAfter(rc, inputs), from, end);
      AnswerRenders(rc, inputs, from, end, answer);
      if NoneBlank(rc, inputs, from, end) {
        SameKeysEmpty(out, answer);
      }
    }
  }

  lemma {:induction false} SameKeysEmpty<A, B>(a: map<Key, A>, b: map<Key, B>)
    requires a.Keys == b.Keys
    ensures a == map[] <==> b == map[]
  {
    if a == map[] {
      assert b.Keys == {};
    }
    if b == map[] {
      assert a.Keys == {};
    }
  }

  lemma {:induction false} TickWhen(s: State, s': State, rc: Rolling, after: seq<R.Event>, now: u64, out: Outputs, end: u64)
    requires rc.Valid() && StateOk(s, rc) && Ticked(s, s', rc, now, out) && end == TickEnd(s.upstream, rc.shape.paneMs, now)
    requires s'.log == StoreAfter(rc, after)
    ensures out != map[] <==>
      && !s.closed && end > 0 && (s.lastEmit.None? || s.lastEmit.value < end)
      && NotAhead(rc, after, end) && SomeInput(rc, after, SatSub(end, rc.shape.retentionMs), end)
      && NoneBlank(rc, after, SatSub(end, rc.shape.retentionMs), end)
  {
    hide StateOk, TickEnd, TickLog, TickSends, StoreAfter, NoneBlank, SomeInput, Answerable, P.Latest, Floor;
    if Due(s, rc, now) {
      TickEndOk(s, rc, now);
      StartAligned(end, rc.shape);
      EndAfterStart(end, rc.shape);
      AnswerableWhen(s, rc, now);
      WatermarkOf(rc, after);
      SendsWhen(out, rc, after, end);
    }
  }

  lemma {:induction false} EndAfterStart(end: u64, shape: Shape)
    requires shape.Valid() && end > 0
    ensures SatSub(end, shape.retentionMs) < end
  {
  }

  lemma {:induction false} WatermarkOf(rc: Rolling, inputs: seq<R.Event>)
    requires rc.Valid()
    ensures StoreAfter(rc, inputs).closedUntil == Floor(P.Latest(rc.cfg, rc.shape, inputs), rc.shape.paneMs)
  {
    P.WatermarkIs(rc.cfg, rc.shape, inputs);
  }

  /** A tick sends something exactly when the estimator is running, the end of its range is positive
      and later than that of the last emission, no input is ahead of the range, some accepted input is
      in it, and no series of it is made of sketches without samples only. */
  lemma {:induction false} TickEmitsExactlyWhen(states: seq<State>, events: seq<Event>, rc: Rolling, i: nat, end: u64)
    requires rc.Valid() && Runs(states, events, rc) && i < |events| && events[i].Tick?
    requires EndsAt(end, rc, Inputs(rc, events[..i]), events[i].now)
    ensures var inputs := Inputs(rc, events[..i + 1]);
      Emits(events, i) <==>
      && !ShutDown(events[..i]) && end > 0 && (states[i].lastEmit.None? || states[i].lastEmit.value < end)
      && NotAhead(rc, inputs, end) && SomeInput(rc, inputs, SatSub(end, rc.shape.retentionMs), end)
      && NoneBlank(rc, inputs, SatSub(end, rc.shape.retentionMs), end)
  {
    var inputs, after := Inputs(rc, events[..i]), Inputs(rc, events[..i + 1]);
    StateIsRun(states, events, rc, i);
    StateIsRun(states, events, rc, i + 1);
    RunOk(states, events, rc, i);
    assert Step(states[i], events[i], states[i + 1], rc);
    hide StateOk, Ticked, Agrees, StoreAfter, AcceptedEnd, ShutDown, NotAhead, SomeInput, NoneBlank, EndsAt, Inputs, Runs, TickEnd;
    AgreesParts(states[i], rc, inputs, ShutDown(events[..i]));
    AgreesParts(states[i + 1], rc, after, ShutDown(events[..i + 1]));
    TickEndsAt(states[i], rc, inputs, events[i].now, end);
    TickWhen(states[i], states[i + 1], rc, after, events[i].now, events[i].out, end);
  }

  // ---------- without upstream ----------

  /** Every accepted input of a series brings a sample, as long as no upstream pane was accepted. */
  lemma {:induction false} SamplesThere(rc: Rolling, inputs: seq<R.Event>, from: u64, end: u64, k: Key)
    requires rc.Valid() && AcceptedEnd(rc, inputs).None? && P.AnyIn(rc.cfg, rc.shape, inputs, from, end, k)
    ensures P.SamplesIn(rc.cfg, rc.shape, inputs, from, end, k) != multiset{}
    decreases |inputs|
  {
    hide P.Verdict, P.KeyOf;
    if inputs != [] {
      var init, last := inputs[..|inputs| - 1], inputs[|inputs| - 1];
      P.AnyPush(rc.cfg, rc.shape, inputs, from, end, k);
      if P.AnyIn(rc.cfg, rc.shape, init, from, end, k) {
        SamplesThere(rc, init, from, end, k);
      }
      hide P.AnyIn;
      if P.Verdict(rc.cfg, rc.shape, init, last).Ok? && P.Belongs(rc.cfg, last, from, end, k) {
        assert P.SamplesOf(last) != multiset{};
      }
    }
  }

  ghost predicate NoUpstream(rc: Rolling, events: seq<Event>)
    requires rc.shape.paneMs > 0
  {
    AcceptedEnd(rc, Inputs(rc, events)).None?
  }

  lemma {:induction false} NoUpstreamBefore(rc: Rolling, events: seq<Event>, n: nat)
    requires rc.shape.paneMs > 0 && NoUpstream(rc, events) && n <= |events|
    ensures NoUpstream(rc, events[..n])
    decreases |events|
  {
    hide P.Verdict, ShutDown, AcceptedEnd;
    if n < |events| {
      var init := events[..|events| - 1];
      OneMoreInput(rc, Inputs(rc, init), if ShutDown(init) then [] else InputOf(rc, Inputs(rc, init), events[|events| - 1]));
      NoUpstreamBefore(rc, init, n);
      assert init[..n] == events[..n];
    } else {
      assert events[..n] == events;
    }
  }

  lemma {:induction false} OneMoreInput(rc: Rolling, inputs: seq<R.Event>, more: seq<R.Event>)
    requires rc.shape.paneMs > 0 && |more| <= 1 && AcceptedEnd(rc, inputs + more).None?
    ensures AcceptedEnd(rc, inputs).None?
  {
    if |more| == 1 {
      RunPush(rc, inputs, more[0]);
      assert inputs + more == inputs + [more[0]];
    } else {
      assert inputs + more == inputs;
    }
  }

  /** Some earlier tick at or after `b` sent something. */
  ghost predicate SentSince(events: seq<Event>, n: nat, b: u64)
    requires n <= |events|
  {
    exists j :: 0 <= j < n && Emits(events, j) && events[j].now >= b
  }

  /** Without upstream the last emission ends at or after a boundary exactly when a tick at or after it
      has sent something. */
  lemma {:induction false} LastEmitIs(states: seq<State>, events: seq<Event>, rc: Rolling, n: nat, b: u64)
    requires rc.Valid() && Runs(states, events, rc) && n <= |events| && NoUpstream(rc, events[..n])
    requires b > 0 && b % rc.shape.paneMs == 0
    ensures states[n].lastEmit.Some? && states[n].lastEmit.value >= b <==> SentSince(events, n, b)
    decreases n
  {
    hide AcceptedEnd, StateOk, Inputs, Emits, TickEnd, TickSends, TickLog, Agrees, ShutDown;
    if n > 0 {
      assert events[..n][..n - 1] == events[..n - 1];
      NoUpstreamBefore(rc, events[..n], n - 1);
      LastEmitIs(states, events, rc, n - 1, b);
      StateIsRun(states, events, rc, n - 1);
      AgreesParts(states[n - 1], rc, Inputs(rc, events[..n - 1]), ShutDown(events[..n - 1]));
      assert Step(states[n - 1], events[n - 1], states[n], rc);
      hide Step, NoUpstream, SentSince;
      LastEmitStep(states[n - 1], events[n - 1], states[n], rc, b);
      SentSincePush(events, n, b);
    }
  }

  lemma {:induction false} SentSincePush(events: seq<Event>, n: nat, b: u64)
    requires 0 < n <= |events|
    ensures SentSince(events, n, b) <==> SentSince(events, n - 1, b) || (events[n - 1].Tick? && events[n - 1].out != map[] && events[n - 1].now >= b)
  {
  }

  lemma {:induction false} LastEmitStep(s: State, ev: Event, s': State, rc: Rolling, b: u64)
    requires rc.Valid() && Step(s, ev, s', rc) && (s.upstream.None? || !ev.Tick?) && b % rc.shape.paneMs == 0
    ensures s'.lastEmit.Some? && s'.lastEmit.value >= b <==>
      (s.lastEmit.Some? && s.lastEmit.value >= b) || (ev.Tick? && ev.out != map[] && ev.now >= b)
  {
    hide TickSends, TickLog, Observed, PaneMerged, Floor;
    if ev.Tick? && ev.out != map[] {
      var f := Floor(ev.now, rc.shape.paneMs);
      BoundaryIsFloor(f, ev.now, rc.shape.paneMs);
      if f < b <= ev.now {
        P.NoMultipleBetween(f, b, rc.shape.paneMs);
      }
    }
  }

  /** Nothing so far is later than the tick. */
  ghost predicate InTime(rc: Rolling, events: seq<Event>, now: u64)
    requires rc.shape.paneMs > 0
  {
    P.Latest(rc.cfg, rc.shape, Inputs(rc, events)) <= now
  }

  /** Without upstream panes, a running estimator that is given nothing later than the tick sends
      something exactly when the last pane boundary by the tick is positive, no earlier tick at or
      after that boundary has sent anything, and some accepted observation lies in the `size` before
      the boundary. */
  lemma {:induction false} TickEmitsWhen(states: seq<State>, events: seq<Event>, rc: Rolling, i: nat, b: u64)
    requires rc.Valid() && Runs(states, events, rc) && i < |events| && events[i].Tick? && !ShutDown(events[..i])
    requires IsBoundary(b, events[i].now, rc.shape.paneMs)
    requires NoUpstream(rc, events[..i + 1]) && InTime(rc, events[..i + 1], events[i].now)
    ensures Emits(events, i) <==>
      && b > 0 && !SentSince(events, i, b)
      && SomeInput(rc, Inputs(rc, events[..i + 1]), SatSub(b, rc.shape.retentionMs), b)
  {
    assert rc.shape.paneMs > 0;
    hide *;
    EndsAtBoundary(rc, events, i, b);
    NothingBlank(rc, Inputs(rc, events[..i + 1]), SatSub(b, rc.shape.retentionMs), b);
    BoundaryNotAhead(rc, events[..i + 1], events[i].now, b);
    TickEmitsExactlyWhen(states, events, rc, i, b);
    if b > 0 {
      NoUpstreamBefore(rc, events[..i + 1], i);
      assert events[..i + 1][..i] == events[..i];
      BoundaryAligned(b, events[i].now, rc.shape.paneMs);
      LastEmitIs(states, events, rc, i, b);
    }
  }

  lemma {:induction false} BoundaryAligned(b: u64, now: u64, pane: u64)
    requires pane > 0 && IsBoundary(b, now, pane)
    ensures b % pane == 0
  {
  }

  lemma {:induction false} EndsAtBoundary(rc: Rolling, events: seq<Event>, i: nat, b: u64)
    requires rc.Valid() && i < |events| && events[i].Tick? && IsBoundary(b, events[i].now, rc.shape.paneMs) && NoUpstream(rc, events[..i + 1])
    ensures EndsAt(b, rc, Inputs(rc, events[..i]), events[i].now)
    ensures AcceptedEnd(rc, Inputs(rc, events[..i + 1])).None?
  {
    hide AcceptedEnd, Inputs, IsBoundary;
    NoUpstreamBefore(rc, events[..i + 1], i);
    assert events[..i + 1][..i] == events[..i];
  }

  lemma {:induction false} NothingBlank(rc: Rolling, inputs: seq<R.Event>, from: u64, end: u64)
    requires rc.Valid() && AcceptedEnd(rc, inputs).None?
    ensures NoneBlank(rc, inputs, from, end)
  {
    hide P.AnyIn, P.SamplesIn, AcceptedEnd;
    forall k | P.AnyIn(rc.cfg, rc.shape, inputs, from, end, k)
      ensures P.SamplesIn(rc.cfg, rc.shape, inputs, from, end, k) != multiset{}
    {
      SamplesThere(rc, inputs, from, end, k);
    }
  }

  lemma {:induction false} BoundaryNotAhead(rc: Rolling, events: seq<Event>, now: u64, b: u64)
    requires rc.Valid() && InTime(rc, events, now) && IsBoundary(b, now, rc.shape.paneMs)
    ensures NotAhead(rc, Inputs(rc, events), b)
  {
    hide P.Latest, Inputs, Floor;
    P.FloorGrows(P.Latest(rc.cfg, rc.shape, Inputs(rc, events)), now, rc.shape.paneMs);
    BoundaryIsFloor(b, now, rc.shape.paneMs);
  }
}
