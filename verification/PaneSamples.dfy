/** What panes hold, counted on the inputs of a run. */
module PaneSamples {
  import opened Basics
  import opened Envelopes
  import opened SeriesKeys
  import opened KllWindows
  import opened KllResults

  // ---------- samples ----------

  /** The store's verdict on an input, after some others. */
  ghost function Verdict(cfg: Config, shape: Shape, events: seq<Event>, event: Event): Result<(), Error>
    requires shape.paneMs > 0
  {
    var log := Run(EmptyLog, cfg, shape, events);
    match event
    case Observe(o) => Observed(log, cfg, shape, o).1
    case MergePane(e) => PaneMerged(log, cfg, shape, e).1
    case Advance(_) => Ok(())
  }

  /** The key of an input's series, from its own labels. */
  ghost function KeyOf(cfg: Config, event: Event): Key
    requires !event.Advance?
  {
    match event
    case Observe(o) => KeyFor(cfg.identity, o.resourceLabels, o.labels)
    case MergePane(e) => KeyFor(cfg.identity, e.resourceLabels, e.labels)
  }

  /** An input of a series and a range of times: an observation with its time in the range, or a
      pane that lies in it. */
  ghost predicate Belongs(cfg: Config, event: Event, from: int, to: int, key: Key) {
    match event
    case Observe(o) => o.matches && o.sample.Some? && from <= o.timestampMs < to && KeyOf(cfg, event) == key
    case MergePane(e) => e.payload.Snapshot? && from <= e.windowStartMs && e.windowEndMs <= to && KeyOf(cfg, event) == key
    case Advance(_) => false
  }

  /** The samples an input brings, and how many it stands for. */
  ghost function SamplesOf(event: Event): multiset<Sample> {
    match event
    case Observe(o) => if o.sample.Some? then multiset{o.sample.value} else multiset{}
    case MergePane(e) => if e.payload.Snapshot? then e.payload.items else multiset{}
    case Advance(_) => multiset{}
  }

  ghost function Stands(event: Event): nat {
    match event
    case Observe(_) => 1
    case MergePane(e) => e.count
    case Advance(_) => 0
  }

  /** The samples of the accepted inputs of a series and range. */
  ghost function SamplesIn(cfg: Config, shape: Shape, events: seq<Event>, from: int, to: int, key: Key): multiset<Sample>
    requires shape.paneMs > 0
  {
    if events == [] then multiset{}
    else
      var init, last := events[..|events| - 1], events[|events| - 1];
      SamplesIn(cfg, shape, init, from, to, key)
      + if Verdict(cfg, shape, init, last).Ok? && Belongs(cfg, last, from, to, key) then SamplesOf(last) else multiset{}
  }

  ghost function CountIn(cfg: Config, shape: Shape, events: seq<Event>, from: int, to: int, key: Key): nat
    requires shape.paneMs > 0
  {
    if events == [] then 0
    else
      var init, last := events[..|events| - 1], events[|events| - 1];
      CountIn(cfg, shape, init, from, to, key)
      + if Verdict(cfg, shape, init, last).Ok? && Belongs(cfg, last, from, to, key) then Stands(last) else 0
  }

  /** Some accepted input belongs to the series and range. */
  ghost predicate AnyIn(cfg: Config, shape: Shape, events: seq<Event>, from: int, to: int, key: Key)
    requires shape.paneMs > 0
  {
    exists n :: 0 <= n < |events| && Verdict(cfg, shape, events[..n], events[n]).Ok? && Belongs(cfg, events[n], from, to, key)
  }

  /** A time is in an aligned range exactly when its pane is. */
  lemma {:induction false} PaneInRange(t: u64, pane: u64, from: int, to: int)
    requires pane > 0 && from % pane == 0 && to % pane == 0
    ensures from <= t < to <==> from <= Floor(t, pane) < to
  {
    FloorFits(t, pane);
    var f := Floor(t, pane);
    if from <= t && f < from {
      NoMultipleBetween(f, from, pane);
    }
    if f < to && to <= t {
      NoMultipleBetween(f, to, pane);
    }
  }

  lemma {:induction false} NoMultipleBetween(f: int, x: int, pane: int)
    requires pane > 0 && f % pane == 0 && x % pane == 0 && f < x
    ensures f + pane <= x
  {
    assert f == f / pane * pane && x == x / pane * pane;
    if x / pane <= f / pane {
      Scaled(x / pane, f / pane, pane);
    }
    Scaled(f / pane + 1, x / pane, pane);
    assert (f / pane + 1) * pane == f / pane * pane + pane;
  }

  lemma {:induction false} Scaled(a: int, b: int, c: int)
    requires a <= b && c > 0
    ensures a * c <= b * c
  {
    assert (b - a) * c >= 0;
    assert b * c == a * c + (b - a) * c;
  }

  /** An observation leaves one entry: its own sample, under its own key, in the pane of its time. */
  lemma {:induction false} ObserveAdds(log: Log, cfg: Config, shape: Shape, o: Observation, from: int, to: int, key: Key)
    requires shape.Valid() && from % shape.paneMs == 0 && to % shape.paneMs == 0
    ensures var (next, r) := Observed(log, cfg, shape, o);
      var belongs := r.Ok? && Belongs(cfg, Observe(o), from, to, key);
      && ItemsOf(Range(next.entries, from, to, key)) == ItemsOf(Range(log.entries, from, to, key)) + (if belongs then SamplesOf(Observe(o)) else multiset{})
      && CountOf(Range(next.entries, from, to, key)) == CountOf(Range(log.entries, from, to, key)) + (if belongs then 1 else 0)
      && (Range(next.entries, from, to, key) == [] <==> Range(log.entries, from, to, key) == [] && !belongs)
  {
    hide Range, ItemsOf, CountOf, KeyFor, PaneLabels, Floor, Admits;
    var (next, r) := Observed(log, cfg, shape, o);
    if o.matches && r.Ok? {
      var e := ObservedEntry(cfg, shape, o);
      KeysSurviveStorage(cfg.identity, o.resourceLabels, o.labels);
      PaneInRange(o.timestampMs, shape.paneMs, from, to);
      OneMoreEntry(log.entries, e, from, to, key);
    }
  }

  lemma {:induction false} OneMoreEntry(entries: seq<Entry>, e: Entry, from: int, to: int, key: Key)
    ensures var inRange := from <= e.start < to && e.key == key;
      var all := entries + [e];
      && ItemsOf(Range(all, from, to, key)) == ItemsOf(Range(entries, from, to, key)) + (if inRange then e.items else multiset{})
      && CountOf(Range(all, from, to, key)) == CountOf(Range(entries, from, to, key)) + (if inRange then e.count else 0)
      && (Range(all, from, to, key) == [] <==> Range(entries, from, to, key) == [] && !inRange)
  {
    hide Range, ItemsOf, CountOf;
    var all := entries + [e];
    assert all[..|all| - 1] == entries;
    RangePush(all, from, to, key);
  }

  lemma {:induction false} MergeAdds(log: Log, cfg: Config, shape: Shape, e: Envelope, from: int, to: int, key: Key)
    requires shape.Valid() && from % shape.paneMs == 0 && to % shape.paneMs == 0
    ensures var (next, r) := PaneMerged(log, cfg, shape, e);
      var belongs := r.Ok? && Belongs(cfg, MergePane(e), from, to, key);
      && ItemsOf(Range(next.entries, from, to, key)) == ItemsOf(Range(log.entries, from, to, key)) + (if belongs then SamplesOf(MergePane(e)) else multiset{})
      && CountOf(Range(next.entries, from, to, key)) == CountOf(Range(log.entries, from, to, key)) + (if belongs then e.count else 0)
      && (Range(next.entries, from, to, key) == [] <==> Range(log.entries, from, to, key) == [] && !belongs)
  {
    hide Range, ItemsOf, CountOf, KeyFor, PaneLabels, Floor, Admits;
    var (next, r) := PaneMerged(log, cfg, shape, e);
    if r.Ok? {
      var entry := MergedEntry(cfg, e, e.payload.items);
      KeysSurviveStorage(cfg.identity, e.resourceLabels, e.labels);
      PaneWithin(e.windowStartMs, shape.paneMs, from, to);
      OneMoreEntry(log.entries, entry, from, to, key);
    }
  }

  /** A pane lies in an aligned range exactly when its start does. */
  lemma {:induction false} PaneWithin(start: u64, pane: u64, from: int, to: int)
    requires pane > 0 && start % pane == 0 && from % pane == 0 && to % pane == 0
    ensures from <= start < to <==> from <= start && start + pane <= to
  {
    if start < to {
      NoMultipleBetween(start, to, pane);
    }
  }

  lemma {:induction false} StepAdds(log: Log, cfg: Config, shape: Shape, event: Event, verdict: Result<(), Error>, from: int, to: int, key: Key)
    requires shape.Valid() && from % shape.paneMs == 0 && to % shape.paneMs == 0
    requires verdict == match event
                        case Observe(o) => Observed(log, cfg, shape, o).1
                        case MergePane(e) => PaneMerged(log, cfg, shape, e).1
                        case Advance(_) => Ok(())
    ensures var next := Step(log, cfg, shape, event);
      var belongs := verdict.Ok? && Belongs(cfg, event, from, to, key);
      && ItemsOf(Range(next.entries, from, to, key)) == ItemsOf(Range(log.entries, from, to, key)) + (if belongs then SamplesOf(event) else multiset{})
      && CountOf(Range(next.entries, from, to, key)) == CountOf(Range(log.entries, from, to, key)) + (if belongs then Stands(event) else 0)
      && (Range(next.entries, from, to, key) == [] <==> Range(log.entries, from, to, key) == [] && !belongs)
  {
    hide Range, ItemsOf, CountOf, Observed, PaneMerged, KeyFor;
    match event
    case Observe(o) => ObserveAdds(log, cfg, shape, o, from, to, key);
    case MergePane(e) => MergeAdds(log, cfg, shape, e, from, to, key);
    case Advance(_) =>
  }

  lemma {:induction false} AnyPush(cfg: Config, shape: Shape, events: seq<Event>, from: int, to: int, key: Key)
    requires shape.paneMs > 0 && events != []
    ensures var init, last := events[..|events| - 1], events[|events| - 1];
      AnyIn(cfg, shape, events, from, to, key) <==>
        AnyIn(cfg, shape, init, from, to, key) || (Verdict(cfg, shape, init, last).Ok? && Belongs(cfg, last, from, to, key))
  {
    hide Verdict, Belongs;
    var init := events[..|events| - 1];
    assert forall n :: 0 <= n < |init| ==> init[..n] == events[..n];
  }

  /** In every run, what the store holds for a series and a range of panes is exactly what the
      accepted inputs brought: each observation its own sample once, if its time is in the range
      and its labels give the key, and each merged pane in the range its samples. */
  lemma {:induction false} PanesHoldSamples(cfg: Config, shape: Shape, events: seq<Event>, from: int, to: int, key: Key)
    requires shape.Valid() && from % shape.paneMs == 0 && to % shape.paneMs == 0
    ensures var entries := Range(Run(EmptyLog, cfg, shape, events).entries, from, to, key);
      && ItemsOf(entries) == SamplesIn(cfg, shape, events, from, to, key)
      && CountOf(entries) == CountIn(cfg, shape, events, from, to, key)
      && (entries != [] <==> AnyIn(cfg, shape, events, from, to, key))
    decreases |events|
  {
    hide Step, Belongs, SamplesOf, Stands, AnyIn, Observed, PaneMerged;
    if events == [] {
      NothingIn(cfg, shape, from, to, key);
    } else {
      var init, last := events[..|events| - 1], events[|events| - 1];
      PanesHoldSamples(cfg, shape, init, from, to, key);
      AnyPush(cfg, shape, events, from, to, key);
      hide Range, ItemsOf, CountOf;
      StepAdds(Run(EmptyLog, cfg, shape, init), cfg, shape, last, Verdict(cfg, shape, init, last), from, to, key);
    }
  }

  lemma {:induction false} NothingIn(cfg: Config, shape: Shape, from: int, to: int, key: Key)
    requires shape.paneMs > 0
    ensures !AnyIn(cfg, shape, [], from, to, key) && Range([], from, to, key) == []
  {
  }

  /** A query's answer, on the inputs: one envelope for each series with an accepted input in the
      range, with exactly their samples and their count. */
  lemma {:induction false} AnswerHoldsSamples(cfg: Config, shape: Shape, events: seq<Event>, from: u64, to: u64, answer: map<Key, Envelope>)
    requires shape.Valid() && Aligned(shape, from, to) && IsAnswer(answer, cfg, Run(EmptyLog, cfg, shape, events), from, to)
    ensures forall k :: k in answer <==> AnyIn(cfg, shape, events, from, to, k)
    ensures forall k :: k in answer ==>
      && answer[k].payload == SnapshotBytes(KLLSketch, SamplesIn(cfg, shape, events, from, to, k))
      && answer[k].count == CountIn(cfg, shape, events, from, to, k)
      && answer[k].windowStartMs == from && answer[k].windowEndMs == to
  {
    hide Run, Range, ItemsOf, CountOf, SamplesIn, CountIn, AnyIn, KeyFor, PaneLabels;
    forall k: Key
      ensures k in answer <==> AnyIn(cfg, shape, events, from, to, k)
      ensures k in answer ==>
        && answer[k].payload == SnapshotBytes(KLLSketch, SamplesIn(cfg, shape, events, from, to, k))
        && answer[k].count == CountIn(cfg, shape, events, from, to, k)
        && answer[k].windowStartMs == from && answer[k].windowEndMs == to
    {
      PanesHoldSamples(cfg, shape, events, from, to, k);
    }
  }

  // ---------- verdicts ----------

  /** The time up to which an input says that panes are complete; None for one that is ignored. */
  ghost function Time(cfg: Config, shape: Shape, event: Event): Option<u64>
    requires shape.paneMs > 0
  {
    match event
    case Observe(o) =>
      if o.matches && o.sample.Some? && Floor(o.timestampMs, shape.paneMs) + shape.paneMs <= U64_MAX then Some(o.timestampMs) else None
    case MergePane(e) => if WellFormed(cfg, shape, e) then Some(e.windowEndMs) else None
    case Advance(now) => Some(now)
  }

  /** One full aligned pane of a sketch, of the right aggregation. */
  ghost predicate WellFormed(cfg: Config, shape: Shape, e: Envelope)
    requires shape.paneMs > 0
  {
    && e.sketchType.KLLSketch? && e.payload.Snapshot? && e.payload.kind.KLLSketch?
    && (cfg.identity.aggId == 0 || e.aggId == cfg.identity.aggId)
    && e.windowStartMs % shape.paneMs == 0 && e.windowEndMs == e.windowStartMs + shape.paneMs
  }

  /** The latest of these times. */
  ghost function Latest(cfg: Config, shape: Shape, events: seq<Event>): u64
    requires shape.paneMs > 0
  {
    if events == [] then 0
    else
      var t, last := Latest(cfg, shape, events[..|events| - 1]), Time(cfg, shape, events[|events| - 1]);
      if last.Some? then Max(t, last.value) else t
  }

  lemma {:induction false} FloorGrows(a: u64, b: u64, pane: u64)
    requires pane > 0 && a <= b
    ensures Floor(a, pane) <= Floor(b, pane)
  {
    DivMonotone(a, b, pane);
    MulMonotone(a / pane, b / pane, pane);
  }

  /** A time before a boundary that is closed has its boundary closed too. */
  lemma {:induction false} MaxOfFloors(a: u64, b: u64, pane: u64)
    requires pane > 0
    ensures Floor(Max(a, b), pane) == Max(Floor(a, pane), Floor(b, pane))
  {
    hide Floor;
    if a <= b {
      FloorGrows(a, b, pane);
    } else {
      FloorGrows(b, a, pane);
    }
  }

  /** The watermark is the last pane boundary by the latest time of all inputs. */
  lemma {:induction false} WatermarkIs(cfg: Config, shape: Shape, events: seq<Event>)
    requires shape.Valid()
    ensures Run(EmptyLog, cfg, shape, events).closedUntil == Floor(Latest(cfg, shape, events), shape.paneMs)
    decreases |events|
  {
    hide Step, Time, Floor;
    if events == [] {
      FloorFits(0, shape.paneMs);
      assert Floor(0, shape.paneMs) == 0 by { FloorOfNothing(shape.paneMs); }
    } else {
      var init, last := events[..|events| - 1], events[|events| - 1];
      WatermarkIs(cfg, shape, init);
      var log := Run(EmptyLog, cfg, shape, init);
      StepCloses(log, cfg, shape, last);
      if Time(cfg, shape, last).Some? {
        MaxOfFloors(Latest(cfg, shape, init), Time(cfg, shape, last).value, shape.paneMs);
      }
    }
  }

  lemma {:induction false} FloorOfNothing(pane: u64)
    requires pane > 0
    ensures Floor(0, pane) == 0
  {
  }

  lemma {:induction false} StepCloses(log: Log, cfg: Config, shape: Shape, event: Event)
    requires shape.Valid()
    ensures var t := Time(cfg, shape, event);
      Step(log, cfg, shape, event).closedUntil == if t.Some? then Max(log.closedUntil, Floor(t.value, shape.paneMs)) else log.closedUntil
  {
    hide Admits, ObservedEntry, MergedEntry;
    match event
    case Observe(o) => FloorFits(o.timestampMs, shape.paneMs);
    case MergePane(e) =>
      FloorFits(e.windowEndMs, shape.paneMs);
    case Advance(_) =>
  }

  /** Without a cap, an observation that fits is refused exactly when its time is before the last pane
      boundary by the latest time so far. */
  lemma {:induction false} LateExactlyWhen(cfg: Config, shape: Shape, events: seq<Event>, o: Observation)
    requires shape.Valid() && cfg.maxSeries == 0 && Time(cfg, shape, Observe(o)).Some?
    ensures Verdict(cfg, shape, events, Observe(o)).Ok? <==> o.timestampMs >= Floor(Latest(cfg, shape, events), shape.paneMs)
    ensures Verdict(cfg, shape, events, Observe(o)).Err? ==> Verdict(cfg, shape, events, Observe(o)) == Err(LateData)
  {
    WatermarkIs(cfg, shape, events);
    hide Run, Floor, ObservedEntry, LiveKeys;
  }

  /** Without a cap, an upstream pane is merged exactly when it is well formed and does not start before
      what the watermark still retains. */
  lemma {:induction false} MergedExactlyWhen(cfg: Config, shape: Shape, events: seq<Event>, e: Envelope)
    requires shape.Valid() && cfg.maxSeries == 0
    ensures Verdict(cfg, shape, events, MergePane(e)).Ok? <==>
      WellFormed(cfg, shape, e) && e.windowStartMs + shape.retentionMs >= Floor(Latest(cfg, shape, events), shape.paneMs)
  {
    WatermarkIs(cfg, shape, events);
    hide Run, Floor, MergedEntry, LiveKeys, Latest;
  }

  /** With a cap too, an observation that is in time is refused exactly when its series is new and as many
      as the cap are live. */
  lemma {:induction false} CappedExactlyWhen(cfg: Config, shape: Shape, events: seq<Event>, o: Observation)
    requires shape.Valid() && Time(cfg, shape, Observe(o)).Some?
    requires o.timestampMs >= Floor(Latest(cfg, shape, events), shape.paneMs)
    ensures var live := LiveAt(cfg, shape, events, o.timestampMs);
      Verdict(cfg, shape, events, Observe(o)) == Err(SeriesCapExceeded)
      <==> cfg.maxSeries > 0 && KeyOf(cfg, Observe(o)) !in live && |live| >= cfg.maxSeries
  {
    WatermarkIs(cfg, shape, events);
    KeysSurviveStorage(cfg.identity, o.resourceLabels, o.labels);
    hide Run, Floor, LiveKeys, Latest, KeyFor, PaneLabels;
  }

  /** The series with an entry still retained once panes up to a time are complete. */
  ghost function LiveAt(cfg: Config, shape: Shape, events: seq<Event>, t: u64): set<Key>
    requires shape.paneMs > 0
  {
    LiveKeys(Advanced(Run(EmptyLog, cfg, shape, events), shape, t), shape)
  }
}
