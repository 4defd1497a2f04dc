/** The pane store over whole runs. */
module KllResults {
  import opened Basics
  import opened Envelopes
  import opened SeriesKeys
  import opened KllWindows

  // ---------- every run ----------

  datatype Event = Observe(o: Observation) | MergePane(e: Envelope) | Advance(now: u64)

  ghost function Step(log: Log, cfg: Config, shape: Shape, event: Event): Log
    requires shape.paneMs > 0
  {
    match event
    case Observe(o) => Observed(log, cfg, shape, o).0
    case MergePane(e) => PaneMerged(log, cfg, shape, e).0
    case Advance(now) => Advanced(log, shape, now)
  }

  ghost function Run(log: Log, cfg: Config, shape: Shape, events: seq<Event>): Log
    requires shape.paneMs > 0
  {
    if events == [] then log else Step(Run(log, cfg, shape, events[..|events| - 1]), cfg, shape, events[|events| - 1])
  }

  /** Whatever is observed, merged and advanced: at most retention / pane + 1 panes are
      retained, all within retention of the watermark, and with a cap the retained series
      never exceed it. */
  lemma {:induction false} RetentionHolds(cfg: Config, shape: Shape, events: seq<Event>)
    requires shape.Valid()
    ensures var log := Run(EmptyLog, cfg, shape, events);
      && LogOk(log, cfg, shape)
      && |LiveStarts(log, shape)| <= shape.retentionMs / shape.paneMs + 1
      && (cfg.maxSeries > 0 ==> |LiveKeys(log, shape)| <= cfg.maxSeries)
    decreases |events|
  {
    hide LogOk, Observed, PaneMerged, LiveStarts;
    if events == [] {
      EmptyOk(cfg, shape);
    } else {
      var before := Run(EmptyLog, cfg, shape, events[..|events| - 1]);
      RetentionHolds(cfg, shape, events[..|events| - 1]);
      match events[|events| - 1]
      case Observe(o) => ObservedOk(before, cfg, shape, o);
      case MergePane(e) => PaneMergedOk(before, cfg, shape, e);
      case Advance(now) => AdvancedOk(before, cfg, shape, now);
    }
    RetentionIsBounded(Run(EmptyLog, cfg, shape, events), cfg, shape);
    CapHolds(Run(EmptyLog, cfg, shape, events), cfg, shape);
  }

  lemma {:induction false} EmptyOk(cfg: Config, shape: Shape)
    requires shape.Valid()
    ensures LogOk(EmptyLog, cfg, shape)
  {
    assert LiveKeys(EmptyLog, shape) == {};
  }

  lemma {:induction false} CapHolds(log: Log, cfg: Config, shape: Shape)
    requires shape.Valid() && LogOk(log, cfg, shape)
    ensures cfg.maxSeries > 0 ==> |LiveKeys(log, shape)| <= cfg.maxSeries
  {
  }

  // ---------- answers do not change ----------

  /** What closed panes hold is not changed by an observation or an advance. */
  lemma {:induction false} ClosedRangeStays(log: Log, cfg: Config, shape: Shape, event: Event, from: u64, to: u64, key: Key)
    requires shape.Valid() && LogOk(log, cfg, shape) && to <= log.closedUntil && !event.MergePane?
    ensures LogOk(Step(log, cfg, shape, event), cfg, shape)
    ensures log.closedUntil <= Step(log, cfg, shape, event).closedUntil
    ensures Range(Step(log, cfg, shape, event).entries, from, to, key) == Range(log.entries, from, to, key)
  {
    hide LogOk, Observed, Range;
    match event
    case Observe(o) =>
      ObservedOk(log, cfg, shape, o);
      var after := Observed(log, cfg, shape, o).0;
      var more := after.entries[|log.entries|..];
      assert after.entries == log.entries + more;
      RangeConcat(log.entries, more, from, to, key);
      RangeNone(more, from, to, key);
      assert Range(log.entries, from, to, key) + [] == Range(log.entries, from, to, key);
    case Advance(now) =>
      AdvancedOk(log, cfg, shape, now);
  }

  /** The answer to a range is unchanged by whatever is observed or advanced later; it stays
      available exactly until the start of the range expires. */
  lemma {:induction false} AnswersAreStable(log: Log, cfg: Config, shape: Shape, events: seq<Event>, from: u64, to: u64, key: Key)
    requires shape.Valid() && LogOk(log, cfg, shape) && Answerable(log, shape, from, to)
    requires forall i :: 0 <= i < |events| ==> !events[i].MergePane?
    ensures var later := Run(log, cfg, shape, events);
      && LogOk(later, cfg, shape)
      && log.closedUntil <= later.closedUntil
      && Range(later.entries, from, to, key) == Range(log.entries, from, to, key)
      && (Answerable(later, shape, from, to) <==> from >= Cutoff(later, shape))
    decreases |events|
  {
    hide LogOk, Step, Range;
    if events != [] {
      var init := events[..|events| - 1];
      AnswersAreStable(log, cfg, shape, init, from, to, key);
      ClosedRangeStays(Run(log, cfg, shape, init), cfg, shape, events[|events| - 1], from, to, key);
    }
  }

  lemma {:induction false} NextMultiple(from: u64, to: u64, pane: u64)
    requires pane > 0 && from % pane == 0 && to % pane == 0 && from < to
    ensures from + pane <= to && (from + pane) % pane == 0
  {
    var a, b := from / pane, to / pane;
    assert from == a * pane + 0 && to == b * pane + 0;
    if b <= a {
      MulMonotone(b, a, pane);
    }
    MulMonotone(a + 1, b, pane);
    assert (a + 1) * pane == a * pane + pane;
    DivUnique(from + pane, a + 1, pane, 0);
  }
}
