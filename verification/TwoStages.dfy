/** Pane stores below one pane store, over all runs. */
module TwoStages {
  import opened Basics
  import opened Envelopes
  import opened SeriesKeys
  import opened KllWindows
  import opened KllResults
  import opened StageFolds

  // ---------- the system ----------

  /** One store: its cap and its retention. */
  datatype Store = Store(maxSeries: u64, retentionMs: u64)

  /** The stores share what identifies a series, and the pane; `direct` is a store that observes
      everything itself. */
  datatype Plan = Plan(identity: Identity, metricName: Text, paneMs: u64, up: Store, down: Store, direct: Store) {
    function Cfg(s: Store): Config {
      Config(identity, s.maxSeries, metricName)
    }

    function ShapeOf(s: Store): Shape {
      Shape(paneMs, s.retentionMs)
    }

    ghost predicate Valid() {
      ShapeOf(up).Valid() && ShapeOf(down).Valid() && ShapeOf(direct).Valid()
    }
  }

  /** The logs, where each entry of the downstream store comes from, and every answer that has
      been delivered, taken in or refused. */
  datatype Stages = Stages(ups: seq<Log>, down: Log, direct: Log, origins: seq<Origin>, tried: set<Origin>)

  datatype Move =
    | Feed(up: nat, o: Observation)
    | AdvanceUp(up: nat, now: u64)
    | AdvanceDown(now: u64)
    | AdvanceDirect(now: u64)
    | Deliver(up: nat, from: u64, to: u64, key: Key, answer: map<Key, Envelope>)

  /** Upstream store `up` answers for one closed pane; one envelope of the answer is delivered,
      which has not been before. */
  ghost predicate CanDeliver(p: Plan, s: Stages, m: Move)
    requires p.Valid() && m.Deliver?
  {
    && m.up < |s.ups| && m.to == m.from + p.paneMs
    && Answerable(s.ups[m.up], p.ShapeOf(p.up), m.from, m.to)
    && IsAnswer(m.answer, p.Cfg(p.up), s.ups[m.up], m.from, m.to)
    && m.key in m.answer && Origin(m.up, m.from, m.key) !in s.tried
  }

  /** One move; one that cannot be made changes nothing. */
  ghost function Moved(p: Plan, s: Stages, m: Move): Stages
    requires p.Valid()
  {
    match m
    case Feed(up, o) =>
      if up < |s.ups| then
        s.(ups := s.ups[up := Step(s.ups[up], p.Cfg(p.up), p.ShapeOf(p.up), Observe(o))],
           direct := Step(s.direct, p.Cfg(p.direct), p.ShapeOf(p.direct), Observe(o)))
      else s
    case AdvanceUp(up, now) =>
      if up < |s.ups| then s.(ups := s.ups[up := Step(s.ups[up], p.Cfg(p.up), p.ShapeOf(p.up), Advance(now))]) else s
    case AdvanceDown(now) => s.(down := Step(s.down, p.Cfg(p.down), p.ShapeOf(p.down), Advance(now)))
    case AdvanceDirect(now) => s.(direct := Step(s.direct, p.Cfg(p.direct), p.ShapeOf(p.direct), Advance(now)))
    case Deliver(up, from, to, key, answer) =>
      if CanDeliver(p, s, m) then
        var (down, r) := PaneMerged(s.down, p.Cfg(p.down), p.ShapeOf(p.down), answer[key]);
        var o := Origin(up, from, key);
        s.(down := down, tried := s.tried + {o}, origins := if r.Ok? then s.origins + [o] else s.origins)
      else s
  }

  ghost function Started(n: nat): Stages {
    Stages(seq(n, _ => EmptyLog), EmptyLog, EmptyLog, [], {})
  }

  ghost function Ran(p: Plan, n: nat, moves: seq<Move>): Stages
    requires p.Valid()
  {
    if moves == [] then Started(n) else Moved(p, Ran(p, n, moves[..|moves| - 1]), moves[|moves| - 1])
  }

  ghost function EntriesOf(ups: seq<Log>): seq<seq<Entry>> {
    seq(|ups|, u requires 0 <= u < |ups| => ups[u].entries)
  }

  // ---------- what every run keeps ----------

  /** The pane an answer came from is closed, so it holds what it held. */
  ghost predicate Closed(p: Plan, s: Stages, o: Origin) {
    o in s.tried && o.up < |s.ups| && o.start + p.paneMs <= s.ups[o.up].closedUntil
  }

  ghost predicate UpOk(p: Plan, log: Log)
    requires p.Valid()
  {
    LogOk(log, p.Cfg(p.up), p.ShapeOf(p.up)) && Weighty(log.entries)
  }

  ghost predicate Inv(p: Plan, s: Stages)
    requires p.Valid()
  {
    && (forall u :: 0 <= u < |s.ups| ==> UpOk(p, s.ups[u]))
    && Delivered(s.down.entries, s.origins, EntriesOf(s.ups), p.paneMs)
    && (forall n :: 0 <= n < |s.origins| ==> Closed(p, s, s.origins[n]))
    && Weighty(s.down.entries) && Weighty(s.direct.entries)
  }

  lemma {:induction false} StartedInv(p: Plan, n: nat)
    requires p.Valid()
    ensures Inv(p, Started(n))
  {
    EmptyOk(p.Cfg(p.up), p.ShapeOf(p.up));
    hide LogOk;
  }

  lemma {:induction false} StepWeighty(log: Log, cfg: Config, shape: Shape, event: Event)
    requires shape.Valid() && Weighty(log.entries) && !event.MergePane?
    ensures Weighty(Step(log, cfg, shape, event).entries)
  {
    hide KeyFor, PaneLabels, Admits;
  }

  lemma {:induction false} UpStepOk(p: Plan, log: Log, event: Event)
    requires p.Valid() && UpOk(p, log) && !event.MergePane?
    ensures UpOk(p, Step(log, p.Cfg(p.up), p.ShapeOf(p.up), event))
    ensures log.closedUntil <= Step(log, p.Cfg(p.up), p.ShapeOf(p.up), event).closedUntil
  {
    hide LogOk, Step, Weighty;
    StepWeighty(log, p.Cfg(p.up), p.ShapeOf(p.up), event);
    ClosedRangeStays(log, p.Cfg(p.up), p.ShapeOf(p.up), event, 0, 0, []);
  }

  /** An upstream store takes in more: what was delivered is still what it holds there. */
  lemma {:induction false} UpStepKeeps(p: Plan, s: Stages, u: nat, event: Event)
    requires p.Valid() && Inv(p, s) && u < |s.ups| && !event.MergePane?
    ensures Inv(p, s.(ups := s.ups[u := Step(s.ups[u], p.Cfg(p.up), p.ShapeOf(p.up), event)]))
  {
    hide UpOk, Step, Weighty;
    var next := Step(s.ups[u], p.Cfg(p.up), p.ShapeOf(p.up), event);
    UpStepOk(p, s.ups[u], event);
    var t := s.(ups := s.ups[u := next]);
    forall n | 0 <= n < |s.origins|
      ensures Closed(p, t, s.origins[n])
      ensures var o := s.origins[n];
        o.up < |s.ups| && Range(EntriesOf(t.ups)[o.up], o.start, o.start + p.paneMs, o.key) == Range(EntriesOf(s.ups)[o.up], o.start, o.start + p.paneMs, o.key)
    {
      var o := s.origins[n];
      assert Closed(p, s, o);
      if o.up == u {
        UpRangeStays(p, s.ups[u], event, o.start, o.start + p.paneMs, o.key);
      }
    }
    hide Closed;
    StillDelivered(s.down.entries, s.origins, EntriesOf(s.ups), EntriesOf(t.ups), p.paneMs);
  }

  lemma {:induction false} UpRangeStays(p: Plan, log: Log, event: Event, from: u64, to: u64, key: Key)
    requires p.Valid() && UpOk(p, log) && !event.MergePane? && to <= log.closedUntil
    ensures Range(Step(log, p.Cfg(p.up), p.ShapeOf(p.up), event).entries, from, to, key) == Range(log.entries, from, to, key)
  {
    hide LogOk, Step, Weighty, Range;
    ClosedRangeStays(log, p.Cfg(p.up), p.ShapeOf(p.up), event, from, to, key);
  }

  lemma {:induction false} StillDelivered(entries: seq<Entry>, origins: seq<Origin>, ups: seq<seq<Entry>>, ups': seq<seq<Entry>>, pane: u64)
    requires pane > 0 && Delivered(entries, origins, ups, pane) && |ups| == |ups'|
    requires forall n :: 0 <= n < |origins| ==>
      var o := origins[n];
      o.up < |ups| && Range(ups'[o.up], o.start, o.start + pane, o.key) == Range(ups[o.up], o.start, o.start + pane, o.key)
    ensures Delivered(entries, origins, ups', pane)
  {
    hide Range, ItemsOf, CountOf;
  }

  // ---------- a delivery ----------

  /** An upstream answer that is taken in arrives as one entry with the same series, items and
      count. */
  lemma {:induction false} AnswerArrives(p: Plan, log: Log, e: Envelope, up: Log, from: u64, key: Key)
    requires p.Valid() && PaneMerged(log, p.Cfg(p.down), p.ShapeOf(p.down), e).1.Ok?
    requires from + p.paneMs <= U64_MAX && Answers(e, p.Cfg(p.up), up, from, from + p.paneMs, key)
    ensures var after := PaneMerged(log, p.Cfg(p.down), p.ShapeOf(p.down), e).0;
      var entries := Range(up.entries, from, from + p.paneMs, key);
      && |after.entries| == |log.entries| + 1 && after.entries[..|log.entries|] == log.entries
      && var arrived := after.entries[|log.entries|];
         && arrived.start == from && arrived.key == key
         && arrived.items == ItemsOf(entries) && arrived.count == CountOf(entries)
  {
    hide KeyFor, PaneLabels, Range, Admits;
  }

  lemma {:induction false} RefusalAddsNothing(p: Plan, log: Log, e: Envelope)
    requires p.Valid() && PaneMerged(log, p.Cfg(p.down), p.ShapeOf(p.down), e).1.Err?
    ensures PaneMerged(log, p.Cfg(p.down), p.ShapeOf(p.down), e).0.entries == log.entries
  {
    hide KeyFor, PaneLabels, Admits;
  }

  lemma {:induction false} OneMoreDelivered(entries: seq<Entry>, origins: seq<Origin>, ups: seq<seq<Entry>>, pane: u64, e: Entry, o: Origin)
    requires pane > 0 && Delivered(entries, origins, ups, pane) && o !in origins
    requires o.up < |ups| && o.start % pane == 0 && e.start == o.start && e.key == o.key
    requires e.items == ItemsOf(Range(ups[o.up], o.start, o.start + pane, o.key)) && e.count == CountOf(Range(ups[o.up], o.start, o.start + pane, o.key))
    ensures Delivered(entries + [e], origins + [o], ups, pane)
  {
    hide Range, ItemsOf, CountOf;
  }

  lemma {:induction false} DeliveryKeeps(p: Plan, s: Stages, m: Move)
    requires p.Valid() && Inv(p, s) && m.Deliver? && CanDeliver(p, s, m)
    ensures Inv(p, Moved(p, s, m))
  {
    NotTriedBefore(p, s, m);
    if PaneMerged(s.down, p.Cfg(p.down), p.ShapeOf(p.down), m.answer[m.key]).1.Ok? {
      hide *;
      TakenIn(p, s, m);
      AfterDelivery(p, s, m, s.origins + [Origin(m.up, m.from, m.key)]);
    } else {
      hide *;
      InvFacts(p, s);
      RefusalAddsNothing(p, s.down, m.answer[m.key]);
      AfterDelivery(p, s, m, s.origins);
    }
  }

  lemma {:induction false} NotTriedBefore(p: Plan, s: Stages, m: Move)
    requires p.Valid() && Inv(p, s) && m.Deliver? && CanDeliver(p, s, m)
    ensures Origin(m.up, m.from, m.key) !in s.origins && m.key in m.answer && m.up < |s.ups|
  {
    hide UpOk, Delivered, Weighty, IsAnswer, Answerable;
    assert forall n :: 0 <= n < |s.origins| ==> Closed(p, s, s.origins[n]);
  }

  lemma {:induction false} AfterDelivery(p: Plan, s: Stages, m: Move, origins: seq<Origin>)
    requires p.Valid() && Inv(p, s) && m.Deliver? && CanDeliver(p, s, m)
    requires var (down, r) := PaneMerged(s.down, p.Cfg(p.down), p.ShapeOf(p.down), m.answer[m.key]);
      && origins == (if r.Ok? then s.origins + [Origin(m.up, m.from, m.key)] else s.origins)
      && Delivered(down.entries, origins, EntriesOf(s.ups), p.paneMs) && Weighty(down.entries)
    ensures Inv(p, Moved(p, s, m))
  {
    hide UpOk, PaneMerged, Delivered, Weighty, IsAnswer;
    var o, t := Origin(m.up, m.from, m.key), Moved(p, s, m);
    assert Closed(p, t, o);
    forall n | 0 <= n < |s.origins|
      ensures Closed(p, t, s.origins[n])
    {
      assert Closed(p, s, s.origins[n]);
    }
    hide Closed, CanDeliver;
  }

  lemma {:induction false} TakenIn(p: Plan, s: Stages, m: Move)
    requires p.Valid() && Inv(p, s) && m.Deliver? && CanDeliver(p, s, m) && Origin(m.up, m.from, m.key) !in s.origins
    requires PaneMerged(s.down, p.Cfg(p.down), p.ShapeOf(p.down), m.answer[m.key]).1.Ok?
    ensures var down := PaneMerged(s.down, p.Cfg(p.down), p.ShapeOf(p.down), m.answer[m.key]).0;
      && Delivered(down.entries, s.origins + [Origin(m.up, m.from, m.key)], EntriesOf(s.ups), p.paneMs)
      && Weighty(down.entries)
  {
    hide PaneMerged, Delivered, Answers, ItemsOf, CountOf, Range, LogOk;
    var up := s.ups[m.up];
    AnswerArrives(p, s.down, m.answer[m.key], up, m.from, m.key);
    var down := PaneMerged(s.down, p.Cfg(p.down), p.ShapeOf(p.down), m.answer[m.key]).0;
    var e := down.entries[|s.down.entries|];
    assert down.entries == s.down.entries + [e];
    assert UpOk(p, up);
    RangeCounts(up.entries, m.from, m.from + p.paneMs, m.key);
    OneMoreDelivered(s.down.entries, s.origins, EntriesOf(s.ups), p.paneMs, e, Origin(m.up, m.from, m.key));
  }

  // ---------- every run ----------

  lemma {:induction false} MovedInv(p: Plan, s: Stages, m: Move)
    requires p.Valid() && Inv(p, s)
    ensures Inv(p, Moved(p, s, m))
  {
    match m
    case Feed(up, o) =>
      if up < |s.ups| {
        UpStepKeeps(p, s, up, Observe(o));
        StepWeighty(s.direct, p.Cfg(p.direct), p.ShapeOf(p.direct), Observe(o));
        hide UpOk, Step, Weighty, Delivered;
        var t := s.(ups := s.ups[up := Step(s.ups[up], p.Cfg(p.up), p.ShapeOf(p.up), Observe(o))]);
        OnlyDirect(p, t, Step(s.direct, p.Cfg(p.direct), p.ShapeOf(p.direct), Observe(o)));
      }
    case AdvanceUp(up, now) =>
      if up < |s.ups| {
        UpStepKeeps(p, s, up, Advance(now));
      }
    case AdvanceDown(now) =>
      hide UpOk, Weighty, Delivered;
    case AdvanceDirect(now) =>
      hide UpOk, Weighty, Delivered;
    case Deliver(up, from, to, key, answer) =>
      if CanDeliver(p, s, m) {
        DeliveryKeeps(p, s, m);
      }
  }

  lemma {:induction false} OnlyDirect(p: Plan, s: Stages, direct: Log)
    requires p.Valid() && Inv(p, s) && Weighty(direct.entries)
    ensures Inv(p, s.(direct := direct))
  {
    hide UpOk, Weighty, Delivered;
    var t := s.(direct := direct);
    forall n | 0 <= n < |t.origins|
      ensures Closed(p, t, t.origins[n])
    {
      assert Closed(p, s, s.origins[n]);
    }
  }

  /** In every run, each entry downstream is still exactly what one upstream store holds for one
      closed pane and series, and none came twice. */
  lemma {:induction false} DeliveredInEveryRun(p: Plan, n: nat, moves: seq<Move>)
    requires p.Valid()
    ensures Inv(p, Ran(p, n, moves))
    decreases |moves|
  {
    hide Moved, Inv;
    if moves == [] {
      StartedInv(p, n);
    } else {
      DeliveredInEveryRun(p, n, moves[..|moves| - 1]);
      MovedInv(p, Ran(p, n, moves[..|moves| - 1]), moves[|moves| - 1]);
    }
  }

  /** In every run, the downstream store holds for a range and series what the upstream stores hold
      together exactly when every pane of theirs that holds anything has been delivered and taken
      in. */
  lemma {:induction false} FlatInEveryRun(p: Plan, n: nat, moves: seq<Move>, from: u64, to: u64, key: Key)
    requires p.Valid() && from <= to && from % p.paneMs == 0 && to % p.paneMs == 0
    ensures var s := Ran(p, n, moves);
      SameFold(Range(s.down.entries, from, to, key), Range(Flat(EntriesOf(s.ups)), from, to, key))
      <==> Complete(s.origins, EntriesOf(s.ups), p.paneMs, from, to, key)
  {
    DeliveredInEveryRun(p, n, moves);
    var s := Ran(p, n, moves);
    InvFacts(p, s);
    hide *;
    FlatExactlyWhen(s.down.entries, s.origins, EntriesOf(s.ups), p.paneMs, from, to, key);
  }

  lemma {:induction false} InvFacts(p: Plan, s: Stages)
    requires p.Valid() && Inv(p, s)
    ensures Delivered(s.down.entries, s.origins, EntriesOf(s.ups), p.paneMs) && AllWeighty(EntriesOf(s.ups))
    ensures Weighty(s.down.entries) && Weighty(s.direct.entries) && p.paneMs > 0
  {
    hide Weighty, LogOk, Delivered;
    assert forall u :: 0 <= u < |s.ups| ==> UpOk(p, s.ups[u]);
  }
}
