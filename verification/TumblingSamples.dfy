/** Tumbling entries and bounds, on the inputs of a run. */
module TumblingSamples {
  import opened Basics
  import opened Envelopes
  import opened SeriesKeys
  import opened TumblingWindow
  import opened TumblingRuns

  // ---------- samples ----------

  /** The verdict on an input, after some others. */
  ghost function Verdict(cfg: Config, events: seq<Event>, n: nat): Result<(), Error>
    requires n < |events|
  {
    var l := LedgerAt(cfg, events, n);
    match events[n]
    case Observe(o, victim) => Observed(l, cfg, o, victim).1
    case ObserveEnvelope(e) => EnvelopeObserved(l, cfg, e).1
    case _ => Ok(())
  }

  /** An input of a series, by its own labels. */
  ghost predicate Belongs(cfg: Config, ev: Event, key: Key) {
    match ev
    case Observe(o, _) => KeyFor(cfg.identity, o.resourceLabels, o.labels) == key
    case ObserveEnvelope(e) => KeyFor(cfg.identity, e.resourceLabels, e.labels) == key
    case _ => false
  }

  ghost function SamplesOf(ev: Event): multiset<Sample> {
    match ev
    case Observe(o, _) => if o.sample.Some? then multiset{o.sample.value} else multiset{}
    case ObserveEnvelope(e) => if e.payload.Snapshot? then e.payload.items else multiset{}
    case _ => multiset{}
  }

  ghost function Stands(ev: Event): nat {
    match ev
    case Observe(_, _) => 1
    case ObserveEnvelope(e) => e.count
    case _ => 0
  }

  /** The samples of the inputs of a series that were accepted from `i` to `j`. */
  ghost function SamplesBetween(cfg: Config, events: seq<Event>, i: nat, j: nat, key: Key): multiset<Sample>
    requires i <= j <= |events|
    decreases j
  {
    if i == j then multiset{}
    else
      SamplesBetween(cfg, events, i, j - 1, key)
      + if Verdict(cfg, events, j - 1).Ok? && Belongs(cfg, events[j - 1], key) then SamplesOf(events[j - 1]) else multiset{}
  }

  ghost function CountBetween(cfg: Config, events: seq<Event>, i: nat, j: nat, key: Key): nat
    requires i <= j <= |events|
    decreases j
  {
    if i == j then 0
    else
      CountBetween(cfg, events, i, j - 1, key)
      + if Verdict(cfg, events, j - 1).Ok? && Belongs(cfg, events[j - 1], key) then Stands(events[j - 1]) else 0
  }

  lemma {:induction false} OfOne(a: Applied, key: Key)
    ensures Of([a], key) == if a.key == key then [a] else []
    ensures Items([a]) == a.items && Count([a]) == a.count
  {
    assert [a][..0] == [];
    assert Of([a][..0], key) == [] && Items([a][..0]) == multiset{} && Count([a][..0]) == 0;
  }

  /** What one input applies to a series. */
  lemma {:induction false} AppliesOwn(cfg: Config, events: seq<Event>, n: nat, key: Key)
    requires n < |events|
    ensures var applied := Of(AppliedBy(LedgerAt(cfg, events, n), cfg, events[n]), key);
      var belongs := Verdict(cfg, events, n).Ok? && Belongs(cfg, events[n], key);
      && Items(applied) == (if belongs then SamplesOf(events[n]) else multiset{})
      && Count(applied) == (if belongs then Stands(events[n]) else 0)
  {
    hide KeyFor, Of, Items, Count, Placed, Initialized, LedgerAt;
    OfNothing(key);
    NothingFolded();
    match events[n]
    case Observe(o, victim) =>
      var k := KeyFor(cfg.identity, o.resourceLabels, o.labels);
      if o.sample.Some? {
        OfOne(Applied(k, multiset{o.sample.value}, 1), key);
      }
    case ObserveEnvelope(e) =>
      var k := KeyFor(cfg.identity, e.resourceLabels, e.labels);
      if e.payload.Snapshot? {
        OfOne(Applied(k, e.payload.items, e.count), key);
      } else {
        OfOne(Applied(k, multiset{}, e.count), key);
      }
    case Rotate(_) =>
    case Drain =>
  }

  lemma {:induction false} NothingFolded()
    ensures Items([]) == multiset{} && Count([]) == 0
  {
  }

  lemma {:induction false} FoldConcat(a: seq<Applied>, b: seq<Applied>)
    ensures Items(a + b) == Items(a) + Items(b) && Count(a + b) == Count(a) + Count(b)
    decreases |b|
  {
    if b == [] {
      assert a + b == a;
    } else {
      FoldConcat(a, b[..|b| - 1]);
      assert (a + b)[..|a + b| - 1] == a + b[..|b| - 1];
    }
  }

  lemma {:induction false} AppliedIsSamples(cfg: Config, events: seq<Event>, i: nat, j: nat, key: Key)
    requires i <= j <= |events|
    ensures Items(Of(AppliedBetween(cfg, events, i, j), key)) == SamplesBetween(cfg, events, i, j, key)
    ensures Count(Of(AppliedBetween(cfg, events, i, j), key)) == CountBetween(cfg, events, i, j, key)
    decreases j
  {
    hide AppliedBy, LedgerAt, Verdict, Belongs, SamplesOf, Stands;
    if i == j {
      OfNothing(key);
      NothingFolded();
    } else {
      AppliedIsSamples(cfg, events, i, j - 1, key);
      AppliesOwn(cfg, events, j - 1, key);
      hide Of, Items, Count;
      var before, more := AppliedBetween(cfg, events, i, j - 1), AppliedBy(LedgerAt(cfg, events, j - 1), cfg, events[j - 1]);
      OfConcat(before, more, key);
      FoldConcat(Of(before, key), Of(more, key));
    }
  }

  /** In every run the entry of a series that goes out holds exactly the samples, and the count, of the
      inputs accepted since the window was last closed or the series last evicted whose own labels
      give its key: a scalar its own sample once, an envelope those of its sketch. */
  lemma {:induction false} EntryHoldsSamples(cfg: Config, events: seq<Event>, j: nat, series: map<Key, SeriesEntry>, key: Key)
    requires j <= |events| && Entries(series, LedgerAt(cfg, events, j).active, cfg.identity) && key in series
    ensures var since := LastCleared(cfg, events, key, j);
      && series[key].items == SamplesBetween(cfg, events, since, j, key)
      && series[key].count == CountBetween(cfg, events, since, j, key)
  {
    EntryIsFoldSince(cfg, events, j, series, key);
    AppliedIsSamples(cfg, events, LastCleared(cfg, events, key, j), j, key);
    hide LedgerAt, AppliedBetween, LastCleared, Of, Items, Count;
  }

  // ---------- when a series was last seen ----------

  /** When a series was last seen, if it is open: the latest time of its scalars that were not turned
      away since it was cleared, and of the envelope that opened it. */
  ghost function SeenBy(cfg: Config, events: seq<Event>, key: Key, j: nat): Option<nat>
    requires j <= |events|
  {
    if j == 0 then None
    else
      var before, ev := SeenBy(cfg, events, key, j - 1), events[j - 1];
      var turnedAway := Verdict(cfg, events, j - 1) == Err(LateData) || Verdict(cfg, events, j - 1) == Err(SeriesCapExceeded);
      if Clears(LedgerAt(cfg, events, j - 1), cfg, ev, key) then None
      else if !Belongs(cfg, ev, key) || turnedAway then before
      else
        match ev
        case Observe(o, _) => Some(if before.Some? && before.value > o.timestampMs then before.value else o.timestampMs)
        case ObserveEnvelope(e) => if before.Some? then before else Some(if e.windowEndMs != 0 then e.windowEndMs else e.windowStartMs)
        case _ => before
  }

  ghost predicate SeenIs(l: Ledger, key: Key, seen: Option<nat>) {
    (key in l.seen <==> seen.Some?) && (seen.Some? ==> l.seen[key] == seen.value)
  }

  /** The victim of an eviction is open. */
  ghost predicate VictimsOpen(cfg: Config, events: seq<Event>) {
    forall n :: 0 <= n < |events| && events[n].Observe? && events[n].victim.Some? ==> VictimOpen(cfg, events, n)
  }

  ghost predicate VictimOpen(cfg: Config, events: seq<Event>, n: nat)
    requires n < |events| && events[n].Observe? && events[n].victim.Some?
  {
    events[n].victim.value in LedgerAt(cfg, events, n).seen
  }

  lemma {:induction false} ObserveSees(l: Ledger, cfg: Config, o: Scalar, victim: Option<Key>, key: Key)
    requires victim.Some? ==> victim.value in l.seen
    ensures var k := KeyFor(cfg.identity, o.resourceLabels, o.labels);
      var (next, r) := Observed(l, cfg, o, victim);
      var turnedAway := r == Err(LateData) || r == Err(SeriesCapExceeded);
      if Evicts(l, cfg, Observe(o, victim)) && victim == Some(key) then key !in next.seen
      else if k != key || turnedAway then (key in next.seen <==> key in l.seen) && (key in l.seen ==> next.seen[key] == l.seen[key])
      else key in next.seen && next.seen[key] == if key in l.seen && l.seen[key] > o.timestampMs then l.seen[key] else o.timestampMs
  {
    hide KeyFor, Except;
  }

  lemma {:induction false} EnvelopeSees(l: Ledger, cfg: Config, e: Envelope, key: Key)
    ensures var k := KeyFor(cfg.identity, e.resourceLabels, e.labels);
      var (next, r) := EnvelopeObserved(l, cfg, e);
      if k != key || r == Err(SeriesCapExceeded) then (key in next.seen <==> key in l.seen) && (key in l.seen ==> next.seen[key] == l.seen[key])
      else key in next.seen && next.seen[key] == if key in l.seen then l.seen[key] else if e.windowEndMs != 0 then e.windowEndMs else e.windowStartMs
    ensures EnvelopeObserved(l, cfg, e).1 != Err(LateData)
  {
    hide KeyFor;
  }

  lemma {:induction false} ClosingForgets(l: Ledger, cfg: Config, ev: Event)
    requires !ev.Observe? && !ev.ObserveEnvelope?
    ensures Closes(l, cfg, ev) ==> Next(l, cfg, ev).seen == map[]
    ensures !Closes(l, cfg, ev) ==> Next(l, cfg, ev).seen == l.seen
  {
  }

  lemma {:induction false} OnlyScalarsEvict(l: Ledger, cfg: Config, ev: Event)
    ensures Evicts(l, cfg, ev) ==> ev.Observe?
  {
  }

  /** In every run the times by which the oldest series is chosen are those. */
  lemma {:induction false} SeenIsLatest(cfg: Config, events: seq<Event>, key: Key, j: nat)
    requires j <= |events| && VictimsOpen(cfg, events)
    ensures SeenIs(LedgerAt(cfg, events, j), key, SeenBy(cfg, events, key, j))
    decreases j
  {
    hide KeyFor, Observed, EnvelopeObserved, Evicts, Rotated, Drained;
    if j > 0 {
      var l, ev := LedgerAt(cfg, events, j - 1), events[j - 1];
      SeenIsLatest(cfg, events, key, j - 1);
      OnlyScalarsEvict(l, cfg, ev);
      match ev
      case Observe(o, victim) =>
        assert victim.Some? ==> VictimOpen(cfg, events, j - 1);
        ObserveSees(l, cfg, o, victim, key);
      case ObserveEnvelope(e) => EnvelopeSees(l, cfg, e, key);
      case Rotate(_) => ClosingForgets(l, cfg, ev);
      case Drain => ClosingForgets(l, cfg, ev);
    }
  }

  // ---------- the bounds ----------

  /** Aligned bounds, one size apart, around a time. */
  ghost predicate Covers(l: Ledger, time: nat, size: nat) {
    l.initialized && l.start <= time < l.end && l.end == l.start + size && (size > 0 ==> l.start % size == 0)
  }

  ghost function TimeOf(ev: Event): nat
    requires ev.Observe? || ev.ObserveEnvelope?
  {
    match ev
    case Observe(o, _) => o.timestampMs
    case ObserveEnvelope(e) => if e.windowEndMs != 0 then e.windowEndMs else e.windowStartMs
  }

  lemma {:induction false} BucketCovers(time: nat, size: nat)
    requires size > 0
    ensures time / size * size <= time < time / size * size + size && time / size * size % size == 0
  {
    FloorAndRest(time, size);
    DivUnique(time / size * size, time / size, size, 0);
  }

  /** The first input opens the window that covers its time, whatever becomes of the input. */
  lemma {:induction false} FirstWindowCovers(l: Ledger, cfg: Config, ev: Event)
    requires !l.initialized && cfg.sizeMs > 0 && (ev.Observe? || ev.ObserveEnvelope?)
    ensures Covers(Next(l, cfg, ev), TimeOf(ev), cfg.sizeMs)
  {
    hide KeyFor, Except;
    BucketCovers(TimeOf(ev), cfg.sizeMs);
  }

  /** Later inputs leave the bounds alone. */
  lemma {:induction false} BoundsStay(l: Ledger, cfg: Config, ev: Event)
    requires l.initialized && (ev.Observe? || ev.ObserveEnvelope?)
    ensures Next(l, cfg, ev).start == l.start && Next(l, cfg, ev).end == l.end && Next(l, cfg, ev).initialized
  {
    hide KeyFor, Except;
  }

  /** A rotation that is due opens the window that covers its time. */
  lemma {:induction false} NextWindowCovers(l: Ledger, cfg: Config, now: nat)
    requires cfg.sizeMs > 0 && l.start % cfg.sizeMs == 0 && l.end == l.start + cfg.sizeMs && RotationDue(l, now, cfg.sizeMs)
    ensures Covers(Next(l, cfg, Rotate(now)), now, cfg.sizeMs)
  {
    BucketCovers(now, cfg.sizeMs);
    BucketCovers(l.start, cfg.sizeMs);
    if now / cfg.sizeMs <= l.start / cfg.sizeMs {
      MulMonotone(now / cfg.sizeMs, l.start / cfg.sizeMs, cfg.sizeMs);
    }
    MulMonotone(l.start / cfg.sizeMs, now / cfg.sizeMs, cfg.sizeMs);
  }

  /** Without a size every rotation is due once an input has come, and the bounds are moments: the first
      input's time, and then the last rotation's. */
  lemma {:induction false} BatchBounds(l: Ledger, cfg: Config, ev: Event)
    requires cfg.sizeMs == 0
    ensures !l.initialized && (ev.Observe? || ev.ObserveEnvelope?) ==> Covers0(Next(l, cfg, ev), TimeOf(ev))
    ensures l.initialized && ev.Rotate? ==> Closes(l, cfg, ev) && Covers0(Next(l, cfg, ev), ev.now)
  {
    hide KeyFor, Except;
  }

  ghost predicate Covers0(l: Ledger, time: nat) {
    l.initialized && l.start == l.end == time
  }

  // ---------- verdicts ----------

  /** When an input of a new series finds no room. */
  ghost predicate NoRoom(l: Ledger, cfg: Config, key: Key) {
    key !in l.seen && cfg.maxSeries > 0 && |l.seen| >= cfg.maxSeries && !cfg.onOverflow.EvictOldest?
  }

  /** A scalar is late exactly when some lateness is allowed and its time is more than that before the start
      of the window; else it is over the cap exactly when its series is new, the cap is reached and
      nothing may be evicted; else refused exactly when its sketch refuses it. */
  lemma {:induction false} ScalarVerdict(l: Ledger, cfg: Config, o: Scalar, victim: Option<Key>)
    ensures var r := Observed(l, cfg, o, victim).1;
      var key := KeyFor(cfg.identity, o.resourceLabels, o.labels);
      var late := l.initialized && cfg.latenessMs > 0 && o.timestampMs + cfg.latenessMs < l.start;
      && (r == Err(LateData) <==> late)
      && (r == Err(SeriesCapExceeded) <==> !late && NoRoom(l, cfg, key))
      && (r == Err(Refused) <==> !late && !NoRoom(l, cfg, key) && o.sample.None?)
  {
    hide KeyFor, Except;
    if !l.initialized && cfg.sizeMs > 0 {
      BucketCovers(o.timestampMs, cfg.sizeMs);
    }
  }

  /** An envelope is never late; it is over the cap exactly when its series is new and there is no room, and
      else refused exactly when it has a payload that is no snapshot of the window's sketch type. */
  lemma {:induction false} EnvelopeVerdict(l: Ledger, cfg: Config, e: Envelope)
    ensures var r := EnvelopeObserved(l, cfg, e).1;
      var key := KeyFor(cfg.identity, e.resourceLabels, e.labels);
      var decodes := e.payload.Snapshot? && e.payload.kind == cfg.sketchType && !cfg.sketchType.Unspecified? && !cfg.sketchType.Exact?;
      && r != Err(LateData)
      && (r == Err(SeriesCapExceeded) <==> NoRoom(l, cfg, key))
      && (r == Err(Refused) <==> !NoRoom(l, cfg, key) && !e.payload.Empty? && !decodes)
  {
    hide KeyFor, Except;
  }
}
