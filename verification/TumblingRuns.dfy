/** Whole runs of the tumbling window. */
module TumblingRuns {
  import opened Basics
  import opened Envelopes
  import opened SeriesKeys
  import opened TumblingWindow

  datatype Event = Observe(o: Scalar, victim: Option<Key>) | ObserveEnvelope(e: Envelope) | Rotate(now: nat) | Drain

  ghost function Next(l: Ledger, cfg: Config, ev: Event): Ledger {
    match ev
    case Observe(o, victim) => Observed(l, cfg, o, victim).0
    case ObserveEnvelope(e) => EnvelopeObserved(l, cfg, e).0
    case Rotate(now) => Rotated(l, now, cfg.sizeMs)
    case Drain => Drained(l, cfg.sizeMs)
  }

  /** The ledger after the first `i` events. */
  ghost function LedgerAt(cfg: Config, events: seq<Event>, i: nat): Ledger
    requires i <= |events|
  {
    if i == 0 then Blank else Next(LedgerAt(cfg, events, i - 1), cfg, events[i - 1])
  }

  /** Whether an event closes the active window. */
  ghost predicate Closes(l: Ledger, cfg: Config, ev: Event) {
    match ev
    case Rotate(now) => RotationDue(l, now, cfg.sizeMs)
    case Drain => l.initialized && l.seen != map[]
    case _ => false
  }

  /** Whether the window then goes out: it holds a series. */
  ghost predicate Emits(l: Ledger, cfg: Config, ev: Event) {
    Closes(l, cfg, ev) && l.seen != map[]
  }

  // ---------- what one event takes in, and what it gives up ----------

  ghost predicate Evicts(l: Ledger, cfg: Config, ev: Event) {
    ev.Observe? &&
    var open := Initialized(l, ev.o.timestampMs, cfg.sizeMs);
    && !(cfg.latenessMs > 0 && ev.o.timestampMs + cfg.latenessMs < open.start)
    && KeyFor(cfg.identity, ev.o.resourceLabels, ev.o.labels) !in open.seen
    && Full(open, cfg) && cfg.onOverflow.EvictOldest? && ev.victim.Some?
  }

  ghost function LostBy(l: Ledger, cfg: Config, ev: Event): seq<Applied> {
    if Evicts(l, cfg, ev) then Of(l.active, ev.victim.value) else []
  }

  ghost function EmittedBy(l: Ledger, cfg: Config, ev: Event): seq<Applied> {
    if Closes(l, cfg, ev) then l.active else []
  }

  /** What an accepted input folds in. */
  ghost function AppliedBy(l: Ledger, cfg: Config, ev: Event): seq<Applied> {
    match ev
    case Observe(o, victim) =>
      var key := KeyFor(cfg.identity, o.resourceLabels, o.labels);
      if Observed(l, cfg, o, victim).1.Ok? && SampleOf(o, key).Some? then [SampleOf(o, key).value] else []
    case ObserveEnvelope(e) =>
      var key := KeyFor(cfg.identity, e.resourceLabels, e.labels);
      var a := MergedOf(e, cfg.sketchType, key);
      if EnvelopeObserved(l, cfg, e).1.Ok? && a.Some? then [a.value] else []
    case _ => []
  }

  lemma {:induction false} PlacedActive(l: Ledger, cfg: Config, o: Scalar, victim: Option<Key>)
    ensures Placed(l, cfg, o, victim).0.active
         == if Evicts(l, cfg, Observe(o, victim)) then Except(l.active, victim.value) else l.active
  {
    hide KeyFor, Except;
  }

  lemma {:induction false} ObservedActive(l: Ledger, cfg: Config, o: Scalar, victim: Option<Key>)
    ensures Next(l, cfg, Observe(o, victim)).active == Placed(l, cfg, o, victim).0.active + AppliedBy(l, cfg, Observe(o, victim))
  {
    hide Placed, KeyFor, SampleOf;
  }

  lemma {:induction false} ObserveConserves(l: Ledger, cfg: Config, o: Scalar, victim: Option<Key>)
    ensures var ev := Observe(o, victim);
      multiset(Next(l, cfg, ev).active) + multiset(LostBy(l, cfg, ev)) == multiset(l.active) + multiset(AppliedBy(l, cfg, ev))
  {
    var ev := Observe(o, victim);
    PlacedActive(l, cfg, o, victim);
    ObservedActive(l, cfg, o, victim);
    if Evicts(l, cfg, ev) {
      ExceptSplits(l.active, victim.value);
    }
    hide Next, AppliedBy, Evicts, Placed, Of, Except;
  }

  lemma {:induction false} EnvelopeConserves(l: Ledger, cfg: Config, e: Envelope)
    ensures Next(l, cfg, ObserveEnvelope(e)).active == l.active + AppliedBy(l, cfg, ObserveEnvelope(e))
  {
    hide KeyFor;
  }

  /** One event: what is active, lost or emitted afterwards is what was, plus what it took in. */
  lemma {:induction false} StepConserves(l: Ledger, cfg: Config, ev: Event)
    ensures multiset(Next(l, cfg, ev).active) + multiset(LostBy(l, cfg, ev)) + multiset(EmittedBy(l, cfg, ev))
         == multiset(l.active) + multiset(AppliedBy(l, cfg, ev))
  {
    match ev
    case Observe(o, victim) =>
      ObserveConserves(l, cfg, o, victim);
      hide Next, AppliedBy, LostBy;
    case ObserveEnvelope(e) =>
      EnvelopeConserves(l, cfg, e);
      hide Next, AppliedBy;
    case Rotate(now) => hide NextStart;
    case Drain => hide NextStart;
  }

  /** Without eviction and rotation, inputs only add up. */
  lemma {:induction false} StepAppends(l: Ledger, cfg: Config, ev: Event)
    requires !Evicts(l, cfg, ev) && !Closes(l, cfg, ev)
    ensures Next(l, cfg, ev).active == l.active + AppliedBy(l, cfg, ev)
  {
    match ev
    case Observe(o, victim) =>
      PlacedActive(l, cfg, o, victim);
      ObservedActive(l, cfg, o, victim);
      hide Next, AppliedBy, Evicts, Placed;
    case ObserveEnvelope(e) =>
      EnvelopeConserves(l, cfg, e);
      hide Next, AppliedBy;
    case Rotate(now) =>
    case Drain =>
  }

  ghost function AppliedUpTo(cfg: Config, events: seq<Event>, i: nat): multiset<Applied>
    requires i <= |events|
  {
    if i == 0 then multiset{} else AppliedUpTo(cfg, events, i - 1) + multiset(AppliedBy(LedgerAt(cfg, events, i - 1), cfg, events[i - 1]))
  }

  ghost function LostUpTo(cfg: Config, events: seq<Event>, i: nat): multiset<Applied>
    requires i <= |events|
  {
    if i == 0 then multiset{} else LostUpTo(cfg, events, i - 1) + multiset(LostBy(LedgerAt(cfg, events, i - 1), cfg, events[i - 1]))
  }

  ghost function EmittedUpTo(cfg: Config, events: seq<Event>, i: nat): multiset<Applied>
    requires i <= |events|
  {
    if i == 0 then multiset{} else EmittedUpTo(cfg, events, i - 1) + multiset(EmittedBy(LedgerAt(cfg, events, i - 1), cfg, events[i - 1]))
  }

  /** Conservation over any run: every input that was accepted is emitted once, active once,
      or was evicted with its series. */
  lemma {:induction false} RunConserves(cfg: Config, events: seq<Event>, i: nat)
    requires i <= |events|
    ensures AppliedUpTo(cfg, events, i)
         == multiset(LedgerAt(cfg, events, i).active) + LostUpTo(cfg, events, i) + EmittedUpTo(cfg, events, i)
    decreases i
  {
    hide Next, AppliedBy, LostBy, EmittedBy;
    if i > 0 {
      var l, ev := LedgerAt(cfg, events, i - 1), events[i - 1];
      RunConserves(cfg, events, i - 1);
      StepConserves(l, cfg, ev);
      hide *;
      UpToNext(cfg, events, i);
      Balance(AppliedUpTo(cfg, events, i - 1), multiset(l.active), LostUpTo(cfg, events, i - 1), EmittedUpTo(cfg, events, i - 1),
              multiset(AppliedBy(l, cfg, ev)), multiset(Next(l, cfg, ev).active), multiset(LostBy(l, cfg, ev)), multiset(EmittedBy(l, cfg, ev)));
    }
  }

  lemma {:induction false} UpToNext(cfg: Config, events: seq<Event>, i: nat)
    requires 0 < i <= |events|
    ensures var l, ev := LedgerAt(cfg, events, i - 1), events[i - 1];
      && LedgerAt(cfg, events, i) == Next(l, cfg, ev)
      && AppliedUpTo(cfg, events, i) == AppliedUpTo(cfg, events, i - 1) + multiset(AppliedBy(l, cfg, ev))
      && LostUpTo(cfg, events, i) == LostUpTo(cfg, events, i - 1) + multiset(LostBy(l, cfg, ev))
      && EmittedUpTo(cfg, events, i) == EmittedUpTo(cfg, events, i - 1) + multiset(EmittedBy(l, cfg, ev))
  {
    hide Next, AppliedBy, LostBy, EmittedBy;
  }

  lemma {:induction false} Balance<T>(all: multiset<T>, active: multiset<T>, lost: multiset<T>, emitted: multiset<T>,
                   more: multiset<T>, active': multiset<T>, lost': multiset<T>, emitted': multiset<T>)
    requires all == active + lost + emitted
    requires active' + lost' + emitted' == active + more
    ensures all + more == active' + (lost + lost') + (emitted + emitted')
  {
    assert all + more == (active + more) + lost + emitted;
  }

  /** The inputs accepted by the events from `i` to `j`, in order. */
  ghost function AppliedBetween(cfg: Config, events: seq<Event>, i: nat, j: nat): seq<Applied>
    requires i <= j <= |events|
    decreases j
  {
    if i == j then [] else AppliedBetween(cfg, events, i, j - 1) + AppliedBy(LedgerAt(cfg, events, j - 1), cfg, events[j - 1])
  }

  /** No rotation and no eviction by the events from `i` to `j`. */
  ghost predicate Quiet(cfg: Config, events: seq<Event>, i: nat, j: nat)
    requires j <= |events|
  {
    forall n: nat :: i <= n < j ==> QuietEvent(cfg, events, n)
  }

  ghost predicate QuietEvent(cfg: Config, events: seq<Event>, n: nat)
    requires n < |events|
  {
    !Closes(LedgerAt(cfg, events, n), cfg, events[n]) && !Evicts(LedgerAt(cfg, events, n), cfg, events[n])
  }

  lemma {:induction false} QuietLess(cfg: Config, events: seq<Event>, i: nat, j: nat)
    requires i < j <= |events| && Quiet(cfg, events, i, j)
    ensures Quiet(cfg, events, i, j - 1) && QuietEvent(cfg, events, j - 1)
  {
    hide QuietEvent;
  }

  lemma {:induction false} QuietAppends(cfg: Config, events: seq<Event>, n: nat)
    requires n < |events| && QuietEvent(cfg, events, n)
    ensures LedgerAt(cfg, events, n + 1).active
         == LedgerAt(cfg, events, n).active + AppliedBy(LedgerAt(cfg, events, n), cfg, events[n])
  {
    LedgerNext(cfg, events, n);
    StepAppends(LedgerAt(cfg, events, n), cfg, events[n]);
    hide *;
  }

  /** What a rotation emits: the inputs accepted since the previous one, all of them and in
      order, when nothing was evicted in between. */
  lemma {:induction false} ActiveSinceRotation(cfg: Config, events: seq<Event>, i: nat, j: nat)
    requires i < j <= |events| && Closes(LedgerAt(cfg, events, i), cfg, events[i]) && Quiet(cfg, events, i + 1, j)
    ensures LedgerAt(cfg, events, j).active == AppliedBetween(cfg, events, i + 1, j)
    decreases j
  {
    hide *;
    if j == i + 1 {
      AfterClosing(cfg, events, i);
    } else {
      QuietLess(cfg, events, i + 1, j);
      ActiveSinceRotation(cfg, events, i, j - 1);
      QuietAppends(cfg, events, j - 1);
      BetweenMore(cfg, events, i + 1, j);
    }
  }

  // ---------- series by series ----------

  /** Whether an event clears a series: it closes the window, or evicts the series. */
  ghost predicate Clears(l: Ledger, cfg: Config, ev: Event, key: Key) {
    Closes(l, cfg, ev) || (Evicts(l, cfg, ev) && ev.victim == Some(key))
  }

  /** The last of the first `j` events that cleared the series, or 0. */
  ghost function LastCleared(cfg: Config, events: seq<Event>, key: Key, j: nat): (i: nat)
    requires j <= |events|
    ensures i <= j
  {
    if j == 0 then 0
    else if Clears(LedgerAt(cfg, events, j - 1), cfg, events[j - 1], key) then j - 1
    else LastCleared(cfg, events, key, j - 1)
  }

  lemma {:induction false} OfConcat(a: seq<Applied>, b: seq<Applied>, key: Key)
    ensures Of(a + b, key) == Of(a, key) + Of(b, key)
    decreases |b|
  {
    hide *;
    if b == [] {
      assert a + b == a;
      OfNothing(key);
      assert Of(a, key) + [] == Of(a, key);
    } else {
      var init, last := b[..|b| - 1], b[|b| - 1];
      OfConcat(a, init, key);
      assert a + b == (a + init) + [last] && b == init + [last];
      OfPush(a + init, last, key);
      OfPush(init, last, key);
    }
  }

  lemma {:induction false} OfNothing(key: Key)
    ensures Of([], key) == []
  {
  }

  /** One event: a series keeps its inputs unless it is cleared, and gets what is applied to it. */
  lemma {:induction false} StepOf(l: Ledger, cfg: Config, ev: Event, key: Key)
    ensures Of(Next(l, cfg, ev).active, key) == (if Clears(l, cfg, ev, key) then [] else Of(l.active, key)) + Of(AppliedBy(l, cfg, ev), key)
  {
    match ev
    case Observe(o, victim) =>
      PlacedActive(l, cfg, o, victim);
      ObservedActive(l, cfg, o, victim);
      OfConcat(Placed(l, cfg, o, victim).0.active, AppliedBy(l, cfg, ev), key);
      if Evicts(l, cfg, ev) {
        OfExcept(l.active, victim.value, key);
      }
      hide Next, AppliedBy, Evicts, Placed, Of, Except;
    case ObserveEnvelope(e) =>
      EnvelopeConserves(l, cfg, e);
      OfConcat(l.active, AppliedBy(l, cfg, ev), key);
      hide Next, AppliedBy, Of;
    case Rotate(now) =>
      assert Of(l.active, key) + [] == Of(l.active, key);
      hide NextStart;
    case Drain =>
      assert Of(l.active, key) + [] == Of(l.active, key);
      hide NextStart;
  }

  /** In every run, the inputs a series holds are all that were applied to it, in order, since
      the window was last closed or the series last evicted. */
  lemma {:induction false} HeldSinceCleared(cfg: Config, events: seq<Event>, key: Key, j: nat)
    requires j <= |events|
    ensures Of(LedgerAt(cfg, events, j).active, key) == Of(AppliedBetween(cfg, events, LastCleared(cfg, events, key, j), j), key)
    decreases j
  {
    hide Next, AppliedBy, Clears, Of;
    if j == 0 {
      assert LedgerAt(cfg, events, 0).active == [];
    } else {
      var l, ev, i := LedgerAt(cfg, events, j - 1), events[j - 1], LastCleared(cfg, events, key, j);
      HeldSinceCleared(cfg, events, key, j - 1);
      StepOf(l, cfg, ev, key);
      if Clears(l, cfg, ev, key) {
        assert AppliedBetween(cfg, events, i, j) == [] + AppliedBy(l, cfg, ev) == AppliedBy(l, cfg, ev);
        assert [] + Of(AppliedBy(l, cfg, ev), key) == Of(AppliedBy(l, cfg, ev), key);
      } else {
        OfConcat(AppliedBetween(cfg, events, i, j - 1), AppliedBy(l, cfg, ev), key);
      }
    }
  }

  /** So the entry of a series that goes out is the fold of exactly those inputs. */
  lemma {:induction false} EntryIsFoldSince(cfg: Config, events: seq<Event>, j: nat, series: map<Key, SeriesEntry>, key: Key)
    requires j <= |events| && Entries(series, LedgerAt(cfg, events, j).active, cfg.identity) && key in series
    ensures var inputs := Of(AppliedBetween(cfg, events, LastCleared(cfg, events, key, j), j), key);
      series[key].items == Items(inputs) && series[key].count == Count(inputs)
  {
    hide LedgerAt, AppliedBetween, LastCleared, Of, Items, Count, KeyFor;
    HeldSinceCleared(cfg, events, key, j);
    assert EntryOf(series[key], key, LedgerAt(cfg, events, j).active, cfg.identity);
  }

  lemma {:induction false} AfterClosing(cfg: Config, events: seq<Event>, i: nat)
    requires i < |events| && Closes(LedgerAt(cfg, events, i), cfg, events[i])
    ensures LedgerAt(cfg, events, i + 1).active == [] == AppliedBetween(cfg, events, i + 1, i + 1)
  {
    LedgerNext(cfg, events, i);
    ClosedIsEmpty(LedgerAt(cfg, events, i), cfg, events[i]);
    hide LedgerAt, Next;
  }

  lemma {:induction false} ClosedIsEmpty(l: Ledger, cfg: Config, ev: Event)
    requires Closes(l, cfg, ev)
    ensures Next(l, cfg, ev).active == []
  {
  }

  lemma {:induction false} BetweenMore(cfg: Config, events: seq<Event>, i: nat, j: nat)
    requires i < j <= |events|
    ensures AppliedBetween(cfg, events, i, j)
         == AppliedBetween(cfg, events, i, j - 1) + AppliedBy(LedgerAt(cfg, events, j - 1), cfg, events[j - 1])
  {
    hide AppliedBy, LedgerAt;
  }

  lemma {:induction false} LedgerNext(cfg: Config, events: seq<Event>, i: nat)
    requires i < |events|
    ensures LedgerAt(cfg, events, i + 1) == Next(LedgerAt(cfg, events, i), cfg, events[i])
  {
  }

  // ---------- the bounds ----------

  ghost predicate BoundsOk(l: Ledger, size: nat) {
    && (!l.initialized ==> l.seen == map[])
    && (l.initialized && size > 0 ==> l.start % size == 0 && l.end == l.start + size)
  }

  lemma {:induction false} Multiple(x: nat, size: nat)
    requires size > 0
    ensures (x / size * size) % size == 0 && (x / size * size + size) % size == 0
  {
    DivUnique(x / size * size, x / size, size, 0);
    assert (x / size + 1) * size == x / size * size + size;
    DivUnique(x / size * size + size, x / size + 1, size, 0);
  }

  /** The next window starts at a boundary, at or after the end of the closed one. */
  lemma {:induction false} NextStartOk(start: nat, now: nat, size: nat)
    requires size > 0 && start % size == 0
    ensures var next := NextStart(start, start + size, now, size);
      next % size == 0 && start + size <= next
  {
    Multiple(start, size);
    Multiple(now, size);
    var a, b := start / size, now / size;
    assert start == a * size;
    if b * size > start {
      if b <= a {
        MulMonotone(b, a, size);
      }
      MulMonotone(a + 1, b, size);
      assert (a + 1) * size == a * size + size;
    }
  }

  lemma {:induction false} InitializedOk(l: Ledger, ref: nat, size: nat)
    requires BoundsOk(l, size)
    ensures BoundsOk(Initialized(l, ref, size), size) || Initialized(l, ref, size).seen != map[]
    ensures var open := Initialized(l, ref, size);
      && open.initialized && open.seen == l.seen
      && (size > 0 ==> open.start % size == 0 && open.end == open.start + size)
      && (l.initialized ==> open.start == l.start)
  {
    if size > 0 {
      Multiple(ref, size);
    }
  }

  /** Inputs never move the bounds of an initialized window; closing one moves them on. */
  lemma {:induction false} StepBounds(l: Ledger, cfg: Config, ev: Event)
    requires BoundsOk(l, cfg.sizeMs)
    ensures var next := Next(l, cfg, ev);
      && BoundsOk(next, cfg.sizeMs)
      && (l.initialized ==> next.initialized)
      && (cfg.sizeMs > 0 && l.initialized ==> l.start <= next.start)
      && (cfg.sizeMs > 0 && Closes(l, cfg, ev) ==> l.end <= next.start)
  {
    match ev
    case Observe(o, victim) =>
      InitializedOk(l, o.timestampMs, cfg.sizeMs);
      hide Initialized, KeyFor, SampleOf;
    case ObserveEnvelope(e) =>
      InitializedOk(l, if e.windowEndMs != 0 then e.windowEndMs else e.windowStartMs, cfg.sizeMs);
      hide Initialized, KeyFor, MergedOf;
    case Rotate(now) =>
      if l.initialized && cfg.sizeMs > 0 {
        NextStartOk(l.start, now, cfg.sizeMs);
      }
      hide NextStart;
    case Drain =>
      if l.initialized && cfg.sizeMs > 0 {
        NextStartOk(l.start, l.end, cfg.sizeMs);
      }
      hide NextStart;
  }

  lemma {:induction false} RunBounds(cfg: Config, events: seq<Event>, i: nat, j: nat)
    requires i <= j <= |events|
    ensures BoundsOk(LedgerAt(cfg, events, i), cfg.sizeMs) && BoundsOk(LedgerAt(cfg, events, j), cfg.sizeMs)
    ensures LedgerAt(cfg, events, i).initialized ==> LedgerAt(cfg, events, j).initialized
    ensures cfg.sizeMs > 0 && LedgerAt(cfg, events, i).initialized ==> LedgerAt(cfg, events, i).start <= LedgerAt(cfg, events, j).start
    decreases j
  {
    hide Next, BoundsOk;
    if j == 0 {
      BlankOk(cfg.sizeMs);
    } else if i < j {
      RunBounds(cfg, events, i, j - 1);
      StepBounds(LedgerAt(cfg, events, j - 1), cfg, events[j - 1]);
    } else {
      RunBounds(cfg, events, i - 1, i - 1);
      StepBounds(LedgerAt(cfg, events, j - 1), cfg, events[j - 1]);
    }
  }

  lemma {:induction false} BlankOk(size: nat)
    ensures BoundsOk(Blank, size)
  {
  }

  /** Under a fixed nonzero size, every emitted range is aligned and one size long, and the
      ranges of two emissions are disjoint, in order. */
  lemma {:induction false} EmittedRangesAreDisjoint(cfg: Config, events: seq<Event>, i: nat, j: nat)
    requires cfg.sizeMs > 0 && i < j < |events|
    requires Emits(LedgerAt(cfg, events, i), cfg, events[i]) && Emits(LedgerAt(cfg, events, j), cfg, events[j])
    ensures var first, second := LedgerAt(cfg, events, i), LedgerAt(cfg, events, j);
      && first.start % cfg.sizeMs == 0 && first.end == first.start + cfg.sizeMs
      && second.start % cfg.sizeMs == 0 && second.end == second.start + cfg.sizeMs
      && first.end <= second.start
  {
    hide *;
    RunBounds(cfg, events, i, j);
    RunBounds(cfg, events, i + 1, j);
    LedgerNext(cfg, events, i);
    EmissionBounds(LedgerAt(cfg, events, i), cfg, events[i]);
    EmissionBounds(LedgerAt(cfg, events, j), cfg, events[j]);
  }

  lemma {:induction false} EmissionBounds(l: Ledger, cfg: Config, ev: Event)
    requires cfg.sizeMs > 0 && BoundsOk(l, cfg.sizeMs) && Emits(l, cfg, ev)
    ensures l.start % cfg.sizeMs == 0 && l.end == l.start + cfg.sizeMs
    ensures Next(l, cfg, ev).initialized && l.end <= Next(l, cfg, ev).start
  {
    StepBounds(l, cfg, ev);
    hide Next;
  }

  // ---------- emitted counts ----------

  ghost function CountIn(e: SeriesEntry): nat {
    e.count
  }

  lemma {:induction false} Less(e: SeriesEntry, active: seq<Applied>, a: Applied, id: Identity)
    requires EntryOf(e, a.key, active + [a], id)
    ensures e.count >= a.count && a.items <= e.items
    ensures EntryOf(e.(items := e.items - a.items, count := e.count - a.count), a.key, active, id)
  {
    OfPush(active, a, a.key);
    FoldPush(Of(active, a.key), a);
    hide KeyFor, Of, Items, Count;
    assert Items(Of(active, a.key)) == e.items - a.items;
  }

  lemma {:induction false} OtherBefore(e: SeriesEntry, k: Key, active: seq<Applied>, a: Applied, id: Identity)
    requires EntryOf(e, k, active + [a], id) && k != a.key
    ensures EntryOf(e, k, active, id)
  {
    OfPush(active, a, k);
  }

  ghost function Undone(series: map<Key, SeriesEntry>, a: Applied): map<Key, SeriesEntry>
    requires a.key in series && series[a.key].count >= a.count
  {
    var e := series[a.key];
    series[a.key := e.(items := e.items - a.items, count := e.count - a.count)]
  }

  lemma {:induction false} LastIsHeld(series: map<Key, SeriesEntry>, active: seq<Applied>, a: Applied, id: Identity)
    requires Entries(series, active + [a], id)
    ensures a.key in series && EntryOf(series[a.key], a.key, active + [a], id)
    ensures Covers(series.Keys, active)
  {
    hide EntryOf;
    assert (active + [a])[|active|] == a;
    forall i | 0 <= i < |active|
      ensures active[i].key in series.Keys
    {
      assert (active + [a])[i] == active[i];
    }
  }

  lemma {:induction false} UndoneEntry(series: map<Key, SeriesEntry>, active: seq<Applied>, a: Applied, id: Identity, k: Key)
    requires Entries(series, active + [a], id) && k in series
    requires a.key in series && series[a.key].count >= a.count
    ensures EntryOf(Undone(series, a)[k], k, active, id)
  {
    assert EntryOf(series[k], k, active + [a], id);
    UndoneShape(series, a);
    hide EntryOf, Entries;
    if k == a.key {
      Less(series[k], active, a, id);
    } else {
      OtherBefore(series[k], k, active, a, id);
    }
  }

  /** The entries before the last input was folded in. */
  lemma {:induction false} EntriesBefore(series: map<Key, SeriesEntry>, active: seq<Applied>, a: Applied, id: Identity)
    requires Entries(series, active + [a], id)
    ensures a.key in series && series[a.key].count >= a.count
    ensures Entries(Undone(series, a), active, id)
  {
    LastIsHeld(series, active, a, id);
    Less(series[a.key], active, a, id);
    hide EntryOf, Covers;
    UndoneShape(series, a);
    forall k | k in Undone(series, a)
      ensures EntryOf(Undone(series, a)[k], k, active, id)
    {
      UndoneEntry(series, active, a, id, k);
    }
    hide Undone;
  }

  lemma {:induction false} UndoneShape(series: map<Key, SeriesEntry>, a: Applied)
    requires a.key in series && series[a.key].count >= a.count
    ensures var before, e := Undone(series, a), series[a.key];
      && before.Keys == series.Keys
      && before[a.key] == e.(items := e.items - a.items, count := e.count - a.count)
      && forall k :: k in series && k != a.key ==> before[k] == series[k]
  {
  }

  /** The counts that go out add up to the counts that were applied. */
  lemma {:induction false} CountsAddUp(series: map<Key, SeriesEntry>, active: seq<Applied>, id: Identity)
    requires Entries(series, active, id)
    ensures MapSum(series, CountIn) == Count(active)
    decreases |active|
  {
    hide *;
    if active == [] {
      NoCounts(series, id);
    } else {
      var init, a := active[..|active| - 1], active[|active| - 1];
      assert active == init + [a];
      EntriesBefore(series, init, a, id);
      CountsAddUp(Undone(series, a), init, id);
      CountsStep(series, init, a);
    }
  }

  lemma {:induction false} CountsStep(series: map<Key, SeriesEntry>, active: seq<Applied>, a: Applied)
    requires a.key in series && series[a.key].count >= a.count
    requires MapSum(Undone(series, a), CountIn) == Count(active)
    ensures MapSum(series, CountIn) == Count(active + [a])
  {
    FoldPush(active, a);
    MapSumUpdate(series, a.key, Undone(series, a)[a.key], CountIn);
    hide MapSum, Count;
  }

  lemma {:induction false} NoCounts(series: map<Key, SeriesEntry>, id: Identity)
    requires Entries(series, [], id)
    ensures MapSum(series, CountIn) == Count([])
  {
    forall k | k in series
      ensures CountIn(series[k]) == 0
    {
      assert EntryOf(series[k], k, [], id);
    }
    MapSumZero(series, CountIn);
  }

  // ---------- the series cap ----------

  lemma {:induction false} SeenGrows(seen: map<Key, nat>, key: Key, at: nat)
    ensures |seen[key := at]| == if key in seen then |seen| else |seen| + 1
  {
    assert seen[key := at].Keys == seen.Keys + {key};
    assert |seen[key := at]| == |seen[key := at].Keys| && |seen| == |seen.Keys|;
    if key in seen {
      assert seen.Keys + {key} == seen.Keys;
    }
  }

  /** Within the cap, an envelope keeps it exactly when its series is open, there is room, or
      the policy is not to evict: the envelope path never evicts. */
  lemma {:induction false} EnvelopeKeepsCap(l: Ledger, cfg: Config, e: Envelope)
    requires cfg.maxSeries > 0 && |l.seen| <= cfg.maxSeries
    ensures |EnvelopeObserved(l, cfg, e).0.seen| <= cfg.maxSeries <==>
      (KeyFor(cfg.identity, e.resourceLabels, e.labels) in l.seen || |l.seen| < cfg.maxSeries || !cfg.onOverflow.EvictOldest?)
  {
    hide KeyFor, MergedOf;
    SeenGrows(l.seen, KeyFor(cfg.identity, e.resourceLabels, e.labels), if e.windowEndMs != 0 then e.windowEndMs else e.windowStartMs);
  }

  /** Within the cap, a scalar keeps it exactly when it is late, its series is open, there is
      room, the policy is not to evict, or some series was last seen before the end of time. */
  lemma {:induction false} ScalarKeepsCap(l: Ledger, cfg: Config, o: Scalar, victim: Option<Key>)
    requires cfg.maxSeries > 0 && |l.seen| <= cfg.maxSeries && IsOldest(l.seen, victim)
    ensures |Observed(l, cfg, o, victim).0.seen| <= cfg.maxSeries <==>
      (|| (cfg.latenessMs > 0 && o.timestampMs + cfg.latenessMs < Initialized(l, o.timestampMs, cfg.sizeMs).start)
       || KeyFor(cfg.identity, o.resourceLabels, o.labels) in l.seen || |l.seen| < cfg.maxSeries
       || !cfg.onOverflow.EvictOldest? || exists k :: k in l.seen && l.seen[k] < U64_MAX)
  {
    var key := KeyFor(cfg.identity, o.resourceLabels, o.labels);
    SeenGrows(l.seen, key, o.timestampMs);
    if key in l.seen {
      SeenGrows(l.seen, key, Max(l.seen[key], o.timestampMs));
    }
    if victim.Some? {
      SmallerMap(l.seen, victim.value);
      SeenGrows(l.seen - {victim.value}, key, o.timestampMs);
    }
    OldestExists(l.seen, victim);
    FoldSeen(Placed(l, cfg, o, victim).0, SampleOf(o, key));
    assert Initialized(l, o.timestampMs, cfg.sizeMs).seen == l.seen;
    hide KeyFor, Except, SampleOf, IsOldest, Fold, Initialized;
  }

  lemma {:induction false} FoldSeen(l: Ledger, a: Option<Applied>)
    ensures Fold(l, a).0.seen == l.seen
  {
  }

  lemma {:induction false} OldestExists(seen: map<Key, nat>, victim: Option<Key>)
    requires IsOldest(seen, victim)
    ensures victim.Some? <==> exists k :: k in seen && seen[k] < U64_MAX
    ensures victim.Some? ==> victim.value in seen
  {
  }

  /** With the dropping policies, no run ever exceeds the cap. */
  lemma {:induction false} CapHolds(cfg: Config, events: seq<Event>, i: nat)
    requires cfg.maxSeries > 0 && !cfg.onOverflow.EvictOldest? && i <= |events|
    ensures |LedgerAt(cfg, events, i).seen| <= cfg.maxSeries
    decreases i
  {
    if i > 0 {
      CapHolds(cfg, events, i - 1);
      CapStep(LedgerAt(cfg, events, i - 1), cfg, events[i - 1]);
    }
  }

  lemma {:induction false} CapStep(l: Ledger, cfg: Config, ev: Event)
    requires cfg.maxSeries > 0 && !cfg.onOverflow.EvictOldest? && |l.seen| <= cfg.maxSeries
    ensures |Next(l, cfg, ev).seen| <= cfg.maxSeries
  {
    hide KeyFor, NextStart;
    match ev
    case Observe(o, victim) =>
      var key := KeyFor(cfg.identity, o.resourceLabels, o.labels);
      SeenGrows(l.seen, key, o.timestampMs);
      if key in l.seen {
        SeenGrows(l.seen, key, Max(l.seen[key], o.timestampMs));
      }
    case ObserveEnvelope(e) => EnvelopeKeepsCap(l, cfg, e);
    case Rotate(now) =>
    case Drain =>
  }
}
