/** The pane store itself: an index of panes by start and series that answers every range
    exactly as the plain log of what it was given would. */
module KllStore {
  import opened Basics
  import opened Envelopes
  import opened SeriesKeys
  import opened KllWindows

  datatype PaneSeries = PaneSeries(
    items: multiset<Sample>, resourceLabels: seq<KeyValue>, labels: seq<KeyValue>, count: nat)

  type Panes = map<u64, map<Key, PaneSeries>>

  /** A stored series is the fold of its entries, under labels that give back its key. */
  ghost predicate SeriesOf(p: PaneSeries, entries: seq<Entry>, id: Identity, key: Key) {
    && p.items == ItemsOf(entries) && p.count == CountOf(entries)
    && KeyFor(id, p.resourceLabels, p.labels) == key
    && PaneLabels(id, p.resourceLabels, p.labels) == (p.resourceLabels, p.labels)
  }

  /** The entries of one series in one pane. */
  ghost function At(entries: seq<Entry>, start: int, key: Key): seq<Entry> {
    Range(entries, start, start + 1, key)
  }

  /** A pane as the index has it. */
  function PaneAt(panes: Panes, s: u64): map<Key, PaneSeries> {
    if s in panes then panes[s] else map[]
  }

  /** One pane holds exactly the entries of its start. */
  ghost predicate PaneOf(pane: map<Key, PaneSeries>, entries: seq<Entry>, id: Identity, start: u64) {
    && (forall k :: k in pane <==> At(entries, start, k) != [])
    && forall k :: k in pane ==> SeriesOf(pane[k], At(entries, start, k), id, k)
  }

  /** The panes are the log's entries within retention. */
  ghost predicate Represents(panes: Panes, log: Log, id: Identity, shape: Shape) {
    && (forall s :: s in panes ==> s >= Cutoff(log, shape) && panes[s] != map[])
    && (forall s: u64 :: s >= Cutoff(log, shape) ==>
         PaneOf(PaneAt(panes, s), log.entries, id, s))
  }

  function AllKeys(panes: Panes): set<Key> {
    set s, k | s in panes && k in panes[s] :: k
  }

  lemma {:induction false} KeysAreLive(panes: Panes, log: Log, id: Identity, shape: Shape)
    requires Represents(panes, log, id, shape)
    ensures AllKeys(panes) == LiveKeys(log, shape)
  {
    hide SeriesOf;
    forall k | k in AllKeys(panes)
      ensures k in LiveKeys(log, shape)
    {
      var s :| s in panes && k in panes[s];
      assert PaneOf(PaneAt(panes, s), log.entries, id, s);
      var entries := At(log.entries, s, k);
      RangeComesFrom(log.entries, s as int, s as int + 1, k);
      assert entries[0] in entries && entries[0] in log.entries;
    }
    forall k | k in LiveKeys(log, shape)
      ensures k in AllKeys(panes)
    {
      var i :| 0 <= i < |log.entries| && log.entries[i].start >= Cutoff(log, shape) && log.entries[i].key == k;
      var s := log.entries[i].start;
      RangeMember(log.entries, s as int, s as int + 1, i);
      assert At(log.entries, s, k) != [];
      assert PaneOf(PaneAt(panes, s), log.entries, id, s);
    }
  }

  lemma {:induction false} AdvanceRepresents(panes: Panes, log: Log, id: Identity, shape: Shape, now: u64)
    requires shape.Valid() && Represents(panes, log, id, shape)
    ensures Represents(SplitOff(panes, Cutoff(Advanced(log, shape, now), shape)), Advanced(log, shape, now), id, shape)
  {
    hide PaneOf;
    var next := Advanced(log, shape, now);
    var kept := SplitOff(panes, Cutoff(next, shape));
    forall s: u64 | s >= Cutoff(next, shape)
      ensures PaneOf(PaneAt(kept, s), next.entries, id, s)
    {
      assert PaneAt(kept, s) == PaneAt(panes, s);
    }
  }

  function Put(pane: map<Key, PaneSeries>, e: Entry): map<Key, PaneSeries> {
    var p := if e.key in pane then pane[e.key] else PaneSeries(multiset{}, e.resourceLabels, e.labels, 0);
    pane[e.key := p.(items := p.items + e.items, count := p.count + e.count)]
  }

  lemma {:induction false} PutSeries(pane: map<Key, PaneSeries>, entries: seq<Entry>, id: Identity, e: Entry)
    requires PaneOf(pane, entries, id, e.start)
    requires KeyFor(id, e.resourceLabels, e.labels) == e.key
    requires PaneLabels(id, e.resourceLabels, e.labels) == (e.resourceLabels, e.labels)
    ensures SeriesOf(Put(pane, e)[e.key], At(entries, e.start, e.key) + [e], id, e.key)
  {
    hide KeyFor, PaneLabels, At, Range;
    var before := At(entries, e.start, e.key);
    FoldConcat(before, [e]);
    FoldOne(e);
    assert e.key in pane <==> before != [];
    assert e.key in pane ==> SeriesOf(pane[e.key], before, id, e.key);
  }

  lemma {:induction false} PutIsPane(pane: map<Key, PaneSeries>, entries: seq<Entry>, id: Identity, e: Entry)
    requires PaneOf(pane, entries, id, e.start)
    requires KeyFor(id, e.resourceLabels, e.labels) == e.key
    requires PaneLabels(id, e.resourceLabels, e.labels) == (e.resourceLabels, e.labels)
    ensures PaneOf(Put(pane, e), entries + [e], id, e.start)
  {
    forall k: Key
      ensures k in Put(pane, e) <==> At(entries + [e], e.start, k) != []
      ensures k in Put(pane, e) ==> SeriesOf(Put(pane, e)[k], At(entries + [e], e.start, k), id, k)
    {
      PutKey(pane, entries, id, e, k);
    }
    hide SeriesOf, At, KeyFor, PaneLabels, Put;
  }

  lemma {:induction false} PutKey(pane: map<Key, PaneSeries>, entries: seq<Entry>, id: Identity, e: Entry, k: Key)
    requires PaneOf(pane, entries, id, e.start)
    requires KeyFor(id, e.resourceLabels, e.labels) == e.key
    requires PaneLabels(id, e.resourceLabels, e.labels) == (e.resourceLabels, e.labels)
    ensures k in Put(pane, e) <==> At(entries + [e], e.start, k) != []
    ensures k in Put(pane, e) ==> SeriesOf(Put(pane, e)[k], At(entries + [e], e.start, k), id, k)
  {
    hide SeriesOf, At, KeyFor, PaneLabels;
    PushRange(entries, e, e.start, k);
    if k == e.key {
      PutSeries(pane, entries, id, e);
    }
  }

  lemma {:induction false} PushRange(entries: seq<Entry>, e: Entry, s: u64, k: Key)
    ensures At(entries + [e], s, k)
         == if s == e.start && k == e.key then At(entries, s, k) + [e] else At(entries, s, k)
  {
    assert (entries + [e])[..|entries|] == entries;
  }

  lemma {:induction false} OtherPane(pane: map<Key, PaneSeries>, entries: seq<Entry>, id: Identity, e: Entry, s: u64)
    requires PaneOf(pane, entries, id, s) && s != e.start
    ensures PaneOf(pane, entries + [e], id, s)
  {
    hide SeriesOf;
    forall k: Key
      ensures At(entries + [e], s, k) == At(entries, s, k)
    {
      PushRange(entries, e, s, k);
    }
  }

  lemma {:induction false} PutRepresents(panes: Panes, log: Log, id: Identity, shape: Shape, e: Entry)
    requires Represents(panes, log, id, shape) && e.start >= Cutoff(log, shape)
    requires KeyFor(id, e.resourceLabels, e.labels) == e.key
    requires PaneLabels(id, e.resourceLabels, e.labels) == (e.resourceLabels, e.labels)
    ensures Represents(panes[e.start := Put(PaneAt(panes, e.start), e)],
                       log.(entries := log.entries + [e]), id, shape)
  {
    hide PaneOf, KeyFor, PaneLabels;
    var pane := PaneAt(panes, e.start);
    PutIsPane(pane, log.entries, id, e);
    assert e.key in Put(pane, e);
    var next := panes[e.start := Put(pane, e)];
    forall s: u64 | s >= Cutoff(log, shape)
      ensures PaneOf(PaneAt(next, s), log.entries + [e], id, s)
    {
      assert PaneOf(PaneAt(panes, s), log.entries, id, s);
      if s != e.start {
        assert PaneAt(next, s) == PaneAt(panes, s);
        OtherPane(PaneAt(panes, s), log.entries, id, e, s);
      }
    }
  }

  // ---------- the store ----------

  class KllWindowStore {
    const cfg: Config
    const shape: Shape
    var closedUntil: u64
    var panes: Panes
    ghost var log: Log

    ghost predicate Valid()
      reads this
    {
      && shape.Valid()
      && closedUntil == log.closedUntil
      && LogOk(log, cfg, shape)
      && Represents(panes, log, cfg.identity, shape)
    }

    constructor (cfg: Config, shape: Shape)
      requires shape.Valid()
      ensures Valid() && log == EmptyLog && this.cfg == cfg && this.shape == shape
    {
      this.cfg, this.shape := cfg, shape;
      closedUntil, panes := 0, map[];
      log := EmptyLog;
    }

    /** Mark panes complete through `now`, and expire old ones. The watermark never moves
        backward. */
    method Advance(now: u64)
      requires Valid()
      modifies this
      ensures Valid() && log == Advanced(old(log), shape, now)
    {
      hide LogOk, Represents;
      AdvanceRepresents(panes, log, cfg.identity, shape, now);
      AdvancedOk(log, cfg, shape, now);
      ghost var next := Advanced(log, shape, now);
      var boundary := Floor(now, shape.paneMs);
      if boundary <= closedUntil {
        assert next == log;
        return;
      }
      closedUntil := boundary;
      panes := SplitOff(panes, SatSub(closedUntil, shape.retentionMs));
      log := next;
    }

    /** Whether a series fits under the cap across all retained panes. */
    method Admit(key: Key) returns (ok: bool)
      requires Valid()
      ensures ok == Admits(log, shape, cfg.maxSeries, key)
    {
      hide LogOk, Represents;
      KeysAreLive(panes, log, cfg.identity, shape);
      if cfg.maxSeries == 0 || exists s :: s in panes && key in panes[s] {
        return true;
      }
      return |AllKeys(panes)| < cfg.maxSeries;
    }

    /** Put one admitted entry into its pane. */
    method Insert(start: u64, key: Key, resource: seq<KeyValue>, labels: seq<KeyValue>, items: multiset<Sample>, count: nat)
      requires Valid()
      requires Cutoff(log, shape) <= start <= log.closedUntil && start % shape.paneMs == 0
      requires Admits(log, shape, cfg.maxSeries, key)
      requires KeyFor(cfg.identity, resource, labels) == key && PaneLabels(cfg.identity, resource, labels) == (resource, labels)
      modifies this
      ensures Valid()
      ensures log == old(log).(entries := old(log).entries + [Entry(start, key, resource, labels, items, count)])
    {
      hide LogOk, Represents, KeyFor, PaneLabels, Admits;
      var e := Entry(start, key, resource, labels, items, count);
      PutRepresents(panes, log, cfg.identity, shape, e);
      PushOk(log, cfg, shape, e);
      panes := panes[start := Put(PaneAt(panes, start), e)];
      log := log.(entries := log.entries + [e]);
    }

    /** Insert a finite scalar into its event-time pane; panes the watermark has closed are
        late. */
    method Observe(o: Observation) returns (r: Result<(), Error>)
      requires Valid()
      modifies this
      ensures Valid()
      ensures (log, r) == Observed(old(log), cfg, shape, o)
    {
      hide LogOk, Represents, KeyFor, PaneLabels, Admits;
      if !o.matches {
        return Ok(());
      }
      if o.sample.None? {
        return Err(Invalid);
      }
      if o.timestampMs < closedUntil {
        return Err(LateData);
      }
      var start := Floor(o.timestampMs, shape.paneMs);
      FloorFits(o.timestampMs, shape.paneMs);
      FloorIsMonotone(log, cfg, shape, o.timestampMs);
      if start + shape.paneMs > U64_MAX {
        return Err(Invalid);
      }
      Advance(o.timestampMs);
      var (resource, labels) := PaneLabels(cfg.identity, o.resourceLabels, o.labels);
      KeysSurviveStorage(cfg.identity, o.resourceLabels, o.labels);
      var key := KeyFor(cfg.identity, resource, labels);
      var admitted := Admit(key);
      if !admitted {
        return Err(SeriesCapExceeded);
      }
      Insert(start, key, resource, labels, multiset{o.sample.value}, 1);
      return Ok(());
    }

    /** Merge one full upstream pane. */
    method MergePane(e: Envelope) returns (r: Result<(), Error>)
      requires Valid()
      modifies this
      ensures Valid()
      ensures (log, r) == PaneMerged(old(log), cfg, shape, e)
    {
      hide LogOk, Represents, KeyFor, PaneLabels, Admits;
      if !e.sketchType.KLLSketch? || e.payload.Empty? {
        return Err(Invalid);
      }
      if cfg.identity.aggId != 0 && e.aggId != cfg.identity.aggId {
        return Err(AggIdMismatch);
      }
      if e.windowStartMs % shape.paneMs != 0 || e.windowStartMs + shape.paneMs != e.windowEndMs {
        return Err(Invalid);
      }
      var decoded := DecodeSnapshot(KLLSketch, e.payload);
      if decoded.None? {
        return Err(Invalid);
      }
      if e.windowStartMs < SatSub(closedUntil, shape.retentionMs) {
        return Err(LateData);
      }
      var (resource, labels) := PaneLabels(cfg.identity, e.resourceLabels, e.labels);
      KeysSurviveStorage(cfg.identity, e.resourceLabels, e.labels);
      FloorOfMultiple(e.windowStartMs, shape.paneMs);
      var key := KeyFor(cfg.identity, resource, labels);
      Advance(e.windowEndMs);
      var admitted := Admit(key);
      if !admitted {
        return Err(SeriesCapExceeded);
      }
      Insert(e.windowStartMs, key, resource, labels, decoded.value, e.count);
      return Ok(());
    }

    /** Merge the complete panes of `[from, to)` into one envelope per series. */
    method Query(from: u64, to: u64) returns (r: Result<map<Key, Envelope>, Error>)
      requires Valid()
      ensures r.Ok? <==> Answerable(log, shape, from, to)
      ensures r.Ok? ==> IsAnswer(r.value, cfg, log, from, to)
    {
      hide LogOk, Represents, Range, Iterating;
      if from >= to || from % shape.paneMs != 0 || to % shape.paneMs != 0 {
        return Err(Invalid);
      }
      if to > closedUntil || from < SatSub(closedUntil, shape.retentionMs) {
        return Err(Invalid);
      }
      var merged := Gather(from, to);
      Finish(merged, cfg, log, from, to);
      return Ok(map k | k in merged :: EnvelopeOf(cfg, merged[k], from, to));
    }

    /** Fold the panes of `[from, to)`, by increasing start. */
    method Gather(from: u64, to: u64) returns (merged: map<Key, PaneSeries>)
      requires Valid() && Cutoff(log, shape) <= from <= to
      ensures Gathered(merged, log.entries, cfg.identity, from, to)
    {
      hide LogOk, Represents, Range, Gathered;
      var rest: set<u64> := set s | s in panes && from <= s < to;
      merged := map[];
      ghost var bound: int := from;
      NothingGathered(log, cfg.identity, from);
      while rest != {}
        invariant from <= bound <= to
        invariant forall s: u64 :: s in rest <==> s in panes && bound <= s < to
        invariant Gathered(merged, log.entries, cfg.identity, from, bound)
        decreases |rest|
      {
        var s := First(rest);
        GatherPane(panes, log, cfg.identity, shape, merged, from, bound, s);
        merged := Join(merged, panes[s]);
        rest := rest - {s};
        bound := s + 1;
      }
      GatherLast(panes, log, cfg.identity, shape, merged, from, bound, to);
    }
  }

  function EnvelopeOf(cfg: Config, p: PaneSeries, from: u64, to: u64): Envelope {
    SketchEnvelope(1, KLLSketch, cfg.identity.aggId, p.resourceLabels, p.labels, from, to,
                   SnapshotBytes(KLLSketch, p.items), cfg.metricName, p.count, 0)
  }

  /** Every series of a pane merged into the result so far. */
  function Join(merged: map<Key, PaneSeries>, pane: map<Key, PaneSeries>): map<Key, PaneSeries> {
    map k | k in merged.Keys + pane.Keys ::
      if k !in pane then merged[k]
      else if k !in merged then pane[k]
      else JoinSeries(merged[k], pane[k])
  }

  function JoinSeries(p: PaneSeries, q: PaneSeries): PaneSeries {
    p.(items := p.items + q.items, count := p.count + q.count)
  }

  /** `merged` is the fold of all entries in `[from, bound)`. */
  ghost predicate Gathered(merged: map<Key, PaneSeries>, entries: seq<Entry>, id: Identity, from: int, bound: int) {
    && (forall k :: k in merged <==> Range(entries, from, bound, k) != [])
    && forall k :: k in merged ==> SeriesOf(merged[k], Range(entries, from, bound, k), id, k)
  }

  lemma {:induction false} NothingGathered(log: Log, id: Identity, from: int)
    ensures Gathered(map[], log.entries, id, from, from)
  {
    forall k: Key
      ensures Range(log.entries, from, from, k) == []
    {
      RangeNone(log.entries, from, from, k);
    }
  }

  /** Between two neighbouring panes there is no entry. */
  lemma {:induction false} GapIsEmpty(panes: Panes, log: Log, id: Identity, shape: Shape, bound: int, s: int)
    requires Represents(panes, log, id, shape) && Cutoff(log, shape) <= bound
    requires forall t: u64 :: bound <= t < s ==> t !in panes
    ensures forall k: Key :: Range(log.entries, bound, s, k) == []
  {
    hide SeriesOf;
    forall i | 0 <= i < |log.entries|
      ensures !(bound <= log.entries[i].start < s)
    {
      var t := log.entries[i].start;
      RangeMember(log.entries, t as int, t as int + 1, i);
      assert At(log.entries, t, log.entries[i].key) != [];
      assert t >= Cutoff(log, shape) ==> PaneOf(PaneAt(panes, t), log.entries, id, t);
    }
    forall k: Key
      ensures Range(log.entries, bound, s, k) == []
    {
      RangeNone(log.entries, bound, s, k);
    }
  }

  /** Adding an empty stretch changes nothing for a series. */
  lemma {:induction false} SeriesGap(merged: map<Key, PaneSeries>, log: Log, id: Identity, from: int, bound: int, to: int, k: Key)
    requires Gathered(merged, log.entries, id, from, bound) && from <= bound <= to && Range(log.entries, bound, to, k) == []
    ensures k in merged <==> Range(log.entries, from, to, k) != []
    ensures k in merged ==> SeriesOf(merged[k], Range(log.entries, from, to, k), id, k)
  {
    RangesAddUp(log.entries, from, bound, to, k);
    assert k in merged ==> SeriesOf(merged[k], Range(log.entries, from, bound, k), id, k);
    hide Range, KeyFor, PaneLabels;
  }

  lemma {:induction false} GatherGap(merged: map<Key, PaneSeries>, log: Log, id: Identity, from: int, bound: int, to: int)
    requires Gathered(merged, log.entries, id, from, bound) && from <= bound <= to
    requires forall k: Key :: Range(log.entries, bound, to, k) == []
    ensures Gathered(merged, log.entries, id, from, to)
  {
    hide Range, SeriesOf;
    forall k: Key
      ensures k in merged <==> Range(log.entries, from, to, k) != []
      ensures k in merged ==> SeriesOf(merged[k], Range(log.entries, from, to, k), id, k)
    {
      SeriesGap(merged, log, id, from, bound, to, k);
    }
  }

  lemma {:induction false} GatherPane(panes: Panes, log: Log, id: Identity, shape: Shape, merged: map<Key, PaneSeries>, from: int, bound: int, s: u64)
    requires Represents(panes, log, id, shape) && s in panes
    requires Gathered(merged, log.entries, id, from, bound) && Cutoff(log, shape) <= from <= bound <= s
    requires forall t: u64 :: bound <= t < s ==> t !in panes
    ensures Gathered(Join(merged, panes[s]), log.entries, id, from, s + 1)
  {
    hide PaneOf, Gathered, Join, Range;
    GapIsEmpty(panes, log, id, shape, bound, s);
    GatherGap(merged, log, id, from, bound, s);
    assert PaneOf(PaneAt(panes, s), log.entries, id, s);
    JoinGathers(merged, panes[s], log.entries, id, from, s);
  }

  lemma {:induction false} GatherLast(panes: Panes, log: Log, id: Identity, shape: Shape, merged: map<Key, PaneSeries>, from: int, bound: int, to: int)
    requires Represents(panes, log, id, shape)
    requires Gathered(merged, log.entries, id, from, bound) && Cutoff(log, shape) <= from <= bound <= to
    requires forall t: u64 :: bound <= t < to ==> t !in panes
    ensures Gathered(merged, log.entries, id, from, to)
  {
    hide PaneOf, Gathered, Range;
    GapIsEmpty(panes, log, id, shape, bound, to);
    GatherGap(merged, log, id, from, bound, to);
  }

  lemma {:induction false} JoinGathers(merged: map<Key, PaneSeries>, pane: map<Key, PaneSeries>, entries: seq<Entry>, id: Identity, from: int, s: u64)
    requires Gathered(merged, entries, id, from, s) && PaneOf(pane, entries, id, s) && from <= s
    ensures Gathered(Join(merged, pane), entries, id, from, s + 1)
  {
    hide Range, At, SeriesOf, JoinSeries;
    forall k: Key
      ensures Range(entries, from, s + 1, k) == [] <==> k !in merged && k !in pane
      ensures k in Join(merged, pane) ==> SeriesOf(Join(merged, pane)[k], Range(entries, from, s + 1, k), id, k)
    {
      var a, b := Range(entries, from, s, k), At(entries, s, k);
      AtExtends(entries, from, s, k);
      if k in merged && k in pane {
        JoinBoth(merged[k], a, pane[k], b, Range(entries, from, s + 1, k), id, k);
      } else if k in merged {
        JoinNone(merged[k], a, b, Range(entries, from, s + 1, k), id, k);
      } else if k in pane {
        JoinNone(pane[k], b, a, Range(entries, from, s + 1, k), id, k);
      }
    }
  }

  lemma {:induction false} AtExtends(entries: seq<Entry>, from: int, s: int, k: Key)
    requires from <= s
    ensures ItemsOf(Range(entries, from, s + 1, k)) == ItemsOf(Range(entries, from, s, k)) + ItemsOf(At(entries, s, k))
    ensures CountOf(Range(entries, from, s + 1, k)) == CountOf(Range(entries, from, s, k)) + CountOf(At(entries, s, k))
    ensures Range(entries, from, s + 1, k) == [] <==> Range(entries, from, s, k) == [] && At(entries, s, k) == []
  {
    RangesAddUp(entries, from, s, s + 1, k);
  }

  lemma {:induction false} JoinBoth(p: PaneSeries, a: seq<Entry>, q: PaneSeries, b: seq<Entry>, all: seq<Entry>, id: Identity, k: Key)
    requires SeriesOf(p, a, id, k) && SeriesOf(q, b, id, k)
    requires ItemsOf(all) == ItemsOf(a) + ItemsOf(b) && CountOf(all) == CountOf(a) + CountOf(b)
    ensures SeriesOf(JoinSeries(p, q), all, id, k)
  {
  }

  lemma {:induction false} JoinNone(p: PaneSeries, a: seq<Entry>, b: seq<Entry>, all: seq<Entry>, id: Identity, k: Key)
    requires SeriesOf(p, a, id, k) && b == []
    requires (ItemsOf(all) == ItemsOf(a) + ItemsOf(b) && CountOf(all) == CountOf(a) + CountOf(b))
      || (ItemsOf(all) == ItemsOf(b) + ItemsOf(a) && CountOf(all) == CountOf(b) + CountOf(a))
    ensures SeriesOf(p, all, id, k)
  {
  }

  lemma {:induction false} Finish(merged: map<Key, PaneSeries>, cfg: Config, log: Log, from: u64, to: u64)
    requires Gathered(merged, log.entries, cfg.identity, from, to)
    ensures IsAnswer(map k | k in merged :: EnvelopeOf(cfg, merged[k], from, to), cfg, log, from, to)
  {
    hide Range, At, ItemsOf, CountOf, KeyFor, PaneLabels;
  }
}
