/** Retained KLL panes as a plain log: what each input of the store adds to the log, and
    what a range of panes answers. */
module KllWindows {
  import opened Basics
  import opened Envelopes
  import opened SeriesKeys

  type Key = seq<byte>
  type Envelope = SketchEnvelope<Payload>

  datatype Config = Config(identity: Identity, maxSeries: u64, metricName: Text)

  /** A scalar observation; `matches` is whether the config's matchers accept it and
      `sample` is None when it is not a finite scalar. */
  datatype Observation = Observation(
    timestampMs: u64, matches: bool, sample: Option<Sample>, resourceLabels: seq<KeyValue>, labels: seq<KeyValue>)

  datatype Error = Invalid | LateData | SeriesCapExceeded | AggIdMismatch

  /** One admitted contribution to a pane: a scalar, or a whole upstream sketch. */
  datatype Entry = Entry(
    start: u64, key: Key, resourceLabels: seq<KeyValue>, labels: seq<KeyValue>, items: multiset<Sample>, count: nat)

  /** The shape of the panes: width and retention in milliseconds. */
  datatype Shape = Shape(paneMs: u64, retentionMs: u64) {
    ghost predicate Valid() {
      0 < paneMs <= retentionMs && retentionMs % paneMs == 0
    }
  }

  // ---------- the plain log ----------

  /** All a naive store keeps: the watermark, and everything admitted. */
  datatype Log = Log(closedUntil: u64, entries: seq<Entry>)

  const EmptyLog := Log(0, [])

  function Floor(t: u64, pane: u64): u64
    requires pane > 0
  {
    FloorFits(t, pane);
    t / pane * pane
  }

  lemma {:induction false} FloorFits(t: u64, pane: u64)
    requires pane > 0
    ensures 0 <= t / pane * pane <= t < t / pane * pane + pane
    ensures t / pane * pane % pane == 0
  {
    var q, r := t / pane, t % pane;
    assert t == q * pane + r;
    DivUnique(q * pane, q, pane, 0);
  }

  ghost function Cutoff(log: Log, shape: Shape): u64 {
    SatSub(log.closedUntil, shape.retentionMs)
  }

  ghost function Advanced(log: Log, shape: Shape, now: u64): Log
    requires shape.paneMs > 0
  {
    log.(closedUntil := Max(log.closedUntil, Floor(now, shape.paneMs)))
  }

  /** The series of the panes within retention. */
  ghost function LiveKeys(log: Log, shape: Shape): set<Key> {
    set i | 0 <= i < |log.entries| && log.entries[i].start >= Cutoff(log, shape) :: log.entries[i].key
  }

  ghost predicate Admits(log: Log, shape: Shape, maxSeries: u64, key: Key) {
    maxSeries == 0 || key in LiveKeys(log, shape) || |LiveKeys(log, shape)| < maxSeries
  }

  /** The entry of an observation. */
  ghost function ObservedEntry(cfg: Config, shape: Shape, o: Observation): Entry
    requires shape.paneMs > 0 && o.sample.Some?
  {
    var (resource, labels) := PaneLabels(cfg.identity, o.resourceLabels, o.labels);
    Entry(Floor(o.timestampMs, shape.paneMs), KeyFor(cfg.identity, resource, labels), resource, labels, multiset{o.sample.value}, 1)
  }

  /** The outcome of an observation, decided from the log alone. */
  ghost function Observed(log: Log, cfg: Config, shape: Shape, o: Observation): (Log, Result<(), Error>)
    requires shape.paneMs > 0
  {
    if !o.matches then (log, Ok(()))
    else if o.sample.None? then (log, Err(Invalid))
    else if o.timestampMs < log.closedUntil then (log, Err(LateData))
    else if Floor(o.timestampMs, shape.paneMs) + shape.paneMs > U64_MAX then (log, Err(Invalid))
    else
      var advanced := Advanced(log, shape, o.timestampMs);
      var e := ObservedEntry(cfg, shape, o);
      if Admits(advanced, shape, cfg.maxSeries, e.key) then (advanced.(entries := advanced.entries + [e]), Ok(()))
      else (advanced, Err(SeriesCapExceeded))
  }

  ghost function MergedEntry(cfg: Config, e: Envelope, items: multiset<Sample>): Entry {
    var (resource, labels) := PaneLabels(cfg.identity, e.resourceLabels, e.labels);
    Entry(e.windowStartMs, KeyFor(cfg.identity, resource, labels), resource, labels, items, e.count)
  }

  /** The outcome of merging one upstream pane. */
  ghost function PaneMerged(log: Log, cfg: Config, shape: Shape, e: Envelope): (Log, Result<(), Error>)
    requires shape.paneMs > 0
  {
    if !e.sketchType.KLLSketch? || e.payload.Empty? then (log, Err(Invalid))
    else if cfg.identity.aggId != 0 && e.aggId != cfg.identity.aggId then (log, Err(AggIdMismatch))
    else if e.windowStartMs % shape.paneMs != 0 || e.windowStartMs + shape.paneMs != e.windowEndMs then (log, Err(Invalid))
    else
      match DecodeSnapshot(KLLSketch, e.payload)
      case None => (log, Err(Invalid))
      case Some(items) =>
        if e.windowStartMs < Cutoff(log, shape) then (log, Err(LateData))
        else
          var advanced := Advanced(log, shape, e.windowEndMs);
          var entry := MergedEntry(cfg, e, items);
          if Admits(advanced, shape, cfg.maxSeries, entry.key) then (advanced.(entries := advanced.entries + [entry]), Ok(()))
          else (advanced, Err(SeriesCapExceeded))
  }

  /** The entries of one series with a pane in `[from, to)`. */
  ghost function Range(entries: seq<Entry>, from: int, to: int, key: Key): seq<Entry> {
    if entries == [] then []
    else
      var e := entries[|entries| - 1];
      Range(entries[..|entries| - 1], from, to, key) + if from <= e.start < to && e.key == key then [e] else []
  }

  ghost function ItemsOf(entries: seq<Entry>): multiset<Sample> {
    if entries == [] then multiset{} else ItemsOf(entries[..|entries| - 1]) + entries[|entries| - 1].items
  }

  ghost function CountOf(entries: seq<Entry>): nat {
    if entries == [] then 0 else CountOf(entries[..|entries| - 1]) + entries[|entries| - 1].count
  }

  ghost predicate Aligned(shape: Shape, from: u64, to: u64)
    requires shape.paneMs > 0
  {
    from < to && from % shape.paneMs == 0 && to % shape.paneMs == 0
  }

  /** A range that can be answered. */
  ghost predicate Answerable(log: Log, shape: Shape, from: u64, to: u64)
    requires shape.paneMs > 0
  {
    Aligned(shape, from, to) && to <= log.closedUntil && from >= Cutoff(log, shape)
  }

  /** `e` answers for one series: exactly its contributions within the range. */
  ghost predicate Answers(e: Envelope, cfg: Config, log: Log, from: u64, to: u64, key: Key) {
    var entries := Range(log.entries, from, to, key);
    && e.sketchType == KLLSketch && e.aggId == cfg.identity.aggId && e.metricName == cfg.metricName
    && e.windowStartMs == from && e.windowEndMs == to
    && e.payload == SnapshotBytes(KLLSketch, ItemsOf(entries))
    && e.count == CountOf(entries)
    && KeyFor(cfg.identity, e.resourceLabels, e.labels) == key
    && PaneLabels(cfg.identity, e.resourceLabels, e.labels) == (e.resourceLabels, e.labels)
  }

  /** The answer to a range query: one envelope per series with a contribution. */
  ghost predicate IsAnswer(answer: map<Key, Envelope>, cfg: Config, log: Log, from: u64, to: u64) {
    && (forall k :: k in answer <==> Range(log.entries, from, to, k) != [])
    && forall k :: k in answer ==> Answers(answer[k], cfg, log, from, to, k)
  }

  // ---------- facts about ranges ----------

  lemma {:induction false} RangeConcat(a: seq<Entry>, b: seq<Entry>, from: int, to: int, key: Key)
    ensures Range(a + b, from, to, key) == Range(a, from, to, key) + Range(b, from, to, key)
    decreases |b|
  {
    if b == [] {
      assert a + b == a;
    } else {
      RangeConcat(a, b[..|b| - 1], from, to, key);
      assert (a + b)[..|a + b| - 1] == a + b[..|b| - 1];
    }
  }

  lemma {:induction false} FoldConcat(a: seq<Entry>, b: seq<Entry>)
    ensures ItemsOf(a + b) == ItemsOf(a) + ItemsOf(b) && CountOf(a + b) == CountOf(a) + CountOf(b)
    decreases |b|
  {
    if b == [] {
      assert a + b == a;
    } else {
      FoldConcat(a, b[..|b| - 1]);
      assert (a + b)[..|a + b| - 1] == a + b[..|b| - 1];
    }
  }

  lemma {:induction false} RangePush(entries: seq<Entry>, from: int, to: int, key: Key)
    requires entries != []
    ensures var init, last := entries[..|entries| - 1], entries[|entries| - 1];
      var inRange := from <= last.start < to && last.key == key;
      && ItemsOf(Range(entries, from, to, key)) == ItemsOf(Range(init, from, to, key)) + (if inRange then last.items else multiset{})
      && CountOf(Range(entries, from, to, key)) == CountOf(Range(init, from, to, key)) + (if inRange then last.count else 0)
      && (Range(entries, from, to, key) == [] <==> Range(init, from, to, key) == [] && !inRange)
  {
    var init, last := entries[..|entries| - 1], entries[|entries| - 1];
    if from <= last.start < to && last.key == key {
      FoldConcat(Range(init, from, to, key), [last]);
      FoldOne(last);
    } else {
      assert Range(init, from, to, key) + [] == Range(init, from, to, key);
    }
  }

  /** Answers add up over adjacent ranges. */
  lemma {:induction false} RangesAddUp(entries: seq<Entry>, from: int, mid: int, to: int, key: Key)
    requires from <= mid <= to
    ensures ItemsOf(Range(entries, from, to, key)) == ItemsOf(Range(entries, from, mid, key)) + ItemsOf(Range(entries, mid, to, key))
    ensures CountOf(Range(entries, from, to, key)) == CountOf(Range(entries, from, mid, key)) + CountOf(Range(entries, mid, to, key))
    ensures Range(entries, from, to, key) == [] <==> Range(entries, from, mid, key) == [] && Range(entries, mid, to, key) == []
    decreases |entries|
  {
    if entries != [] {
      RangesAddUp(entries[..|entries| - 1], from, mid, to, key);
      RangePush(entries, from, to, key);
      RangePush(entries, from, mid, key);
      RangePush(entries, mid, to, key);
      hide Range, ItemsOf, CountOf;
    }
  }

  lemma {:induction false} FoldOne(e: Entry)
    ensures ItemsOf([e]) == e.items && CountOf([e]) == e.count
  {
    assert [e][..0] == [];
  }

  lemma {:induction false} RangeNone(entries: seq<Entry>, from: int, to: int, key: Key)
    requires forall i :: 0 <= i < |entries| ==> !(from <= entries[i].start < to)
    ensures Range(entries, from, to, key) == []
    decreases |entries|
  {
    if entries != [] {
      RangeNone(entries[..|entries| - 1], from, to, key);
    }
  }

  lemma {:induction false} RangeMember(entries: seq<Entry>, from: int, to: int, i: nat)
    requires i < |entries| && from <= entries[i].start < to
    ensures entries[i] in Range(entries, from, to, entries[i].key)
    decreases |entries|
  {
    if i < |entries| - 1 {
      RangeMember(entries[..|entries| - 1], from, to, i);
    }
  }

  lemma {:induction false} RangeComesFrom(entries: seq<Entry>, from: int, to: int, key: Key)
    ensures forall e :: e in Range(entries, from, to, key) ==> e in entries && from <= e.start < to && e.key == key
    decreases |entries|
  {
    if entries != [] {
      RangeComesFrom(entries[..|entries| - 1], from, to, key);
    }
  }

  // ---------- what every run keeps ----------

  /** Entries lie in panes that have begun by the watermark, and within the cap. */
  ghost predicate LogOk(log: Log, cfg: Config, shape: Shape)
    requires shape.paneMs > 0
  {
    && log.closedUntil % shape.paneMs == 0
    && (forall i :: 0 <= i < |log.entries| ==>
         && log.entries[i].start % shape.paneMs == 0
         && log.entries[i].start <= log.closedUntil
         && KeyFor(cfg.identity, log.entries[i].resourceLabels, log.entries[i].labels) == log.entries[i].key
         && PaneLabels(cfg.identity, log.entries[i].resourceLabels, log.entries[i].labels)
            == (log.entries[i].resourceLabels, log.entries[i].labels))
    && (cfg.maxSeries > 0 ==> |LiveKeys(log, shape)| <= cfg.maxSeries)
  }

  lemma {:induction false} AdvancedOk(log: Log, cfg: Config, shape: Shape, now: u64)
    requires shape.Valid() && LogOk(log, cfg, shape)
    ensures LogOk(Advanced(log, shape, now), cfg, shape)
    ensures LiveKeys(Advanced(log, shape, now), shape) <= LiveKeys(log, shape)
  {
    hide KeyFor, PaneLabels;
    FloorFits(now, shape.paneMs);
    SubsetSize(LiveKeys(Advanced(log, shape, now), shape), LiveKeys(log, shape));
  }

  lemma {:induction false} PushOk(log: Log, cfg: Config, shape: Shape, e: Entry)
    requires shape.Valid() && LogOk(log, cfg, shape)
    requires Admits(log, shape, cfg.maxSeries, e.key)
    requires e.start % shape.paneMs == 0 && e.start <= log.closedUntil
    requires KeyFor(cfg.identity, e.resourceLabels, e.labels) == e.key
    requires PaneLabels(cfg.identity, e.resourceLabels, e.labels) == (e.resourceLabels, e.labels)
    ensures LogOk(log.(entries := log.entries + [e]), cfg, shape)
  {
    hide KeyFor, PaneLabels;
    var next := log.(entries := log.entries + [e]);
    assert LiveKeys(next, shape) <= LiveKeys(log, shape) + {e.key};
    SubsetSize(LiveKeys(next, shape), LiveKeys(log, shape) + {e.key});
    if e.key in LiveKeys(log, shape) {
      assert LiveKeys(log, shape) + {e.key} == LiveKeys(log, shape);
    }
  }

  lemma {:induction false} ObservedOk(log: Log, cfg: Config, shape: Shape, o: Observation)
    requires shape.Valid() && LogOk(log, cfg, shape)
    ensures LogOk(Observed(log, cfg, shape, o).0, cfg, shape)
    ensures log.closedUntil <= Observed(log, cfg, shape, o).0.closedUntil
    ensures log.entries <= Observed(log, cfg, shape, o).0.entries
    ensures forall i :: |log.entries| <= i < |Observed(log, cfg, shape, o).0.entries| ==>
      Observed(log, cfg, shape, o).0.entries[i].start >= log.closedUntil
  {
    hide KeyFor, PaneLabels, LogOk, Admits;
    if o.matches && o.sample.Some? && o.timestampMs >= log.closedUntil {
      FloorFits(o.timestampMs, shape.paneMs);
      AdvancedOk(log, cfg, shape, o.timestampMs);
      KeysSurviveStorage(cfg.identity, o.resourceLabels, o.labels);
      var e := ObservedEntry(cfg, shape, o);
      FloorIsMonotone(log, cfg, shape, o.timestampMs);
      if Admits(Advanced(log, shape, o.timestampMs), shape, cfg.maxSeries, e.key) {
        PushOk(Advanced(log, shape, o.timestampMs), cfg, shape, e);
      }
    }
  }

  lemma {:induction false} FloorIsMonotone(log: Log, cfg: Config, shape: Shape, t: u64)
    requires shape.Valid() && LogOk(log, cfg, shape) && t >= log.closedUntil
    ensures Floor(t, shape.paneMs) >= log.closedUntil
  {
    hide LogOk;
    var p, c := shape.paneMs, log.closedUntil;
    assert c % p == 0 by { WatermarkAligned(log, cfg, shape); }
    DivMonotone(c, t, p);
    MulMonotone(c / p, t / p, p);
  }

  lemma {:induction false} WatermarkAligned(log: Log, cfg: Config, shape: Shape)
    requires shape.Valid() && LogOk(log, cfg, shape)
    ensures log.closedUntil % shape.paneMs == 0
  {
  }

  lemma {:induction false} PaneMergedOk(log: Log, cfg: Config, shape: Shape, e: Envelope)
    requires shape.Valid() && LogOk(log, cfg, shape)
    ensures LogOk(PaneMerged(log, cfg, shape, e).0, cfg, shape)
  {
    hide KeyFor, PaneLabels, LogOk, Admits;
    var (next, r) := PaneMerged(log, cfg, shape, e);
    if next != log {
      var items := DecodeSnapshot(KLLSketch, e.payload).value;
      FloorOfMultiple(e.windowStartMs, shape.paneMs);
      AdvancedOk(log, cfg, shape, e.windowEndMs);
      KeysSurviveStorage(cfg.identity, e.resourceLabels, e.labels);
      var entry := MergedEntry(cfg, e, items);
      var advanced := Advanced(log, shape, e.windowEndMs);
      assert entry.start <= advanced.closedUntil;
      if Admits(advanced, shape, cfg.maxSeries, entry.key) {
        PushOk(advanced, cfg, shape, entry);
      }
    }
  }

  /** The end of an aligned pane is its own floor. */
  lemma {:induction false} FloorOfMultiple(start: u64, pane: u64)
    requires pane > 0 && start % pane == 0 && start + pane <= U64_MAX
    ensures Floor(start + pane, pane) == start + pane
  {
    var q := start / pane;
    assert start == q * pane + 0;
    assert start + pane == (q + 1) * pane + 0;
    DivUnique(start + pane, q + 1, pane, 0);
  }

  // ---------- the bounds ----------

  /** The retained pane starts of a log. */
  ghost function LiveStarts(log: Log, shape: Shape): set<u64> {
    set i | 0 <= i < |log.entries| && log.entries[i].start >= Cutoff(log, shape) :: log.entries[i].start
  }

  lemma {:induction false} MultiplesAreFew(starts: set<u64>, low: int, n: nat, pane: u64)
    requires pane > 0
    requires forall s :: s in starts ==> s == s / pane * pane && low <= s / pane < low + n
    ensures |starts| <= n
    decreases n
  {
    if n == 0 {
      assert starts == {};
    } else {
      var top := (low + n - 1) * pane;
      var rest := set s | s in starts && s != top;
      forall s | s in rest
        ensures s / pane != low + n - 1
      {
        assert s == s / pane * pane;
      }
      MultiplesAreFew(rest, low, n - 1, pane);
      if top in starts {
        assert starts == rest + {top};
      } else {
        assert starts == rest;
      }
    }
  }

  lemma {:induction false} QuotientSpan(c: nat, r: nat, p: nat)
    requires p > 0 && c % p == 0 && r % p == 0
    ensures c / p <= (if c < r then 0 else c - r) / p + r / p
  {
    if c < r {
      DivMonotone(c, r, p);
    } else {
      assert c == c / p * p + 0 && r == r / p * p + 0;
      assert (c / p - r / p) * p == c / p * p - r / p * p;
      DivUnique(c - r, c / p - r / p, p, 0);
    }
  }

  /** At most retention / pane + 1 panes are ever retained: the complete ones and the
      active one. */
  lemma {:induction false} RetentionIsBounded(log: Log, cfg: Config, shape: Shape)
    requires shape.Valid() && LogOk(log, cfg, shape)
    ensures forall s :: s in LiveStarts(log, shape) ==>
      s % shape.paneMs == 0 && SatSub(log.closedUntil, shape.retentionMs) <= s <= log.closedUntil
    ensures |LiveStarts(log, shape)| <= shape.retentionMs / shape.paneMs + 1
  {
    hide LogOk, LiveStarts;
    var p, c, cut := shape.paneMs, log.closedUntil, Cutoff(log, shape);
    WatermarkAligned(log, cfg, shape);
    QuotientSpan(c, shape.retentionMs, p);
    StartsAligned(log, cfg, shape);
    forall s | s in LiveStarts(log, shape)
      ensures s == s / p * p && cut / p <= s / p < cut / p + (shape.retentionMs / p + 1)
    {
      QuotientBetween(cut, s, c, p);
    }
    MultiplesAreFew(LiveStarts(log, shape), cut / p, shape.retentionMs / p + 1, p);
  }

  lemma {:induction false} QuotientBetween(low: nat, s: nat, high: nat, p: nat)
    requires p > 0 && low <= s <= high && s % p == 0
    ensures s == s / p * p && low / p <= s / p <= high / p
  {
    DivMonotone(s, high, p);
    DivMonotone(low, s, p);
  }

  lemma {:induction false} StartsAligned(log: Log, cfg: Config, shape: Shape)
    requires shape.Valid() && LogOk(log, cfg, shape)
    ensures forall s :: s in LiveStarts(log, shape) ==> s % shape.paneMs == 0 && Cutoff(log, shape) <= s <= log.closedUntil
  {
    hide KeyFor, PaneLabels;
  }
}
