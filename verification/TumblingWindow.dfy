/** The tumbling window: what was applied since the last rotation, series by series. A plain
    ledger of the applied inputs says what each operation does, and the window's entries
    are the folds of that ledger. */
module TumblingWindow {
  import opened Basics
  import opened Envelopes
  import opened SeriesKeys

  type Key = seq<byte>

  datatype OnOverflow = Drop | Block | EvictOldest

  datatype Config = Config(
    identity: Identity, sketchType: SketchType, sizeMs: nat, latenessMs: nat, maxSeries: nat, onOverflow: OnOverflow)

  /** A scalar; `sample` is None when its observer refuses it. */
  datatype Scalar = Scalar(timestampMs: nat, sample: Option<Sample>, resourceLabels: seq<KeyValue>, labels: seq<KeyValue>)

  type Envelope = SketchEnvelope<Payload>

  datatype Error = LateData | SeriesCapExceeded | Refused

  /** One input folded into a series. */
  datatype Applied = Applied(key: Key, items: multiset<Sample>, count: nat)

  // ---------- the plain ledger ----------

  /** The active bounds, when each open series was last seen, and all that was applied to the
      open series. */
  datatype Ledger = Ledger(initialized: bool, start: nat, end: nat, seen: map<Key, nat>, active: seq<Applied>)

  const Blank := Ledger(false, 0, 0, map[], [])

  ghost function Initialized(l: Ledger, ref: nat, size: nat): Ledger {
    if l.initialized then l
    else if size == 0 then l.(initialized := true, start := ref, end := ref)
    else l.(initialized := true, start := ref / size * size, end := ref / size * size + size)
  }

  /** The inputs of one series. */
  function Of(active: seq<Applied>, key: Key): seq<Applied> {
    if active == [] then []
    else
      var last := active[|active| - 1];
      Of(active[..|active| - 1], key) + if last.key == key then [last] else []
  }

  /** The inputs of all other series. */
  function Except(active: seq<Applied>, key: Key): seq<Applied> {
    if active == [] then []
    else
      var last := active[|active| - 1];
      Except(active[..|active| - 1], key) + if last.key != key then [last] else []
  }

  ghost function Items(active: seq<Applied>): multiset<Sample> {
    if active == [] then multiset{} else Items(active[..|active| - 1]) + active[|active| - 1].items
  }

  ghost function Count(active: seq<Applied>): nat {
    if active == [] then 0 else Count(active[..|active| - 1]) + active[|active| - 1].count
  }

  /** The series to evict: one seen longest ago; none if all were seen at the end of time. */
  ghost predicate IsOldest(seen: map<Key, nat>, victim: Option<Key>) {
    match victim
    case Some(k) => k in seen && seen[k] < U64_MAX && forall j :: j in seen ==> seen[k] <= seen[j]
    case None => forall j :: j in seen ==> seen[j] >= U64_MAX
  }

  ghost function Without(l: Ledger, victim: Option<Key>): Ledger {
    match victim
    case None => l
    case Some(k) => l.(seen := l.seen - {k}, active := Except(l.active, k))
  }

  ghost predicate Full(l: Ledger, cfg: Config) {
    cfg.maxSeries > 0 && |l.seen| >= cfg.maxSeries
  }

  ghost function Fold(l: Ledger, a: Option<Applied>): (Ledger, Result<(), Error>) {
    match a
    case None => (l, Err(Refused))
    case Some(a) => (l.(active := l.active + [a]), Ok(()))
  }

  ghost function SampleOf(o: Scalar, key: Key): Option<Applied> {
    match o.sample
    case None => None
    case Some(x) => Some(Applied(key, multiset{x}, 1))
  }

  /** The ledger with the series of a scalar open, or why the scalar is refused. */
  ghost function Placed(l: Ledger, cfg: Config, o: Scalar, victim: Option<Key>): (Ledger, Option<Error>) {
    var open := Initialized(l, o.timestampMs, cfg.sizeMs);
    var key := KeyFor(cfg.identity, o.resourceLabels, o.labels);
    if cfg.latenessMs > 0 && o.timestampMs + cfg.latenessMs < open.start then (open, Some(LateData))
    else if key in open.seen then (open.(seen := open.seen[key := Max(open.seen[key], o.timestampMs)]), None)
    else if Full(open, cfg) && !cfg.onOverflow.EvictOldest? then (open, Some(SeriesCapExceeded))
    else
      var room := if Full(open, cfg) then Without(open, victim) else open;
      (room.(seen := room.seen[key := o.timestampMs]), None)
  }

  /** A scalar, `victim` being the series evicted if one has to be. */
  ghost function Observed(l: Ledger, cfg: Config, o: Scalar, victim: Option<Key>): (Ledger, Result<(), Error>) {
    var (placed, refusal) := Placed(l, cfg, o, victim);
    if refusal.Some? then (placed, Err(refusal.value))
    else Fold(placed, SampleOf(o, KeyFor(cfg.identity, o.resourceLabels, o.labels)))
  }

  /** What an envelope's payload folds in: nothing if empty, nothing at all if undecodable. */
  ghost function MergedOf(e: Envelope, kind: SketchType, key: Key): Option<Applied> {
    if e.payload.Empty? then Some(Applied(key, multiset{}, e.count))
    else
      match DecodeSnapshot(kind, e.payload)
      case None => None
      case Some(items) => Some(Applied(key, items, e.count))
  }

  ghost function EnvelopeObserved(l: Ledger, cfg: Config, e: Envelope): (Ledger, Result<(), Error>) {
    var ref := if e.windowEndMs != 0 then e.windowEndMs else e.windowStartMs;
    var open := Initialized(l, ref, cfg.sizeMs);
    var key := KeyFor(cfg.identity, e.resourceLabels, e.labels);
    if key !in open.seen && Full(open, cfg) && !cfg.onOverflow.EvictOldest? then (open, Err(SeriesCapExceeded))
    else
      var held := if key in open.seen then open else open.(seen := open.seen[key := ref]);
      Fold(held, MergedOf(e, cfg.sketchType, key))
  }

  /** The next window's start: the bucket of `now`, at least one window on. */
  ghost function NextStart(start: nat, end: nat, now: nat, size: nat): nat {
    if size == 0 then now
    else if now / size * size <= start then end
    else now / size * size
  }

  ghost function Slid(l: Ledger, now: nat, size: nat): Ledger {
    var start := NextStart(l.start, l.end, now, size);
    l.(start := start, end := start + size)
  }

  ghost function Closed(l: Ledger, now: nat, size: nat): Ledger {
    Slid(l, now, size).(seen := map[], active := [])
  }

  /** Whether a rotation is due, and whether a window then goes out. */
  ghost predicate RotationDue(l: Ledger, now: nat, size: nat) {
    l.initialized && (size == 0 || now >= l.end)
  }

  ghost function Rotated(l: Ledger, now: nat, size: nat): Ledger {
    if RotationDue(l, now, size) then Closed(l, now, size) else l
  }

  ghost function Drained(l: Ledger, size: nat): Ledger {
    if l.initialized && l.seen != map[] then Closed(l, l.end, size) else l
  }

  // ---------- the window ----------

  datatype SeriesEntry = SeriesEntry(
    items: multiset<Sample>, resourceLabels: seq<KeyValue>, labels: seq<KeyValue>, lastSeenMs: nat, count: nat)

  /** A series holds the fold of its own inputs, under labels that give back its key. */
  ghost predicate EntryOf(e: SeriesEntry, key: Key, active: seq<Applied>, id: Identity) {
    && e.items == Items(Of(active, key)) && e.count == Count(Of(active, key))
    && KeyFor(id, e.resourceLabels, e.labels) == key
  }

  ghost predicate Entries(series: map<Key, SeriesEntry>, active: seq<Applied>, id: Identity) {
    Covers(series.Keys, active) && forall k :: k in series ==> EntryOf(series[k], k, active, id)
  }

  /** Whatever was applied belongs to an open series. */
  ghost predicate Covers(keys: set<Key>, active: seq<Applied>) {
    forall i :: 0 <= i < |active| ==> active[i].key in keys
  }

  function Seen(series: map<Key, SeriesEntry>): map<Key, nat> {
    map k | k in series :: series[k].lastSeenMs
  }

  lemma {:induction false} OfPush(active: seq<Applied>, a: Applied, key: Key)
    ensures Of(active + [a], key) == if a.key == key then Of(active, key) + [a] else Of(active, key)
    ensures Except(active + [a], key) == if a.key != key then Except(active, key) + [a] else Except(active, key)
  {
    assert (active + [a])[..|active|] == active;
  }

  lemma {:induction false} FoldPush(active: seq<Applied>, a: Applied)
    ensures Items(active + [a]) == Items(active) + a.items && Count(active + [a]) == Count(active) + a.count
  {
    assert (active + [a])[..|active|] == active;
  }

  lemma {:induction false} OfNone(active: seq<Applied>, key: Key)
    requires forall i :: 0 <= i < |active| ==> active[i].key != key
    ensures Of(active, key) == []
    decreases |active|
  {
    if active != [] {
      OfNone(active[..|active| - 1], key);
    }
  }

  lemma {:induction false} OfExcept(active: seq<Applied>, gone: Key, k: Key)
    ensures Of(Except(active, gone), k) == if k == gone then [] else Of(active, k)
    decreases |active|
  {
    if active != [] {
      var rest := Except(active[..|active| - 1], gone);
      OfExcept(active[..|active| - 1], gone, k);
      OfPush(rest, active[|active| - 1], k);
      assert rest + [] == rest;
      assert Of(active[..|active| - 1], k) + [] == Of(active[..|active| - 1], k);
    }
  }

  lemma {:induction false} ExceptMembers(active: seq<Applied>, gone: Key)
    ensures forall a :: a in Except(active, gone) ==> a in active && a.key != gone
    decreases |active|
  {
    if active != [] {
      ExceptMembers(active[..|active| - 1], gone);
    }
  }

  /** Nothing is lost between the two halves. */
  lemma {:induction false} ExceptSplits(active: seq<Applied>, gone: Key)
    ensures multiset(Except(active, gone)) + multiset(Of(active, gone)) == multiset(active)
    decreases |active|
  {
    if active != [] {
      ExceptSplits(active[..|active| - 1], gone);
      assert active == active[..|active| - 1] + [active[|active| - 1]];
    }
  }

  function Grown(series: map<Key, SeriesEntry>, key: Key, items: multiset<Sample>, count: nat): map<Key, SeriesEntry>
    requires key in series
  {
    var e := series[key];
    series[key := e.(items := e.items + items, count := e.count + count)]
  }

  lemma {:induction false} GrownEntry(e: SeriesEntry, active: seq<Applied>, id: Identity, a: Applied)
    requires EntryOf(e, a.key, active, id)
    ensures EntryOf(e.(items := e.items + a.items, count := e.count + a.count), a.key, active + [a], id)
  {
    OfPush(active, a, a.key);
    FoldPush(Of(active, a.key), a);
    hide KeyFor, Of, Items, Count;
  }

  lemma {:induction false} OtherEntry(e: SeriesEntry, k: Key, active: seq<Applied>, id: Identity, a: Applied)
    requires EntryOf(e, k, active, id) && k != a.key
    ensures EntryOf(e, k, active + [a], id)
  {
    OfPush(active, a, k);
  }

  lemma {:induction false} GrownSeen(series: map<Key, SeriesEntry>, key: Key, items: multiset<Sample>, count: nat)
    requires key in series
    ensures Seen(Grown(series, key, items, count)) == Seen(series)
    ensures Grown(series, key, items, count).Keys == series.Keys
  {
  }

  lemma {:induction false} GrownHolds(series: map<Key, SeriesEntry>, active: seq<Applied>, id: Identity, a: Applied)
    requires Entries(series, active, id) && a.key in series
    ensures Entries(Grown(series, a.key, a.items, a.count), active + [a], id)
  {
    GrownSeen(series, a.key, a.items, a.count);
    assert Covers(series.Keys, active + [a]);
    hide EntryOf, Covers, Grown;
    forall k | k in Grown(series, a.key, a.items, a.count)
      ensures EntryOf(Grown(series, a.key, a.items, a.count)[k], k, active + [a], id)
    {
      GrownOne(series, active, id, a, k);
    }
  }

  lemma {:induction false} GrownOne(series: map<Key, SeriesEntry>, active: seq<Applied>, id: Identity, a: Applied, k: Key)
    requires Entries(series, active, id) && a.key in series && k in series
    ensures EntryOf(Grown(series, a.key, a.items, a.count)[k], k, active + [a], id)
  {
    hide EntryOf;
    if k == a.key {
      GrownEntry(series[k], active, id, a);
    } else {
      OtherEntry(series[k], k, active, id, a);
    }
  }

  lemma {:induction false} TouchedHolds(series: map<Key, SeriesEntry>, active: seq<Applied>, id: Identity, key: Key, at: nat)
    requires Entries(series, active, id) && key in series
    ensures Entries(series[key := series[key].(lastSeenMs := at)], active, id)
    ensures Seen(series[key := series[key].(lastSeenMs := at)]) == Seen(series)[key := at]
  {
    hide KeyFor, Of, Items, Count;
  }

  lemma {:induction false} NewHolds(series: map<Key, SeriesEntry>, active: seq<Applied>, id: Identity, key: Key, e: SeriesEntry)
    requires Entries(series, active, id) && key !in series
    requires e.items == multiset{} && e.count == 0 && KeyFor(id, e.resourceLabels, e.labels) == key
    ensures Entries(series[key := e], active, id)
    ensures Seen(series[key := e]) == Seen(series)[key := e.lastSeenMs]
  {
    hide KeyFor;
    OfNone(active, key);
  }

  lemma {:induction false} EvictedHolds(series: map<Key, SeriesEntry>, active: seq<Applied>, id: Identity, key: Key)
    requires Entries(series, active, id) && key in series
    ensures Entries(series - {key}, Except(active, key), id)
    ensures Seen(series - {key}) == Seen(series) - {key}
  {
    hide KeyFor, Items, Count;
    ExceptMembers(active, key);
    forall k: Key
      ensures k != key ==> Of(Except(active, key), k) == Of(active, k)
    {
      OfExcept(active, key, k);
    }
    hide Of, Except;
  }

  /** The series and bounds of a window that went out. */
  datatype Emission = Emission(series: map<Key, SeriesEntry>, start: nat, end: nat)

  const NoEmission := Emission(map[], 0, 0)

  class WindowState {
    const cfg: Config
    var series: map<Key, SeriesEntry>
    var activeStart: nat
    var activeEnd: nat
    var initialized: bool
    ghost var active: seq<Applied>

    ghost predicate Valid()
      reads this
    {
      Entries(series, active, cfg.identity)
    }

    ghost function Abs(): Ledger
      reads this
    {
      Ledger(initialized, activeStart, activeEnd, Seen(series), active)
    }

    constructor (cfg: Config)
      ensures Valid() && Abs() == Blank && this.cfg == cfg
    {
      this.cfg := cfg;
      series, activeStart, activeEnd, initialized := map[], 0, 0, false;
      active := [];
    }

    method InitWindow(ref: nat)
      requires Valid()
      modifies this
      ensures Valid() && series == old(series) && active == old(active)
      ensures Abs() == Initialized(old(Abs()), ref, cfg.sizeMs)
    {
      if initialized {
        return;
      }
      if cfg.sizeMs == 0 {
        activeStart, activeEnd, initialized := ref, ref, true;
        return;
      }
      activeStart := ref / cfg.sizeMs * cfg.sizeMs;
      activeEnd := activeStart + cfg.sizeMs;
      initialized := true;
    }

    /** The series seen longest ago. */
    method FindOldest() returns (victim: Option<Key>)
      ensures IsOldest(Seen(series), victim)
    {
      victim := None;
      var oldest := U64_MAX;
      var rest := series.Keys;
      while rest != {}
        invariant rest <= series.Keys
        invariant victim.Some? ==> victim.value in series && series[victim.value].lastSeenMs == oldest < U64_MAX
        invariant victim.None? ==> oldest == U64_MAX
        invariant forall k :: k in series && k !in rest ==> series[k].lastSeenMs >= oldest
        decreases |rest|
      {
        var k :| k in rest;
        rest := rest - {k};
        if series[k].lastSeenMs < oldest {
          oldest := series[k].lastSeenMs;
          victim := Some(k);
        }
      }
    }

    /** Fold one input into an open series. */
    method Apply(key: Key, items: multiset<Sample>, count: nat)
      requires Valid() && key in series
      modifies `series, `active
      ensures Valid() && Abs() == old(Abs()).(active := old(active) + [Applied(key, items, count)])
    {
      hide Entries, Seen;
      GrownHolds(series, active, cfg.identity, Applied(key, items, count));
      GrownSeen(series, key, items, count);
      series := Grown(series, key, items, count);
      active := active + [Applied(key, items, count)];
    }

    method Evict(victim: Option<Key>)
      requires Valid() && IsOldest(Seen(series), victim)
      modifies `series, `active
      ensures Valid() && Abs() == Without(old(Abs()), victim)
      ensures series.Keys <= old(series.Keys)
    {
      hide Entries;
      if victim.Some? {
        EvictedHolds(series, active, cfg.identity, victim.value);
        hide Seen, Except;
        series := series - {victim.value};
        active := Except(active, victim.value);
      }
    }

    /** Open a blank series. */
    method Open(key: Key, resource: seq<KeyValue>, labels: seq<KeyValue>, at: nat)
      requires Valid() && key !in series && KeyFor(cfg.identity, resource, labels) == key
      modifies `series
      ensures Valid() && key in series && Abs() == old(Abs()).(seen := Seen(old(series))[key := at])
    {
      hide Entries, Seen, KeyFor;
      var e := SeriesEntry(multiset{}, resource, labels, at, 0);
      NewHolds(series, active, cfg.identity, key, e);
      series := series[key := e];
    }

    /** Route a scalar into its series; `victim` is what had to make room. */
    method Observe(o: Scalar) returns (r: Result<(), Error>, ghost victim: Option<Key>)
      requires Valid()
      modifies this
      ensures Valid()
      ensures (Abs(), r) == Observed(old(Abs()), cfg, o, victim)
      ensures IsOldest(Initialized(old(Abs()), o.timestampMs, cfg.sizeMs).seen, victim)
    {
      hide Entries, KeyFor, Without, IsOldest;
      InitWindow(o.timestampMs);
      assert Abs() == Initialized(old(Abs()), o.timestampMs, cfg.sizeMs);
      hide Initialized;
      SeenSize(series);
      var evicted := FindOldest();
      victim := evicted;
      if cfg.latenessMs > 0 && o.timestampMs + cfg.latenessMs < activeStart {
        return Err(LateData), victim;
      }
      var key := KeyFor(cfg.identity, o.resourceLabels, o.labels);
      if key in series {
        Touch(key, o.timestampMs);
      } else {
        if cfg.maxSeries > 0 && |series| >= cfg.maxSeries {
          if !cfg.onOverflow.EvictOldest? {
            return Err(SeriesCapExceeded), victim;
          }
          Evict(evicted);
        }
        OpenFor(key, o);
      }
      hide Seen;
      if o.sample.None? {
        return Err(Refused), victim;
      }
      Apply(key, multiset{o.sample.value}, 1);
      return Ok(()), victim;
    }

    /** Open the series of a scalar, with the labels the config keeps. */
    method OpenFor(key: Key, o: Scalar)
      requires Valid() && key !in series && key == KeyFor(cfg.identity, o.resourceLabels, o.labels)
      modifies `series
      ensures Valid() && key in series && Abs() == old(Abs()).(seen := Seen(old(series))[key := o.timestampMs])
    {
      hide Entries, Seen, KeyFor, WindowLabels;
      var (resource, labels) := WindowLabels(cfg.identity, o.resourceLabels, o.labels);
      KeysSurviveStorage(cfg.identity, o.resourceLabels, o.labels);
      Open(key, resource, labels, o.timestampMs);
    }

    /** Move a series' last-seen time forward. */
    method Touch(key: Key, at: nat)
      requires Valid() && key in series
      modifies `series
      ensures Valid() && series.Keys == old(series.Keys)
      ensures Abs() == old(Abs()).(seen := Seen(old(series))[key := Max(old(series)[key].lastSeenMs, at)])
    {
      hide Entries;
      TouchedHolds(series, active, cfg.identity, key, Max(series[key].lastSeenMs, at));
      if at > series[key].lastSeenMs {
        series := series[key := series[key].(lastSeenMs := at)];
      } else {
        assert series == series[key := series[key].(lastSeenMs := Max(series[key].lastSeenMs, at))];
      }
    }

    /** Merge an upstream sketch into its series, as a sketch. */
    method ObserveEnvelope(e: Envelope) returns (r: Result<(), Error>)
      requires Valid()
      modifies this
      ensures Valid()
      ensures (Abs(), r) == EnvelopeObserved(old(Abs()), cfg, e)
    {
      hide Entries, KeyFor;
      SeenSize(series);
      var ref := if e.windowEndMs != 0 then e.windowEndMs else e.windowStartMs;
      InitWindow(ref);
      var key := KeyFor(cfg.identity, e.resourceLabels, e.labels);
      if key !in series {
        if cfg.maxSeries > 0 && |series| >= cfg.maxSeries && (cfg.onOverflow.Drop? || cfg.onOverflow.Block?) {
          return Err(SeriesCapExceeded);
        }
        Open(key, e.resourceLabels, e.labels, ref);
      }
      if e.payload.Empty? {
        Apply(key, multiset{}, e.count);
        return Ok(());
      }
      var decoded := DecodeSnapshot(cfg.sketchType, e.payload);
      if decoded.None? {
        return Err(Refused);
      }
      Apply(key, decoded.value, e.count);
      return Ok(());
    }

    /** Close the window if it is due. */
    method Rotate(now: nat) returns (out: Emission)
      requires Valid()
      modifies this
      ensures Valid()
      ensures Abs() == Rotated(old(Abs()), now, cfg.sizeMs)
      ensures out == if RotationDue(old(Abs()), now, cfg.sizeMs) && old(series) != map[]
                     then Emission(old(series), old(activeStart), old(activeEnd)) else NoEmission
    {
      if !initialized || (cfg.sizeMs > 0 && now < activeEnd) {
        return NoEmission;
      }
      out := RotateLocked(now);
    }

    /** Close the window whether it is due or not; an empty one stays. */
    method Drain() returns (out: Emission)
      requires Valid()
      modifies this
      ensures Valid()
      ensures Abs() == Drained(old(Abs()), cfg.sizeMs)
      ensures out == if old(initialized) && old(series) != map[]
                     then Emission(old(series), old(activeStart), old(activeEnd)) else NoEmission
    {
      SeenSize(series);
      if !initialized || series == map[] {
        return NoEmission;
      }
      out := RotateLocked(activeEnd);
    }

    method RotateLocked(now: nat) returns (out: Emission)
      requires Valid() && initialized
      modifies this
      ensures Valid()
      ensures Abs() == Closed(old(Abs()), now, cfg.sizeMs)
      ensures out == if old(series) != map[] then Emission(old(series), old(activeStart), old(activeEnd)) else NoEmission
    {
      hide NextStart, Entries;
      BlankEntries(cfg.identity);
      SeenSize(series);
      SeenSize(map[]);
      if series == map[] {
        if active != [] {
          AppliedIsHeld(series, active, cfg.identity);
        }
        AdvanceWindow(now);
        return NoEmission;
      }
      out := Emission(series, activeStart, activeEnd);
      series := map[];
      active := [];
      AdvanceWindow(now);
    }

    /** Move the bounds to the bucket of `now`, at least one window on. */
    method AdvanceWindow(now: nat)
      modifies `activeStart, `activeEnd
      ensures activeStart == NextStart(old(activeStart), old(activeEnd), now, cfg.sizeMs) && activeEnd == activeStart + cfg.sizeMs
    {
      if cfg.sizeMs == 0 {
        activeStart, activeEnd := now, now;
        return;
      }
      var bucket := now / cfg.sizeMs * cfg.sizeMs;
      if bucket <= activeStart {
        activeStart := activeEnd;
      } else {
        activeStart := bucket;
      }
      activeEnd := activeStart + cfg.sizeMs;
    }
  }

  lemma {:induction false} SeenSize(series: map<Key, SeriesEntry>)
    ensures Seen(series).Keys == series.Keys && |Seen(series)| == |series|
    ensures Seen(series) == map[] <==> series == map[]
  {
    assert |Seen(series)| == |Seen(series).Keys| && |series| == |series.Keys|;
  }

  lemma {:induction false} BlankEntries(id: Identity)
    ensures Entries(map[], [], id) && Seen(map[]) == map[]
  {
  }

  lemma {:induction false} AppliedIsHeld(series: map<Key, SeriesEntry>, active: seq<Applied>, id: Identity)
    requires Entries(series, active, id) && active != []
    ensures series != map[]
  {
    assert active[0].key in series;
  }
}
