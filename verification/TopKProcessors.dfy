/** The keyed top-k branch, merge, estimate and backend: each method does to its fields what the
    stage does to its lanes. */
module TopKProcessors {
  import opened Basics
  import opened BenchNormalizer
  import opened BenchStreams
  import opened Rankings
  import opened Sorting
  import opened TopKCounts
  import opened TopKStages

  // ---------- a branch ----------

  /** What a branch holds of one window. */
  datatype BranchWindow = BranchWindow(received: nat, counts: Counts)

  function BranchHeld(windows: map<nat, BranchWindow>, w: nat): BranchWindow {
    if w in windows then windows[w] else BranchWindow(0, map[])
  }

  /** The one window a branch may hold is its open one. */
  ghost predicate BranchHolds(windows: map<nat, BranchWindow>, st: BranchStage) {
    && windows.Keys == st.pending && st.pending <= {|st.lane.full|}
    && BranchHeld(windows, |st.lane.full|) == BranchWindow(|st.lane.open|, CountsOf(st.lane.open))
  }

  class TopKBranch {
    const b: TopBench
    const source: nat
    var windows: map<nat, BranchWindow>
    var next: nat
    ghost var stage: BranchStage

    ghost predicate Valid()
      reads this
    {
      b.Valid() && source < 2 && BranchOk(stage, b) && next == |stage.lane.full| && BranchHolds(windows, stage)
    }

    constructor (b: TopBench, source: nat)
      requires b.Valid() && source < 2
      ensures Valid() && stage == BranchStage(NoLane(), {}) && this.b == b && this.source == source
    {
      this.b, this.source := b, source;
      windows, next := map[], 0;
      stage := BranchStage(NoLane(), {});
    }

    /** Count a batch of keys; a finished window's counts go out entry by entry, in whatever
        order the map iterates. */
    method ProcessNormalized(n: NormalizedBatch) returns (r: Outcome, ghost listing: seq<Keyed>)
      requires Valid() && (n.meta.source < 2 ==> n.meta.source == source)
      modifies this
      ensures Valid()
      ensures (stage, r) == BranchTaken(old(stage), b, n, listing)
      ensures |stage.lane.full| > |old(stage).lane.full| ==> IsListing(listing, CountsOf(stage.lane.full[|old(stage).lane.full|]))
    {
      hide CountsOf, KeysFrom, IsListing, BranchCounted;
      listing := [];
      var m := n.meta;
      if m.source > 1 || m.window != next {
        return Err(OutOfOrder), [];
      }
      var w := m.window;
      windows := windows[w := BranchHeld(windows, w)];
      stage := stage.(pending := stage.pending + {w});
      if m.offset != windows[w].received || m.offset + n.count > b.points {
        return Err(MissingBatch), [];
      }
      r, listing := Count(KeysFrom(b, n.firstIndex, n.count), w);
    }

    /** Count the keys of the held window; it goes out if it is finished. */
    method Count(keys: seq<Key>, w: nat) returns (r: Outcome, ghost listing: seq<Keyed>)
      requires Valid() && w == |stage.lane.full| && w in windows && |stage.lane.open| + |keys| <= b.points
      modifies this
      ensures Valid()
      ensures (stage, r) == BranchCounted(old(stage), b, keys, source, listing)
      ensures |stage.lane.full| > w ==> IsListing(listing, CountsOf(stage.lane.full[w]))
    {
      hide CountsOf, Chunked, IsListing, Took;
      var counts := CountKeys(windows[w].counts, stage.lane.open, keys);
      var received := windows[w].received + |keys|;
      TookKeys(stage.lane, keys, b.points);
      if received < b.points {
        stage := stage.(lane := Took(stage.lane, keys, b.points));
        windows := windows[w := BranchWindow(received, counts)];
        return if |windows| > MAX_PENDING then Err(PendingBound) else Ok([]), [];
      }
      stage := BranchStage(Took(stage.lane, keys, b.points), stage.pending - {w});
      next := next + 1;
      windows := windows - {w};
      NothingHeld();
      var entries := ListEntries(counts);
      listing := entries;
      var chunks := Chunks(entries, b.batch, w, source);
      r := Ok(chunks);
    }
  }

  lemma {:induction false} TookKeys(lane: Lane<Key>, keys: seq<Key>, size: nat)
    ensures |lane.open| + |keys| == size ==> Took(lane, keys, size) == Lane(lane.full + [lane.open + keys], [])
    ensures |lane.open| + |keys| != size ==> Took(lane, keys, size) == Lane(lane.full, lane.open + keys)
  {
  }

  lemma {:induction false} NothingHeld()
    ensures CountsOf([]) == map[]
  {
  }

  /** Count more keys into counts. */
  method CountKeys(counts: Counts, ghost before: seq<Key>, keys: seq<Key>) returns (r: Counts)
    requires counts == CountsOf(before)
    ensures r == CountsOf(before + keys)
  {
    hide Bump;
    r := counts;
    assert before + keys[..0] == before;
    for n := 0 to |keys|
      invariant r == CountsOf(before + keys[..n])
    {
      assert (before + keys[..n + 1])[..|before| + n] == before + keys[..n];
      r := Bump(r, keys[n], 1);
    }
    assert keys[..|keys|] == keys;
  }

  // ---------- the merge and the estimate ----------

  /** What is held of one window: per source, how many entries have come and how many there
      are; and the counts so far. */
  datatype Window = Window(received: seq<nat>, totals: seq<Option<nat>>, counts: Counts)

  const NoWindow := Window([0, 0, 0], [None, None, None], map[])

  function Held(windows: map<nat, Window>, w: nat): Window {
    if w in windows then windows[w] else NoWindow
  }

  /** How many entries a window is known to have in a lane. */
  function TotalAt(lane: Lane<Keyed>, total: Option<nat>, w: nat): Option<nat> {
    if w < |lane.full| then Some(|lane.full[w]|) else if w == |lane.full| then total else None
  }

  ghost predicate Holds(win: Window, st: TopStage, w: nat)
    requires |st.lanes| == |st.totals| == 3
  {
    && |win.received| == |win.totals| == 3
    && (forall s :: 0 <= s < 3 ==> win.received[s] == |Part(st.lanes[s], w)| && win.totals[s] == TotalAt(st.lanes[s], st.totals[s], w))
    && win.counts == WindowCounts(st.lanes, w)
  }

  ghost predicate HoldsFrom(windows: map<nat, Window>, st: TopStage, from: nat) {
    && |st.lanes| == |st.totals| == 3
    && (forall w: nat :: w in windows ==> w >= from)
    && forall w: nat :: w >= from ==> Holds(Held(windows, w), st, w)
  }

  function Put(windows: map<nat, Window>, w: nat): map<nat, Window> {
    windows[w := Held(windows, w)]
  }

  lemma {:induction false} PutHolds(windows: map<nat, Window>, st: TopStage, from: nat, w: nat)
    requires HoldsFrom(windows, st, from) && w >= from
    ensures HoldsFrom(Put(windows, w), st.(pending := st.pending + {w}), from)
    ensures Holds(Put(windows, w)[w], st, w)
  {
    HoldsIgnoresPending(st, st.pending + {w});
    hide Holds;
    forall x: nat | x >= from
      ensures Holds(Held(Put(windows, w), x), st, x)
    {
      assert Held(Put(windows, w), x) == Held(windows, x);
    }
  }

  lemma {:induction false} HoldsIgnoresPending(st: TopStage, pending: set<nat>)
    requires |st.lanes| == |st.totals| == 3
    ensures forall win: Window, w: nat :: Holds(win, st.(pending := pending), w) <==> Holds(win, st, w)
  {
  }

  /** The window after more entries. */
  function Added(win: Window, s: nat, n: nat, total: nat, counts: Counts): Window
    requires s < |win.received| && s < |win.totals|
  {
    Window(win.received[s := win.received[s] + n], win.totals[s := Some(total)], counts)
  }

  /** The tally of a window when one lane's part grows. */
  lemma {:induction false} CountsGrow(lanes: seq<Lane<Keyed>>, lanes': seq<Lane<Keyed>>, w: nat, s: nat, entries: seq<Keyed>)
    requires |lanes| == |lanes'| == 3 && s < 3 && Part(lanes'[s], w) == Part(lanes[s], w) + entries
    requires forall t :: 0 <= t < 3 && t != s ==> lanes'[t] == lanes[t]
    ensures WindowCounts(lanes', w) == Plus(WindowCounts(lanes, w), TallyOf(entries))
  {
    var a, b, c := Part(lanes[0], w), Part(lanes[1], w), Part(lanes[2], w);
    if s == 0 {
      FirstTally(a, entries, b, c);
    } else if s == 1 {
      MiddleTally(a, b, entries, c);
    } else {
      LastTally(a, b, c, entries);
    }
    hide Part, TallyOf, Plus;
  }

  lemma {:induction false} FirstTally(a: seq<Keyed>, more: seq<Keyed>, b: seq<Keyed>, c: seq<Keyed>)
    ensures TallyOf((a + more) + b + c) == Plus(TallyOf(a + b + c), TallyOf(more))
  {
    hide *;
    MiddleTally([], a, more, b + c);
    assert [] + a + (b + c) == a + b + c && [] + (a + more) + (b + c) == (a + more) + b + c;
  }

  lemma {:induction false} LastTally(a: seq<Keyed>, b: seq<Keyed>, c: seq<Keyed>, more: seq<Keyed>)
    ensures TallyOf(a + b + (c + more)) == Plus(TallyOf(a + b + c), TallyOf(more))
  {
    hide *;
    MiddleTally(a + b, c, more, []);
    assert a + b + c + [] == a + b + c && a + b + (c + more) + [] == a + b + (c + more);
  }

  lemma {:induction false} MiddleTally(a: seq<Keyed>, b: seq<Keyed>, more: seq<Keyed>, c: seq<Keyed>)
    ensures TallyOf(a + (b + more) + c) == Plus(TallyOf(a + b + c), TallyOf(more))
  {
    hide TallyOf, Plus;
    assert a + (b + more) == a + b + more;
    TallyConcat(a + b, more);
    TallyConcat(a + b + more, c);
    TallyConcat(a + b, c);
    PlusAssociates(TallyOf(a + b), TallyOf(more), TallyOf(c));
    PlusCommutes(TallyOf(more), TallyOf(c));
    PlusAssociates(TallyOf(a + b), TallyOf(c), TallyOf(more));
  }

  lemma {:induction false} AddedHolds(win: Window, st: TopStage, s: nat, entries: seq<Keyed>, total: nat, x: nat)
    requires TopOk(st) && s < 3 && |st.lanes[s].open| + |entries| <= total && Holds(win, st, x)
    requires x == |st.lanes[s].full|
    ensures Holds(Added(win, s, |entries|, total, Plus(win.counts, TallyOf(entries))), TookEntries(st, s, entries, total), x)
  {
    var took := TookEntries(st, s, entries, total);
    assert Part(took.lanes[s], x) == Part(st.lanes[s], x) + entries;
    CountsGrow(st.lanes, took.lanes, x, s, entries);
    hide WindowCounts, Plus, TallyOf, TopOk;
  }

  lemma {:induction false} OtherHolds(win: Window, st: TopStage, s: nat, entries: seq<Keyed>, total: nat, x: nat)
    requires TopOk(st) && s < 3 && |st.lanes[s].open| + |entries| <= total && Holds(win, st, x)
    requires x != |st.lanes[s].full|
    ensures Holds(win, TookEntries(st, s, entries, total), x)
  {
    var took := TookEntries(st, s, entries, total);
    assert Part(took.lanes[s], x) == Part(st.lanes[s], x);
    NewWindowUnknown(st, s, entries, total, x);
    hide TopOk, TallyOf;
  }

  /** A lane that moves on to window `x` knows nothing of it yet. */
  lemma {:induction false} NewWindowUnknown(st: TopStage, s: nat, entries: seq<Keyed>, total: nat, x: nat)
    requires TopOk(st) && s < 3 && |st.lanes[s].open| + |entries| <= total && x != |st.lanes[s].full|
    ensures var took := TookEntries(st, s, entries, total);
      forall t :: 0 <= t < 3 ==> TotalAt(took.lanes[t], took.totals[t], x) == TotalAt(st.lanes[t], st.totals[t], x)
  {
  }

  lemma {:induction false} TookHolds(windows: map<nat, Window>, st: TopStage, from: nat, s: nat, entries: seq<Keyed>, total: nat)
    requires TopOk(st) && HoldsFrom(windows, st, from) && s < 3 && |st.lanes[s].open| + |entries| <= total
    requires |st.lanes[s].full| in windows
    requires s < |windows[|st.lanes[s].full|].received| && s < |windows[|st.lanes[s].full|].totals|
    ensures var w := |st.lanes[s].full|;
      HoldsFrom(windows[w := Added(windows[w], s, |entries|, total, Plus(windows[w].counts, TallyOf(entries)))], TookEntries(st, s, entries, total), from)
  {
    var w := |st.lanes[s].full|;
    var added := windows[w := Added(windows[w], s, |entries|, total, Plus(windows[w].counts, TallyOf(entries)))];
    hide Holds, TallyOf, Plus, Added, TookEntries, TopOk;
    assert |TookEntries(st, s, entries, total).lanes| == 3 by { TookShape(st, s, entries, total); }
    TookShape(st, s, entries, total);
    forall x: nat | x >= from
      ensures Holds(Held(added, x), TookEntries(st, s, entries, total), x)
    {
      if x == w {
        assert Held(windows, w) == windows[w];
        AddedHolds(windows[w], st, s, entries, total, w);
      } else {
        assert Held(added, x) == Held(windows, x);
        OtherHolds(Held(windows, x), st, s, entries, total, x);
      }
    }
  }

  lemma {:induction false} TookShape(st: TopStage, s: nat, entries: seq<Keyed>, total: nat)
    requires TopOk(st) && s < 3 && |st.lanes[s].open| + |entries| <= total
    ensures |TookEntries(st, s, entries, total).lanes| == |TookEntries(st, s, entries, total).totals| == 3
  {
  }

  lemma {:induction false} DroppedHolds(windows: map<nat, Window>, st: TopStage, from: nat)
    requires HoldsFrom(windows, st, from)
    ensures HoldsFrom(windows - {from}, st.(pending := st.pending - {from}), from + 1)
  {
    HoldsIgnoresPending(st, st.pending - {from});
    hide Holds;
    forall w: nat | w >= from + 1
      ensures Holds(Held(windows - {from}, w), st, w)
    {
      assert Held(windows - {from}, w) == Held(windows, w);
    }
  }

  /** A window is done in a lane exactly when the lane is past it. */
  lemma {:induction false} DoneWhen(win: Window, st: TopStage, w: nat)
    requires TopOk(st) && Holds(win, st, w)
    ensures |win.received| == |win.totals| == 3
    ensures forall s :: 0 <= s < 3 ==> (win.totals[s] == Some(win.received[s]) <==> w < |st.lanes[s].full|)
  {
    hide WindowCounts;
  }

  lemma {:induction false} HeldIs(windows: map<nat, Window>, st: TopStage, from: nat, w: nat)
    requires HoldsFrom(windows, st, from) && w in windows
    ensures Holds(windows[w], st, w)
  {
    hide Holds;
    assert Held(windows, w) == windows[w];
  }

  lemma {:induction false} OpenIs(win: Window, st: TopStage, w: nat, s: nat)
    requires |st.lanes| == |st.totals| == 3 && Holds(win, st, w) && s < 3 && w == |st.lanes[s].full|
    ensures |win.received| == |win.totals| == 3
    ensures win.received[s] == |st.lanes[s].open| && win.totals[s] == st.totals[s]
    ensures win.counts == WindowCounts(st.lanes, w)
  {
  }

  class TopKProcessor {
    const b: TopBench
    const role: Role
    var windows: map<nat, Window>
    var next: seq<nat>
    var history: seq<Counts>
    ghost var stage: TopStage

    /** The fields agree with the stage, windows being held from `from` on. */
    ghost predicate Agrees(from: nat)
      reads this
    {
      && b.Valid() && !role.Branch? && TopOk(stage)
      && history == stage.history && windows.Keys == stage.pending
      && |next| == 3 && (forall s :: 0 <= s < 3 ==> next[s] == |stage.lanes[s].full|)
      && HoldsFrom(windows, stage, from)
    }

    ghost predicate Valid()
      reads this
    {
      |stage.lanes| == 3 && Agrees(Done(stage, role))
    }

    constructor (b: TopBench, role: Role)
      requires b.Valid() && !role.Branch?
      ensures Valid() && stage == FreshTop && this.b == b && this.role == role
    {
      this.b, this.role := b, role;
      windows, next, history := map[], [0, 0, 0], [];
      stage := FreshTop;
    }

    /** Hold a window, blank if it is new. */
    method Hold(w: nat, ghost from: nat)
      requires Agrees(from) && w >= from
      modifies this
      ensures Agrees(from) && w in windows
      ensures stage == old(stage).(pending := old(stage).pending + {w}) && next == old(next)
    {
      hide HoldsFrom, OpenOk;
      PutHolds(windows, stage, from, w);
      windows := Put(windows, w);
      stage := stage.(pending := stage.pending + {w});
    }

    /** Add the entries of a batch to the window its lane is at. */
    method Add(s: nat, w: nat, entries: seq<Keyed>, total: nat, ghost from: nat)
      requires Agrees(from) && s < 3 && w == |stage.lanes[s].full| && w in windows
      requires |stage.lanes[s].open| + |entries| <= total
      modifies this
      ensures Agrees(from) && w in windows
      ensures stage == TookEntries(old(stage), s, entries, total)
    {
      hide HoldsFrom, Holds, TallyOf, Plus, OpenOk;
      HeldIs(windows, stage, from, w);
      OpenIs(windows[w], stage, w, s);
      var win := windows[w];
      var counts := AddEntries(win.counts, entries);
      TookHolds(windows, stage, from, s, entries, total);
      windows := windows[w := Added(win, s, |entries|, total, counts)];
      if windows[w].totals[s] == Some(windows[w].received[s]) {
        next := next[s := next[s] + 1];
      }
      stage := TookEntries(stage, s, entries, total);
    }

    /** Remove the oldest window. */
    method Remove(w: nat)
      requires Agrees(w) && w in windows
      modifies this
      ensures Agrees(w + 1)
      ensures stage == old(stage).(pending := old(stage).pending - {w})
    {
      hide HoldsFrom, OpenOk;
      DroppedHolds(windows, stage, w);
      windows := windows - {w};
      stage := stage.(pending := stage.pending - {w});
    }

    /** Take in one batch of count entries. A refusal ends the stage; what a refused batch
        leaves behind is not described. */
    method Process(msg: Message<Keyed>) returns (r: Outcome, ghost listing: seq<Keyed>)
      requires Valid()
      modifies this
      ensures r == Processed(old(stage), role, b, msg, listing).1
      ensures r.Ok? ==> Valid() && stage == Processed(old(stage), role, b, msg, listing).0
      ensures r.Ok? && role.Merge? && Done(stage, role) > Done(old(stage), role) ==>
        IsListing(listing, WindowCounts(stage.lanes, Done(old(stage), role)))
    {
      hide HoldsFrom, Holds, Values, Advanced, TookEntries, OpenOk, IsListing, WindowCounts;
      listing := [];
      if msg == [] {
        return Err(EmptyBatch), [];
      }
      var m := msg[0].meta;
      if (role.Estimate? && m.source != 2) || (!role.Estimate? && m.source > 1) {
        return Err(WrongSource), [];
      }
      if m.window != next[m.source] {
        return Err(OutOfOrder), [];
      }
      var w := m.window;
      ghost var from := Done(stage, role);
      Hold(w, from);
      HeldIs(windows, stage, from, w);
      OpenIs(windows[w], stage, w, m.source);
      if m.offset != windows[w].received[m.source] {
        return Err(MissingBatch), [];
      }
      var total := msg[0].value.total;
      var known := windows[w].totals[m.source];
      if (known.Some? && known.value != total) || windows[w].received[m.source] + |msg| > total {
        return Err(WindowOverflow), [];
      }
      ghost var held := stage;
      TookDone(held, role, m.source, Values(msg), total);
      Add(m.source, w, Values(msg), total, from);
      r, listing := Advance(w, from);
    }

    /** After a batch: emit its window if it is complete. */
    method Advance(w: nat, ghost from: nat) returns (r: Outcome, ghost listing: seq<Keyed>)
      requires Agrees(from) && w in windows
      requires Done(stage, role) == if Complete(stage, role, w) then w + 1 else from
      requires Complete(stage, role, w) ==> from == w
      modifies this
      ensures Valid()
      ensures (stage, r) == Advanced(old(stage), role, b, w, listing)
      ensures stage.lanes == old(stage).lanes
      ensures role.Merge? && Complete(old(stage), role, w) ==> IsListing(listing, WindowCounts(stage.lanes, w))
    {
      hide HoldsFrom, Holds, Chunked, OpenOk, TopMessage, Retain, WindowCounts, IsListing;
      listing := [];
      HeldIs(windows, stage, from, w);
      CountsAre(windows[w], stage, w);
      DoneWhen(windows[w], stage, w);
      var win := windows[w];
      var done2, done01 := win.totals[2] == Some(win.received[2]), win.totals[0] == Some(win.received[0]) && win.totals[1] == Some(win.received[1]);
      if !(if role.Estimate? then done2 else done01) {
        return if |windows| > MAX_PENDING then Err(PendingBound) else Ok([]), [];
      }
      Remove(w);
      if role.Estimate? {
        var message := Estimate(w, win.counts);
        return Ok([message]), [];
      }
      var entries := ListEntries(win.counts);
      listing := entries;
      var chunks := Chunks(entries, b.batch, w, 2);
      r := Ok(chunks);
    }

    /** The answers to a window, which is retained. */
    method Estimate(w: nat, counts: Counts) returns (message: Message<Keyed>)
      requires Agrees(w + 1)
      modifies this
      ensures Agrees(w + 1) && stage == old(stage).(history := Retain(b, old(stage).history, counts))
      ensures message == TopMessage(b, w, counts, stage.history)
    {
      hide HoldsFrom, OpenOk, IsTop, PlusAll;
      HistoryApart(windows, stage, w + 1, Retain(b, stage.history, counts));
      var tumbling := TopTen(counts);
      if b.rolling <= 1 {
        return TopPoints(w, tumbling, None);
      }
      history := history + [counts];
      if |history| > b.rolling {
        history := history[1..];
      }
      stage := stage.(history := history);
      var merged := MergeAll(history);
      var rolling := TopTen(merged);
      return TopPoints(w, tumbling, Some(rolling));
    }
  }

  lemma {:induction false} CountsAre(win: Window, st: TopStage, w: nat)
    requires |st.lanes| == |st.totals| == 3 && Holds(win, st, w)
    ensures win.counts == WindowCounts(st.lanes, w)
  {
  }

  lemma {:induction false} HistoryApart(windows: map<nat, Window>, st: TopStage, from: nat, history: seq<Counts>)
    requires HoldsFrom(windows, st, from)
    ensures HoldsFrom(windows, st.(history := history), from)
  {
    assert forall win: Window, w: nat :: Holds(win, st.(history := history), w) <==> Holds(win, st, w);
    hide Holds;
  }

  /** Feeding a lane finishes a window exactly when it completes the oldest. */
  lemma {:induction false} TookDone(st: TopStage, role: Role, s: nat, entries: seq<Keyed>, total: nat)
    requires TopOk(st) && s < 3 && !role.Branch? && (if role.Estimate? then s == 2 else s < 2)
    requires |st.lanes[s].open| + |entries| <= total
    ensures var w, took := |st.lanes[s].full|, TookEntries(st, s, entries, total);
      && w >= Done(st, role)
      && Done(took, role) == (if Complete(took, role, w) then w + 1 else Done(st, role))
      && (Complete(took, role, w) ==> Done(st, role) == w)
  {
    hide OpenOk;
  }

  /** Add entries to counts, key by key. */
  method AddEntries(counts: Counts, entries: seq<Keyed>) returns (r: Counts)
    ensures r == Plus(counts, TallyOf(entries))
  {
    hide Bump, Plus;
    r := counts;
    PlusNothing(counts);
    assert TallyOf(entries[..0]) == map[];
    for n := 0 to |entries|
      invariant r == Plus(counts, TallyOf(entries[..n]))
    {
      assert entries[..n + 1] == entries[..n] + [entries[n]];
      TallyPush(entries[..n], entries[n]);
      PlusBump(counts, TallyOf(entries[..n]), entries[n].key, entries[n].count);
      r := Bump(r, entries[n].key, entries[n].count);
    }
    assert entries[..|entries|] == entries;
  }

  /** Add up several windows' counts. */
  method MergeAll(history: seq<Counts>) returns (merged: Counts)
    ensures merged == PlusAll(history)
  {
    hide Plus, TallyOf;
    merged := map[];
    assert history[..0] == [];
    for n := 0 to |history|
      invariant merged == PlusAll(history[..n])
    {
      assert history[..n + 1][..n] == history[..n];
      var entries := ListEntries(history[n]);
      ListingTallies(entries, history[n]);
      merged := AddEntries(merged, entries);
    }
    assert history[..|history|] == history;
  }

  method TopTen(counts: Counts) returns (top: seq<Ranked<Key>>)
    ensures top == Top(counts)
  {
    hide IsTop, Top;
    KeyLeqIsTotal();
    top := TopOf(counts, TOP_K, KeyLeq);
    TopIsUnique(top, Top(counts), counts, TOP_K, KeyLeq);
  }

  // ---------- the backend ----------

  class TopKBackend {
    const b: TopBench
    const reference: seq<Ranked<Key>>
    var next: nat

    ghost predicate Valid()
      reads this
    {
      b.Valid() && reference == Top(CountsOf(KeysFrom(b, 1, b.points * 2)))
    }

    constructor (b: TopBench)
      requires b.Valid()
      ensures Valid() && this.b == b && next == 0
    {
      this.b := b;
      var keys := KeysFrom(b, 1, b.points * 2);
      assert CountsOf([]) == map[] && [] + keys == keys;
      var counts := CountKeys(map[], [], keys);
      var top := TopTen(counts);
      reference := top;
      next := 0;
    }

    /** Check one window's answers against the reference; it must be the next window's. */
    method Receive(msg: Message<Keyed>) returns (r: Result<nat, Error>)
      requires Valid()
      modifies this
      ensures Valid()
      ensures r.Ok? <==> Accepts(b, reference, old(next), msg)
      ensures r.Ok? ==> r.value == old(next) && next == old(next) + 1
      ensures r.Err? ==> next == old(next)
    {
      hide RightAnswer;
      if msg == [] {
        return Err(EmptyBatch);
      }
      var m := msg[0].meta;
      var kinds := Kinds(b);
      if m.window != next || m.source != 2 || |msg| != |kinds| * TOP_K {
        return Err(OutOfOrder);
      }
      for k := 0 to |kinds|
        invariant forall x :: 0 <= x < k ==> RightAnswer(b, reference, msg, m.window, kinds[x])
      {
        if !RightAnswer(b, reference, msg, m.window, kinds[k]) {
          return Err(BadAnswer);
        }
      }
      next := next + 1;
      return Ok(m.window);
    }
  }
}
