/** Exactly which feeds the top-k stages accept, and what they count. */
module TopKFeeds {
  import opened Basics
  import opened BenchNormalizer
  import opened BenchStreams
  import opened Sorting
  import opened Rankings
  import opened TopKCounts
  import opened TopKStages
  import opened TopKPipeline
  import F = BenchFeeds

  // ---------- counts ----------

  /** Counting keys gives each as often as it occurs. */
  lemma {:induction false} CountsAreOccurrences(keys: seq<Key>, k: Key)
    ensures Get(CountsOf(keys), k) == Occurs(keys, k)
    ensures k in CountsOf(keys) <==> k in keys
    decreases |keys|
  {
    if keys != [] {
      var init := keys[..|keys| - 1];
      CountsAreOccurrences(init, k);
      assert keys == init + [keys[|keys| - 1]];
    }
  }

  ghost function Occurs(keys: seq<Key>, k: Key): nat {
    multiset(keys)[k]
  }

  /** The counts shipped for a key, added up. */
  ghost function Shipped(entries: seq<Keyed>, k: Key): nat {
    if entries == [] then 0
    else Shipped(entries[..|entries| - 1], k) + if entries[|entries| - 1].key == k then entries[|entries| - 1].count else 0
  }

  /** Tallying entries adds up what was shipped for each key. */
  lemma {:induction false} TallyIsShipped(entries: seq<Keyed>, k: Key)
    ensures Get(TallyOf(entries), k) == Shipped(entries, k)
    ensures k in TallyOf(entries) <==> exists i :: 0 <= i < |entries| && entries[i].key == k
    decreases |entries|
  {
    if entries != [] {
      var init := entries[..|entries| - 1];
      TallyIsShipped(init, k);
      assert forall i :: 0 <= i < |init| ==> init[i] == entries[i];
      if k in TallyOf(entries) && entries[|entries| - 1].key != k {
        var i :| 0 <= i < |init| && init[i].key == k;
        assert entries[i].key == k;
      }
    }
  }

  /** The backend's reference ranks the keys of the first `2 * points` indices by how often they occur. */
  lemma {:induction false} ReferenceIsOccurrences(b: TopBench)
    ensures exists counts: Counts :: IsTop(Reference(b), counts, TOP_K, KeyLeq) && Occurrences(b, counts)
  {
    var keys := KeysFrom(b, 1, b.points * 2);
    var counts := CountsOf(keys);
    forall k: Key
      ensures Get(counts, k) == Occurs(keys, k) && (k in counts <==> k in keys)
    {
      CountsAreOccurrences(keys, k);
    }
    hide CountsOf;
    assert Occurrences(b, counts);
  }

  ghost predicate Occurrences(b: TopBench, counts: Counts) {
    exists keys: seq<Key> ::
      && |keys| == b.points * 2 && (forall i :: 0 <= i < |keys| ==> keys[i] == b.key(i + 1))
      && forall k: Key :: Get(counts, k) == Occurs(keys, k) && (k in counts <==> k in keys)
  }

  // ---------- places ----------

  /** Where a source stands: in a window, at an entry, and how many entries the window has if one came. */
  datatype Place = Place(window: nat, offset: nat, total: Option<nat>)

  ghost function Moved(p: Place, m: Message<Keyed>): Place
    requires m != []
  {
    if p.offset + |m| == m[0].value.total then Place(p.window + 1, 0, None) else Place(p.window, p.offset + |m|, Some(m[0].value.total))
  }

  ghost function PlaceAfter(feed: seq<Message<Keyed>>, source: nat): Place {
    if feed == [] then Place(0, 0, None)
    else
      var p, m := PlaceAfter(feed[..|feed| - 1], source), feed[|feed| - 1];
      if |m| > 0 && m[0].meta.source == source then Moved(p, m) else p
  }

  ghost function BegunAt(p: Place): nat {
    if p.offset == 0 then p.window else p.window + 1
  }

  /** The windows begun by either source and not finished by both. */
  ghost function Behind(p: Place, q: Place): int {
    Max(BegunAt(p), BegunAt(q)) - Min(p.window, q.window)
  }

  ghost predicate At(lane: Lane<Keyed>, total: Option<nat>, p: Place) {
    |lane.full| == p.window && |lane.open| == p.offset && total == p.total
  }

  lemma {:induction false} PlacePush(feed: seq<Message<Keyed>>, m: Message<Keyed>, source: nat)
    ensures PlaceAfter(feed + [m], source)
         == if |m| > 0 && m[0].meta.source == source then Moved(PlaceAfter(feed, source), m) else PlaceAfter(feed, source)
  {
    assert (feed + [m])[..|feed|] == feed;
  }

  /** A message that continues its source: the next entries of one window, whose number agrees with the
      earlier messages and is not exceeded. */
  ghost predicate Continuing(feed: seq<Message<Keyed>>, m: Message<Keyed>, role: Role) {
    && m != [] && (if role.Estimate? then m[0].meta.source == 2 else m[0].meta.source < 2)
    && var p := PlaceAfter(feed, m[0].meta.source);
       && m[0].meta.window == p.window && m[0].meta.offset == p.offset
       && (p.total.Some? ==> p.total.value == m[0].value.total) && p.offset + |m| <= m[0].value.total
  }

  ghost predicate AllFit(feed: seq<Message<Keyed>>, role: Role) {
    feed == [] || (AllFit(feed[..|feed| - 1], role) && Continuing(feed[..|feed| - 1], feed[|feed| - 1], role))
  }

  /** At no point are more windows held than the bound allows. */
  ghost predicate Bounded(feed: seq<Message<Keyed>>) {
    feed == [] || (Bounded(feed[..|feed| - 1]) && Behind(PlaceAfter(feed, 0), PlaceAfter(feed, 1)) <= MAX_PENDING)
  }

  // ---------- the merge ----------

  ghost predicate Merging(feed: seq<Message<Keyed>>, st: TopStage) {
    && |st.lanes| == |st.totals| == 3 && st.lanes[2] == NoLane()
    && At(st.lanes[0], st.totals[0], PlaceAfter(feed, 0)) && At(st.lanes[1], st.totals[1], PlaceAfter(feed, 1))
    && st.pending == Backlogged(st.lanes[0], st.lanes[1]) && Unfinished(st.lanes[0], st.lanes[1]) <= MAX_PENDING
  }

  lemma {:induction false} TookAt(lane: Lane<Keyed>, total: Option<nat>, p: Place, m: Message<Keyed>)
    requires m != [] && At(lane, total, p) && p.offset + |m| <= m[0].value.total
    ensures var t := m[0].value.total;
      At(Took(lane, Values(m), t), if |lane.open| + |m| == t then None else Some(t), Moved(p, m))
  {
  }

  lemma {:induction false} BehindIs(l: Lane<Keyed>, r: Lane<Keyed>, x: Option<nat>, y: Option<nat>, p: Place, q: Place)
    requires At(l, x, p) && At(r, y, q)
    ensures Unfinished(l, r) == Behind(p, q)
  {
  }

  lemma {:induction false} MisfitIsRefused(b: TopBench, feed: seq<Message<Keyed>>, m: Message<Keyed>, st: TopStage, listing: seq<Keyed>)
    requires b.Valid() && TopOk(st) && Merging(feed, st) && !Continuing(feed, m, Merge)
    ensures Processed(st, Merge, b, m, listing).1.Err?
  {
    hide Advanced, Backlogged, Unfinished, TookEntries, Values, PlaceAfter;
  }

  /** The stage with the entries of a message that fits. */
  ghost function FedOne(st: TopStage, m: Message<Keyed>): TopStage
    requires TopOk(st) && m != [] && m[0].meta.source < 2 && |st.lanes[m[0].meta.source].open| + |m| <= m[0].value.total
  {
    var s := m[0].meta.source;
    TookEntries(st.(pending := st.pending + {|st.lanes[s].full|}), s, Values(m), m[0].value.total)
  }

  lemma {:induction false} FittingAdvances(b: TopBench, feed: seq<Message<Keyed>>, m: Message<Keyed>, st: TopStage, listing: seq<Keyed>)
    requires b.Valid() && TopOk(st) && Merging(feed, st) && Continuing(feed, m, Merge)
    ensures |st.lanes[m[0].meta.source].open| + |m| <= m[0].value.total
    ensures Processed(st, Merge, b, m, listing) == Advanced(FedOne(st, m), Merge, b, |st.lanes[m[0].meta.source].full|, listing)
  {
    hide Advanced, Backlogged, Unfinished, PlaceAfter, TookEntries;
  }

  ghost predicate FedWell(feed: seq<Message<Keyed>>, took: TopStage, st: TopStage, w: nat) {
    && |took.lanes| == |took.totals| == 3 && |st.lanes| == 3 && took.lanes[2] == NoLane()
    && At(took.lanes[0], took.totals[0], PlaceAfter(feed, 0)) && At(took.lanes[1], took.totals[1], PlaceAfter(feed, 1))
    && Fed(st.lanes[0], st.lanes[1], took.lanes[0], took.lanes[1], w, took.pending)
  }

  lemma {:induction false} FitIsFed(b: TopBench, feed: seq<Message<Keyed>>, m: Message<Keyed>, st: TopStage)
    requires b.Valid() && TopOk(st) && Merging(feed, st) && Continuing(feed, m, Merge)
    ensures |st.lanes[m[0].meta.source].open| + |m| <= m[0].value.total
    ensures FedWell(feed + [m], FedOne(st, m), st, |st.lanes[m[0].meta.source].full|)
  {
    var s, t := m[0].meta.source, m[0].value.total;
    PlacePush(feed, m, 0);
    PlacePush(feed, m, 1);
    TookAt(st.lanes[s], st.totals[s], PlaceAfter(feed, s), m);
    if s == 0 {
      FedLeft(st.lanes[0], st.lanes[1], Values(m), t, st.pending);
    } else {
      FedRight(st.lanes[0], st.lanes[1], Values(m), t, st.pending);
    }
    hide Fed, Took, PlaceAfter, Values, Backlogged, Unfinished, Moved;
  }

  lemma {:induction false} AdvancedWithin(b: TopBench, feed: seq<Message<Keyed>>, took: TopStage, st: TopStage, w: nat, listing: seq<Keyed>)
    requires b.Valid() && TopOk(took) && FedWell(feed, took, st, w) && Unfinished(st.lanes[0], st.lanes[1]) <= MAX_PENDING
    ensures var (next, r) := Advanced(took, Merge, b, w, listing);
      && (r.Ok? <==> Behind(PlaceAfter(feed, 0), PlaceAfter(feed, 1)) <= MAX_PENDING)
      && (r.Ok? ==> Merging(feed, next))
  {
    hide PlaceAfter, Chunked, Backlogged, OpenOk, TopMessage, WindowCounts, TopKStages.Retain, Behind;
    BehindIs(took.lanes[0], took.lanes[1], took.totals[0], took.totals[1], PlaceAfter(feed, 0), PlaceAfter(feed, 1));
    hide Unfinished, At;
  }

  lemma {:induction false} StepWithin(b: TopBench, feed: seq<Message<Keyed>>, m: Message<Keyed>, st: TopStage, listing: seq<Keyed>)
    requires b.Valid() && TopOk(st) && Merging(feed, st)
    ensures var (next, r) := Processed(st, Merge, b, m, listing);
      && (r.Ok? <==> Continuing(feed, m, Merge) && Behind(PlaceAfter(feed + [m], 0), PlaceAfter(feed + [m], 1)) <= MAX_PENDING)
      && (r.Ok? ==> Merging(feed + [m], next))
  {
    if Continuing(feed, m, Merge) {
      FittingAdvances(b, feed, m, st, listing);
      FitIsFed(b, feed, m, st);
      MergingParts(feed, st);
      var took := FedOne(st, m);
      hide Merging, Processed, Advanced, FedWell, PlaceAfter, Behind, Continuing, FedOne, Unfinished;
      AdvancedWithin(b, feed + [m], took, st, |st.lanes[m[0].meta.source].full|, listing);
    } else {
      hide Merging, Processed, PlaceAfter, Behind, Continuing;
      MisfitIsRefused(b, feed, m, st, listing);
    }
  }

  lemma {:induction false} MergingParts(feed: seq<Message<Keyed>>, st: TopStage)
    requires Merging(feed, st)
    ensures |st.lanes| == 3 && Unfinished(st.lanes[0], st.lanes[1]) <= MAX_PENDING
  {
  }

  lemma {:induction false} RanPush(b: TopBench, role: Role, feed: seq<Message<Keyed>>, m: Message<Keyed>, order: Runs<Keyed>)
    requires b.Valid()
    ensures var before := Ran(b, role, feed, order);
      var after := Ran(b, role, feed + [m], order);
      && (before.1.Err? ==> after == before)
      && (before.1.Ok? ==>
           var step := Processed(before.0, role, b, m, order(if m == [] then 0 else m[0].meta.window));
           after.0 == step.0 && (after.1.Ok? <==> step.1.Ok?))
  {
    hide Processed;
    assert (feed + [m])[..|feed|] == feed;
  }

  /** Whatever it is fed, the merge accepts a feed exactly when every message continues its source, one
      window at a time, without a gap and within the announced number of entries, and the backlog
      stays within the bound. */
  lemma {:induction false} MergeAcceptsExactly(b: TopBench, feed: seq<Message<Keyed>>, order: Runs<Keyed>)
    requires b.Valid()
    ensures Ran(b, Merge, feed, order).1.Ok? <==> AllFit(feed, Merge) && Bounded(feed)
    ensures Ran(b, Merge, feed, order).1.Ok? ==> Merging(feed, Ran(b, Merge, feed, order).0)
    decreases |feed|
  {
    hide Processed, Merging, Continuing, Behind, PlaceAfter;
    if feed == [] {
      MergingNothing();
    } else {
      var init, m := feed[..|feed| - 1], feed[|feed| - 1];
      MergeAcceptsExactly(b, init, order);
      assert init + [m] == feed;
      RanPush(b, Merge, init, m, order);
      if Ran(b, Merge, init, order).1.Ok? {
        StepWithin(b, init, m, Ran(b, Merge, init, order).0, order(if m == [] then 0 else m[0].meta.window));
      }
    }
  }

  lemma {:induction false} MergingNothing()
    ensures Merging([], FreshTop)
  {
  }

  // ---------- the estimate ----------

  ghost predicate Estimating(feed: seq<Message<Keyed>>, st: TopStage) {
    && |st.lanes| == |st.totals| == 3 && At(st.lanes[2], st.totals[2], PlaceAfter(feed, 2))
    && st.pending == if st.lanes[2].open == [] then {} else {|st.lanes[2].full|}
  }

  lemma {:induction false} EstimateStepWithin(b: TopBench, feed: seq<Message<Keyed>>, m: Message<Keyed>, st: TopStage, listing: seq<Keyed>)
    requires b.Valid() && TopOk(st) && Estimating(feed, st)
    ensures var (next, r) := Processed(st, Estimate, b, m, listing);
      && (r.Ok? <==> Continuing(feed, m, Estimate))
      && (r.Ok? ==> Estimating(feed + [m], next))
  {
    hide Chunked, TopMessage, WindowCounts, TopKStages.Retain, PlaceAfter;
    PlacePush(feed, m, 2);
    if Continuing(feed, m, Estimate) {
      var w := |st.lanes[2].full|;
      TookAt(st.lanes[2], st.totals[2], PlaceAfter(feed, 2), m);
      assert st.pending + {w} == {w} && {w} - {w} == {};
    }
  }

  /** Whatever it is fed, the estimate accepts a feed exactly when every message continues the merge's
      stream. */
  lemma {:induction false} EstimateAcceptsExactly(b: TopBench, feed: seq<Message<Keyed>>, order: Runs<Keyed>)
    requires b.Valid()
    ensures Ran(b, Estimate, feed, order).1.Ok? <==> AllFit(feed, Estimate)
    ensures Ran(b, Estimate, feed, order).1.Ok? ==> Estimating(feed, Ran(b, Estimate, feed, order).0)
    decreases |feed|
  {
    hide Processed, Estimating, Continuing;
    if feed == [] {
      EstimatingNothing();
    } else {
      var init, m := feed[..|feed| - 1], feed[|feed| - 1];
      EstimateAcceptsExactly(b, init, order);
      assert init + [m] == feed;
      RanPush(b, Estimate, init, m, order);
      if Ran(b, Estimate, init, order).1.Ok? {
        EstimateStepWithin(b, init, m, Ran(b, Estimate, init, order).0, order(if m == [] then 0 else m[0].meta.window));
      }
    }
  }

  lemma {:induction false} EstimatingNothing()
    ensures Estimating([], FreshTop)
  {
  }

  // ---------- a branch ----------

  ghost predicate Branching(b: TopBench, batches: seq<NormalizedBatch>, st: BranchStage) {
    && F.At(st.lane) == F.PlaceOf(batches, b.points)
    && st.pending == if st.lane.open == [] then {} else {|st.lane.full|}
  }

  lemma {:induction false} BranchStepWithin(b: TopBench, batches: seq<NormalizedBatch>, n: NormalizedBatch, st: BranchStage, listing: seq<Keyed>)
    requires b.Valid() && BranchOk(st, b) && Branching(b, batches, st) && n.meta.source < 2 && n.count > 0
    ensures var (next, r) := BranchTaken(st, b, n, listing);
      && (r.Ok? <==> Pos(n.meta.window, n.meta.offset) == F.PlaceOf(batches, b.points) && n.meta.offset + n.count <= b.points)
      && (r.Ok? ==> F.At(next.lane) == After(F.PlaceOf(batches, b.points), n.count, b.points))
      && (r.Ok? ==> next.pending == if next.lane.open == [] then {} else {|next.lane.full|})
  {
    hide Chunked, F.PlaceOf;
    if Pos(n.meta.window, n.meta.offset) == F.PlaceOf(batches, b.points) && n.meta.offset + n.count <= b.points {
      var w := |st.lane.full|;
      F.TookAt(st.lane, KeysFrom(b, n.firstIndex, n.count), b.points);
      assert st.pending + {w} == {w} && {w} - {w} == {};
    }
  }

  /** Whatever batches of its source it is given, a branch accepts them exactly when each continues the one
      before. */
  lemma {:induction false} BranchAcceptsExactly(b: TopBench, source: nat, batches: seq<NormalizedBatch>, order: Runs<Keyed>)
    requires b.Valid() && source < 2 && F.OfOneSource(batches, source)
    ensures BranchRun(b, batches, order).1.Ok? <==> F.AllContinue(batches, b.points)
    ensures BranchRun(b, batches, order).1.Ok? ==> Branching(b, batches, BranchRun(b, batches, order).0)
    decreases |batches|
  {
    hide BranchTaken;
    if batches != [] {
      var init, last := batches[..|batches| - 1], batches[|batches| - 1];
      BranchAcceptsExactly(b, source, init, order);
      if BranchRun(b, init, order).1.Ok? {
        BranchStepWithin(b, init, last, BranchRun(b, init, order).0, order(last.meta.window));
      }
    }
  }

  // ---------- the backend ----------

  /** The points that are answers of a kind that is asked for. */
  ghost function Answering(b: TopBench, msg: Message<Keyed>): nat {
    |OfKind(msg, Tumbling)| + if b.rolling > 1 then |OfKind(msg, Rolling)| else 0
  }

  ghost predicate Asked(b: TopBench, a: Option<Answer>) {
    a.Some? && (a.value.kind.Tumbling? || b.rolling > 1)
  }

  lemma {:induction false} AnsweringAtMost(b: TopBench, msg: Message<Keyed>)
    ensures Answering(b, msg) <= |msg|
    ensures Answering(b, msg) == |msg| <==> forall i :: 0 <= i < |msg| ==> Asked(b, msg[i].answer)
    decreases |msg|
  {
    if msg != [] {
      AnsweringAtMost(b, msg[..|msg| - 1]);
      assert forall i :: 0 <= i < |msg| - 1 ==> msg[..|msg| - 1][i] == msg[i];
    }
  }

  /** What the backend accepts for window `w`: the window's own message, nothing but answers, and for each kind
      ten entries that are, rank by rank, the reference with its counts scaled by the windows
      they stand for. */
  lemma {:induction false} BackendAcceptsOnly(b: TopBench, reference: seq<Ranked<Key>>, w: nat, msg: Message<Keyed>)
    requires b.Valid() && Accepts(b, reference, w, msg)
    ensures msg != [] && msg[0].meta.window == w && msg[0].meta.source == 2
    ensures forall i :: 0 <= i < |msg| ==> Asked(b, msg[i].answer)
    ensures |reference| == TOP_K && |OfKind(msg, Tumbling)| == TOP_K && (b.rolling > 1 ==> |OfKind(msg, Rolling)| == TOP_K)
    ensures Entries(Sort(OfKind(msg, Tumbling), ByRank)) == ScaledRanks(reference, 1)
    ensures b.rolling > 1 ==> Entries(Sort(OfKind(msg, Rolling), ByRank)) == ScaledRanks(reference, Min(w + 1, b.rolling))
  {
    assert Kinds(b)[0] == Tumbling && RightAnswer(b, reference, msg, w, Kinds(b)[0]);
    if b.rolling > 1 {
      assert Kinds(b)[1] == Rolling && RightAnswer(b, reference, msg, w, Kinds(b)[1]);
    }
    hide OfKind, Sort, ScaledRanks;
    SortSize(OfKind(msg, Tumbling));
    SortSize(OfKind(msg, Rolling));
    AnsweringAtMost(b, msg);
  }

  lemma {:induction false} InsertSize(ranked: seq<RankedEntry>, x: RankedEntry)
    ensures |Insert(ranked, x, ByRank)| == |ranked| + 1
    decreases |ranked|
  {
    if ranked != [] {
      InsertSize(ranked[1..], x);
    }
  }

  lemma {:induction false} SortSize(ranked: seq<RankedEntry>)
    ensures |Sort(ranked, ByRank)| == |ranked|
    decreases |ranked|
  {
    if ranked != [] {
      SortSize(ranked[1..]);
      InsertSize(Sort(ranked[1..], ByRank), ranked[0]);
    }
  }
}
