/** The top-k stages in a row, given the orders they list in: what each sends when it is fed a
    stream, and what the backend accepts. */
module TopKPipeline {
  import opened Basics
  import opened BenchNormalizer
  import opened BenchStreams
  import opened Rankings
  import opened Sorting
  import opened TopKCounts
  import opened TopKStages

  /** The counts of every window of a branch, and of the merge (source 2). */
  ghost function SourceCounts(b: TopBench, source: nat): Counts {
    if source < 2 then CountsOf(Corpus(b, source)) else CountsOf(Corpus(b, 0) + Corpus(b, 1))
  }

  /** The orders in which a stage lists its windows' counts: any order, window by window. */
  ghost predicate OrderOk(order: Runs<Keyed>, counts: Counts) {
    forall w: nat :: IsListing(order(w), counts)
  }

  lemma {:induction false} OrderSize(order: Runs<Keyed>, counts: Counts)
    requires OrderOk(order, counts)
    ensures AllOfSize(order, |counts|)
  {
    forall w: nat
      ensures |order(w)| == |counts|
    {
      assert IsListing(order(w), counts);
      ListingSize(order(w), counts);
    }
  }

  lemma {:induction false} SomeCounts(b: TopBench, source: nat)
    requires b.Valid()
    ensures |SourceCounts(b, source)| > 0
  {
    var keys := if source < 2 then Corpus(b, source) else Corpus(b, 0) + Corpus(b, 1);
    var k := keys[|keys| - 1];
    assert k in CountsOf(keys);
    SubsetSize({k}, CountsOf(keys).Keys);
    assert |CountsOf(keys)| == |CountsOf(keys).Keys|;
  }

  // ---------- a branch ----------

  ghost function BranchRun(b: TopBench, batches: seq<NormalizedBatch>, order: Runs<Keyed>): (r: (BranchStage, Outcome))
    requires b.Valid()
    ensures BranchOk(r.0, b)
  {
    if batches == [] then (BranchStage(NoLane(), {}), Ok([]))
    else
      var (before, sent) := BranchRun(b, batches[..|batches| - 1], order);
      if sent.Err? then (before, sent)
      else
        var n := batches[|batches| - 1];
        var (st, r) := BranchTaken(before, b, n, order(n.meta.window));
        (st, if r.Err? then r else Ok(sent.value + r.value))
  }

  ghost predicate BranchAt(b: TopBench, source: nat, st: BranchStage, p: Pos) {
    && p.offset < b.points && |st.lane.full| == p.window
    && (forall i :: 0 <= i < p.window ==> st.lane.full[i] == Corpus(b, source))
    && st.lane.open == Corpus(b, source)[..p.offset]
    && st.pending == if p.offset == 0 then {} else {p.window}
  }

  lemma {:induction false} TakeMore(b: TopBench, source: nat, offset: nat, count: nat)
    requires offset + count <= b.points
    ensures Corpus(b, source)[..offset] + KeysFrom(b, source * b.points + offset + 1, count) == Corpus(b, source)[..offset + count]
    ensures Corpus(b, source)[..b.points] == Corpus(b, source)
  {
  }

  lemma {:induction false} BranchStep(b: TopBench, source: nat, st: BranchStage, p: Pos, n: NormalizedBatch, listing: seq<Keyed>)
    requires b.Valid() && BranchOk(st, b) && source < 2
    requires BranchAt(b, source, st, p) && Cut(b.points, b.batch, source, n) && n.meta == Meta(p.window, source, p.offset)
    ensures var (after, r) := BranchTaken(st, b, n, listing);
      && BranchAt(b, source, after, After(p, n.count, b.points))
      && r == Ok(if p.offset + n.count == b.points then Chunked(listing, b.batch, p.window, source, 0) else [])
  {
    TakeMore(b, source, p.offset, n.count);
    hide Corpus, KeysFrom, Chunked;
    assert {p.window} + {p.window} - {p.window} == {};
  }

  /** However its input is cut and whatever order its counts iterate in, a branch refuses
      nothing, and sends the listing of every finished window, in order. */
  lemma {:induction false} BranchSendsCounts(b: TopBench, source: nat, batches: seq<NormalizedBatch>, to: Pos, order: Runs<Keyed>)
    requires b.Valid() && source < 2 && Tiles(b.points, b.batch, source, batches, Pos(0, 0), to)
    ensures BranchAt(b, source, BranchRun(b, batches, order).0, to)
    ensures BranchRun(b, batches, order).1 == Ok(Stream(order, b.batch, source, to.window))
    decreases |batches|
  {
    hide Corpus, Chunked, BranchTaken, Cut;
    if batches != [] {
      var last := batches[|batches| - 1];
      var p := Pos(last.meta.window, last.meta.offset);
      BranchSendsCounts(b, source, batches[..|batches| - 1], p, order);
      LastMeta(b, source, last, p);
      assert to == After(p, last.count, b.points);
      hide BranchAt, Tiles, After;
      var sent := Stream(order, b.batch, source, p.window);
      assert sent + [] == sent;
      BranchStep(b, source, BranchRun(b, batches[..|batches| - 1], order).0, p, last, order(p.window));
    }
  }

  lemma {:induction false} LastMeta(b: TopBench, source: nat, n: NormalizedBatch, p: Pos)
    requires Cut(b.points, b.batch, source, n) && p == Pos(n.meta.window, n.meta.offset)
    ensures n.meta == Meta(p.window, source, p.offset)
    ensures After(p, n.count, b.points).window == if p.offset + n.count == b.points then p.window + 1 else p.window
  {
  }

  // ---------- the merge ----------

  /** A merge or an estimate fed message by message, up to its first refusal. */
  ghost function Ran(b: TopBench, role: Role, feed: seq<Message<Keyed>>, order: Runs<Keyed>): (r: (TopStage, Outcome))
    requires b.Valid()
    ensures r.1.Ok? ==> TopOk(r.0)
  {
    if feed == [] then (FreshTop, Ok([]))
    else
      var (before, sent) := Ran(b, role, feed[..|feed| - 1], order);
      if sent.Err? then (before, sent)
      else
        var m := feed[|feed| - 1];
        var (st, r) := Processed(before, role, b, m, order(if m == [] then 0 else m[0].meta.window));
        (st, Glued(sent.value, r))
  }

  /** What has been sent, after one more step. */
  function Glued(sent: seq<Message<Keyed>>, r: Outcome): Outcome {
    if r.Err? then r else Ok(sent + r.value)
  }

  /** The three stages' orders. */
  ghost predicate OrdersOk(b: TopBench, orders: seq<Runs<Keyed>>) {
    |orders| == 3 && forall s :: 0 <= s < 3 ==> OrderOk(orders[s], SourceCounts(b, s))
  }

  ghost function SizeOf(b: TopBench, s: nat): nat {
    |SourceCounts(b, s)|
  }

  /** One lane: what has come of its stream, and the size it knows. */
  ghost predicate LaneHas(b: TopBench, orders: seq<Runs<Keyed>>, feed: seq<Message<Keyed>>, lane: Lane<Keyed>, total: Option<nat>, s: nat)
    requires b.Valid() && |orders| == 3 && s < 3
  {
    LaneAt(feed, lane, orders[s], SizeOf(b, s), b.batch, s) && total == if lane.open == [] then None else Some(SizeOf(b, s))
  }

  ghost predicate MergeAt(b: TopBench, orders: seq<Runs<Keyed>>, feed: seq<Message<Keyed>>, st: TopStage, sent: seq<Message<Keyed>>)
    requires b.Valid() && |orders| == 3
  {
    && |st.lanes| == |st.totals| == 3 && st.lanes[2] == NoLane()
    && LaneHas(b, orders, feed, st.lanes[0], st.totals[0], 0) && LaneHas(b, orders, feed, st.lanes[1], st.totals[1], 1)
    && st.pending == Backlogged(st.lanes[0], st.lanes[1])
    && sent == Stream(orders[2], b.batch, 2, Finished(st.lanes[0], st.lanes[1]))
  }

  lemma {:induction false} StageSizes(b: TopBench, orders: seq<Runs<Keyed>>, s: nat)
    requires b.Valid() && OrdersOk(b, orders) && s < 3
    ensures SizeOf(b, s) > 0 && AllOfSize(orders[s], SizeOf(b, s))
  {
    SomeCounts(b, s);
    OrderSize(orders[s], SourceCounts(b, s));
  }

  lemma {:induction false} MergeStart(b: TopBench, orders: seq<Runs<Keyed>>)
    requires b.Valid() && OrdersOk(b, orders)
    ensures MergeAt(b, orders, [], FreshTop, [])
  {
    StageSizes(b, orders, 0);
    StageSizes(b, orders, 1);
    hide AllOfSize, OrdersOk, SizeOf;
    LaneStart(orders[0], SizeOf(b, 0), b.batch, 0);
    LaneStart(orders[1], SizeOf(b, 1), b.batch, 1);
    hide LaneAt;
  }

  /** Message `m` continues its lane, and says how many entries the window has. */
  ghost predicate Fits(b: TopBench, st: TopStage, m: Message<Keyed>, sources: set<nat>) {
    && |st.lanes| == |st.totals| == 3 && m != [] && m[0].meta.source in sources && m[0].meta.source < 3
    && var s := m[0].meta.source;
       && m[0].meta == Meta(|st.lanes[s].full|, s, |st.lanes[s].open|)
       && m[0].value.total == SizeOf(b, s) && Expected(st.totals[s], SizeOf(b, s))
       && |st.lanes[s].open| + |m| <= SizeOf(b, s)
  }

  ghost function TookIn(b: TopBench, st: TopStage, m: Message<Keyed>): (r: TopStage)
    requires TopOk(st) && Fits(b, st, m, {0, 1, 2})
    ensures TopOk(r)
  {
    var s := m[0].meta.source;
    TookEntries(st.(pending := st.pending + {|st.lanes[s].full|}), s, Values(m), SizeOf(b, s))
  }

  lemma {:induction false} FittingIsTaken(b: TopBench, role: Role, st: TopStage, m: Message<Keyed>, listing: seq<Keyed>)
    requires b.Valid() && TopOk(st) && !role.Branch? && Fits(b, st, m, if role.Estimate? then {2} else {0, 1})
    ensures Fits(b, st, m, {0, 1, 2})
    ensures Processed(st, role, b, m, listing) == Advanced(TookIn(b, st, m), role, b, |st.lanes[m[0].meta.source].full|, listing)
  {
    hide Advanced, TookEntries, OpenOk, SizeOf;
  }

  /** A delivered batch carries its window's number of entries. */
  lemma {:induction false} TotalCarried(order: Runs<Keyed>, counts: Counts, w: nat, o: nat, m: Message<Keyed>)
    requires OrderOk(order, counts) && m != [] && o <= |order(w)| && Values(m) <= order(w)[o..]
    ensures m[0].value.total == |counts|
  {
    assert IsListing(order(w), counts);
    ListingSize(order(w), counts);
    assert Values(m)[0] == m[0].value;
    assert order(w)[o..][0] == order(w)[o];
  }

  /** A delivered message fits its lane, and leaves the lanes where they should be. */
  lemma {:induction false} LaneTakes(b: TopBench, orders: seq<Runs<Keyed>>, feed: seq<Message<Keyed>>, m: Message<Keyed>,
                                     lane: Lane<Keyed>, total: Option<nat>, s: nat, n: nat)
    requires b.Valid() && OrdersOk(b, orders) && s < 3 && LaneHas(b, orders, feed, lane, total, s) && m != []
    requires From(feed + [m], s) <= Stream(orders[s], b.batch, s, n)
    ensures m[0].meta.source != s ==> LaneHas(b, orders, feed + [m], lane, total, s)
    ensures m[0].meta.source == s ==>
      && m[0].meta == Meta(|lane.full|, s, |lane.open|)
      && m[0].value.total == SizeOf(b, s) && Expected(total, SizeOf(b, s)) && |lane.open| + |m| <= SizeOf(b, s)
      && LaneHas(b, orders, feed + [m], Took(lane, Values(m), SizeOf(b, s)),
                 if |lane.open| + |m| == SizeOf(b, s) then None else Some(SizeOf(b, s)), s)
  {
    StageSizes(b, orders, s);
    assert OrderOk(orders[s], SourceCounts(b, s));
    SendingIs(From(feed, s), lane, orders[s], b.batch, s);
    hide Sending, Stream, AllOfSize, SourceCounts, OrderOk, OrdersOk;
    LaneNext(feed, m, lane, orders[s], SizeOf(b, s), b.batch, s, n);
    if m[0].meta.source == s {
      TotalCarried(orders[s], SourceCounts(b, s), |lane.full|, |lane.open|, m);
      TookShape(lane, Values(m), SizeOf(b, s));
    }
    hide Took, LaneAt, Values;
  }

  lemma {:induction false} TookShape(lane: Lane<Keyed>, values: seq<Keyed>, size: nat)
    requires values != []
    ensures Took(lane, values, size).open == [] <==> |lane.open| + |values| == size
  {
  }

  /** A batch has been taken in at window `w`: what is pending and sent, before `w` goes out. */
  ghost predicate TakenIn(b: TopBench, orders: seq<Runs<Keyed>>, feed: seq<Message<Keyed>>, took: TopStage, w: nat, sent: seq<Message<Keyed>>)
    requires b.Valid() && |orders| == 3
  {
    && |took.lanes| == |took.totals| == 3 && took.lanes[2] == NoLane()
    && LaneHas(b, orders, feed, took.lanes[0], took.totals[0], 0) && LaneHas(b, orders, feed, took.lanes[1], took.totals[1], 1)
    && |Backlogged(took.lanes[0], took.lanes[1])| == Backlog(feed, SizeOf(b, 0), SizeOf(b, 1))
    && (if Complete(took, Merge, w) then
          && took.pending - {w} == Backlogged(took.lanes[0], took.lanes[1])
          && Backlog(feed, SizeOf(b, 0), SizeOf(b, 1)) <= MAX_PENDING && Finished(took.lanes[0], took.lanes[1]) == w + 1
        else
          took.pending == Backlogged(took.lanes[0], took.lanes[1]))
    && sent == Stream(orders[2], b.batch, 2, if Complete(took, Merge, w) then w else Finished(took.lanes[0], took.lanes[1]))
  }

  lemma {:induction false} LanesUnfinished(b: TopBench, orders: seq<Runs<Keyed>>, feed: seq<Message<Keyed>>,
                                           l: Lane<Keyed>, lt: Option<nat>, r: Lane<Keyed>, rt: Option<nat>)
    requires b.Valid() && |orders| == 3 && LaneHas(b, orders, feed, l, lt, 0) && LaneHas(b, orders, feed, r, rt, 1)
    ensures Backlog(feed, SizeOf(b, 0), SizeOf(b, 1)) == Unfinished(l, r)
  {
    LanesBacklog(feed, l, r, orders[0], orders[1], SizeOf(b, 0), SizeOf(b, 1), b.batch);
  }

  lemma {:induction false} DeliveredFits(b: TopBench, orders: seq<Runs<Keyed>>, feed: seq<Message<Keyed>>, m: Message<Keyed>,
                                         st: TopStage, sent: seq<Message<Keyed>>, left: nat, right: nat)
    requires b.Valid() && OrdersOk(b, orders) && TopOk(st) && MergeAt(b, orders, feed, st, sent) && m != [] && m[0].meta.source < 2
    requires From(feed + [m], 0) <= Stream(orders[0], b.batch, 0, left)
    requires From(feed + [m], 1) <= Stream(orders[1], b.batch, 1, right)
    ensures Fits(b, st, m, {0, 1}) && Fits(b, st, m, {0, 1, 2})
    ensures LaneHas(b, orders, feed + [m], TookIn(b, st, m).lanes[0], TookIn(b, st, m).totals[0], 0)
    ensures LaneHas(b, orders, feed + [m], TookIn(b, st, m).lanes[1], TookIn(b, st, m).totals[1], 1)
    ensures TookIn(b, st, m).lanes[2] == NoLane()
  {
    hide LaneHas, Stream, From, OrdersOk, Backlogged, SizeOf, Took, OpenOk;
    LaneTakes(b, orders, feed, m, st.lanes[0], st.totals[0], 0, left);
    LaneTakes(b, orders, feed, m, st.lanes[1], st.totals[1], 1, right);
    hide Expected;
  }

  lemma {:induction false} TakenInStep(b: TopBench, orders: seq<Runs<Keyed>>, feed: seq<Message<Keyed>>, m: Message<Keyed>,
                                       st: TopStage, sent: seq<Message<Keyed>>)
    requires b.Valid() && |orders| == 3 && TopOk(st) && MergeAt(b, orders, feed, st, sent)
    requires Backlog(feed, SizeOf(b, 0), SizeOf(b, 1)) <= MAX_PENDING
    requires Fits(b, st, m, {0, 1}) && Fits(b, st, m, {0, 1, 2})
    requires var took := TookIn(b, st, m);
      && LaneHas(b, orders, feed + [m], took.lanes[0], took.totals[0], 0)
      && LaneHas(b, orders, feed + [m], took.lanes[1], took.totals[1], 1)
      && took.lanes[2] == NoLane()
    ensures TakenIn(b, orders, feed + [m], TookIn(b, st, m), |st.lanes[m[0].meta.source].full|, sent)
  {
    var took := TookIn(b, st, m);
    LanesUnfinished(b, orders, feed, st.lanes[0], st.totals[0], st.lanes[1], st.totals[1]);
    LanesUnfinished(b, orders, feed + [m], took.lanes[0], took.totals[0], took.lanes[1], took.totals[1]);
    hide LaneHas, Backlog, Stream, Values, Unfinished, Took, Fed, Backlogged, Finished, SizeOf, OpenOk;
    if m[0].meta.source == 0 {
      FedLeft(st.lanes[0], st.lanes[1], Values(m), SizeOf(b, 0), st.pending);
    } else {
      FedRight(st.lanes[0], st.lanes[1], Values(m), SizeOf(b, 1), st.pending);
    }
    assert Fed(st.lanes[0], st.lanes[1], took.lanes[0], took.lanes[1], |st.lanes[m[0].meta.source].full|, took.pending);
    hide TookIn;
    FedTakenIn(b, orders, feed + [m], st, took, |st.lanes[m[0].meta.source].full|, sent);
  }

  lemma {:induction false} FedTakenIn(b: TopBench, orders: seq<Runs<Keyed>>, feed: seq<Message<Keyed>>, st: TopStage, took: TopStage, w: nat, sent: seq<Message<Keyed>>)
    requires b.Valid() && |orders| == 3 && |st.lanes| == 3 && |took.lanes| == |took.totals| == 3 && took.lanes[2] == NoLane()
    requires Fed(st.lanes[0], st.lanes[1], took.lanes[0], took.lanes[1], w, took.pending)
    requires Backlog(feed, SizeOf(b, 0), SizeOf(b, 1)) == Unfinished(took.lanes[0], took.lanes[1])
    requires Unfinished(st.lanes[0], st.lanes[1]) <= MAX_PENDING
    requires sent == Stream(orders[2], b.batch, 2, Finished(st.lanes[0], st.lanes[1]))
    requires LaneHas(b, orders, feed, took.lanes[0], took.totals[0], 0) && LaneHas(b, orders, feed, took.lanes[1], took.totals[1], 1)
    ensures TakenIn(b, orders, feed, took, w, sent)
  {
    hide LaneHas, Backlog, Stream, Unfinished, Backlogged, Finished, SizeOf;
  }

  lemma {:induction false} AdvanceOutcome(b: TopBench, orders: seq<Runs<Keyed>>, feed: seq<Message<Keyed>>, took: TopStage, w: nat, sent: seq<Message<Keyed>>)
    requires b.Valid() && |orders| == 3 && TopOk(took) && TakenIn(b, orders, feed, took, w, sent)
    ensures var (after, r) := Advanced(took, Merge, b, w, orders[2](w));
      && (r.Ok? <==> Backlog(feed, SizeOf(b, 0), SizeOf(b, 1)) <= MAX_PENDING)
      && (r.Ok? ==> MergeAt(b, orders, feed, after, sent + r.value))
  {
    hide LaneHas, Backlog, Backlogged, Finished, SizeOf, Chunked, OpenOk;
    assert sent + [] == sent;
    assert Stream(orders[2], b.batch, 2, w + 1) == Stream(orders[2], b.batch, 2, w) + Chunked(orders[2](w), b.batch, w, 2, 0);
    hide Stream, Complete;
  }

  /** A complete window has the counts of both corpora: so the order in which it is listed is
      one the code could have taken. */
  lemma {:induction false} CompleteCounts(b: TopBench, orders: seq<Runs<Keyed>>, feed: seq<Message<Keyed>>, took: TopStage, w: nat, sent: seq<Message<Keyed>>)
    requires b.Valid() && OrdersOk(b, orders) && TakenIn(b, orders, feed, took, w, sent) && Complete(took, Merge, w)
    ensures WindowCounts(took.lanes, w) == SourceCounts(b, 2)
  {
    TwoParts(took.lanes, w);
    ListedWindow(b, orders, feed, took.lanes[0], took.totals[0], 0, w);
    ListedWindow(b, orders, feed, took.lanes[1], took.totals[1], 1, w);
    hide *;
    SourcesAddUp(b);
  }

  lemma {:induction false} SourcesAddUp(b: TopBench)
    ensures SourceCounts(b, 2) == Plus(SourceCounts(b, 0), SourceCounts(b, 1))
  {
    CountsConcat(Corpus(b, 0), Corpus(b, 1));
    hide CountsOf, Plus, Corpus;
  }

  lemma {:induction false} TwoParts(lanes: seq<Lane<Keyed>>, w: nat)
    requires |lanes| == 3 && lanes[2] == NoLane() && w < |lanes[0].full| && w < |lanes[1].full|
    ensures WindowCounts(lanes, w) == Plus(TallyOf(lanes[0].full[w]), TallyOf(lanes[1].full[w]))
  {
    var x, y := lanes[0].full[w], lanes[1].full[w];
    assert Part(lanes[2], w) == [] && x + y + [] == x + y;
    TallyConcat(x, y);
    hide TallyOf, Plus;
  }

  /** A finished window of a lane tallies to its source's counts. */
  lemma {:induction false} ListedWindow(b: TopBench, orders: seq<Runs<Keyed>>, feed: seq<Message<Keyed>>, lane: Lane<Keyed>, total: Option<nat>, s: nat, w: nat)
    requires b.Valid() && OrdersOk(b, orders) && s < 3 && LaneHas(b, orders, feed, lane, total, s) && w < |lane.full|
    ensures TallyOf(lane.full[w]) == SourceCounts(b, s)
  {
    SendingIs(From(feed, s), lane, orders[s], b.batch, s);
    assert OrderOk(orders[s], SourceCounts(b, s));
    assert IsListing(orders[s](w), SourceCounts(b, s));
    hide Sending, SourceCounts, TallyOf;
    ListingTallies(lane.full[w], SourceCounts(b, s));
  }

  lemma {:induction false} MergeStep(b: TopBench, orders: seq<Runs<Keyed>>, feed: seq<Message<Keyed>>, m: Message<Keyed>,
                                     st: TopStage, sent: seq<Message<Keyed>>, left: nat, right: nat)
    requires b.Valid() && OrdersOk(b, orders) && TopOk(st) && MergeAt(b, orders, feed, st, sent) && m != [] && m[0].meta.source < 2
    requires From(feed + [m], 0) <= Stream(orders[0], b.batch, 0, left)
    requires From(feed + [m], 1) <= Stream(orders[1], b.batch, 1, right)
    requires Backlog(feed, SizeOf(b, 0), SizeOf(b, 1)) <= MAX_PENDING
    ensures var (after, r) := Processed(st, Merge, b, m, orders[2](m[0].meta.window));
      && (r.Ok? <==> Backlog(feed + [m], SizeOf(b, 0), SizeOf(b, 1)) <= MAX_PENDING)
      && (r.Ok? ==> MergeAt(b, orders, feed + [m], after, sent + r.value))
  {
    DeliveredFits(b, orders, feed, m, st, sent, left, right);
    FittingIsTaken(b, Merge, st, m, orders[2](m[0].meta.window));
    TakenInStep(b, orders, feed, m, st, sent);
    assert m[0].meta.window == |st.lanes[m[0].meta.source].full|;
    hide *;
    AdvanceOutcome(b, orders, feed + [m], TookIn(b, st, m), m[0].meta.window, sent);
  }

  /** The merge has refused nothing exactly when the backlog was always within the bound, and
      is then where it should be. */
  ghost predicate MergedSoFar(b: TopBench, orders: seq<Runs<Keyed>>, feed: seq<Message<Keyed>>, run: (TopStage, Outcome))
    requires b.Valid() && |orders| == 3
  {
    && (run.1.Ok? <==> WithinBound(feed, SizeOf(b, 0), SizeOf(b, 1)))
    && (run.1.Ok? ==> MergeAt(b, orders, feed, run.0, run.1.value))
  }

  /** However the two branches interleave and list their counts, the merge refuses a message
      exactly when the backlog exceeds the bound, and sends the windows finished by both. */
  lemma {:induction false} MergeSendsInOrder(b: TopBench, orders: seq<Runs<Keyed>>, feed: seq<Message<Keyed>>, left: nat, right: nat)
    requires b.Valid() && OrdersOk(b, orders) && |orders| == 3
    requires Interleaves(feed, Stream(orders[0], b.batch, 0, left), Stream(orders[1], b.batch, 1, right))
    ensures MergedSoFar(b, orders, feed, Ran(b, Merge, feed, orders[2]))
    decreases |feed|
  {
    assert b.batch > 0;
    hide *;
    if feed == [] {
      NothingMerged(b, orders);
    } else {
      var init, m := feed[..|feed| - 1], feed[|feed| - 1];
      assert feed == init + [m];
      PrefixInterleaves(feed, Stream(orders[0], b.batch, 0, left), Stream(orders[1], b.batch, 1, right));
      MergeSendsInOrder(b, orders, init, left, right);
      LastDelivered(feed, Stream(orders[0], b.batch, 0, left), Stream(orders[1], b.batch, 1, right));
      MergeNext(b, orders, init, m, left, right);
    }
  }

  lemma {:induction false} LastDelivered(feed: seq<Message<Keyed>>, left: seq<Message<Keyed>>, right: seq<Message<Keyed>>)
    requires Interleaves(feed, left, right) && feed != []
    ensures feed[|feed| - 1] != [] && feed[|feed| - 1][0].meta.source < 2
    ensures From(feed, 0) <= left && From(feed, 1) <= right
  {
    hide From;
  }

  lemma {:induction false} NothingMerged(b: TopBench, orders: seq<Runs<Keyed>>)
    requires b.Valid() && OrdersOk(b, orders) && |orders| == 3
    ensures MergedSoFar(b, orders, [], Ran(b, Merge, [], orders[2]))
  {
    MergeStart(b, orders);
    NoBacklog<Keyed>(SizeOf(b, 0), SizeOf(b, 1));
    hide MergeAt, OrdersOk, SizeOf, WithinBound;
  }

  lemma {:induction false} MergeNext(b: TopBench, orders: seq<Runs<Keyed>>, init: seq<Message<Keyed>>, m: Message<Keyed>, left: nat, right: nat)
    requires b.Valid() && OrdersOk(b, orders) && |orders| == 3 && m != [] && m[0].meta.source < 2
    requires From(init + [m], 0) <= Stream(orders[0], b.batch, 0, left) && From(init + [m], 1) <= Stream(orders[1], b.batch, 1, right)
    requires MergedSoFar(b, orders, init, Ran(b, Merge, init, orders[2]))
    ensures MergedSoFar(b, orders, init + [m], Ran(b, Merge, init + [m], orders[2]))
  {
    hide *;
    RanPush(b, Merge, init, m, orders[2]);
    var (before, sent) := Ran(b, Merge, init, orders[2]);
    if sent.Err? {
      StillRefused(b, orders, init, m, (before, sent));
    } else {
      MergedFacts(b, orders, init, before, sent.value);
      MergeStep(b, orders, init, m, before, sent.value, left, right);
      var (st, r) := Processed(before, Merge, b, m, orders[2](m[0].meta.window));
      MergeContinues(b, orders, init, m, st, sent.value, r);
    }
  }

  lemma {:induction false} StillRefused(b: TopBench, orders: seq<Runs<Keyed>>, init: seq<Message<Keyed>>, m: Message<Keyed>, run: (TopStage, Outcome))
    requires b.Valid() && |orders| == 3 && MergedSoFar(b, orders, init, run) && run.1.Err?
    ensures MergedSoFar(b, orders, init + [m], run)
  {
    BoundPush(b, init, m);
    hide WithinBound, MergeAt, Backlog, SizeOf;
  }

  lemma {:induction false} MergedFacts(b: TopBench, orders: seq<Runs<Keyed>>, feed: seq<Message<Keyed>>, st: TopStage, sent: seq<Message<Keyed>>)
    requires b.Valid() && |orders| == 3 && MergedSoFar(b, orders, feed, (st, Ok(sent)))
    ensures MergeAt(b, orders, feed, st, sent) && WithinBound(feed, SizeOf(b, 0), SizeOf(b, 1))
    ensures Backlog(feed, SizeOf(b, 0), SizeOf(b, 1)) <= MAX_PENDING
  {
    LastWithin(feed, SizeOf(b, 0), SizeOf(b, 1));
    hide MergeAt, WithinBound, Backlog, SizeOf;
  }

  lemma {:induction false} MergeContinues(b: TopBench, orders: seq<Runs<Keyed>>, init: seq<Message<Keyed>>, m: Message<Keyed>,
                                          st: TopStage, sent: seq<Message<Keyed>>, r: Outcome)
    requires b.Valid() && |orders| == 3 && WithinBound(init, SizeOf(b, 0), SizeOf(b, 1))
    requires r.Ok? <==> Backlog(init + [m], SizeOf(b, 0), SizeOf(b, 1)) <= MAX_PENDING
    requires r.Ok? ==> MergeAt(b, orders, init + [m], st, sent + r.value)
    ensures MergedSoFar(b, orders, init + [m], (st, Glued(sent, r)))
  {
    BoundPush(b, init, m);
    hide WithinBound, MergeAt, Backlog, SizeOf;
  }

  lemma {:induction false} RanPush(b: TopBench, role: Role, init: seq<Message<Keyed>>, m: Message<Keyed>, order: Runs<Keyed>)
    requires b.Valid() && m != []
    ensures var (before, sent) := Ran(b, role, init, order);
      && (sent.Err? ==> Ran(b, role, init + [m], order) == (before, sent))
      && (sent.Ok? ==>
           var (st, r) := Processed(before, role, b, m, order(m[0].meta.window));
           Ran(b, role, init + [m], order) == (st, Glued(sent.value, r)))
  {
    assert (init + [m])[..|init|] == init;
    hide Processed;
  }

  lemma {:induction false} BoundPush(b: TopBench, init: seq<Message<Keyed>>, m: Message<Keyed>)
    ensures WithinBound(init + [m], SizeOf(b, 0), SizeOf(b, 1))
      <==> WithinBound(init, SizeOf(b, 0), SizeOf(b, 1)) && Backlog(init + [m], SizeOf(b, 0), SizeOf(b, 1)) <= MAX_PENDING
  {
    assert (init + [m])[..|init + [m]| - 1] == init;
    BoundPrefix(init + [m], SizeOf(b, 0), SizeOf(b, 1));
    hide *;
  }

  // ---------- the estimate ----------

  /** The retained counts after `w` windows: the last `rolling`. */
  ghost function Retained(b: TopBench, counts: Counts, w: nat): (r: seq<Counts>)
    ensures forall i :: 0 <= i < |r| ==> r[i] == counts
  {
    if b.rolling <= 1 then [] else seq(Min(w, b.rolling), _ => counts)
  }

  lemma {:induction false} RetainedNext(b: TopBench, counts: Counts, w: nat)
    ensures Retain(b, Retained(b, counts, w), counts) == Retained(b, counts, w + 1)
  {
  }

  ghost function AnswerTo(b: TopBench, counts: Counts, w: nat): Message<Keyed> {
    TopMessage(b, w, counts, Retained(b, counts, w + 1))
  }

  ghost function Answers(b: TopBench, counts: Counts, n: nat): seq<Message<Keyed>> {
    if n == 0 then [] else Answers(b, counts, n - 1) + [AnswerTo(b, counts, n - 1)]
  }

  ghost predicate EstimateAt(b: TopBench, orders: seq<Runs<Keyed>>, feed: seq<Message<Keyed>>, st: TopStage, sent: seq<Message<Keyed>>)
    requires b.Valid() && |orders| == 3
  {
    && |st.lanes| == |st.totals| == 3 && st.lanes[0] == st.lanes[1] == NoLane()
    && Sending(feed, st.lanes[2], orders[2], b.batch, 2)
    && st.totals[2] == (if st.lanes[2].open == [] then None else Some(SizeOf(b, 2)))
    && st.pending == (if st.lanes[2].open == [] then {} else {|st.lanes[2].full|})
    && st.history == Retained(b, SourceCounts(b, 2), |st.lanes[2].full|)
    && sent == Answers(b, SourceCounts(b, 2), |st.lanes[2].full|)
  }

  lemma {:induction false} EstimateStart(b: TopBench, orders: seq<Runs<Keyed>>)
    requires b.Valid() && OrdersOk(b, orders)
    ensures EstimateAt(b, orders, [], FreshTop, [])
  {
    StageSizes(b, orders, 2);
    assert |orders[2](0)| == SizeOf(b, 2);
    SendingStart(orders[2], b.batch, 2);
    hide Sending;
  }

  lemma {:induction false} EstimateFits(b: TopBench, orders: seq<Runs<Keyed>>, feed: seq<Message<Keyed>>, m: Message<Keyed>,
                                        st: TopStage, sent: seq<Message<Keyed>>, n: nat)
    requires b.Valid() && OrdersOk(b, orders) && TopOk(st) && EstimateAt(b, orders, feed, st, sent)
    requires feed + [m] <= Stream(orders[2], b.batch, 2, n)
    ensures Fits(b, st, m, {2}) && Fits(b, st, m, {0, 1, 2})
    ensures Sending(feed + [m], Took(st.lanes[2], Values(m), SizeOf(b, 2)), orders[2], b.batch, 2)
  {
    var lane := st.lanes[2];
    StageSizes(b, orders, 2);
    assert OrderOk(orders[2], SourceCounts(b, 2));
    SendingIs(feed, lane, orders[2], b.batch, 2);
    hide Sending, Stream, AllOfSize, SourceCounts, OrderOk, OrdersOk, Answers, Retained, OpenOk;
    SendingStep(feed, lane, orders[2], SizeOf(b, 2), b.batch, 2, m, n);
    TotalCarried(orders[2], SourceCounts(b, 2), |lane.full|, |lane.open|, m);
    hide Took, Values;
  }

  /** A finished window has the merged counts. */
  lemma {:induction false} EstimateCounts(b: TopBench, orders: seq<Runs<Keyed>>, feed: seq<Message<Keyed>>, lanes: seq<Lane<Keyed>>, w: nat)
    requires b.Valid() && OrdersOk(b, orders) && |lanes| == 3 && lanes[0] == lanes[1] == NoLane() && w < |lanes[2].full|
    requires Sending(feed, lanes[2], orders[2], b.batch, 2)
    ensures WindowCounts(lanes, w) == SourceCounts(b, 2)
  {
    var x := lanes[2].full[w];
    SendingIs(feed, lanes[2], orders[2], b.batch, 2);
    assert IsListing(orders[2](w), SourceCounts(b, 2)) by {
      assert OrderOk(orders[2], SourceCounts(b, 2));
    }
    ListingTallies(x, SourceCounts(b, 2));
    assert [] + [] + x == x;
    hide TallyOf, SourceCounts;
  }

  lemma {:induction false} EstimateOutcome(b: TopBench, orders: seq<Runs<Keyed>>, feed: seq<Message<Keyed>>, took: TopStage, w: nat, sent: seq<Message<Keyed>>, listing: seq<Keyed>)
    requires b.Valid() && OrdersOk(b, orders) && TopOk(took) && took.lanes[0] == took.lanes[1] == NoLane()
    requires Sending(feed, took.lanes[2], orders[2], b.batch, 2)
    requires w <= |took.lanes[2].full| <= w + 1 && (|took.lanes[2].full| == w <==> took.lanes[2].open != [])
    requires took.totals[2] == if took.lanes[2].open == [] then None else Some(SizeOf(b, 2))
    requires took.pending == {w} && took.history == Retained(b, SourceCounts(b, 2), w) && sent == Answers(b, SourceCounts(b, 2), w)
    ensures var (after, r) := Advanced(took, Estimate, b, w, listing);
      r.Ok? && EstimateAt(b, orders, feed, after, sent + r.value)
  {
    if w < |took.lanes[2].full| {
      AnsweredWindow(b, orders, feed, took, w, sent, listing);
    } else {
      assert sent + [] == sent;
    }
    hide Sending, OpenOk, WindowCounts, SourceCounts, Retained, Retain, TopMessage, Answers, OrdersOk, SizeOf;
  }

  lemma {:induction false} AnsweredWindow(b: TopBench, orders: seq<Runs<Keyed>>, feed: seq<Message<Keyed>>, took: TopStage, w: nat, sent: seq<Message<Keyed>>, listing: seq<Keyed>)
    requires b.Valid() && OrdersOk(b, orders) && TopOk(took) && took.lanes[0] == took.lanes[1] == NoLane()
    requires Sending(feed, took.lanes[2], orders[2], b.batch, 2)
    requires |took.lanes[2].full| == w + 1 && took.lanes[2].open == [] && took.totals[2] == None
    requires took.pending == {w} && took.history == Retained(b, SourceCounts(b, 2), w) && sent == Answers(b, SourceCounts(b, 2), w)
    ensures var (after, r) := Advanced(took, Estimate, b, w, listing);
      r.Ok? && EstimateAt(b, orders, feed, after, sent + r.value)
  {
    var counts := SourceCounts(b, 2);
    EstimateCounts(b, orders, feed, took.lanes, w);
    RetainedNext(b, counts, w);
    hide Sending, OpenOk, WindowCounts, SourceCounts, Retained, Retain, TopMessage, OrdersOk, SizeOf;
    assert took.pending - {w} == {};
    assert Answers(b, counts, w + 1) == Answers(b, counts, w) + [AnswerTo(b, counts, w)];
  }

  lemma {:induction false} EstimateStep(b: TopBench, orders: seq<Runs<Keyed>>, feed: seq<Message<Keyed>>, m: Message<Keyed>,
                                        st: TopStage, sent: seq<Message<Keyed>>, n: nat, listing: seq<Keyed>)
    requires b.Valid() && OrdersOk(b, orders) && TopOk(st) && EstimateAt(b, orders, feed, st, sent)
    requires feed + [m] <= Stream(orders[2], b.batch, 2, n)
    ensures var (after, r) := Processed(st, Estimate, b, m, listing);
      r.Ok? && EstimateAt(b, orders, feed + [m], after, sent + r.value)
  {
    EstimateFits(b, orders, feed, m, st, sent, n);
    FittingIsTaken(b, Estimate, st, m, listing);
    var w := |st.lanes[2].full|;
    EstimateTook(b, st, m);
    hide Sending, Stream, Answers, Retained, OrdersOk, Processed, Advanced, TookIn, SourceCounts, SizeOf, Took, OpenOk;
    EstimateOutcome(b, orders, feed + [m], TookIn(b, st, m), w, sent, listing);
    hide *;
  }

  lemma {:induction false} EstimateTook(b: TopBench, st: TopStage, m: Message<Keyed>)
    requires TopOk(st) && Fits(b, st, m, {2}) && Fits(b, st, m, {0, 1, 2})
    ensures var took, w := TookIn(b, st, m), |st.lanes[2].full|;
      && took.lanes == st.lanes[2 := Took(st.lanes[2], Values(m), SizeOf(b, 2))]
      && took.history == st.history && took.pending == st.pending + {w}
      && w <= |took.lanes[2].full| <= w + 1 && (|took.lanes[2].full| == w <==> took.lanes[2].open != [])
      && took.totals[2] == if took.lanes[2].open == [] then None else Some(SizeOf(b, 2))
  {
    hide SizeOf, OpenOk;
  }

  /** Fed any part of the merged windows in order, the estimate refuses nothing and answers
      each finished window. */
  lemma {:induction false} EstimateAnswers(b: TopBench, orders: seq<Runs<Keyed>>, feed: seq<Message<Keyed>>, n: nat, order: Runs<Keyed>)
    requires b.Valid() && OrdersOk(b, orders) && feed <= Stream(orders[2], b.batch, 2, n)
    ensures Ran(b, Estimate, feed, order).1.Ok?
    ensures EstimateAt(b, orders, feed, Ran(b, Estimate, feed, order).0, Ran(b, Estimate, feed, order).1.value)
    decreases |feed|
  {
    hide EstimateAt, Processed, OpenOk, Stream, OrdersOk;
    if feed == [] {
      EstimateStart(b, orders);
    } else {
      var init, m := feed[..|feed| - 1], feed[|feed| - 1];
      assert feed == init + [m];
      EstimateAnswers(b, orders, init, n, order);
      var (before, sent) := Ran(b, Estimate, init, order);
      EstimateStep(b, orders, init, m, before, sent.value, n, order(if m == [] then 0 else m[0].meta.window));
    }
  }

  // ---------- the backend ----------

  /** The backend's reference: the top ten of both corpora. */
  ghost function Reference(b: TopBench): seq<Ranked<Key>> {
    Top(CountsOf(KeysFrom(b, 1, b.points * 2)))
  }

  lemma {:induction false} ReferenceCounts(b: TopBench)
    ensures CountsOf(KeysFrom(b, 1, b.points * 2)) == SourceCounts(b, 2)
  {
    assert KeysFrom(b, 1, b.points * 2) == Corpus(b, 0) + Corpus(b, 1);
  }

  lemma {:induction false} TopSize(counts: Counts)
    ensures |Top(counts)| == Min(TOP_K, |counts|)
  {
    var top := Top(counts);
    assert IsTop(top, counts, TOP_K, KeyLeq);
    hide Top;
    var ranking: seq<Ranked<Key>> :| IsRanking(ranking, counts, KeyLeq) && top == Take(ranking, TOP_K);
    ListsSize(ranking, counts);
  }

  /** Several equal windows have the same top ten, counts scaled. */
  lemma {:induction false} RollingTop(counts: Counts, history: seq<Counts>)
    requires history != [] && forall i :: 0 <= i < |history| ==> history[i] == counts
    ensures Top(PlusAll(history)) == ScaledRanks(Top(counts), |history|)
  {
    EqualWindowsScale(counts, history);
    ScalingKeepsTop(Top(counts), counts, TOP_K, KeyLeq, |history|);
    KeyLeqIsTotal();
    hide IsTop, TotalOrder, Top;
    TopIsUnique(Top(Scaled(counts, |history|)), ScaledRanks(Top(counts), |history|), Scaled(counts, |history|), TOP_K, KeyLeq);
  }

  lemma {:induction false} ScaledOnce(top: seq<Ranked<Key>>)
    ensures ScaledRanks(top, 1) == top
  {
    forall i | 0 <= i < |top|
      ensures ScaledRanks(top, 1)[i] == top[i]
    {
      assert top[i].count * 1 == top[i].count;
    }
  }

  lemma {:induction false} OfKindPush(x: Message<Keyed>, last: Message<Keyed>, kind: Kind)
    requires |last| == 1
    ensures OfKind(x + last, kind) == OfKind(x, kind) + OfKind(last, kind)
  {
    assert (x + last)[..|x + last| - 1] == x && (x + last)[|x|] == last[0];
    assert last[..0] == [];
    assert OfKind(last[..0], kind) == [];
  }

  lemma {:induction false} OfKindConcat(x: Message<Keyed>, y: Message<Keyed>, kind: Kind)
    ensures OfKind(x + y, kind) == OfKind(x, kind) + OfKind(y, kind)
    decreases |y|
  {
    if y == [] {
      assert x + y == x;
      assert OfKind(y, kind) == [];
    } else {
      var init, last := y[..|y| - 1], y[|y| - 1..];
      OfKindConcat(x, init, kind);
      OfKindPush(x + init, last, kind);
      OfKindPush(init, last, kind);
      hide OfKind;
      assert y == init + last && x + y == x + init + last;
    }
  }

  lemma {:induction false} OfKindRanks(w: nat, kind: Kind, top: seq<Ranked<Key>>, asked: Kind)
    ensures asked != kind ==> OfKind(RankPoints(w, kind, top), asked) == []
    ensures asked == kind ==>
      && |OfKind(RankPoints(w, kind, top), asked)| == |top|
      && forall i :: 0 <= i < |top| ==> OfKind(RankPoints(w, kind, top), asked)[i] == RankedEntry(i + 1, top[i])
    decreases |top|
  {
    if top != [] {
      var n := |top| - 1;
      OfKindRanks(w, kind, top[..n], asked);
      assert RankPoints(w, kind, top)[..n] == RankPoints(w, kind, top[..n]);
    }
  }

  /** The estimate's message is read back kind by kind, by rank. */
  lemma {:induction false} AnswersReadBack(w: nat, tumbling: seq<Ranked<Key>>, rolling: Option<seq<Ranked<Key>>>, kind: Kind)
    requires kind.Rolling? ==> rolling.Some?
    ensures Entries(Sort(OfKind(TopPoints(w, tumbling, rolling), kind), ByRank)) == if kind.Tumbling? then tumbling else rolling.value
  {
    var first := RankPoints(w, Tumbling, tumbling);
    var second: Message<Keyed> := if rolling.Some? then RankPoints(w, Rolling, rolling.value) else [];
    OfKindConcat(first, second, kind);
    OfKindRanks(w, Tumbling, tumbling, kind);
    if rolling.Some? {
      OfKindRanks(w, Rolling, rolling.value, kind);
    }
    var found := OfKind(first + second, kind);
    hide OfKind, RankPoints;
    assert Sorted(found, ByRank);
    SortedStays(found, ByRank);
    hide Sort;
    assert Entries(found) == if kind.Tumbling? then tumbling else rolling.value;
  }

  lemma {:induction false} RightTop(b: TopBench, counts: Counts, w: nat, k: nat)
    requires |counts| >= TOP_K && k < |Kinds(b)|
    ensures RightAnswer(b, Top(counts), AnswerTo(b, counts, w), w, Kinds(b)[k])
  {
    var history := Retained(b, counts, w + 1);
    var rolling := if b.rolling <= 1 then None else Some(Top(PlusAll(history)));
    AnswersReadBack(w, Top(counts), rolling, Kinds(b)[k]);
    TopSize(counts);
    ScaledOnce(Top(counts));
    if k == 1 {
      assert |history| == Min(w + 1, b.rolling) > 0;
      RollingTop(counts, history);
    }
    hide OfKind, Sort, Entries, TopPoints, PlusAll, Top;
  }

  lemma {:induction false} AnswerShape(b: TopBench, counts: Counts, w: nat)
    ensures |AnswerTo(b, counts, w)| == |Top(counts)| + if b.rolling <= 1 then 0 else |Top(PlusAll(Retained(b, counts, w + 1)))|
    ensures |Top(counts)| > 0 ==> AnswerTo(b, counts, w)[0].meta == Meta(w, 2, 0)
  {
    hide Top, PlusAll;
  }

  /** The backend accepts the answer to a window exactly when there are ten keys to answer. */
  lemma {:induction false} AcceptedWithTenKeys(b: TopBench, counts: Counts, w: nat)
    ensures Accepts(b, Top(counts), w, AnswerTo(b, counts, w)) <==> |counts| >= TOP_K
  {
    var history := Retained(b, counts, w + 1);
    AnswerShape(b, counts, w);
    TopSize(counts);
    if b.rolling > 1 {
      assert |history| == Min(w + 1, b.rolling) > 0;
      RollingTop(counts, history);
    }
    if |counts| >= TOP_K {
      forall k | 0 <= k < |Kinds(b)|
        ensures RightAnswer(b, Top(counts), AnswerTo(b, counts, w), w, Kinds(b)[k])
      {
        RightTop(b, counts, w, k);
      }
    }
    hide RightAnswer, AnswerTo, Top, PlusAll;
  }

  /** The backend fed message by message: the next window, or None once it refuses. */
  ghost function BackendRun(b: TopBench, msgs: seq<Message<Keyed>>): Option<nat> {
    if msgs == [] then Some(0)
    else
      var next := BackendRun(b, msgs[..|msgs| - 1]);
      if next.Some? && Accepts(b, Reference(b), next.value, msgs[|msgs| - 1]) then Some(next.value + 1) else None
  }

  lemma {:induction false} BackendAccepts(b: TopBench, n: nat)
    ensures BackendRun(b, Answers(b, SourceCounts(b, 2), n)) == AcceptedUpTo(b, n)
    decreases n
  {
    hide *;
    if n == 0 {
      NothingAsked(b);
    } else {
      BackendAccepts(b, n - 1);
      AcceptsNext(b, n - 1);
    }
  }

  lemma {:induction false} NothingAsked(b: TopBench)
    ensures BackendRun(b, Answers(b, SourceCounts(b, 2), 0)) == Some(0) == AcceptedUpTo(b, 0)
  {
    hide SourceCounts;
  }

  lemma {:induction false} AcceptsNext(b: TopBench, n: nat)
    requires BackendRun(b, Answers(b, SourceCounts(b, 2), n)) == AcceptedUpTo(b, n)
    ensures BackendRun(b, Answers(b, SourceCounts(b, 2), n + 1)) == AcceptedUpTo(b, n + 1)
  {
    hide *;
    var counts := SourceCounts(b, 2);
    AnswersPush(b, counts, n);
    AcceptedWithTenKeys(b, counts, n);
    ReferenceIs(b);
    BackendPush(b, Answers(b, counts, n), AnswerTo(b, counts, n));
    OneFurther(b, n);
  }

  lemma {:induction false} OneFurther(b: TopBench, n: nat)
    ensures AcceptedUpTo(b, n + 1) == if |SourceCounts(b, 2)| >= TOP_K then Some(n + 1) else None
    ensures |SourceCounts(b, 2)| >= TOP_K ==> AcceptedUpTo(b, n) == Some(n)
    ensures AcceptedUpTo(b, n).None? || AcceptedUpTo(b, n) == Some(n)
  {
    hide SourceCounts;
  }

  lemma {:induction false} ReferenceIs(b: TopBench)
    ensures Reference(b) == Top(SourceCounts(b, 2))
  {
    ReferenceCounts(b);
    hide SourceCounts, Top, CountsOf;
  }

  lemma {:induction false} AnswersPush(b: TopBench, counts: Counts, n: nat)
    ensures Answers(b, counts, n + 1) == Answers(b, counts, n) + [AnswerTo(b, counts, n)]
  {
    hide AnswerTo;
  }

  lemma {:induction false} BackendPush(b: TopBench, msgs: seq<Message<Keyed>>, m: Message<Keyed>)
    ensures var next := BackendRun(b, msgs);
      BackendRun(b, msgs + [m]) == if next.Some? && Accepts(b, Reference(b), next.value, m) then Some(next.value + 1) else None
  {
    hide Accepts, Reference;
    var all := msgs + [m];
    assert all[..|all| - 1] == msgs && all[|all| - 1] == m;
  }

  /** How far the backend gets: nowhere past the first answer without ten keys. */
  ghost function AcceptedUpTo(b: TopBench, n: nat): Option<nat> {
    if n == 0 || |SourceCounts(b, 2)| >= TOP_K then Some(n) else None
  }
}
