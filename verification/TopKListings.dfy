/** The whole top-k pipeline, from sources to backend. */
module TopKListings {
  import opened Basics
  import opened BenchNormalizer
  import opened BenchStreams
  import opened Rankings
  import opened TopKCounts
  import opened TopKStages
  import opened TopKPipeline

  // ---------- what a run lists ----------

  /** Whenever a batch finishes a window, the branch lists what it has counted there, in any
      order. */
  ghost predicate BranchLists(b: TopBench, batches: seq<NormalizedBatch>, order: Runs<Keyed>)
    requires b.Valid()
  {
    batches == [] || (
      var init := batches[..|batches| - 1];
      && BranchLists(b, init, order)
      && BranchListsLast(BranchRun(b, init, order).0, BranchRun(b, batches, order).0, order))
  }

  ghost predicate BranchListsLast(before: BranchStage, after: BranchStage, order: Runs<Keyed>) {
    var w := |before.lane.full|;
    |after.lane.full| > w ==> IsListing(order(w), CountsOf(after.lane.full[w]))
  }

  /** Whenever a message completes a window, the merge lists the counts it holds for it, in any
      order. */
  ghost predicate MergeLists(b: TopBench, feed: seq<Message<Keyed>>, order: Runs<Keyed>)
    requires b.Valid()
  {
    feed == [] || (
      var init := feed[..|feed| - 1];
      && MergeLists(b, init, order)
      && MergeListsLast(Ran(b, Merge, init, order), Ran(b, Merge, feed, order), order))
  }

  ghost predicate MergeListsLast(before: (TopStage, Outcome), after: (TopStage, Outcome), order: Runs<Keyed>) {
    before.1.Ok? && after.1.Ok? && |before.0.lanes| == 3 && |after.0.lanes| == 3 ==>
      var w := Done(before.0, Merge);
      Done(after.0, Merge) > w ==> IsListing(order(w), WindowCounts(after.0.lanes, w))
  }

  // ---------- the listings are right ----------

  /** A branch lists the counts of its corpus, window by window. */
  lemma {:induction false} BranchListsCorpus(b: TopBench, source: nat, batches: seq<NormalizedBatch>, to: Pos, order: Runs<Keyed>)
    requires b.Valid() && source < 2 && Tiles(b.points, b.batch, source, batches, Pos(0, 0), to)
    requires BranchLists(b, batches, order)
    ensures forall w :: 0 <= w < to.window ==> IsListing(order(w), SourceCounts(b, source))
    decreases |batches|
  {
    hide BranchRun, IsListing, SourceCounts, Cut;
    if batches != [] {
      var init, last := batches[..|batches| - 1], batches[|batches| - 1];
      var p := Pos(last.meta.window, last.meta.offset);
      BranchListsCorpus(b, source, init, p, order);
      BranchSendsCounts(b, source, batches, to, order);
      BranchSendsCounts(b, source, init, p, order);
      LastMeta(b, source, last, p);
      LastListed(b, source, BranchRun(b, init, order).0, BranchRun(b, batches, order).0, p, to, order);
    }
  }

  lemma {:induction false} LastListed(b: TopBench, source: nat, before: BranchStage, after: BranchStage, p: Pos, to: Pos,
      order: Runs<Keyed>)
    requires b.Valid() && source < 2
    requires BranchAt(b, source, before, p) && BranchAt(b, source, after, to) && BranchListsLast(before, after, order)
    ensures to.window > p.window ==> IsListing(order(p.window), SourceCounts(b, source))
  {
    hide IsListing, SourceCounts, CountsOf, Corpus;
    CorpusCounts(b, source);
  }

  lemma {:induction false} CorpusCounts(b: TopBench, source: nat)
    requires source < 2
    ensures SourceCounts(b, source) == CountsOf(Corpus(b, source))
  {
  }

  /** An order that lists the right counts everywhere, and agrees with `order` wherever that
      does. */
  lemma {:induction false} Patched(order: Runs<Keyed>, counts: Counts) returns (p: Runs<Keyed>)
    ensures OrderOk(p, counts)
    ensures forall w: nat :: IsListing(order(w), counts) ==> p(w) == order(w)
  {
    var ranks := ListingExists(counts);
    var some := WithTotals(ranks);
    assert Bare(some) == ranks;
    assert IsListing(some, counts);
    hide IsListing;
    p := (w: nat) => if IsListing(order(w), counts) then order(w) else some;
  }

  lemma {:induction false} StreamAgrees(x: Runs<Keyed>, y: Runs<Keyed>, batch: nat, source: nat, n: nat)
    requires batch > 0 && forall w :: 0 <= w < n ==> x(w) == y(w)
    ensures Stream(x, batch, source, n) == Stream(y, batch, source, n)
    decreases n
  {
    if n > 0 {
      StreamAgrees(x, y, batch, source, n - 1);
    }
  }

  /** What a branch sends is the stream of an order that lists its corpus everywhere. */
  lemma {:induction false} BranchStream(b: TopBench, source: nat, batches: seq<NormalizedBatch>, to: Pos, order: Runs<Keyed>)
    returns (p: Runs<Keyed>)
    requires b.Valid() && source < 2 && Tiles(b.points, b.batch, source, batches, Pos(0, 0), to)
    requires BranchLists(b, batches, order)
    ensures OrderOk(p, SourceCounts(b, source))
    ensures BranchRun(b, batches, order).1 == Ok(Stream(p, b.batch, source, to.window))
  {
    hide BranchRun, OrderOk, IsListing, SourceCounts, BranchLists, Tiles;
    BranchListsCorpus(b, source, batches, to, order);
    BranchSendsCounts(b, source, batches, to, order);
    p := Patched(order, SourceCounts(b, source));
    StreamAgrees(order, p, b.batch, source, to.window);
  }

  // ---------- the merge ----------

  /** A step that completes no window does not look at the listing; one that does lists the sums
      of both sources. */
  lemma {:induction false} StepListsSums(b: TopBench, orders: seq<Runs<Keyed>>, feed: seq<Message<Keyed>>, m: Message<Keyed>,
                                         st: TopStage, sent: seq<Message<Keyed>>, left: nat, right: nat, order: Runs<Keyed>)
    requires b.Valid() && OrdersOk(b, orders) && |orders| == 3 && TopOk(st) && MergeAt(b, orders, feed, st, sent)
    requires m != [] && m[0].meta.source < 2
    requires From(feed + [m], 0) <= Stream(orders[0], b.batch, 0, left)
    requires From(feed + [m], 1) <= Stream(orders[1], b.batch, 1, right)
    requires Backlog(feed, SizeOf(b, 0), SizeOf(b, 1)) <= MAX_PENDING
    requires forall w: nat :: IsListing(order(w), SourceCounts(b, 2)) ==> orders[2](w) == order(w)
    requires var (after, r) := Processed(st, Merge, b, m, order(m[0].meta.window));
      MergeListsLast((st, Ok(sent)), (after, Glued(sent, r)), order)
    ensures Processed(st, Merge, b, m, order(m[0].meta.window)) == Processed(st, Merge, b, m, orders[2](m[0].meta.window))
  {
    var w := m[0].meta.window;
    DeliveredFits(b, orders, feed, m, st, sent, left, right);
    FittingIsTaken(b, Merge, st, m, orders[2](w));
    FittingIsTaken(b, Merge, st, m, order(w));
    TakenInStep(b, orders, feed, m, st, sent);
    assert w == |st.lanes[m[0].meta.source].full|;
    TookCompletes(b, st, m);
    hide *;
    SameAdvance(b, orders, feed + [m], st, TookIn(b, st, m), w, sent, order);
  }

  /** Taking in a message completes at most the first unfinished window. */
  lemma {:induction false} TookCompletes(b: TopBench, st: TopStage, m: Message<Keyed>)
    requires TopOk(st) && Fits(b, st, m, {0, 1}) && Fits(b, st, m, {0, 1, 2})
    ensures |st.lanes| == 3 && |TookIn(b, st, m).lanes| == 3
    ensures var w := |st.lanes[m[0].meta.source].full|;
      Complete(TookIn(b, st, m), Merge, w) ==> Done(st, Merge) == w && Done(TookIn(b, st, m), Merge) == w + 1
  {
    hide SizeOf, OpenOk, Values;
  }

  lemma {:induction false} SameAdvance(b: TopBench, orders: seq<Runs<Keyed>>, feed: seq<Message<Keyed>>, st: TopStage, took: TopStage, w: nat,
                                       sent: seq<Message<Keyed>>, order: Runs<Keyed>)
    requires b.Valid() && OrdersOk(b, orders) && |orders| == 3 && TopOk(took) && TakenIn(b, orders, feed, took, w, sent)
    requires |st.lanes| == 3 && |took.lanes| == 3
    requires Complete(took, Merge, w) ==> Done(st, Merge) == w && Done(took, Merge) == w + 1
    requires forall v: nat :: IsListing(order(v), SourceCounts(b, 2)) ==> orders[2](v) == order(v)
    requires var (after, r) := Advanced(took, Merge, b, w, order(w));
      MergeListsLast((st, Ok(sent)), (after, Glued(sent, r)), order)
    ensures Advanced(took, Merge, b, w, order(w)) == Advanced(took, Merge, b, w, orders[2](w))
  {
    hide OrdersOk, TopOk, TakenIn, Chunked, IsListing, SourceCounts, WindowCounts;
    if Complete(took, Merge, w) {
      CompleteCounts(b, orders, feed, took, w, sent);
    }
  }

  /** A merge that lists what it holds runs as one that lists the sums of both sources. */
  lemma {:induction false} MergeListsSums(b: TopBench, orders: seq<Runs<Keyed>>, feed: seq<Message<Keyed>>, left: nat, right: nat, order: Runs<Keyed>)
    requires b.Valid() && OrdersOk(b, orders) && |orders| == 3
    requires Interleaves(feed, Stream(orders[0], b.batch, 0, left), Stream(orders[1], b.batch, 1, right))
    requires forall w: nat :: IsListing(order(w), SourceCounts(b, 2)) ==> orders[2](w) == order(w)
    requires MergeLists(b, feed, order)
    ensures Ran(b, Merge, feed, order) == Ran(b, Merge, feed, orders[2])
    decreases |feed|
  {
    assert b.batch > 0;
    if feed == [] {
    } else {
      hide Ran, OrdersOk, Interleaves, Stream, IsListing, SourceCounts, MergeListsLast;
      var init, m := feed[..|feed| - 1], feed[|feed| - 1];
      assert feed == init + [m];
      PrefixInterleaves(feed, Stream(orders[0], b.batch, 0, left), Stream(orders[1], b.batch, 1, right));
      MergeListsSums(b, orders, init, left, right, order);
      LastDelivered(feed, Stream(orders[0], b.batch, 0, left), Stream(orders[1], b.batch, 1, right));
      MergeSendsInOrder(b, orders, init, left, right);
      hide *;
      NextListsSums(b, orders, init, m, left, right, order);
    }
  }

  lemma {:induction false} NextListsSums(b: TopBench, orders: seq<Runs<Keyed>>, init: seq<Message<Keyed>>, m: Message<Keyed>,
                                         left: nat, right: nat, order: Runs<Keyed>)
    requires b.Valid() && b.batch > 0 && OrdersOk(b, orders) && |orders| == 3 && m != [] && m[0].meta.source < 2
    requires From(init + [m], 0) <= Stream(orders[0], b.batch, 0, left) && From(init + [m], 1) <= Stream(orders[1], b.batch, 1, right)
    requires forall w: nat :: IsListing(order(w), SourceCounts(b, 2)) ==> orders[2](w) == order(w)
    requires Ran(b, Merge, init, order) == Ran(b, Merge, init, orders[2])
    requires MergedSoFar(b, orders, init, Ran(b, Merge, init, orders[2]))
    requires MergeListsLast(Ran(b, Merge, init, order), Ran(b, Merge, init + [m], order), order)
    ensures Ran(b, Merge, init + [m], order) == Ran(b, Merge, init + [m], orders[2])
  {
    hide *;
    RanPush(b, Merge, init, m, order);
    RanPush(b, Merge, init, m, orders[2]);
    var (before, sent) := Ran(b, Merge, init, order);
    if sent.Ok? {
      MergedFacts(b, orders, init, before, sent.value);
      StepListsSums(b, orders, init, m, before, sent.value, left, right, order);
    }
  }

  // ---------- the whole pipeline ----------

  /** Whatever the chunking, the interleaving and the orders in which the three stages list the
      counts they hold: no branch refuses anything; the merge refuses nothing exactly when the
      backlog stays within the bound; then the estimate refuses nothing, and the backend
      accepts every answer exactly when the two corpora have ten different keys. */
  lemma {:induction false} PipelineIsAccepted(b: TopBench, orders: seq<Runs<Keyed>>, cut0: seq<NormalizedBatch>, to0: Pos, cut1: seq<NormalizedBatch>, to1: Pos,
                                              feed: seq<Message<Keyed>>, merged: seq<Message<Keyed>>)
    requires b.Valid() && |orders| == 3
    requires Tiles(b.points, b.batch, 0, cut0, Pos(0, 0), to0) && Tiles(b.points, b.batch, 1, cut1, Pos(0, 0), to1)
    requires BranchLists(b, cut0, orders[0]) && BranchLists(b, cut1, orders[1]) && MergeLists(b, feed, orders[2])
    ensures BranchRun(b, cut0, orders[0]).1.Ok? && BranchRun(b, cut1, orders[1]).1.Ok?
    ensures Interleaves(feed, BranchRun(b, cut0, orders[0]).1.value, BranchRun(b, cut1, orders[1]).1.value) ==>
      && (Ran(b, Merge, feed, orders[2]).1.Ok? <==> WithinBound(feed, SizeOf(b, 0), SizeOf(b, 1)))
      && (WithinBound(feed, SizeOf(b, 0), SizeOf(b, 1)) && merged <= Ran(b, Merge, feed, orders[2]).1.value ==>
           var estimate := Ran(b, Estimate, merged, orders[2]);
           && estimate.1.Ok?
           && BackendRun(b, estimate.1.value) == AcceptedUpTo(b, |estimate.0.lanes[2].full|))
  {
    assert b.batch > 0;
    hide *;
    var p0 := BranchStream(b, 0, cut0, to0, orders[0]);
    var p1 := BranchStream(b, 1, cut1, to1, orders[1]);
    if Interleaves(feed, BranchRun(b, cut0, orders[0]).1.value, BranchRun(b, cut1, orders[1]).1.value) {
      MergedIsAccepted(b, p0, p1, orders[2], feed, to0.window, to1.window, merged);
    }
  }

  lemma {:induction false} MergedIsAccepted(b: TopBench, p0: Runs<Keyed>, p1: Runs<Keyed>, order: Runs<Keyed>, feed: seq<Message<Keyed>>, left: nat, right: nat,
                                            merged: seq<Message<Keyed>>)
    requires b.Valid() && b.batch > 0 && OrderOk(p0, SourceCounts(b, 0)) && OrderOk(p1, SourceCounts(b, 1)) && MergeLists(b, feed, order)
    requires Interleaves(feed, Stream(p0, b.batch, 0, left), Stream(p1, b.batch, 1, right))
    ensures Ran(b, Merge, feed, order).1.Ok? <==> WithinBound(feed, SizeOf(b, 0), SizeOf(b, 1))
    ensures WithinBound(feed, SizeOf(b, 0), SizeOf(b, 1)) && merged <= Ran(b, Merge, feed, order).1.value ==>
      var estimate := Ran(b, Estimate, merged, order);
      && estimate.1.Ok?
      && BackendRun(b, estimate.1.value) == AcceptedUpTo(b, |estimate.0.lanes[2].full|)
  {
    var p2 := Patched(order, SourceCounts(b, 2));
    var orders := [p0, p1, p2];
    OrdersAre(b, p0, p1, p2);
    hide *;
    MergeListsSums(b, orders, feed, left, right, order);
    MergeSendsInOrder(b, orders, feed, left, right);
    if WithinBound(feed, SizeOf(b, 0), SizeOf(b, 1)) && merged <= Ran(b, Merge, feed, order).1.value {
      StreamIsAccepted(b, orders, feed, Ran(b, Merge, feed, order), merged, order);
    } else {
      MergedWithin(b, orders, feed, Ran(b, Merge, feed, order));
    }
  }

  lemma {:induction false} OrdersAre(b: TopBench, p0: Runs<Keyed>, p1: Runs<Keyed>, p2: Runs<Keyed>)
    requires OrderOk(p0, SourceCounts(b, 0)) && OrderOk(p1, SourceCounts(b, 1)) && OrderOk(p2, SourceCounts(b, 2))
    ensures OrdersOk(b, [p0, p1, p2])
  {
    hide OrderOk, SourceCounts;
  }

  lemma {:induction false} MergedWithin(b: TopBench, orders: seq<Runs<Keyed>>, feed: seq<Message<Keyed>>, run: (TopStage, Outcome))
    requires b.Valid() && |orders| == 3 && MergedSoFar(b, orders, feed, run)
    ensures run.1.Ok? <==> WithinBound(feed, SizeOf(b, 0), SizeOf(b, 1))
    ensures run.1.Ok? ==> |run.0.lanes| == 3 && run.1.value == Stream(orders[2], b.batch, 2, Finished(run.0.lanes[0], run.0.lanes[1]))
  {
    hide WithinBound, SizeOf, LaneHas, Stream;
  }

  /** Fed any part of what the merge sent, the estimate refuses nothing, and the backend gets as
      far as it can. */
  lemma {:induction false} StreamIsAccepted(b: TopBench, orders: seq<Runs<Keyed>>, feed: seq<Message<Keyed>>, run: (TopStage, Outcome), merged: seq<Message<Keyed>>,
                                            order: Runs<Keyed>)
    requires b.Valid() && OrdersOk(b, orders) && |orders| == 3 && MergedSoFar(b, orders, feed, run)
    requires WithinBound(feed, SizeOf(b, 0), SizeOf(b, 1)) && (run.1.Ok? ==> merged <= run.1.value)
    ensures run.1.Ok?
    ensures Ran(b, Estimate, merged, order).1.Ok? && |Ran(b, Estimate, merged, order).0.lanes| == 3
    ensures Sending(merged, Ran(b, Estimate, merged, order).0.lanes[2], orders[2], b.batch, 2)
    ensures BackendRun(b, Ran(b, Estimate, merged, order).1.value) == AcceptedUpTo(b, |Ran(b, Estimate, merged, order).0.lanes[2].full|)
  {
    MergedWithin(b, orders, feed, run);
    hide MergedSoFar, WithinBound, Stream, OrdersOk, Ran, SizeOf, SourceCounts, Retained, Sending, Answers, BackendRun;
    EstimateAnswers(b, orders, merged, Finished(run.0.lanes[0], run.0.lanes[1]), order);
    BackendAccepts(b, |Ran(b, Estimate, merged, order).0.lanes[2].full|);
  }

  /** Nothing is lost on the way: delivered to the end, every window that both sources finished
      reaches the backend, which accepts them all exactly when there are ten different keys. */
  lemma {:induction false} AllWindowsArrive(b: TopBench, orders: seq<Runs<Keyed>>, cut0: seq<NormalizedBatch>, cut1: seq<NormalizedBatch>, n: nat,
                                            feed: seq<Message<Keyed>>)
    requires b.Valid() && |orders| == 3
    requires Tiles(b.points, b.batch, 0, cut0, Pos(0, 0), Pos(n, 0)) && Tiles(b.points, b.batch, 1, cut1, Pos(0, 0), Pos(n, 0))
    requires BranchLists(b, cut0, orders[0]) && BranchLists(b, cut1, orders[1]) && MergeLists(b, feed, orders[2])
    requires WithinBound(feed, SizeOf(b, 0), SizeOf(b, 1)) && Delivers(feed, BranchRun(b, cut0, orders[0]).1, BranchRun(b, cut1, orders[1]).1)
    ensures Ran(b, Merge, feed, orders[2]).1.Ok?
    ensures var estimate := Ran(b, Estimate, Ran(b, Merge, feed, orders[2]).1.value, orders[2]);
      estimate.1.Ok? && BackendRun(b, estimate.1.value) == AcceptedUpTo(b, n)
  {
    assert b.batch > 0;
    hide *;
    var p0 := BranchStream(b, 0, cut0, Pos(n, 0), orders[0]);
    var p1 := BranchStream(b, 1, cut1, Pos(n, 0), orders[1]);
    AllDelivered(feed, Stream(p0, b.batch, 0, n), Stream(p1, b.batch, 1, n));
    MergedToTheEnd(b, p0, p1, orders[2], feed, n);
  }

  /** Everything the branches sent has been delivered. */
  ghost predicate Delivers(feed: seq<Message<Keyed>>, left: Outcome, right: Outcome) {
    && left.Ok? && right.Ok? && From(feed, 0) == left.value && From(feed, 1) == right.value
    && Interleaves(feed, left.value, right.value)
  }

  lemma {:induction false} AllDelivered(feed: seq<Message<Keyed>>, left: seq<Message<Keyed>>, right: seq<Message<Keyed>>)
    requires Delivers(feed, Ok(left), Ok(right))
    ensures Interleaves(feed, left, right) && From(feed, 0) == left && From(feed, 1) == right
  {
    hide Interleaves, From;
  }

  lemma {:induction false} MergedToTheEnd(b: TopBench, p0: Runs<Keyed>, p1: Runs<Keyed>, order: Runs<Keyed>, feed: seq<Message<Keyed>>, n: nat)
    requires b.Valid() && b.batch > 0 && OrderOk(p0, SourceCounts(b, 0)) && OrderOk(p1, SourceCounts(b, 1)) && MergeLists(b, feed, order)
    requires Interleaves(feed, Stream(p0, b.batch, 0, n), Stream(p1, b.batch, 1, n)) && WithinBound(feed, SizeOf(b, 0), SizeOf(b, 1))
    requires From(feed, 0) == Stream(p0, b.batch, 0, n) && From(feed, 1) == Stream(p1, b.batch, 1, n)
    ensures Ran(b, Merge, feed, order).1.Ok?
    ensures var estimate := Ran(b, Estimate, Ran(b, Merge, feed, order).1.value, order);
      estimate.1.Ok? && BackendRun(b, estimate.1.value) == AcceptedUpTo(b, n)
  {
    var p2 := Patched(order, SourceCounts(b, 2));
    var orders := [p0, p1, p2];
    OrdersAre(b, p0, p1, p2);
    assert orders[0] == p0 && orders[1] == p1;
    hide *;
    MergeListsSums(b, orders, feed, n, n, order);
    MergeSendsInOrder(b, orders, feed, n, n);
    var run := Ran(b, Merge, feed, order);
    MergedWithin(b, orders, feed, run);
    AllFinished(b, orders, feed, run, n);
    StreamIsAccepted(b, orders, feed, run, run.1.value, order);
    AllEstimated(b, orders, Ran(b, Estimate, run.1.value, order).0.lanes[2], n);
  }

  lemma {:induction false} AllFinished(b: TopBench, orders: seq<Runs<Keyed>>, feed: seq<Message<Keyed>>, run: (TopStage, Outcome), n: nat)
    requires b.Valid() && b.batch > 0 && OrdersOk(b, orders) && |orders| == 3 && MergedSoFar(b, orders, feed, run) && run.1.Ok?
    requires From(feed, 0) == Stream(orders[0], b.batch, 0, n) && From(feed, 1) == Stream(orders[1], b.batch, 1, n)
    ensures run.1.value == Stream(orders[2], b.batch, 2, n)
  {
    hide WithinBound, SizeOf, Stream, Sending, OrdersOk, From;
    StageSizes(b, orders, 0);
    StageSizes(b, orders, 1);
    StreamEnds(run.0.lanes[0], orders[0], SizeOf(b, 0), b.batch, 0, n);
    StreamEnds(run.0.lanes[1], orders[1], SizeOf(b, 1), b.batch, 1, n);
  }

  lemma {:induction false} AllEstimated(b: TopBench, orders: seq<Runs<Keyed>>, lane: Lane<Keyed>, n: nat)
    requires b.Valid() && b.batch > 0 && OrdersOk(b, orders) && |orders| == 3 && Sending(Stream(orders[2], b.batch, 2, n), lane, orders[2], b.batch, 2)
    ensures |lane.full| == n
  {
    hide *;
    StageSizes(b, orders, 2);
    StreamEnds(lane, orders[2], SizeOf(b, 2), b.batch, 2, n);
  }
}
