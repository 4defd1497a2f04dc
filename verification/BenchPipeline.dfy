/** The whole benchmark pipeline, from sources to backend. */
module BenchPipeline {
  import opened Basics
  import opened BenchNormalizer
  import opened BenchProcessors
  import opened BenchStages
  import opened BenchStreams
  import opened Sorting

  /** The same values in every window. */
  ghost function Always<T>(run: seq<T>): Runs<T> {
    (w: nat) => run
  }

  lemma {:induction false} AlwaysSame<T(!new)>(run: seq<T>)
    ensures AllOfSize(Always(run), |run|)
    ensures forall w: nat :: Always(run)(w) == run
  {
  }

  lemma {:induction false} StreamNext(run: seq<Value>, batch: nat, source: nat, n: nat)
    requires batch > 0
    ensures Stream(Always(run), batch, source, n + 1) == Stream(Always(run), batch, source, n) + Chunked(run, batch, n, source, 0)
  {
  }

  lemma {:induction false} CopiesPush<T>(s: seq<T>, n: nat)
    ensures Copies(s, n) + [s] == Copies(s, n + 1)
  {
  }

  function SortedRun(b: Bench, source: nat): seq<Value> {
    Sort(Corpus(b, source), Leq)
  }

  lemma {:induction false} RunSize(b: Bench, source: nat)
    ensures |SortedRun(b, source)| == b.points
  {
    LeqIsTotal();
    SortSorts(Corpus(b, source), Leq);
  }

  /** Both runs of a window, merged. */
  function Both(b: Bench): seq<Value> {
    Merged(SortedRun(b, 0), SortedRun(b, 1), Leq)
  }

  lemma {:induction false} BothSize(b: Bench)
    ensures |Both(b)| == 2 * b.points
  {
    RunSize(b, 0);
    RunSize(b, 1);
    MergedKeeps(SortedRun(b, 0), SortedRun(b, 1), Leq);
  }

  /** What a branch sends, and what the merge sends. */
  ghost function Sends(b: Bench, source: nat): Runs<Value> {
    Always(if source < 2 then SortedRun(b, source) else Both(b))
  }

  lemma {:induction false} SendsSize(b: Bench, source: nat)
    ensures AllOfSize(Sends(b, source), if source < 2 then b.points else 2 * b.points)
    ensures forall w: nat :: Sends(b, source)(w) == if source < 2 then SortedRun(b, source) else Both(b)
  {
    AlwaysSame(if source < 2 then SortedRun(b, source) else Both(b));
    RunSize(b, source);
    BothSize(b);
  }

  // ---------- a branch ----------

  ghost function BranchRun(b: Bench, batches: seq<NormalizedBatch>): (r: Outcome)
    requires b.Valid()
    ensures StageOk(r.0, Branch, b)
  {
    if batches == [] then (Fresh, Ok([]))
    else
      var (before, sent) := BranchRun(b, batches[..|batches| - 1]);
      if sent.Err? then (before, sent)
      else
        var (st, r) := BranchTaken(before, b, batches[|batches| - 1]);
        (st, if r.Err? then r else Ok(sent.value + r.value))
  }

  ghost predicate BranchAt(b: Bench, source: nat, st: Stage, p: Pos) {
    && |st.lanes| == 3 && source < 3 && p.offset < b.points
    && st.lanes[source] == Lane(Copies(Corpus(b, source), p.window), Corpus(b, source)[..p.offset])
    && st.pending == if p.offset == 0 then {} else {p.window}
  }

  lemma {:induction false} TakeMore(b: Bench, source: nat, offset: nat, count: nat)
    requires offset + count <= b.points
    ensures Corpus(b, source)[..offset] + Generated(b, source * b.points + offset + 1, count) == Corpus(b, source)[..offset + count]
  {
  }

  lemma {:induction false} BranchStep(b: Bench, source: nat, st: Stage, p: Pos, n: NormalizedBatch)
    requires b.Valid() && StageOk(st, Branch, b) && source < 2
    requires BranchAt(b, source, st, p) && Cut(b.points, b.batch, source, n) && n.meta == Meta(p.window, source, p.offset)
    ensures var (after, r) := BranchTaken(st, b, n);
      && BranchAt(b, source, after, After(p, n.count, b.points))
      && r == Ok(if p.offset + n.count == b.points then Chunked(SortedRun(b, source), b.batch, p.window, source, 0) else [])
  {
    TakeMore(b, source, p.offset, n.count);
    CopiesPush(Corpus(b, source), p.window);
    hide Corpus, Generated, Sort, Chunked, LaneOk;
    assert Corpus(b, source)[..b.points] == Corpus(b, source) by { CorpusSize(b, source); }
    assert {p.window} + {p.window} - {p.window} == {};
  }

  lemma {:induction false} CorpusSize(b: Bench, source: nat)
    ensures |Corpus(b, source)| == b.points
  {
  }

  /** However its input is cut, a branch refuses nothing, and sends each finished window
      sorted, in batches, in order. */
  lemma {:induction false} BranchSendsSorted(b: Bench, source: nat, batches: seq<NormalizedBatch>, to: Pos)
    requires b.Valid() && source < 2 && Tiles(b.points, b.batch, source, batches, Pos(0, 0), to)
    ensures BranchAt(b, source, BranchRun(b, batches).0, to)
    ensures BranchRun(b, batches).1 == Ok(Stream(Sends(b, source), b.batch, source, to.window))
    decreases |batches|
  {
    hide Corpus, Sort, Chunked, BranchTaken, Cut, Sends, Stream;
    if batches == [] {
      assert Copies(Corpus(b, source), 0) == [];
      assert Stream(Sends(b, source), b.batch, source, 0) == [] by { NothingStreamed(Sends(b, source), b.batch, source); }
    } else {
      var last := batches[|batches| - 1];
      var p := Pos(last.meta.window, last.meta.offset);
      BranchSendsSorted(b, source, batches[..|batches| - 1], p);
      LastMeta(b, source, last, p);
      assert to == After(p, last.count, b.points);
      hide BranchAt, Tiles, After;
      var sent := Stream(Sends(b, source), b.batch, source, p.window);
      assert sent + [] == sent;
      SendsNext(b, source, p.window);
      BranchStep(b, source, BranchRun(b, batches[..|batches| - 1]).0, p, last);
    }
  }

  lemma {:induction false} NothingStreamed<T>(runs: Runs<T>, batch: nat, source: nat)
    requires batch > 0
    ensures Stream(runs, batch, source, 0) == []
  {
  }

  lemma {:induction false} SendsNext(b: Bench, source: nat, n: nat)
    requires b.batch > 0
    ensures Stream(Sends(b, source), b.batch, source, n + 1) == Stream(Sends(b, source), b.batch, source, n)
      + Chunked(if source < 2 then SortedRun(b, source) else Both(b), b.batch, n, source, 0)
  {
    StreamNext(if source < 2 then SortedRun(b, source) else Both(b), b.batch, source, n);
  }

  lemma {:induction false} LastMeta(b: Bench, source: nat, n: NormalizedBatch, p: Pos)
    requires Cut(b.points, b.batch, source, n) && p == Pos(n.meta.window, n.meta.offset)
    ensures n.meta == Meta(p.window, source, p.offset)
    ensures After(p, n.count, b.points).window == if p.offset + n.count == b.points then p.window + 1 else p.window
  {
  }

  // ---------- the merge ----------

  /** A merge or an estimate fed message by message, up to its first refusal. */
  ghost function Ran(b: Bench, role: Role, feed: seq<Message<Value>>): (r: Outcome)
    requires b.Valid()
    ensures StageOk(r.0, role, b)
  {
    if feed == [] then (Fresh, Ok([]))
    else
      var (before, sent) := Ran(b, role, feed[..|feed| - 1]);
      if sent.Err? then (before, sent)
      else
        var (st, r) := Processed(before, role, b, feed[|feed| - 1]);
        (st, if r.Err? then r else Ok(sent.value + r.value))
  }

  ghost predicate LaneHas(b: Bench, feed: seq<Message<Value>>, lane: Lane<Value>, source: nat)
    requires b.Valid()
  {
    LaneAt(feed, lane, Sends(b, source), b.points, b.batch, source)
  }

  ghost predicate MergeAt(b: Bench, feed: seq<Message<Value>>, st: Stage, sent: seq<Message<Value>>)
    requires b.Valid()
  {
    && |st.lanes| == 3
    && LaneHas(b, feed, st.lanes[0], 0) && LaneHas(b, feed, st.lanes[1], 1)
    && st.pending == Backlogged(st.lanes[0], st.lanes[1])
    && sent == Stream(Sends(b, 2), b.batch, 2, Finished(st.lanes[0], st.lanes[1]))
  }

  lemma {:induction false} MergeStart(b: Bench)
    requires b.Valid()
    ensures MergeAt(b, [], Fresh, [])
  {
    SendsSize(b, 0);
    SendsSize(b, 1);
    hide Sends, AllOfSize;
    LaneStart(Sends(b, 0), b.points, b.batch, 0);
    LaneStart(Sends(b, 1), b.points, b.batch, 1);
    NothingStreamed(Sends(b, 2), b.batch, 2);
    hide LaneAt;
  }

  /** A batch has been taken in at window `w`: what is pending and sent, before `w` goes out. */
  ghost predicate TakenIn(b: Bench, feed: seq<Message<Value>>, took: Stage, w: nat, sent: seq<Message<Value>>)
    requires b.Valid()
  {
    && |took.lanes| == 3
    && LaneHas(b, feed, took.lanes[0], 0) && LaneHas(b, feed, took.lanes[1], 1)
    && |Backlogged(took.lanes[0], took.lanes[1])| == Backlog(feed, b.points, b.points)
    && (if Complete(took, Merge, w) then
          && took.pending - {w} == Backlogged(took.lanes[0], took.lanes[1])
          && Backlog(feed, b.points, b.points) <= MAX_PENDING && Finished(took.lanes[0], took.lanes[1]) == w + 1
        else
          took.pending == Backlogged(took.lanes[0], took.lanes[1]))
    && sent == Stream(Sends(b, 2), b.batch, 2, if Complete(took, Merge, w) then w else Finished(took.lanes[0], took.lanes[1]))
  }

  lemma {:induction false} LanesUnfinished(b: Bench, feed: seq<Message<Value>>, l: Lane<Value>, r: Lane<Value>)
    requires b.Valid() && LaneHas(b, feed, l, 0) && LaneHas(b, feed, r, 1)
    ensures Backlog(feed, b.points, b.points) == Unfinished(l, r)
  {
    LanesBacklog(feed, l, r, Sends(b, 0), Sends(b, 1), b.points, b.points, b.batch);
  }

  lemma {:induction false} TakenInStep(b: Bench, feed: seq<Message<Value>>, m: Message<Value>, st: Stage, took: Stage, sent: seq<Message<Value>>)
    requires b.Valid() && MergeAt(b, feed, st, sent)
    requires m != [] && m[0].meta.source < 2 && Backlog(feed, b.points, b.points) <= MAX_PENDING
    requires var s := m[0].meta.source;
      && |st.lanes[s].open| + |m| <= b.points
      && took == st.(pending := st.pending + {|st.lanes[s].full|}, lanes := st.lanes[s := Took(st.lanes[s], Values(m), b.points)])
    requires LaneHas(b, feed + [m], took.lanes[0], 0) && LaneHas(b, feed + [m], took.lanes[1], 1)
    ensures TakenIn(b, feed + [m], took, |st.lanes[m[0].meta.source].full|, sent)
  {
    LanesUnfinished(b, feed, st.lanes[0], st.lanes[1]);
    LanesUnfinished(b, feed + [m], took.lanes[0], took.lanes[1]);
    if m[0].meta.source == 0 {
      FedLeft(st.lanes[0], st.lanes[1], Values(m), b.points, st.pending);
    } else {
      FedRight(st.lanes[0], st.lanes[1], Values(m), b.points, st.pending);
    }
    hide LaneHas, Backlog, Stream, Values, Sends, Unfinished, Took, Fed, Backlogged, Finished;
    FedTakenIn(b, feed, m, st, took, |st.lanes[m[0].meta.source].full|, sent);
  }

  lemma {:induction false} FedTakenIn(b: Bench, feed: seq<Message<Value>>, m: Message<Value>, st: Stage, took: Stage, w: nat, sent: seq<Message<Value>>)
    requires b.Valid() && |st.lanes| == 3 && |took.lanes| == 3
    requires Fed(st.lanes[0], st.lanes[1], took.lanes[0], took.lanes[1], w, took.pending)
    requires Backlog(feed + [m], b.points, b.points) == Unfinished(took.lanes[0], took.lanes[1])
    requires Unfinished(st.lanes[0], st.lanes[1]) <= MAX_PENDING
    requires sent == Stream(Sends(b, 2), b.batch, 2, Finished(st.lanes[0], st.lanes[1]))
    requires LaneHas(b, feed + [m], took.lanes[0], 0) && LaneHas(b, feed + [m], took.lanes[1], 1)
    ensures TakenIn(b, feed + [m], took, w, sent)
  {
    hide LaneHas, Backlog, Stream, Sends, Unfinished, Backlogged, Finished;
  }

  /** Taking the batch in, given where that leaves the lanes. */
  lemma {:induction false} AdvanceOutcome(b: Bench, feed: seq<Message<Value>>, took: Stage, w: nat, sent: seq<Message<Value>>)
    requires b.Valid() && StageOk(took, Merge, b) && TakenIn(b, feed, took, w, sent)
    ensures var (after, r) := Advanced(took, Merge, b, w);
      && (r.Ok? <==> Backlog(feed, b.points, b.points) <= MAX_PENDING)
      && (r.Ok? ==> MergeAt(b, feed, after, sent + r.value))
  {
    hide LaneHas, Backlog, Sends, Backlogged, Finished;
    assert sent + [] == sent;
    if Complete(took, Merge, w) {
      SentWindow(b, feed, took, w, sent);
    }
    hide Complete, Stream, Merged, Chunked, LaneOk;
  }

  lemma {:induction false} SentWindow(b: Bench, feed: seq<Message<Value>>, took: Stage, w: nat, sent: seq<Message<Value>>)
    requires b.Valid() && TakenIn(b, feed, took, w, sent) && Complete(took, Merge, w)
    ensures sent + Chunked(Merged(took.lanes[0].full[w], took.lanes[1].full[w], Leq), b.batch, w, 2, 0) == Stream(Sends(b, 2), b.batch, 2, w + 1)
  {
    WindowIs(b, feed, took.lanes[0], 0, w);
    WindowIs(b, feed, took.lanes[1], 1, w);
    SendsNext(b, 2, w);
    hide LaneHas, Chunked, Backlog, SortedRun, Stream, Merged, Backlogged, Finished;
  }

  lemma {:induction false} WindowIs(b: Bench, feed: seq<Message<Value>>, lane: Lane<Value>, source: nat, w: nat)
    requires b.Valid() && LaneHas(b, feed, lane, source) && w < |lane.full| && source < 2
    ensures lane.full[w] == SortedRun(b, source)
  {
    SendsSize(b, source);
    hide Sends, Sending;
    SendingIs(From(feed, source), lane, Sends(b, source), b.batch, source);
  }

  /** Message `m` continues its lane. */
  ghost predicate Fits(b: Bench, st: Stage, m: Message<Value>) {
    && |st.lanes| == 3 && m != [] && m[0].meta.source < 2 && SameMeta(m)
    && var s := m[0].meta.source;
       && m[0].meta == Meta(|st.lanes[s].full|, s, |st.lanes[s].open|)
       && |st.lanes[s].open| + |m| <= b.points
  }

  ghost function TookIn(b: Bench, st: Stage, m: Message<Value>): Stage
    requires Fits(b, st, m)
  {
    var s := m[0].meta.source;
    st.(pending := st.pending + {|st.lanes[s].full|}, lanes := st.lanes[s := Took(st.lanes[s], Values(m), b.points)])
  }

  lemma {:induction false} FittingIsTaken(b: Bench, st: Stage, m: Message<Value>)
    requires b.Valid() && StageOk(st, Merge, b) && Fits(b, st, m)
    ensures StageOk(TookIn(b, st, m), Merge, b)
    ensures Processed(st, Merge, b, m) == Advanced(TookIn(b, st, m), Merge, b, |st.lanes[m[0].meta.source].full|)
  {
    hide Advanced;
  }

  lemma {:induction false} DeliveredFits(b: Bench, feed: seq<Message<Value>>, m: Message<Value>, st: Stage, sent: seq<Message<Value>>, left: nat, right: nat)
    requires b.Valid() && MergeAt(b, feed, st, sent) && m != [] && m[0].meta.source < 2
    requires From(feed + [m], 0) <= Stream(Sends(b, 0), b.batch, 0, left)
    requires From(feed + [m], 1) <= Stream(Sends(b, 1), b.batch, 1, right)
    ensures Fits(b, st, m)
    ensures LaneHas(b, feed + [m], TookIn(b, st, m).lanes[0], 0) && LaneHas(b, feed + [m], TookIn(b, st, m).lanes[1], 1)
  {
    SendsSize(b, 0);
    SendsSize(b, 1);
    hide LaneAt, Values, Stream, Sends, AllOfSize, Backlogged, From, SameMeta, Took;
    LaneNext(feed, m, st.lanes[0], Sends(b, 0), b.points, b.batch, 0, left);
    LaneNext(feed, m, st.lanes[1], Sends(b, 1), b.points, b.batch, 1, right);
  }

  /** A delivered message fits its lane, and the step keeps the merge where it should be. */
  lemma {:induction false} MergeStep(b: Bench, feed: seq<Message<Value>>, m: Message<Value>, st: Stage, sent: seq<Message<Value>>, left: nat, right: nat)
    requires b.Valid() && StageOk(st, Merge, b) && MergeAt(b, feed, st, sent)
    requires m != [] && m[0].meta.source < 2
    requires From(feed + [m], 0) <= Stream(Sends(b, 0), b.batch, 0, left)
    requires From(feed + [m], 1) <= Stream(Sends(b, 1), b.batch, 1, right)
    requires Backlog(feed, b.points, b.points) <= MAX_PENDING
    ensures var (after, r) := Processed(st, Merge, b, m);
      && (r.Ok? <==> Backlog(feed + [m], b.points, b.points) <= MAX_PENDING)
      && (r.Ok? ==> MergeAt(b, feed + [m], after, sent + r.value))
  {
    DeliveredFits(b, feed, m, st, sent, left, right);
    FittingIsTaken(b, st, m);
    TakenInStep(b, feed, m, st, TookIn(b, st, m), sent);
    hide *;
    AdvanceOutcome(b, feed + [m], TookIn(b, st, m), |st.lanes[m[0].meta.source].full|, sent);
  }

  /** However the two branches interleave, the merge refuses a message exactly when the
      backlog exceeds the bound, and sends the windows finished by both, in order. */
  lemma {:induction false} MergeSendsInOrder(b: Bench, feed: seq<Message<Value>>, left: nat, right: nat)
    requires b.Valid()
    requires Interleaves(feed, Stream(Sends(b, 0), b.batch, 0, left), Stream(Sends(b, 1), b.batch, 1, right))
    ensures Ran(b, Merge, feed).1.Ok? <==> WithinBound(feed, b.points, b.points)
    ensures Ran(b, Merge, feed).1.Ok? ==> MergeAt(b, feed, Ran(b, Merge, feed).0, Ran(b, Merge, feed).1.value)
    decreases |feed|
  {
    hide MergeAt, Processed, StageOk, Stream, Sends, Backlog;
    if feed == [] {
      MergeStart(b);
      NoBacklog<Value>(b.points, b.points);
    } else {
      var init, m := feed[..|feed| - 1], feed[|feed| - 1];
      assert feed == init + [m];
      assert m != [] && m[0].meta.source < 2;
      PrefixInterleaves(feed, Stream(Sends(b, 0), b.batch, 0, left), Stream(Sends(b, 1), b.batch, 1, right));
      MergeSendsInOrder(b, init, left, right);
      BoundPrefix(feed, b.points, b.points);
      var (before, sent) := Ran(b, Merge, init);
      if sent.Ok? {
        LastWithin(init, b.points, b.points);
        hide WithinBound, From;
        MergeStep(b, init, m, before, sent.value, left, right);
      }
    }
  }

  // ---------- the estimate ----------

  /** The retained windows after `w`: the last `rolling`. */
  ghost function Retained(b: Bench, run: seq<Value>, w: nat): seq<seq<Value>> {
    if b.rolling <= 1 then [] else Copies(run, Min(w, b.rolling))
  }

  /** The answer to window `w` when every window is `run`. */
  ghost function AnswerTo(b: Bench, run: seq<Value>, w: nat): Message<Value>
    requires b.Valid() && run != []
  {
    NonEmptyRolling(b, Retained(b, run, w), run);
    RetainedNext(b, run, w);
    AnswerMessage(b, w, run, RollingValues(b, Retained(b, run, w + 1)))
  }

  lemma {:induction false} RetainedNext(b: Bench, run: seq<Value>, w: nat)
    ensures Retain(b, Retained(b, run, w), run) == Retained(b, run, w + 1)
  {
    if b.rolling > 1 {
      CopiesPush(run, Min(w, b.rolling));
      assert Copies(run, b.rolling + 1)[1..] == Copies(run, b.rolling);
    }
  }

  ghost function Answers(b: Bench, run: seq<Value>, n: nat): seq<Message<Value>>
    requires b.Valid() && run != []
  {
    if n == 0 then [] else Answers(b, run, n - 1) + [AnswerTo(b, run, n - 1)]
  }

  ghost predicate EstimateAt(b: Bench, run: seq<Value>, feed: seq<Message<Value>>, st: Stage, sent: seq<Message<Value>>)
    requires b.Valid() && run != []
  {
    && |st.lanes| == 3
    && Sending(feed, st.lanes[2], Always(run), b.batch, 2)
    && st.pending == (if st.lanes[2].open == [] then {} else {|st.lanes[2].full|})
    && st.history == Retained(b, run, |st.lanes[2].full|)
    && sent == Answers(b, run, |st.lanes[2].full|)
  }

  lemma {:induction false} EstimateStep(b: Bench, run: seq<Value>, feed: seq<Message<Value>>, m: Message<Value>, st: Stage, sent: seq<Message<Value>>, n: nat)
    requires b.Valid() && |run| == 2 * b.points && StageOk(st, Estimate, b) && EstimateAt(b, run, feed, st, sent)
    requires feed + [m] <= Stream(Always(run), b.batch, 2, n)
    ensures var (after, r) := Processed(st, Estimate, b, m);
      r.Ok? && EstimateAt(b, run, feed + [m], after, sent + r.value)
  {
    var lane := st.lanes[2];
    var took := Took(lane, Values(m), |run|);
    AlwaysSame(run);
    SendingStep(feed, lane, Always(run), |run|, b.batch, 2, m, n);
    hide Sending, Stream, Chunked, LaneOk, Values, Retained, Answers, Took;
    var next := st.(pending := st.pending + {|lane.full|}, lanes := st.lanes[2 := took]);
    assert Processed(st, Estimate, b, m) == Advanced(next, Estimate, b, |lane.full|);
    assert took == Took(lane, Values(m), |run|);
    EstimateOutcome(b, run, feed + [m], st, next, lane, Values(m), sent);
  }

  lemma {:induction false} EstimateOutcome(b: Bench, run: seq<Value>, feed: seq<Message<Value>>, st: Stage, next: Stage, lane: Lane<Value>, values: seq<Value>, sent: seq<Message<Value>>)
    requires b.Valid() && run != [] && StageOk(next, Estimate, b) && |run| == 2 * b.points
    requires values != [] && |lane.open| + |values| <= |run|
    requires next.lanes[2] == Took(lane, values, |run|) && Sending(feed, next.lanes[2], Always(run), b.batch, 2)
    requires next.pending == {|lane.full|}
    requires next.history == Retained(b, run, |lane.full|) && sent == Answers(b, run, |lane.full|)
    ensures var (after, r) := Advanced(next, Estimate, b, |lane.full|);
      r.Ok? && EstimateAt(b, run, feed, after, sent + r.value)
  {
    hide Sending, LaneOk, Retained, Answers;
    if |lane.full| < |next.lanes[2].full| {
      FullOutcome(b, run, feed, next, |lane.full|, sent);
    } else {
      assert sent + [] == sent;
    }
    hide *;
  }

  lemma {:induction false} FullOutcome(b: Bench, run: seq<Value>, feed: seq<Message<Value>>, next: Stage, w: nat, sent: seq<Message<Value>>)
    requires b.Valid() && run != [] && StageOk(next, Estimate, b)
    requires |next.lanes[2].full| == w + 1 && next.lanes[2].open == [] && Sending(feed, next.lanes[2], Always(run), b.batch, 2)
    requires next.pending == {w} && next.history == Retained(b, run, w) && sent == Answers(b, run, w)
    ensures var (after, r) := Advanced(next, Estimate, b, w);
      r.Ok? && EstimateAt(b, run, feed, after, sent + r.value)
  {
    FullIsRun(feed, next.lanes[2], run, b.batch, 2);
    WindowAnswered(b, run, next, w);
    hide Sending, LaneOk, Estimated, Retained, AnswerTo;
    assert next.pending - {w} == {};
    assert Answers(b, run, w + 1) == Answers(b, run, w) + [AnswerTo(b, run, w)];
  }

  lemma {:induction false} WindowAnswered(b: Bench, run: seq<Value>, st: Stage, w: nat)
    requires b.Valid() && run != [] && StageOk(st, Estimate, b) && w < |st.lanes[2].full| && st.lanes[2].full[w] == run
    requires st.history == Retained(b, run, w)
    ensures forall pending ::
      Estimated(st.(pending := pending), b, w) == (st.(pending := pending, history := Retained(b, run, w + 1)), Ok([AnswerTo(b, run, w)]))
  {
    RetainedNext(b, run, w);
    hide LaneOk, AnswerMessage, RollingValues, Retain, Retained;
  }

  lemma {:induction false} FullIsRun(msgs: seq<Message<Value>>, lane: Lane<Value>, run: seq<Value>, batch: nat, source: nat)
    requires batch > 0 && Sending(msgs, lane, Always(run), batch, source)
    ensures forall i :: 0 <= i < |lane.full| ==> lane.full[i] == run
  {
    AlwaysSame(run);
    hide Always, Sending;
    SendingIs(msgs, lane, Always(run), batch, source);
  }

  /** Fed any part of the merged windows in order, the estimate refuses nothing and answers
      each finished window. */
  lemma {:induction false} EstimateAnswers(b: Bench, run: seq<Value>, feed: seq<Message<Value>>, n: nat)
    requires b.Valid() && |run| == 2 * b.points && feed <= Stream(Always(run), b.batch, 2, n)
    ensures Ran(b, Estimate, feed).1.Ok?
    ensures EstimateAt(b, run, feed, Ran(b, Estimate, feed).0, Ran(b, Estimate, feed).1.value)
    decreases |feed|
  {
    hide EstimateAt, Processed, StageOk, Stream;
    if feed == [] {
      EstimateStart(b, run);
    } else {
      var init, m := feed[..|feed| - 1], feed[|feed| - 1];
      assert feed == init + [m];
      EstimateAnswers(b, run, init, n);
      var (before, sent) := Ran(b, Estimate, init);
      EstimateStep(b, run, init, m, before, sent.value, n);
    }
  }

  lemma {:induction false} EstimateStart(b: Bench, run: seq<Value>)
    requires b.Valid() && run != []
    ensures EstimateAt(b, run, [], Fresh, [])
  {
    AlwaysSame(run);
    SendingStart(Always(run), b.batch, 2);
    hide Sending, Always;
  }

  // ---------- the backend ----------

  /** The backend fed message by message: the next window, or None once it refuses. */
  ghost function BackendRun(b: Bench, msgs: seq<Message<Value>>): Option<nat>
    requires b.Valid()
  {
    if msgs == [] then Some(0)
    else
      var next := BackendRun(b, msgs[..|msgs| - 1]);
      if next.Some? && Accepts(b, Reference(b), next.value, msgs[|msgs| - 1]) then Some(next.value + 1) else None
  }

  /** The two-source corpus, sorted. */
  ghost function Reference(b: Bench): seq<Value> {
    Sort(Generated(b, 1, b.points * 2), Leq)
  }

  /** What the merge sends for a window is the backend's sorted corpus. */
  lemma {:induction false} BothIsReference(b: Bench)
    ensures Both(b) == Reference(b)
  {
    LeqIsTotal();
    MergedIsSort(Corpus(b, 0), Corpus(b, 1), Leq);
    assert Corpus(b, 0) + Corpus(b, 1) == Generated(b, 1, b.points * 2);
  }

  /** The rolling quantile of `c` copies is the reference at the divided index. */
  lemma {:induction false} RollingIsReference(b: Bench, run: seq<Value>, w: nat, q: nat)
    requires b.Valid() && run == Reference(b) && run != [] && b.rolling > 1
    ensures var all := Sort(Concat(Retained(b, run, w + 1)), Leq);
      all != [] && Some(Quantile(b, all, q)) == Expected(b, run, w, Rolling, q)
  {
    var c := Min(w + 1, b.rolling);
    MulAtLeast(|run|, c);
    assert c * |run| == |run| * c;
    LeqIsTotal();
    ReferenceSorted(b);
    CopiesSorted(run, c, Leq, b.rank(|run| * c, q));
  }

  lemma {:induction false} ReferenceSorted(b: Bench)
    ensures Sort(Reference(b), Leq) == Reference(b)
  {
    LeqIsTotal();
    SortSorts(Generated(b, 1, b.points * 2), Leq);
    SortIsUnique(Reference(b), Generated(b, 1, b.points * 2), Leq);
  }

  lemma {:induction false} TumblingIsReference(b: Bench, run: seq<Value>, w: nat, q: nat)
    requires b.Valid() && run == Reference(b) && run != []
    ensures Some(Quantile(b, run, q)) == Expected(b, run, w, Tumbling, q)
  {
    assert |run| * 1 == |run|;
    DivUnique(b.rank(|run|, q), b.rank(|run|, q), 1, 0);
  }

  lemma {:induction false} MatchesTwo(msg: Message<Value>, kind: Kind, q: nat)
    requires |msg| == 2
    ensures Matching(msg, kind, q) ==
      (if msg[0].answer == Some(Answer(kind, q)) then [msg[0]] else []) + (if msg[1].answer == Some(Answer(kind, q)) then [msg[1]] else [])
  {
    assert msg[..1][..0] == [];
    assert msg == msg[..1] + [msg[1]];
    assert Matching(msg[..1], kind, q) == if msg[0].answer == Some(Answer(kind, q)) then [msg[0]] else [];
  }

  lemma {:induction false} MatchesConcat(x: Message<Value>, y: Message<Value>, kind: Kind, q: nat)
    ensures Matching(x + y, kind, q) == Matching(x, kind, q) + Matching(y, kind, q)
    decreases |y|
  {
    if y == [] {
      assert x + y == x;
    } else {
      MatchesConcat(x, y[..|y| - 1], kind, q);
      assert (x + y)[..|x + y| - 1] == x + y[..|y| - 1];
    }
  }

  /** The estimate's message holds each answer once, with its value. */
  lemma {:induction false} OneAnswerEach(b: Bench, w: nat, values: seq<Value>, rolling: Option<seq<Value>>, kind: Kind, q: nat)
    requires b.Valid() && values != [] && (rolling.Some? ==> rolling.value != []) && q < 2
    requires kind.Rolling? ==> rolling.Some?
    ensures Matching(AnswerMessage(b, w, values, rolling), kind, q)
         == [Point(Meta(w, 2, 0), Quantile(b, if kind.Rolling? then rolling.value else values, q), Some(Answer(kind, q)))]
  {
    var tumbling := AnswerPoints(b, w, Tumbling, values);
    MatchesTwo(tumbling, kind, q);
    if rolling.Some? {
      MatchesTwo(AnswerPoints(b, w, Rolling, rolling.value), kind, q);
      MatchesConcat(tumbling, AnswerPoints(b, w, Rolling, rolling.value), kind, q);
    } else {
      assert tumbling + [] == tumbling;
    }
  }

  lemma {:induction false} AnswerRight(b: Bench, run: seq<Value>, w: nat, k: nat, q: nat)
    requires b.Valid() && run == Reference(b) && run != [] && k < |Kinds(b)| && q < 2
    ensures RightAnswer(b, run, AnswerTo(b, run, w), w, Kinds(b)[k], q)
  {
    NonEmptyRolling(b, Retained(b, run, w), run);
    RetainedNext(b, run, w);
    OneAnswerEach(b, w, run, RollingValues(b, Retained(b, run, w + 1)), Kinds(b)[k], q);
    if k == 0 {
      TumblingIsReference(b, run, w, q);
    } else {
      RollingIsReference(b, run, w, q);
    }
    hide Matching, Quantile, Expected, AnswerMessage, Reference, Retained;
  }

  lemma {:induction false} AnswerShape(b: Bench, run: seq<Value>, w: nat)
    requires b.Valid() && run != []
    ensures var msg := AnswerTo(b, run, w);
      |msg| == |Kinds(b)| * 2 && msg[0].meta == Meta(w, 2, 0)
  {
    NonEmptyRolling(b, Retained(b, run, w), run);
    RetainedNext(b, run, w);
    hide Quantile, Retained, Sort, Concat;
  }

  lemma {:induction false} AnswerAccepted(b: Bench, run: seq<Value>, w: nat)
    requires b.Valid() && run == Reference(b) && run != []
    ensures Accepts(b, run, w, AnswerTo(b, run, w))
  {
    AnswerShape(b, run, w);
    hide RightAnswer, Reference, AnswerTo;
    forall k, q | 0 <= k < |Kinds(b)| && 0 <= q < 2
      ensures RightAnswer(b, run, AnswerTo(b, run, w), w, Kinds(b)[k], q)
    {
      AnswerRight(b, run, w, k, q);
    }
  }

  lemma {:induction false} BackendAccepts(b: Bench, run: seq<Value>, n: nat)
    requires b.Valid() && run == Reference(b) && run != []
    ensures BackendRun(b, Answers(b, run, n)) == Some(n)
    decreases n
  {
    hide AnswerTo, Accepts, Reference;
    if n > 0 {
      BackendAccepts(b, run, n - 1);
      AnswerAccepted(b, run, n - 1);
      assert Answers(b, run, n)[..n - 1] == Answers(b, run, n - 1) by { AnswersLength(b, run, n - 1); }
    }
  }

  lemma {:induction false} AnswersLength(b: Bench, run: seq<Value>, n: nat)
    requires b.Valid() && run != []
    ensures |Answers(b, run, n)| == n
    decreases n
  {
    hide AnswerTo;
    if n > 0 {
      AnswersLength(b, run, n - 1);
    }
  }

  // ---------- the whole pipeline ----------

  /** The two sources' points are cut into batches in any way and processed by the two
      branches; the branches' messages reach the merge in any interleaving; the merge's reach
      the estimate in order, and the estimate's the backend, each possibly not all the way.
      Then no branch refuses anything; the merge refuses nothing exactly when the backlog
      stays within the bound; and then the estimate refuses nothing and the backend accepts
      every answer, window after window. */
  lemma {:induction false} PipelineIsAccepted(b: Bench, cut0: seq<NormalizedBatch>, to0: Pos, cut1: seq<NormalizedBatch>, to1: Pos,
                                              feed: seq<Message<Value>>, merged: seq<Message<Value>>)
    requires b.Valid()
    requires Tiles(b.points, b.batch, 0, cut0, Pos(0, 0), to0) && Tiles(b.points, b.batch, 1, cut1, Pos(0, 0), to1)
    ensures BranchRun(b, cut0).1.Ok? && BranchRun(b, cut1).1.Ok?
    ensures Interleaves(feed, BranchRun(b, cut0).1.value, BranchRun(b, cut1).1.value) ==>
      && (Ran(b, Merge, feed).1.Ok? <==> WithinBound(feed, b.points, b.points))
      && (WithinBound(feed, b.points, b.points) && merged <= Ran(b, Merge, feed).1.value ==>
           var estimate := Ran(b, Estimate, merged);
           && estimate.1.Ok?
           && BackendRun(b, estimate.1.value) == Some(|estimate.0.lanes[2].full|))
  {
    BranchSendsSorted(b, 0, cut0, to0);
    BranchSendsSorted(b, 1, cut1, to1);
    assert Sends(b, 2) == Always(Both(b));
    hide BranchRun, Tiles, Stream, WithinBound, BranchAt, Ran, Reference, Sending, Sends;
    if Interleaves(feed, BranchRun(b, cut0).1.value, BranchRun(b, cut1).1.value) {
      MergeSendsInOrder(b, feed, to0.window, to1.window);
      if WithinBound(feed, b.points, b.points) && merged <= Ran(b, Merge, feed).1.value {
        BothSize(b);
        EstimateAnswers(b, Both(b), merged, Finished(Ran(b, Merge, feed).0.lanes[0], Ran(b, Merge, feed).0.lanes[1]));
        BothIsReference(b);
        BackendAccepts(b, Both(b), |Ran(b, Estimate, merged).0.lanes[2].full|);
      }
    }
  }

  /** Nothing is lost on the way: delivered to the end, the backend has accepted every window
      that both sources finished. */
  lemma {:induction false} AllWindowsArrive(b: Bench, feed: seq<Message<Value>>, n: nat)
    requires b.Valid() && WithinBound(feed, b.points, b.points)
    requires Interleaves(feed, Stream(Sends(b, 0), b.batch, 0, n), Stream(Sends(b, 1), b.batch, 1, n))
    requires From(feed, 0) == Stream(Sends(b, 0), b.batch, 0, n) && From(feed, 1) == Stream(Sends(b, 1), b.batch, 1, n)
    ensures Ran(b, Merge, feed).1 == Ok(Stream(Sends(b, 2), b.batch, 2, n))
    ensures Ran(b, Estimate, Stream(Sends(b, 2), b.batch, 2, n)).1.Ok?
    ensures BackendRun(b, Ran(b, Estimate, Stream(Sends(b, 2), b.batch, 2, n)).1.value) == Some(n)
  {
    MergeSendsInOrder(b, feed, n, n);
    var st := Ran(b, Merge, feed).0;
    SentAll(b, feed, st.lanes[0], 0, n);
    SentAll(b, feed, st.lanes[1], 1, n);
    assert Sends(b, 2) == Always(Both(b));
    BothSize(b);
    EstimateAnswers(b, Both(b), Stream(Always(Both(b)), b.batch, 2, n), n);
    var lane := Ran(b, Estimate, Stream(Always(Both(b)), b.batch, 2, n)).0.lanes[2];
    AlwaysSame(Both(b));
    StreamEnds(lane, Always(Both(b)), 2 * b.points, b.batch, 2, n);
    BothIsReference(b);
    hide *;
    BackendAccepts(b, Both(b), n);
  }

  lemma {:induction false} SentAll(b: Bench, feed: seq<Message<Value>>, lane: Lane<Value>, source: nat, n: nat)
    requires b.Valid() && LaneHas(b, feed, lane, source) && source < 2
    requires From(feed, source) == Stream(Sends(b, source), b.batch, source, n)
    ensures |lane.full| == n
  {
    SendsSize(b, source);
    hide Sends, Sending, Stream;
    StreamEnds(lane, Sends(b, source), b.points, b.batch, source, n);
  }
}
