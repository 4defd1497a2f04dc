/** Exactly which feeds the benchmark's stages accept. */
module BenchFeeds {
  import opened Basics
  import opened BenchNormalizer
  import opened BenchStreams
  import opened BenchStages
  import opened BenchPipeline
  import opened Sorting

  // ---------- places ----------

  /** Where a source stands after its messages in a feed, when windows have `size` values. */
  ghost function PlaceAfter<T>(feed: seq<Message<T>>, source: nat, size: nat): Pos {
    if feed == [] then Pos(0, 0)
    else
      var p, m := PlaceAfter(feed[..|feed| - 1], source, size), feed[|feed| - 1];
      if |m| > 0 && m[0].meta.source == source then After(p, |m|, size) else p
  }

  /** How many windows a source has begun. */
  ghost function BegunAt(p: Pos): nat {
    if p.offset == 0 then p.window else p.window + 1
  }

  /** The windows begun by either source and not finished by both. */
  ghost function Behind(p: Pos, q: Pos): int {
    Max(BegunAt(p), BegunAt(q)) - Min(p.window, q.window)
  }

  ghost function At<T>(lane: Lane<T>): Pos {
    Pos(|lane.full|, |lane.open|)
  }

  lemma {:induction false} PlacePush<T>(feed: seq<Message<T>>, m: Message<T>, source: nat, size: nat)
    ensures PlaceAfter(feed + [m], source, size)
         == if |m| > 0 && m[0].meta.source == source then After(PlaceAfter(feed, source, size), |m|, size) else PlaceAfter(feed, source, size)
  {
    assert (feed + [m])[..|feed|] == feed;
  }

  lemma {:induction false} TookAt<T>(lane: Lane<T>, values: seq<T>, size: nat)
    requires |lane.open| + |values| <= size
    ensures At(Took(lane, values, size)) == After(At(lane), |values|, size)
  {
  }

  lemma {:induction false} BehindIs<T>(l: Lane<T>, r: Lane<T>)
    ensures Unfinished(l, r) == Behind(At(l), At(r))
  {
  }

  // ---------- the merge ----------

  /** A message that continues its source: one batch of one window, without a gap, within the window. */
  ghost predicate Continuing(feed: seq<Message<Value>>, m: Message<Value>, role: Role, size: nat) {
    && m != [] && (if role.Estimate? then m[0].meta.source == 2 else m[0].meta.source < 2) && SameMeta(m)
    && Pos(m[0].meta.window, m[0].meta.offset) == PlaceAfter(feed, m[0].meta.source, size)
    && m[0].meta.offset + |m| <= size
  }

  ghost predicate AllFit(feed: seq<Message<Value>>, role: Role, size: nat) {
    feed == [] || (AllFit(feed[..|feed| - 1], role, size) && Continuing(feed[..|feed| - 1], feed[|feed| - 1], role, size))
  }

  /** At no point are more windows held than the bound allows. */
  ghost predicate Bounded(feed: seq<Message<Value>>, size: nat) {
    feed == [] || (Bounded(feed[..|feed| - 1], size) && Behind(PlaceAfter(feed, 0, size), PlaceAfter(feed, 1, size)) <= MAX_PENDING)
  }

  /** The first `n` windows of both lanes, merged. */
  ghost function MergedStream(l: Lane<Value>, r: Lane<Value>, batch: nat, n: nat): seq<Message<Value>>
    requires batch > 0 && n <= |l.full| && n <= |r.full|
  {
    if n == 0 then [] else MergedStream(l, r, batch, n - 1) + Chunked(Merged(l.full[n - 1], r.full[n - 1], Leq), batch, n - 1, 2, 0)
  }

  /** A merge that has accepted a feed. */
  ghost predicate Merging(b: Bench, feed: seq<Message<Value>>, st: Stage, sent: seq<Message<Value>>)
    requires b.Valid()
  {
    && |st.lanes| == 3 && st.lanes[2] == NoLane()
    && st.lanes[0] == LaneAfter(From(feed, 0), b.points) && st.lanes[1] == LaneAfter(From(feed, 1), b.points)
    && At(st.lanes[0]) == PlaceAfter(feed, 0, b.points) && At(st.lanes[1]) == PlaceAfter(feed, 1, b.points)
    && st.pending == Backlogged(st.lanes[0], st.lanes[1]) && Unfinished(st.lanes[0], st.lanes[1]) <= MAX_PENDING
    && sent == MergedStream(st.lanes[0], st.lanes[1], b.batch, Finished(st.lanes[0], st.lanes[1]))
  }

  lemma {:induction false} FromPush<T>(feed: seq<Message<T>>, m: Message<T>, source: nat, size: nat)
    requires m != []
    ensures LaneAfter(From(feed + [m], source), size)
         == if m[0].meta.source == source then Took(LaneAfter(From(feed, source), size), Values(m), size) else LaneAfter(From(feed, source), size)
  {
    hide Took;
    assert (feed + [m])[..|feed|] == feed;
    var msgs := From(feed, source);
    assert (msgs + [m])[..|msgs|] == msgs;
    assert msgs + [] == msgs;
  }

  lemma {:induction false} SameStream(l: Lane<Value>, r: Lane<Value>, l': Lane<Value>, r': Lane<Value>, batch: nat, n: nat)
    requires batch > 0 && n <= |l.full| && n <= |r.full| && l.full <= l'.full && r.full <= r'.full
    ensures MergedStream(l', r', batch, n) == MergedStream(l, r, batch, n)
    decreases n
  {
    hide Chunked, Merged;
    if n > 0 {
      SameStream(l, r, l', r', batch, n - 1);
    }
  }

  /** A message that does not fit is refused. */
  lemma {:induction false} MisfitIsRefused(b: Bench, feed: seq<Message<Value>>, m: Message<Value>, st: Stage, sent: seq<Message<Value>>)
    requires b.Valid() && StageOk(st, Merge, b) && Merging(b, feed, st, sent) && !Continuing(feed, m, Merge, b.points)
    ensures Processed(st, Merge, b, m).1.Err?
  {
    hide Advanced, LaneOk, LaneAfter, From, Backlogged, Unfinished, MergedStream, Finished, Took, Values;
  }

  /** The lanes after a message that fits. */
  ghost function Fed1(st: Stage, b: Bench, m: Message<Value>): Stage
    requires |st.lanes| == 3 && m != [] && m[0].meta.source < 2
  {
    var s := m[0].meta.source;
    st.(pending := st.pending + {|st.lanes[s].full|}, lanes := st.lanes[s := Took(st.lanes[s], Values(m), b.points)])
  }

  lemma {:induction false} FittingAdvances(b: Bench, feed: seq<Message<Value>>, m: Message<Value>, st: Stage, sent: seq<Message<Value>>)
    requires b.Valid() && StageOk(st, Merge, b) && Merging(b, feed, st, sent) && Continuing(feed, m, Merge, b.points)
    ensures var w := |st.lanes[m[0].meta.source].full|;
      StageOk(Fed1(st, b, m), Merge, b) && Processed(st, Merge, b, m) == Advanced(Fed1(st, b, m), Merge, b, w)
  {
    hide Advanced, LaneAfter, From, Backlogged, Unfinished, MergedStream, Finished;
  }

  /** What the lanes hold once a message has been taken in. */
  ghost predicate FedWell(b: Bench, feed: seq<Message<Value>>, took: Stage, st: Stage, w: nat)
    requires b.Valid()
  {
    && |took.lanes| == 3 && |st.lanes| == 3 && took.lanes[2] == NoLane()
    && took.lanes[0] == LaneAfter(From(feed, 0), b.points) && took.lanes[1] == LaneAfter(From(feed, 1), b.points)
    && At(took.lanes[0]) == PlaceAfter(feed, 0, b.points) && At(took.lanes[1]) == PlaceAfter(feed, 1, b.points)
    && Fed(st.lanes[0], st.lanes[1], took.lanes[0], took.lanes[1], w, took.pending)
    && st.lanes[0].full <= took.lanes[0].full && st.lanes[1].full <= took.lanes[1].full
  }

  lemma {:induction false} TookGrows<T>(lane: Lane<T>, values: seq<T>, size: nat)
    ensures lane.full <= Took(lane, values, size).full
  {
  }

  lemma {:induction false} FitIsFed(b: Bench, feed: seq<Message<Value>>, m: Message<Value>, st: Stage, sent: seq<Message<Value>>)
    requires b.Valid() && Merging(b, feed, st, sent) && Continuing(feed, m, Merge, b.points)
    ensures FedWell(b, feed + [m], Fed1(st, b, m), st, |st.lanes[m[0].meta.source].full|)
  {
    var s := m[0].meta.source;
    FromPush(feed, m, 0, b.points);
    FromPush(feed, m, 1, b.points);
    PlacePush(feed, m, 0, b.points);
    PlacePush(feed, m, 1, b.points);
    TookAt(st.lanes[s], Values(m), b.points);
    TookGrows(st.lanes[s], Values(m), b.points);
    if s == 0 {
      FedLeft(st.lanes[0], st.lanes[1], Values(m), b.points, st.pending);
    } else {
      FedRight(st.lanes[0], st.lanes[1], Values(m), b.points, st.pending);
    }
    hide Fed, Took, LaneAfter, From, PlaceAfter, Values, Backlogged, Unfinished, MergedStream, Finished, After;
  }

  /** Whether the window goes out or is held: accepted exactly within the bound. */
  lemma {:induction false} AdvancedWithin(b: Bench, feed: seq<Message<Value>>, took: Stage, st: Stage, w: nat, sent: seq<Message<Value>>)
    requires b.Valid() && StageOk(took, Merge, b) && FedWell(b, feed, took, st, w)
    requires Unfinished(st.lanes[0], st.lanes[1]) <= MAX_PENDING
    requires sent == MergedStream(st.lanes[0], st.lanes[1], b.batch, Finished(st.lanes[0], st.lanes[1]))
    ensures var (next, r) := Advanced(took, Merge, b, w);
      && (r.Ok? <==> Behind(PlaceAfter(feed, 0, b.points), PlaceAfter(feed, 1, b.points)) <= MAX_PENDING)
      && (r.Ok? ==> Merging(b, feed, next, sent + r.value))
  {
    hide LaneAfter, From, PlaceAfter, Chunked, Merged, Backlogged, LaneOk, Estimated, At, Behind;
    var l, r := took.lanes[0], took.lanes[1];
    BehindIs(l, r);
    SameStream(st.lanes[0], st.lanes[1], l, r, b.batch, Finished(st.lanes[0], st.lanes[1]));
    hide Unfinished;
    assert sent + [] == sent;
  }

  lemma {:induction false} StepWithin(b: Bench, feed: seq<Message<Value>>, m: Message<Value>, st: Stage, sent: seq<Message<Value>>)
    requires b.Valid() && StageOk(st, Merge, b) && Merging(b, feed, st, sent)
    ensures var (next, r) := Processed(st, Merge, b, m);
      && (r.Ok? <==>
            Continuing(feed, m, Merge, b.points) && Behind(PlaceAfter(feed + [m], 0, b.points), PlaceAfter(feed + [m], 1, b.points)) <= MAX_PENDING)
      && (r.Ok? ==> Merging(b, feed + [m], next, sent + r.value))
  {
    if Continuing(feed, m, Merge, b.points) {
      FittingAdvances(b, feed, m, st, sent);
      FitIsFed(b, feed, m, st, sent);
      MergingParts(b, feed, st, sent);
      hide Merging, Processed, Advanced, FedWell, PlaceAfter, Behind, StageOk, Continuing, Fed1, Unfinished, MergedStream, Finished;
      AdvancedWithin(b, feed + [m], Fed1(st, b, m), st, |st.lanes[m[0].meta.source].full|, sent);
    } else {
      hide Merging, Processed, PlaceAfter, Behind, StageOk, Continuing;
      MisfitIsRefused(b, feed, m, st, sent);
    }
  }

  lemma {:induction false} MergingParts(b: Bench, feed: seq<Message<Value>>, st: Stage, sent: seq<Message<Value>>)
    requires b.Valid() && Merging(b, feed, st, sent)
    ensures |st.lanes| == 3 && Unfinished(st.lanes[0], st.lanes[1]) <= MAX_PENDING
    ensures sent == MergedStream(st.lanes[0], st.lanes[1], b.batch, Finished(st.lanes[0], st.lanes[1]))
  {
  }

  /** Whatever it is fed, the merge accepts a feed exactly when every message continues its source, one
      window at a time and without a gap, and the backlog stays within the bound; and then it has
      sent the merge of both sources' values for each window that both have finished. */
  lemma {:induction false} MergeAcceptsExactly(b: Bench, feed: seq<Message<Value>>)
    requires b.Valid()
    ensures Ran(b, Merge, feed).1.Ok? <==> AllFit(feed, Merge, b.points) && Bounded(feed, b.points)
    ensures Ran(b, Merge, feed).1.Ok? ==> Merging(b, feed, Ran(b, Merge, feed).0, Ran(b, Merge, feed).1.value)
    decreases |feed|
  {
    hide Processed, Merging, Continuing, Behind, PlaceAfter;
    if feed == [] {
      MergingNothing(b);
    } else {
      var init, m := feed[..|feed| - 1], feed[|feed| - 1];
      MergeAcceptsExactly(b, init);
      assert init + [m] == feed;
      if Ran(b, Merge, init).1.Ok? {
        StepWithin(b, init, m, Ran(b, Merge, init).0, Ran(b, Merge, init).1.value);
      }
    }
  }

  lemma {:induction false} MergingNothing(b: Bench)
    requires b.Valid()
    ensures Merging(b, [], Fresh, [])
  {
  }

  // ---------- the estimate ----------

  ghost predicate Estimating(b: Bench, feed: seq<Message<Value>>, st: Stage) {
    && |st.lanes| == 3 && At(st.lanes[2]) == PlaceAfter(feed, 2, b.points * 2)
    && st.pending == if st.lanes[2].open == [] then {} else {|st.lanes[2].full|}
  }

  lemma {:induction false} EstimateStepWithin(b: Bench, feed: seq<Message<Value>>, m: Message<Value>, st: Stage)
    requires b.Valid() && StageOk(st, Estimate, b) && Estimating(b, feed, st)
    ensures var (next, r) := Processed(st, Estimate, b, m);
      && (r.Ok? <==> Continuing(feed, m, Estimate, b.points * 2))
      && (r.Ok? ==> Estimating(b, feed + [m], next))
  {
    hide Chunked, Merged, AnswerMessage, RollingValues, BenchStages.Retain;
    PlacePush(feed, m, 2, b.points * 2);
    if Continuing(feed, m, Estimate, b.points * 2) {
      var w := |st.lanes[2].full|;
      TookAt(st.lanes[2], Values(m), b.points * 2);
      assert st.pending + {w} == {w} && {w} - {w} == {};
    }
  }

  /** Whatever it is fed, the estimate accepts a feed exactly when every message continues the merge's
      stream, one window at a time and without a gap. */
  lemma {:induction false} EstimateAcceptsExactly(b: Bench, feed: seq<Message<Value>>)
    requires b.Valid()
    ensures Ran(b, Estimate, feed).1.Ok? <==> AllFit(feed, Estimate, b.points * 2)
    ensures Ran(b, Estimate, feed).1.Ok? ==> Estimating(b, feed, Ran(b, Estimate, feed).0)
    decreases |feed|
  {
    hide Processed, Estimating, Continuing;
    if feed == [] {
      assert Estimating(b, [], Fresh) by { EstimatingNothing(b); }
    } else {
      var init, m := feed[..|feed| - 1], feed[|feed| - 1];
      EstimateAcceptsExactly(b, init);
      assert init + [m] == feed;
      if Ran(b, Estimate, init).1.Ok? {
        EstimateStepWithin(b, init, m, Ran(b, Estimate, init).0);
      }
    }
  }

  lemma {:induction false} EstimatingNothing(b: Bench)
    ensures Estimating(b, [], Fresh)
  {
  }

  // ---------- a branch ----------

  /** Where a source stands after its normalized batches. */
  ghost function PlaceOf(batches: seq<NormalizedBatch>, points: nat): Pos {
    if batches == [] then Pos(0, 0) else After(PlaceOf(batches[..|batches| - 1], points), batches[|batches| - 1].count, points)
  }

  /** Every batch continues the one before, without a gap, within its window. */
  ghost predicate AllContinue(batches: seq<NormalizedBatch>, points: nat) {
    batches == [] || (
      var init, last := batches[..|batches| - 1], batches[|batches| - 1];
      && AllContinue(init, points)
      && Pos(last.meta.window, last.meta.offset) == PlaceOf(init, points) && last.meta.offset + last.count <= points)
  }

  /** One source, and no empty batch. */
  ghost predicate OfOneSource(batches: seq<NormalizedBatch>, source: nat) {
    forall i :: 0 <= i < |batches| ==> batches[i].meta.source == source && batches[i].count > 0
  }

  ghost predicate Branching(b: Bench, source: nat, batches: seq<NormalizedBatch>, st: Stage)
    requires source < 2
  {
    && |st.lanes| == 3 && At(st.lanes[source]) == PlaceOf(batches, b.points)
    && st.pending == if st.lanes[source].open == [] then {} else {|st.lanes[source].full|}
  }

  lemma {:induction false} BranchStepWithin(b: Bench, source: nat, batches: seq<NormalizedBatch>, n: NormalizedBatch, st: Stage)
    requires b.Valid() && source < 2 && StageOk(st, Branch, b) && Branching(b, source, batches, st)
    requires n.meta.source == source && n.count > 0
    ensures var (next, r) := BranchTaken(st, b, n);
      && (r.Ok? <==> Pos(n.meta.window, n.meta.offset) == PlaceOf(batches, b.points) && n.meta.offset + n.count <= b.points)
      && (r.Ok? ==> At(next.lanes[source]) == After(PlaceOf(batches, b.points), n.count, b.points))
      && (r.Ok? ==> next.pending == if next.lanes[source].open == [] then {} else {|next.lanes[source].full|})
  {
    hide Chunked, Sort, PlaceOf;
    if Pos(n.meta.window, n.meta.offset) == PlaceOf(batches, b.points) && n.meta.offset + n.count <= b.points {
      var w := |st.lanes[source].full|;
      TookAt(st.lanes[source], Generated(b, n.firstIndex, n.count), b.points);
      assert st.pending + {w} == {w} && {w} - {w} == {};
    }
  }

  /** Whatever batches of its source it is given, a branch accepts them exactly when each continues the one
      before. */
  lemma {:induction false} BranchAcceptsExactly(b: Bench, source: nat, batches: seq<NormalizedBatch>)
    requires b.Valid() && source < 2 && OfOneSource(batches, source)
    ensures BranchRun(b, batches).1.Ok? <==> AllContinue(batches, b.points)
    ensures BranchRun(b, batches).1.Ok? ==> Branching(b, source, batches, BranchRun(b, batches).0)
    decreases |batches|
  {
    hide BranchTaken;
    if batches != [] {
      var init, last := batches[..|batches| - 1], batches[|batches| - 1];
      BranchAcceptsExactly(b, source, init);
      if BranchRun(b, init).1.Ok? {
        BranchStepWithin(b, source, init, last, BranchRun(b, init).0);
      }
    }
  }

  // ---------- the backend ----------

  /** The reference is the values of the first `2 * points` indices, sorted. */
  lemma {:induction false} ReferenceIsValues(b: Bench)
    ensures Sorted(Reference(b), Leq)
    ensures multiset(Reference(b)) == multiset(seq(b.points * 2, i requires 0 <= i < b.points * 2 => b.value(i + 1)))
  {
    LeqIsTotal();
    var all := Generated(b, 1, b.points * 2);
    SortSorts(all, Leq);
    assert all == seq(b.points * 2, i requires 0 <= i < b.points * 2 => b.value(i + 1));
    hide Sort;
  }

  /** A point of a right message: an answer of the window, with its reference value. */
  ghost predicate RightPoint(b: Bench, sorted: seq<Value>, p: Point<Value>, w: nat)
    requires b.Valid()
  {
    && p.answer.Some? && (p.answer.value.kind.Tumbling? || b.rolling > 1) && p.answer.value.slot < 2
    && p.meta.window == w && p.meta.source == 2
    && Some(p.value) == Expected(b, sorted, w, p.answer.value.kind, p.answer.value.slot)
  }

  ghost predicate Asked(b: Bench, a: Option<Answer>) {
    a.Some? && (a.value.kind.Tumbling? || b.rolling > 1) && a.value.slot < 2
  }

  /** How often an answer occurs. */
  ghost function Times(msg: Message<Value>, kind: Kind, q: nat): nat {
    |Matching(msg, kind, q)|
  }

  /** The points that are answers at all. */
  ghost function Answering(b: Bench, msg: Message<Value>): nat {
    if msg == [] then 0 else Answering(b, msg[..|msg| - 1]) + if Asked(b, msg[|msg| - 1].answer) then 1 else 0
  }

  lemma {:induction false} TimesPush(msg: Message<Value>, kind: Kind, q: nat)
    requires msg != []
    ensures Times(msg, kind, q) == Times(msg[..|msg| - 1], kind, q) + if msg[|msg| - 1].answer == Some(Answer(kind, q)) then 1 else 0
  {
  }

  lemma {:induction false} OneMoreAnswer(b: Bench, msg: Message<Value>)
    requires msg != []
    ensures var init := msg[..|msg| - 1];
      && Times(msg, Tumbling, 0) + Times(msg, Tumbling, 1) + (if b.rolling > 1 then Times(msg, Rolling, 0) + Times(msg, Rolling, 1) else 0)
      == Times(init, Tumbling, 0) + Times(init, Tumbling, 1) + (if b.rolling > 1 then Times(init, Rolling, 0) + Times(init, Rolling, 1) else 0)
         + if Asked(b, msg[|msg| - 1].answer) then 1 else 0
  {
    hide Times;
    TimesPush(msg, Tumbling, 0);
    TimesPush(msg, Tumbling, 1);
    TimesPush(msg, Rolling, 0);
    TimesPush(msg, Rolling, 1);
    var a := msg[|msg| - 1].answer;
    if a.Some? {
      assert a.value.kind == Tumbling || a.value.kind == Rolling;
      assert a == Some(Answer(a.value.kind, a.value.slot));
      if Asked(b, a) {
        assert a.value.slot == 0 || a.value.slot == 1;
      }
    }
  }

  lemma {:induction false} AnsweringIsSum(b: Bench, msg: Message<Value>)
    ensures Answering(b, msg) == Times(msg, Tumbling, 0) + Times(msg, Tumbling, 1) + if b.rolling > 1 then Times(msg, Rolling, 0) + Times(msg, Rolling, 1) else 0
    ensures Answering(b, msg) <= |msg|
    ensures Answering(b, msg) == |msg| <==> forall i :: 0 <= i < |msg| ==> Asked(b, msg[i].answer)
    decreases |msg|
  {
    if msg != [] {
      hide Matching;
      AnsweringIsSum(b, msg[..|msg| - 1]);
      OneMoreAnswer(b, msg);
      assert forall i :: 0 <= i < |msg| - 1 ==> msg[..|msg| - 1][i] == msg[i];
    }
  }

  lemma {:induction false} MatchingFinds(msg: Message<Value>, kind: Kind, q: nat, i: nat)
    requires i < |msg| && msg[i].answer == Some(Answer(kind, q))
    ensures msg[i] in Matching(msg, kind, q)
    decreases |msg|
  {
    if i < |msg| - 1 {
      MatchingFinds(msg[..|msg| - 1], kind, q, i);
    }
  }

  lemma {:induction false} MatchingComes(msg: Message<Value>, kind: Kind, q: nat)
    ensures forall p :: p in Matching(msg, kind, q) ==> p in msg && p.answer == Some(Answer(kind, q))
    decreases |msg|
  {
    if msg != [] {
      MatchingComes(msg[..|msg| - 1], kind, q);
    }
  }

  /** Each answer that is asked for occurs once. */
  ghost predicate OnceEach(b: Bench, msg: Message<Value>) {
    && Times(msg, Tumbling, 0) == 1 && Times(msg, Tumbling, 1) == 1
    && (b.rolling > 1 ==> Times(msg, Rolling, 0) == 1 && Times(msg, Rolling, 1) == 1)
  }

  lemma {:induction false} RightWhen(b: Bench, sorted: seq<Value>, msg: Message<Value>, w: nat, kind: Kind, q: nat)
    requires b.Valid() && q < 2 && (kind.Tumbling? || b.rolling > 1)
    ensures RightAnswer(b, sorted, msg, w, kind, q) <==>
      Times(msg, kind, q) == 1 && forall i :: 0 <= i < |msg| && msg[i].answer == Some(Answer(kind, q)) ==> RightPoint(b, sorted, msg[i], w)
  {
    hide Expected, Matching;
    MatchingComes(msg, kind, q);
    var found := Matching(msg, kind, q);
    forall i | 0 <= i < |msg| && msg[i].answer == Some(Answer(kind, q))
      ensures msg[i] in found
    {
      MatchingFinds(msg, kind, q, i);
    }
    if |found| == 1 {
      assert found[0] in msg;
      var i :| 0 <= i < |msg| && msg[i] == found[0];
    }
  }

  /** The backend accepts a message for window `w` exactly when it is that window's, every point of it is
      an answer with the reference value, and each answer occurs once. */
  lemma {:induction false} BackendAcceptsExactly(b: Bench, sorted: seq<Value>, w: nat, msg: Message<Value>)
    requires b.Valid()
    ensures Accepts(b, sorted, w, msg) <==>
      (forall i :: 0 <= i < |msg| ==> RightPoint(b, sorted, msg[i], w)) && OnceEach(b, msg)
  {
    hide Expected, Matching, RightAnswer, RightPoint;
    AnsweringIsSum(b, msg);
    if Accepts(b, sorted, w, msg) {
      AcceptedIsRight(b, sorted, w, msg);
    }
    if (forall i :: 0 <= i < |msg| ==> RightPoint(b, sorted, msg[i], w)) && OnceEach(b, msg) {
      RightIsAccepted(b, sorted, w, msg);
    }
  }

  lemma {:induction false} PointIsAsked(b: Bench, sorted: seq<Value>, p: Point<Value>, w: nat)
    requires b.Valid() && RightPoint(b, sorted, p, w)
    ensures Asked(b, p.answer) && p.meta.window == w && p.meta.source == 2
  {
    hide Expected;
  }

  lemma {:induction false} AcceptedIsRight(b: Bench, sorted: seq<Value>, w: nat, msg: Message<Value>)
    requires b.Valid() && Accepts(b, sorted, w, msg)
    ensures (forall i :: 0 <= i < |msg| ==> RightPoint(b, sorted, msg[i], w)) && OnceEach(b, msg)
  {
    hide Expected, Matching, RightAnswer, RightPoint, Answering;
    AnsweringIsSum(b, msg);
    assert Kinds(b)[0] == Tumbling;
    RightWhen(b, sorted, msg, w, Tumbling, 0);
    RightWhen(b, sorted, msg, w, Tumbling, 1);
    if b.rolling > 1 {
      assert Kinds(b)[1] == Rolling;
      RightWhen(b, sorted, msg, w, Rolling, 0);
      RightWhen(b, sorted, msg, w, Rolling, 1);
    }
    forall i | 0 <= i < |msg|
      ensures RightPoint(b, sorted, msg[i], w)
    {
      assert Asked(b, msg[i].answer);
      var a := msg[i].answer.value;
      assert a.kind == Tumbling || a.kind == Rolling;
      assert msg[i].answer == Some(Answer(a.kind, a.slot));
      assert a.slot == 0 || a.slot == 1;
    }
  }

  lemma {:induction false} RightIsAccepted(b: Bench, sorted: seq<Value>, w: nat, msg: Message<Value>)
    requires b.Valid() && (forall i :: 0 <= i < |msg| ==> RightPoint(b, sorted, msg[i], w)) && OnceEach(b, msg)
    ensures Accepts(b, sorted, w, msg)
  {
    hide Expected, Matching, RightAnswer, RightPoint, Answering;
    AnsweringIsSum(b, msg);
    forall i | 0 <= i < |msg|
      ensures Asked(b, msg[i].answer) && msg[i].meta.window == w && msg[i].meta.source == 2
    {
      PointIsAsked(b, sorted, msg[i], w);
    }
    forall k, q | 0 <= k < |Kinds(b)| && 0 <= q < 2
      ensures RightAnswer(b, sorted, msg, w, Kinds(b)[k], q)
    {
      RightWhen(b, sorted, msg, w, Kinds(b)[k], q);
    }
    assert Times(msg, Tumbling, 0) == 1;
  }
}
