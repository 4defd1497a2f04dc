/** The benchmark's processors and backend: each method does to its fields what the stage does
    to its lanes. */
module BenchProcessors {
  import opened Basics
  import opened Sorting
  import opened BenchNormalizer
  import opened BenchStages
  import opened BenchStreams

  // ---------- the processors ----------

  /** What is held of one window. */
  datatype Window = Window(received: seq<nat>, runs: seq<seq<Value>>)

  const NoWindow := Window([0, 0, 0], [[], [], []])

  function Held(windows: map<nat, Window>, w: nat): Window {
    if w in windows then windows[w] else NoWindow
  }

  /** A held window is its part of each lane. */
  ghost predicate Holds(win: Window, lanes: seq<Lane<Value>>, w: nat)
    requires |lanes| == 3
  {
    && |win.received| == 3 && |win.runs| == 3
    && forall s :: 0 <= s < 3 ==> win.runs[s] == Part(lanes[s], w) && win.received[s] == |Part(lanes[s], w)|
  }

  /** Only the lanes of a role are fed; a branch has one source. */
  ghost predicate OnlyFed(st: Stage, role: Role, lane: nat) {
    && |st.lanes| == 3
    && forall s :: 0 <= s < 3 && !Feeds(role, lane, s) ==> st.lanes[s] == NoLane()
  }

  ghost predicate Feeds(role: Role, lane: nat, s: nat) {
    if role.Estimate? then s == 2 else if role.Merge? then s < 2 else s == lane
  }

  /** The windows from `from` on are held, and no others. */
  ghost predicate HoldsFrom(windows: map<nat, Window>, lanes: seq<Lane<Value>>, from: nat) {
    && |lanes| == 3
    && (forall w: nat :: w in windows ==> w >= from)
    && forall w: nat :: w >= from ==> Holds(Held(windows, w), lanes, w)
  }

  function Put(windows: map<nat, Window>, w: nat): map<nat, Window> {
    windows[w := Held(windows, w)]
  }

  function Added(win: Window, s: nat, values: seq<Value>): Window
    requires s < |win.runs| && s < |win.received|
  {
    Window(win.received[s := win.received[s] + |values|], win.runs[s := win.runs[s] + values])
  }

  lemma {:induction false} PutHolds(windows: map<nat, Window>, lanes: seq<Lane<Value>>, from: nat, w: nat)
    requires HoldsFrom(windows, lanes, from) && w >= from
    ensures HoldsFrom(Put(windows, w), lanes, from)
  {
    hide Holds;
    forall x: nat | x >= from
      ensures Holds(Held(Put(windows, w), x), lanes, x)
    {
      assert Held(Put(windows, w), x) == Held(windows, x);
    }
  }

  lemma {:induction false} AddedToWindow(win: Window, lanes: seq<Lane<Value>>, s: nat, values: seq<Value>, size: nat, x: nat)
    requires |lanes| == 3 && s < 3 && Holds(win, lanes, x) && |lanes[s].open| + |values| <= size
    ensures Holds(if x == |lanes[s].full| then Added(win, s, values) else win, lanes[s := Took(lanes[s], values, size)], x)
  {
    var took := Took(lanes[s], values, size);
    assert Part(took, x) == if x == |lanes[s].full| then Part(lanes[s], x) + values else Part(lanes[s], x);
  }

  lemma {:induction false} AddedHolds(windows: map<nat, Window>, lanes: seq<Lane<Value>>, from: nat, s: nat, values: seq<Value>, size: nat)
    requires HoldsFrom(windows, lanes, from) && s < 3
    requires |lanes[s].full| in windows && |lanes[s].open| + |values| <= size
    requires s < |windows[|lanes[s].full|].runs| && s < |windows[|lanes[s].full|].received|
    ensures var w := |lanes[s].full|;
      HoldsFrom(windows[w := Added(windows[w], s, values)], lanes[s := Took(lanes[s], values, size)], from)
  {
    hide Holds, Took;
    var w := |lanes[s].full|;
    var added := windows[w := Added(windows[w], s, values)];
    forall x: nat | x >= from
      ensures Holds(Held(added, x), lanes[s := Took(lanes[s], values, size)], x)
    {
      AddedToWindow(Held(windows, x), lanes, s, values, size, x);
    }
  }

  /** Dropping the oldest window moves the boundary past it. */
  lemma {:induction false} DroppedHolds(windows: map<nat, Window>, lanes: seq<Lane<Value>>, from: nat)
    requires HoldsFrom(windows, lanes, from)
    ensures HoldsFrom(windows - {from}, lanes, from + 1)
  {
    hide Holds;
    forall w: nat | w >= from + 1
      ensures Holds(Held(windows - {from}, w), lanes, w)
    {
      assert Held(windows - {from}, w) == Held(windows, w);
    }
  }

  /** A window is full exactly when its lane is past it. */
  lemma {:induction false} FullPart(lane: Lane<Value>, w: nat, size: nat)
    requires LaneOk(lane, size)
    ensures |Part(lane, w)| == size <==> w < |lane.full|
    ensures |Part(lane, w)| <= size
    ensures w < |lane.full| ==> Part(lane, w) == lane.full[w]
  {
  }

  lemma {:induction false} HeldIs(windows: map<nat, Window>, lanes: seq<Lane<Value>>, from: nat, w: nat)
    requires HoldsFrom(windows, lanes, from) && w in windows
    ensures Holds(windows[w], lanes, w)
  {
    hide Holds;
    assert Held(windows, w) == windows[w];
  }

  class Processor {
    const b: Bench
    const role: Role
    ghost const lane: nat
    var windows: map<nat, Window>
    var next: seq<nat>
    var history: seq<seq<Value>>
    ghost var stage: Stage

    /** The fields agree with the stage, windows being held from `from` on. */
    ghost predicate Agrees(from: nat)
      reads this
    {
      && b.Valid() && lane < 3
      && StageOk(stage, role, b) && OnlyFed(stage, role, lane)
      && history == stage.history
      && windows.Keys == stage.pending
      && |next| == 3 && (forall s :: 0 <= s < 3 ==> next[s] == |stage.lanes[s].full|)
      && HoldsFrom(windows, stage.lanes, from)
    }

    ghost predicate Valid()
      reads this
    {
      lane < 3 && |stage.lanes| == 3 && Agrees(Done(stage, role, lane))
    }

    constructor (b: Bench, role: Role, ghost lane: nat)
      requires b.Valid() && lane < 2
      ensures Valid() && stage == Fresh && this.b == b && this.role == role && this.lane == lane
    {
      this.b, this.role, this.lane := b, role, lane;
      windows, next, history := map[], [0, 0, 0], [];
      stage := Fresh;
    }

    /** Hold a window, blank if it is new. */
    method Hold(w: nat, ghost from: nat)
      requires Agrees(from) && w >= from
      modifies this
      ensures Agrees(from) && w in windows
      ensures stage == old(stage).(pending := old(stage).pending + {w})
    {
      hide HoldsFrom, LaneOk;
      PutHolds(windows, stage.lanes, from, w);
      windows := Put(windows, w);
      stage := stage.(pending := stage.pending + {w});
    }

    /** Add values to the window a lane is at. */
    method Add(s: nat, w: nat, values: seq<Value>, ghost from: nat)
      requires Agrees(from) && s < 3 && w == |stage.lanes[s].full| && w in windows
      requires |stage.lanes[s].open| + |values| <= Size(role, b)
      requires Feeds(role, lane, s)
      modifies this
      ensures Agrees(from) && w in windows
      ensures stage == old(stage).(lanes := old(stage).lanes[s := Took(old(stage).lanes[s], values, Size(role, b))])
    {
      hide HoldsFrom, Holds;
      HeldIs(windows, stage.lanes, from, w);
      ReceivedIs(windows[w], stage.lanes, w, s);
      AddedHolds(windows, stage.lanes, from, s, values, Size(role, b));
      windows := windows[w := Added(windows[w], s, values)];
      if windows[w].received[s] == Size(role, b) {
        next := next[s := next[s] + 1];
      }
      stage := stage.(lanes := stage.lanes[s := Took(stage.lanes[s], values, Size(role, b))]);
    }

    /** Remove the oldest window. */
    method Remove(w: nat)
      requires Agrees(w) && w in windows
      modifies this
      ensures Agrees(w + 1)
      ensures stage == old(stage).(pending := old(stage).pending - {w})
    {
      hide HoldsFrom, LaneOk;
      DroppedHolds(windows, stage.lanes, w);
      windows := windows - {w};
      stage := stage.(pending := stage.pending - {w});
    }

    /** Retain a window, and sort everything retained. */
    method RollingExact(values: seq<Value>, ghost from: nat) returns (rolling: Option<seq<Value>>)
      requires Agrees(from)
      modifies this
      ensures Agrees(from)
      ensures stage == old(stage).(history := Retain(b, old(stage).history, values))
      ensures rolling == RollingValues(b, stage.history)
    {
      hide HoldsFrom, LaneOk, Sort, Concat;
      if b.rolling <= 1 {
        return None;
      }
      history := history + [values];
      if |history| > b.rolling {
        history := history[1..];
      }
      stage := stage.(history := history);
      return Some(Sort(Concat(history), Leq));
    }

    /** A merge or an estimate takes in one batch. */
    method Process(msg: Message<Value>) returns (r: Result<seq<Message<Value>>, Error>)
      requires Valid() && !role.Branch?
      modifies this
      ensures Valid()
      ensures (stage, r) == Processed(old(stage), role, b, msg)
    {
      hide HoldsFrom, Holds, Took, Values, Chunked, Merged, AnswerMessage, Retain, RollingValues, Advanced, OnlyFed, LaneOk;
      if msg == [] {
        return Err(EmptyBatch);
      }
      var m := msg[0].meta;
      if m.source > 2 || m.window != next[m.source] {
        return Err(OutOfOrder);
      }
      if !SameMeta(msg) {
        return Err(MixedMeta);
      }
      if (role.Estimate? && m.source != 2) || (!role.Estimate? && m.source > 1) {
        return Err(WrongSource);
      }
      var w, count := m.window, Size(role, b);
      ghost var from := Done(stage, role, lane);
      Hold(w, from);
      HeldIs(windows, stage.lanes, from, w);
      ReceivedIs(windows[w], stage.lanes, w, m.source);
      if m.offset != windows[w].received[m.source] {
        return Err(MissingBatch);
      }
      if windows[w].received[m.source] + |msg| > count {
        return Err(WindowOverflow);
      }
      ghost var held := stage;
      Add(m.source, w, Values(msg), from);
      TakenDone(held, stage, role, lane, m.source, Values(msg), count);
      r := Advance(w, from);
    }

    /** After a batch: emit its window if it is complete. */
    method Advance(w: nat, ghost from: nat) returns (r: Result<seq<Message<Value>>, Error>)
      requires Agrees(from) && w in windows && !role.Branch?
      requires Done(stage, role, lane) == if Complete(stage, role, w) then w + 1 else from
      requires Complete(stage, role, w) ==> from == w
      modifies this
      ensures Valid()
      ensures (stage, r) == Advanced(old(stage), role, b, w)
    {
      hide HoldsFrom, Holds, Chunked, Merged, AnswerMessage, Retain, RollingValues, OnlyFed;
      HeldIs(windows, stage.lanes, from, w);
      var win, count := windows[w], Size(role, b);
      CompleteWhen(win, stage, role, b, w);
      var complete := if role.Estimate? then win.received[2] == count else win.received[0] == count && win.received[1] == count;
      if !complete {
        return if |windows| > MAX_PENDING then Err(PendingBound) else Ok([]);
      }
      Remove(w);
      if role.Estimate? {
        NonEmptyRolling(b, history, win.runs[2]);
        var rolling := RollingExact(win.runs[2], w + 1);
        return Ok([AnswerMessage(b, w, win.runs[2], rolling)]);
      }
      var values := MergeRuns(win.runs[0], win.runs[1]);
      var chunks := Chunks(values, b.batch, w, 2);
      return Ok(chunks);
    }

    /** A branch takes in one normalized batch; a window goes out sorted. */
    method ProcessNormalized(n: NormalizedBatch) returns (r: Result<seq<Message<Value>>, Error>)
      requires Valid() && role.Branch?
      requires n.meta.source < 2 ==> n.meta.source == lane
      modifies this
      ensures Valid()
      ensures (stage, r) == BranchTaken(old(stage), b, n)
    {
      hide HoldsFrom, Holds, Took, Generated, Chunked, Sort, OnlyFed, LaneOk;
      var m := n.meta;
      if m.source > 1 {
        return Err(WrongSource);
      }
      if m.window != next[m.source] {
        return Err(OutOfOrder);
      }
      var w := m.window;
      Hold(w, w);
      HeldIs(windows, stage.lanes, w, w);
      ReceivedIs(windows[w], stage.lanes, w, m.source);
      if m.offset != windows[w].received[m.source] {
        return Err(MissingBatch);
      }
      if windows[w].received[m.source] + n.count > b.points {
        return Err(WindowOverflow);
      }
      ghost var held := stage;
      var values := Generated(b, n.firstIndex, n.count);
      Add(m.source, w, values, w);
      HeldIs(windows, stage.lanes, w, w);
      BranchPart(windows[w], stage, b, m.source, w, held, values);
      if windows[w].received[m.source] < b.points {
        return if |windows| > MAX_PENDING then Err(PendingBound) else Ok([]);
      }
      var run := windows[w].runs[m.source];
      Remove(w);
      var chunks := Chunks(Sort(run, Leq), b.batch, w, m.source);
      return Ok(chunks);
    }
  }

  lemma {:induction false} ReceivedIs(win: Window, lanes: seq<Lane<Value>>, w: nat, s: nat)
    requires |lanes| == 3 && Holds(win, lanes, w) && s < 3 && w == |lanes[s].full|
    ensures |win.runs| == 3 && |win.received| == 3
    ensures win.received[s] == |lanes[s].open|
  {
  }

  lemma {:induction false} CompleteWhen(win: Window, st: Stage, role: Role, b: Bench, w: nat)
    requires StageOk(st, role, b) && Holds(win, st.lanes, w) && !role.Branch?
    ensures |win.runs| == 3 && |win.received| == 3
    ensures Complete(st, role, w) <==>
      if role.Estimate? then win.received[2] == Size(role, b) else win.received[0] == Size(role, b) && win.received[1] == Size(role, b)
    ensures Complete(st, role, w) ==>
      if role.Estimate? then win.runs[2] == st.lanes[2].full[w]
      else win.runs[0] == st.lanes[0].full[w] && win.runs[1] == st.lanes[1].full[w]
  {
    forall s | 0 <= s < 3
      ensures |Part(st.lanes[s], w)| == Size(role, b) <==> w < |st.lanes[s].full|
      ensures w < |st.lanes[s].full| ==> Part(st.lanes[s], w) == st.lanes[s].full[w]
    {
      FullPart(st.lanes[s], w, Size(role, b));
    }
    hide LaneOk, Part;
  }

  /** Feeding a lane finishes a window exactly when it completes the oldest. */
  lemma {:induction false} TakenDone(st: Stage, took: Stage, role: Role, lane: nat, s: nat, values: seq<Value>, size: nat)
    requires |st.lanes| == 3 && s < 3 && lane < 3 && !role.Branch? && (if role.Estimate? then s == 2 else s < 2)
    requires took == st.(lanes := st.lanes[s := Took(st.lanes[s], values, size)])
    ensures var w := |st.lanes[s].full|;
      && w >= Done(st, role, lane)
      && Done(took, role, lane) == (if Complete(took, role, w) then w + 1 else Done(st, role, lane))
      && (Complete(took, role, w) ==> Done(st, role, lane) == w)
  {
  }

  lemma {:induction false} BranchPart(win: Window, st: Stage, b: Bench, s: nat, w: nat, before: Stage, values: seq<Value>)
    requires |st.lanes| == 3 && s < 3 && Holds(win, st.lanes, w) && LaneOk(st.lanes[s], b.points)
    requires |before.lanes| == 3 && w == |before.lanes[s].full| && |before.lanes[s].open| + |values| <= b.points
    requires st.lanes[s] == Took(before.lanes[s], values, b.points)
    ensures |win.runs| == 3 && |win.received| == 3
    ensures win.received[s] < b.points <==> w == |st.lanes[s].full|
    ensures w != |st.lanes[s].full| ==> |st.lanes[s].full| == w + 1 && win.runs[s] == st.lanes[s].full[w]
  {
    FullPart(st.lanes[s], w, b.points);
  }

  // ---------- loops ----------

  lemma {:induction false} MergedStep(a: seq<Value>, c: seq<Value>, i: nat, j: nat)
    requires i <= |a| && j <= |c|
    ensures i < |a| && j < |c| && a[i] <= c[j] ==> Merged(a[i..], c[j..], Leq) == [a[i]] + Merged(a[i + 1..], c[j..], Leq)
    ensures i < |a| && j < |c| && a[i] > c[j] ==> Merged(a[i..], c[j..], Leq) == [c[j]] + Merged(a[i..], c[j + 1..], Leq)
    ensures i == |a| || j == |c| ==> Merged(a[i..], c[j..], Leq) == a[i..] + c[j..]
  {
    if i < |a| && j < |c| {
      assert a[i..][1..] == a[i + 1..] && c[j..][1..] == c[j + 1..];
    } else if i == |a| {
      assert a[i..] == [];
    } else {
      assert c[j..] == [];
    }
  }

  /** The standard two-run merge, in place of a sort. */
  method MergeRuns(a: seq<Value>, c: seq<Value>) returns (values: seq<Value>)
    ensures values == Merged(a, c, Leq)
  {
    hide Merged;
    values := [];
    var i, j := 0, 0;
    assert a[0..] == a && c[0..] == c;
    while i < |a| && j < |c|
      invariant i <= |a| && j <= |c|
      invariant values + Merged(a[i..], c[j..], Leq) == Merged(a, c, Leq)
      decreases |a| - i + |c| - j
    {
      MergedStep(a, c, i, j);
      if a[i] <= c[j] {
        values := values + [a[i]];
        i := i + 1;
      } else {
        values := values + [c[j]];
        j := j + 1;
      }
    }
    MergedStep(a, c, i, j);
    values := values + a[i..];
    values := values + c[j..];
  }

  // ---------- the backend ----------

  class Backend {
    const b: Bench
    const sorted: seq<Value>
    var nextQuantile: nat

    ghost predicate Valid()
      reads this
    {
      b.Valid() && sorted == Sort(Generated(b, 1, b.points * 2), Leq)
    }

    constructor (b: Bench)
      requires b.Valid()
      ensures Valid() && this.b == b && nextQuantile == 0
    {
      this.b := b;
      sorted := Sort(Generated(b, 1, b.points * 2), Leq);
      nextQuantile := 0;
    }

    /** Check one estimate message against the reference; it must be the next window's. */
    method Receive(msg: Message<Value>) returns (r: Result<(nat, nat), Error>)
      requires Valid()
      modifies this
      ensures Valid()
      ensures r.Ok? <==> Accepts(b, sorted, old(nextQuantile), msg)
      ensures r.Ok? ==> r.value == (b.points * 2, old(nextQuantile)) && nextQuantile == old(nextQuantile) + 1
      ensures r.Err? ==> nextQuantile == old(nextQuantile)
    {
      hide Matching, Expected, RightAnswer;
      if msg == [] {
        return Err(EmptyBatch);
      }
      var m := msg[0].meta;
      var kinds := Kinds(b);
      if m.window != nextQuantile || m.source != 2 || |msg| != |kinds| * 2 {
        return Err(OutOfOrder);
      }
      for k := 0 to |kinds|
        invariant forall x, q :: 0 <= x < k && 0 <= q < 2 ==> RightAnswer(b, sorted, msg, m.window, kinds[x], q)
      {
        for q := 0 to 2
          invariant forall y :: 0 <= y < q ==> RightAnswer(b, sorted, msg, m.window, kinds[k], y)
        {
          if !RightAnswer(b, sorted, msg, m.window, kinds[k], q) {
            return Err(BadAnswer);
          }
        }
      }
      nextQuantile := nextQuantile + 1;
      return Ok((b.points * 2, m.window));
    }
  }
}
