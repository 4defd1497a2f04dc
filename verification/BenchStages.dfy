/** The benchmark's stages, as functions of the lanes they have filled and the windows they
    retain. */
module BenchStages {
  import opened Basics
  import opened BenchNormalizer
  import opened BenchStreams
  import opened Sorting

  /** A double of the benchmark: finite and positive, ordered by `total_cmp`. */
  type Value = int

  predicate Leq(a: Value, b: Value) {
    a <= b
  }

  /** The settings: points a window and source, batch size, windows in the rolling range, the
      value of each index, and the rounded quantile index into `n` sorted values. */
  datatype Bench = Bench(points: nat, batch: nat, rolling: nat, value: nat -> Value, rank: (nat, nat) -> nat) {
    ghost predicate Valid() {
      points > 0 && batch > 0 && forall n, q :: n > 0 ==> rank(n, q) < n
    }
  }

  /** The generated values from an index on. */
  function Generated(b: Bench, first: nat, count: nat): (r: seq<Value>)
    ensures |r| == count
  {
    seq(count, i requires 0 <= i < count => b.value(first + i))
  }

  /** What a source sends for every window. */
  function Corpus(b: Bench, source: nat): seq<Value> {
    Generated(b, source * b.points + 1, b.points)
  }

  ghost predicate LaneOk(lane: Lane<Value>, size: nat) {
    |lane.open| < size && forall i :: 0 <= i < |lane.full| ==> |lane.full[i]| == size
  }

  // ---------- stages ----------

  /** A stage: its three lanes, the windows it holds, and the windows its estimate retains. */
  datatype Stage = Stage(lanes: seq<Lane<Value>>, pending: set<nat>, history: seq<seq<Value>>)

  const Fresh := Stage([NoLane(), NoLane(), NoLane()], {}, [])

  type Outcome = (Stage, Result<seq<Message<Value>>, Error>)

  function Size(role: Role, b: Bench): nat {
    if role.Estimate? then 2 * b.points else b.points
  }

  ghost predicate StageOk(st: Stage, role: Role, b: Bench) {
    |st.lanes| == 3 && forall s :: 0 <= s < 3 ==> LaneOk(st.lanes[s], Size(role, b))
  }

  /** Windows below this are finished and gone. */
  function Done(st: Stage, role: Role, lane: nat): nat
    requires |st.lanes| == 3 && lane < 3
  {
    match role
    case Branch => |st.lanes[lane].full|
    case Merge => Min(|st.lanes[0].full|, |st.lanes[1].full|)
    case Estimate => |st.lanes[2].full|
  }

  function Quantile(b: Bench, values: seq<Value>, q: nat): Value
    requires b.Valid() && values != []
  {
    values[b.rank(|values|, q)]
  }

  /** The retained windows after one more: the last `rolling`. */
  function Retain(b: Bench, history: seq<seq<Value>>, values: seq<Value>): (r: seq<seq<Value>>)
    ensures b.rolling > 1 ==> r != []
  {
    if b.rolling <= 1 then history
    else
      var all := history + [values];
      if |all| > b.rolling then all[1..] else all
  }

  /** All retained values, sorted; nothing unless rolling is on. */
  function RollingValues(b: Bench, history: seq<seq<Value>>): Option<seq<Value>> {
    if b.rolling <= 1 then None else Some(Sort(Concat(history), Leq))
  }

  function AnswerPoints(b: Bench, w: nat, kind: Kind, values: seq<Value>): Message<Value>
    requires b.Valid() && values != []
  {
    var meta := Meta(w, 2, 0);
    [Point(meta, Quantile(b, values, 0), Some(Answer(kind, 0))), Point(meta, Quantile(b, values, 1), Some(Answer(kind, 1)))]
  }

  /** The estimate's message: two tumbling quantiles, and two rolling ones if rolling is on. */
  function AnswerMessage(b: Bench, w: nat, values: seq<Value>, rolling: Option<seq<Value>>): Message<Value>
    requires b.Valid() && values != [] && (rolling.Some? ==> rolling.value != [])
  {
    AnswerPoints(b, w, Tumbling, values) + if rolling.Some? then AnswerPoints(b, w, Rolling, rolling.value) else []
  }

  predicate Complete(st: Stage, role: Role, w: nat)
    requires |st.lanes| == 3
  {
    if role.Estimate? then w < |st.lanes[2].full| else w < |st.lanes[0].full| && w < |st.lanes[1].full|
  }

  /** What a merge or an estimate does with a message. */
  ghost function Processed(st: Stage, role: Role, b: Bench, msg: Message<Value>): (r: Outcome)
    requires b.Valid() && StageOk(st, role, b)
    ensures StageOk(r.0, role, b)
  {
    if msg == [] then (st, Err(EmptyBatch))
    else
      var m := msg[0].meta;
      if m.source > 2 || m.window != |st.lanes[m.source].full| then (st, Err(OutOfOrder))
      else if !SameMeta(msg) then (st, Err(MixedMeta))
      else if (role.Estimate? && m.source != 2) || (!role.Estimate? && m.source > 1) then (st, Err(WrongSource))
      else
        var held := st.(pending := st.pending + {m.window});
        if !Continues(st.lanes[m.source], m.offset) then (held, Err(MissingBatch))
        else if |st.lanes[m.source].open| + |msg| > Size(role, b) then (held, Err(WindowOverflow))
        else Advanced(held.(lanes := st.lanes[m.source := Took(st.lanes[m.source], Values(msg), Size(role, b))]), role, b, m.window)
  }

  /** After a batch has been taken in: emit its window if it is complete. */
  ghost function Advanced(st: Stage, role: Role, b: Bench, w: nat): (r: Outcome)
    requires b.Valid() && StageOk(st, role, b)
    ensures StageOk(r.0, role, b)
  {
    if !Complete(st, role, w) then
      (st, if |st.pending| > MAX_PENDING then Err(PendingBound) else Ok([]))
    else
      var closed := st.(pending := st.pending - {w});
      if role.Estimate? then Estimated(closed, b, w)
      else (closed, Ok(Chunked(Merged(st.lanes[0].full[w], st.lanes[1].full[w], Leq), b.batch, w, 2, 0)))
  }

  ghost function Estimated(st: Stage, b: Bench, w: nat): Outcome
    requires b.Valid() && StageOk(st, Estimate, b) && w < |st.lanes[2].full|
  {
    var values := st.lanes[2].full[w];
    var history := Retain(b, st.history, values);
    NonEmptyRolling(b, st.history, values);
    (st.(history := history), Ok([AnswerMessage(b, w, values, RollingValues(b, history))]))
  }

  lemma {:induction false} ConcatNonEmpty<T>(ss: seq<seq<T>>)
    requires ss != [] && ss[|ss| - 1] != []
    ensures Concat(ss) != []
  {
  }

  lemma {:induction false} NonEmptyRolling(b: Bench, history: seq<seq<Value>>, values: seq<Value>)
    requires values != []
    ensures RollingValues(b, Retain(b, history, values)).Some? ==> RollingValues(b, Retain(b, history, values)).value != []
  {
    if b.rolling > 1 {
      var r := Retain(b, history, values);
      assert r[|r| - 1] == values;
      ConcatNonEmpty(r);
      LeqIsTotal();
      SortSorts(Concat(r), Leq);
    }
  }

  lemma {:induction false} LeqIsTotal()
    ensures TotalOrder(Leq)
  {
  }

  /** What a branch does with a normalized batch. */
  ghost function BranchTaken(st: Stage, b: Bench, n: NormalizedBatch): (r: Outcome)
    requires b.Valid() && StageOk(st, Branch, b)
    ensures StageOk(r.0, Branch, b)
  {
    var m := n.meta;
    if m.source > 1 then (st, Err(WrongSource))
    else if m.window != |st.lanes[m.source].full| then (st, Err(OutOfOrder))
    else
      var held := st.(pending := st.pending + {m.window});
      if !Continues(st.lanes[m.source], m.offset) then (held, Err(MissingBatch))
      else if |st.lanes[m.source].open| + n.count > b.points then (held, Err(WindowOverflow))
      else
        var lane := Took(st.lanes[m.source], Generated(b, n.firstIndex, n.count), b.points);
        var took := held.(lanes := st.lanes[m.source := lane]);
        if m.window == |lane.full| then (took, if |took.pending| > MAX_PENDING then Err(PendingBound) else Ok([]))
        else (took.(pending := took.pending - {m.window}),
              Ok(Chunked(Sort(lane.full[m.window], Leq), b.batch, m.window, m.source, 0)))
  }

  // ---------- the backend ----------

  function Kinds(b: Bench): seq<Kind> {
    if b.rolling > 1 then [Tumbling, Rolling] else [Tumbling]
  }

  /** The reference answer from one sorted window, which every window replays. */
  function Expected(b: Bench, sorted: seq<Value>, w: nat, kind: Kind, q: nat): Option<Value>
    requires b.Valid()
  {
    var copies := if kind.Tumbling? then 1 else Min(w + 1, b.rolling);
    if sorted == [] || copies == 0 then None
    else
      var at := b.rank(|sorted| * copies, q) / copies;
      if at < |sorted| then Some(sorted[at]) else None
  }

  function Matching(msg: Message<Value>, kind: Kind, q: nat): Message<Value> {
    if msg == [] then []
    else
      var p := msg[|msg| - 1];
      Matching(msg[..|msg| - 1], kind, q) + if p.answer == Some(Answer(kind, q)) then [p] else []
  }

  /** One answer is there exactly once, and equals the reference. */
  predicate RightAnswer(b: Bench, sorted: seq<Value>, msg: Message<Value>, w: nat, kind: Kind, q: nat)
    requires b.Valid()
  {
    var found := Matching(msg, kind, q);
    |found| == 1 && found[0].meta.window == w && found[0].meta.source == 2
    && Some(found[0].value) == Expected(b, sorted, w, kind, q)
  }

  ghost predicate Accepts(b: Bench, sorted: seq<Value>, next: nat, msg: Message<Value>)
    requires b.Valid()
  {
    && msg != [] && msg[0].meta.window == next && msg[0].meta.source == 2 && |msg| == |Kinds(b)| * 2
    && forall k, q :: 0 <= k < |Kinds(b)| && 0 <= q < 2 ==> RightAnswer(b, sorted, msg, next, Kinds(b)[k], q)
  }
}
