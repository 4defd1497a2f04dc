/** The keyed top-k stages, as functions of what each lane has received. */
module TopKStages {
  import opened Basics
  import opened BenchNormalizer
  import opened BenchStreams
  import opened Rankings
  import opened Sorting
  import opened TopKCounts

  const TOP_K: nat := 10

  /** The settings, with the key of each index. */
  datatype TopBench = TopBench(points: nat, batch: nat, rolling: nat, key: nat -> Key) {
    ghost predicate Valid() {
      points > 0 && batch > 0
    }
  }

  predicate KeyLeq(a: Key, b: Key) {
    a <= b
  }

  lemma {:induction false} KeyLeqIsTotal()
    ensures TotalOrder(KeyLeq)
  {
  }

  /** The keys from an index on. */
  function KeysFrom(b: TopBench, first: nat, count: nat): (r: seq<Key>)
    ensures |r| == count
  {
    seq<Key>(count, i requires 0 <= i < count => b.key(first + i))
  }

  /** What a source sends for every window. */
  function Corpus(b: TopBench, source: nat): seq<Key> {
    KeysFrom(b, source * b.points + 1, b.points)
  }

  // ---------- a branch ----------

  /** A branch: all keys of its one source, and the windows it holds. */
  datatype BranchStage = BranchStage(lane: Lane<Key>, pending: set<nat>)

  type Outcome = Result<seq<Message<Keyed>>, Error>

  ghost predicate BranchOk(st: BranchStage, b: TopBench) {
    |st.lane.open| < b.points && forall i :: 0 <= i < |st.lane.full| ==> |st.lane.full[i]| == b.points
  }

  /** What a branch does with a batch; `listing` is the order in which a finished window's
      counts go out. */
  ghost function BranchTaken(st: BranchStage, b: TopBench, n: NormalizedBatch, listing: seq<Keyed>): (r: (BranchStage, Outcome))
    requires b.Valid() && BranchOk(st, b)
    ensures BranchOk(r.0, b)
  {
    var m := n.meta;
    if m.source > 1 || m.window != |st.lane.full| then (st, Err(OutOfOrder))
    else
      var held := st.(pending := st.pending + {m.window});
      if !Continues(st.lane, m.offset) || m.offset + n.count > b.points then (held, Err(MissingBatch))
      else BranchCounted(held, b, KeysFrom(b, n.firstIndex, n.count), m.source, listing)
  }

  /** A batch of keys is counted; a window that this finishes goes out. */
  ghost function BranchCounted(st: BranchStage, b: TopBench, keys: seq<Key>, source: nat, listing: seq<Keyed>): (r: (BranchStage, Outcome))
    requires b.Valid() && BranchOk(st, b) && |st.lane.open| + |keys| <= b.points
    ensures BranchOk(r.0, b)
  {
    var w, took := |st.lane.full|, st.(lane := Took(st.lane, keys, b.points));
    if w == |took.lane.full| then (took, if |took.pending| > MAX_PENDING then Err(PendingBound) else Ok([]))
    else (took.(pending := took.pending - {w}), Ok(Chunked(listing, b.batch, w, source, 0)))
  }

  // ---------- the merge and the estimate ----------

  /** A merge or an estimate: the entries of its lanes, how many entries each lane's open
      window has, the windows held, and the counts retained. */
  datatype TopStage = TopStage(lanes: seq<Lane<Keyed>>, totals: seq<Option<nat>>, pending: set<nat>, history: seq<Counts>)

  const FreshTop := TopStage([NoLane(), NoLane(), NoLane()], [None, None, None], {}, [])

  ghost predicate OpenOk(lane: Lane<Keyed>, total: Option<nat>) {
    match total
    case None => lane.open == []
    case Some(t) => |lane.open| < t
  }

  ghost predicate TopOk(st: TopStage) {
    |st.lanes| == |st.totals| == 3 && forall s :: 0 <= s < 3 ==> OpenOk(st.lanes[s], st.totals[s])
  }

  /** The counts of one window, over all lanes. */
  function WindowCounts(lanes: seq<Lane<Keyed>>, w: nat): Counts
    requires |lanes| == 3
  {
    TallyOf(Part(lanes[0], w) + Part(lanes[1], w) + Part(lanes[2], w))
  }

  predicate Complete(st: TopStage, role: Role, w: nat)
    requires |st.lanes| == 3
  {
    if role.Estimate? then w < |st.lanes[2].full| else w < |st.lanes[0].full| && w < |st.lanes[1].full|
  }

  /** Windows below this are finished and gone. */
  function Done(st: TopStage, role: Role): nat
    requires |st.lanes| == 3
  {
    if role.Estimate? then |st.lanes[2].full| else Min(|st.lanes[0].full|, |st.lanes[1].full|)
  }

  lemma {:induction false} TopExists(counts: Counts)
    ensures exists top: seq<Ranked<Key>> :: IsTop(top, counts, TOP_K, KeyLeq)
  {
    var listing := ListingExists(counts);
    KeyLeqIsTotal();
    SortRanks(listing, counts, KeyLeq);
    assert IsTop(Take(Sort(listing, ByCount(KeyLeq)), TOP_K), counts, TOP_K, KeyLeq);
  }

  lemma {:induction false} ListingExists(counts: Counts) returns (listing: seq<Ranked<Key>>)
    ensures Lists(listing, counts)
    decreases |counts|
  {
    if counts == map[] {
      listing := [];
    } else {
      var k :| k in counts;
      SmallerMap(counts, k);
      var rest := ListingExists(counts - {k});
      listing := rest + [Ranked(k, counts[k])];
      forall j | j in counts
        ensures Ranked(j, counts[j]) in listing
      {
        if j == k {
          assert listing[|rest|] == Ranked(k, counts[k]);
        } else {
          assert (counts - {k})[j] == counts[j];
          assert Ranked(j, counts[j]) in rest;
        }
      }
    }
  }

  /** The top ten of some counts. */
  ghost function Top(counts: Counts): (top: seq<Ranked<Key>>)
    ensures IsTop(top, counts, TOP_K, KeyLeq)
  {
    TopExists(counts);
    var top: seq<Ranked<Key>> :| IsTop(top, counts, TOP_K, KeyLeq);
    top
  }

  /** One answer point a rank. */
  function RankPoints(w: nat, kind: Kind, top: seq<Ranked<Key>>): (r: Message<Keyed>)
    ensures |r| == |top|
  {
    seq(|top|, i requires 0 <= i < |top| => Point(Meta(w, 2, 0), Keyed(top[i].key, top[i].count, 0), Some(Answer(kind, i + 1))))
  }

  function TopPoints(w: nat, tumbling: seq<Ranked<Key>>, rolling: Option<seq<Ranked<Key>>>): Message<Keyed> {
    RankPoints(w, Tumbling, tumbling) + if rolling.Some? then RankPoints(w, Rolling, rolling.value) else []
  }

  /** The retained counts after one more window: the last `rolling`. */
  function Retain(b: TopBench, history: seq<Counts>, counts: Counts): seq<Counts> {
    if b.rolling <= 1 then history
    else
      var all := history + [counts];
      if |all| > b.rolling then all[1..] else all
  }

  ghost function TopMessage(b: TopBench, w: nat, counts: Counts, history: seq<Counts>): Message<Keyed> {
    TopPoints(w, Top(counts), if b.rolling <= 1 then None else Some(Top(PlusAll(history))))
  }

  /** What a merge or an estimate does with a message of count entries. */
  ghost function Processed(st: TopStage, role: Role, b: TopBench, msg: Message<Keyed>, listing: seq<Keyed>): (TopStage, Outcome)
    requires b.Valid() && TopOk(st)
  {
    if msg == [] then (st, Err(EmptyBatch))
    else
      var m := msg[0].meta;
      if (role.Estimate? && m.source != 2) || (!role.Estimate? && m.source > 1) then (st, Err(WrongSource))
      else if m.window != |st.lanes[m.source].full| then (st, Err(OutOfOrder))
      else
        var held := st.(pending := st.pending + {m.window});
        var lane, total := st.lanes[m.source], msg[0].value.total;
        if !Continues(lane, m.offset) then (held, Err(MissingBatch))
        else if !Expected(st.totals[m.source], total) || |lane.open| + |msg| > total then (held, Err(WindowOverflow))
        else Advanced(TookEntries(held, m.source, Values(msg), total), role, b, m.window, listing)
  }

  /** The first batch of a window says how many entries it has; the others must agree. */
  predicate Expected(known: Option<nat>, total: nat) {
    known.None? || known.value == total
  }

  ghost function TookEntries(st: TopStage, s: nat, entries: seq<Keyed>, total: nat): (r: TopStage)
    requires TopOk(st) && s < 3 && |st.lanes[s].open| + |entries| <= total
    ensures TopOk(r)
  {
    var lane := Took(st.lanes[s], entries, total);
    st.(lanes := st.lanes[s := lane], totals := st.totals[s := if |st.lanes[s].open| + |entries| == total then None else Some(total)])
  }

  /** After a batch has been taken in: emit its window if it is complete. */
  ghost function Advanced(st: TopStage, role: Role, b: TopBench, w: nat, listing: seq<Keyed>): (TopStage, Outcome)
    requires b.Valid() && TopOk(st)
  {
    if !Complete(st, role, w) then
      (st, if |st.pending| > MAX_PENDING then Err(PendingBound) else Ok([]))
    else
      var closed := st.(pending := st.pending - {w});
      if role.Estimate? then
        var history := Retain(b, st.history, WindowCounts(st.lanes, w));
        (closed.(history := history), Ok([TopMessage(b, w, WindowCounts(st.lanes, w), history)]))
      else
        (closed, Ok(Chunked(listing, b.batch, w, 2, 0)))
  }

  // ---------- the backend ----------

  function Kinds(b: TopBench): seq<Kind> {
    if b.rolling > 1 then [Tumbling, Rolling] else [Tumbling]
  }

  function Copies(b: TopBench, w: nat, kind: Kind): nat {
    if kind.Tumbling? then 1 else Min(w + 1, b.rolling)
  }

  datatype RankedEntry = RankedEntry(rank: nat, entry: Ranked<Key>)

  predicate ByRank(a: RankedEntry, b: RankedEntry) {
    a.rank <= b.rank
  }

  /** The answers of one kind, as they come. */
  function OfKind(msg: Message<Keyed>, kind: Kind): seq<RankedEntry> {
    if msg == [] then []
    else
      var p := msg[|msg| - 1];
      OfKind(msg[..|msg| - 1], kind) +
      if p.answer.Some? && p.answer.value.kind == kind then [RankedEntry(p.answer.value.slot, Ranked(p.value.key, p.value.count))] else []
  }

  function Entries(ranked: seq<RankedEntry>): (r: seq<Ranked<Key>>)
    ensures |r| == |ranked|
  {
    seq(|ranked|, i requires 0 <= i < |ranked| => ranked[i].entry)
  }

  /** One kind's answer: ten entries that are the reference's, scaled. */
  predicate RightAnswer(b: TopBench, reference: seq<Ranked<Key>>, msg: Message<Keyed>, w: nat, kind: Kind) {
    var answer := Entries(Sort(OfKind(msg, kind), ByRank));
    |answer| == TOP_K && answer == ScaledRanks(reference, Copies(b, w, kind))
  }

  ghost predicate Accepts(b: TopBench, reference: seq<Ranked<Key>>, next: nat, msg: Message<Keyed>) {
    && msg != [] && msg[0].meta.window == next && msg[0].meta.source == 2 && |msg| == |Kinds(b)| * TOP_K
    && forall k :: 0 <= k < |Kinds(b)| ==> RightAnswer(b, reference, msg, next, Kinds(b)[k])
  }
}
