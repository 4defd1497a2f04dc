/** The emitted envelopes, field by field. */
module MergedEnvelopes {
  import opened Basics
  import opened Envelopes
  import opened WindowProtocol
  import opened Confluence
  import opened WindowMerge

  /** What the sources send: each a list of messages, each a list of observations. */
  type Wires = seq<seq<seq<Option<WindowMerge.Envelope>>>>

  /** Two envelopes of one series and window: equal metrics, types, aggregations and bounds, and
      the same labels on each side, in any order. */
  ghost predicate Alike(d: WindowMerge.Envelope, e: WindowMerge.Envelope) {
    && d.metricName == e.metricName && d.sketchType == e.sketchType && d.aggId == e.aggId
    && d.windowStartMs == e.windowStartMs && d.windowEndMs == e.windowEndMs
    && multiset(d.resourceLabels) == multiset(e.resourceLabels) && multiset(d.labels) == multiset(e.labels)
  }

  /** A sketch that decodes as its type. */
  ghost predicate Decodable(e: WindowMerge.Envelope) {
    && e.payload.Snapshot? && e.payload.kind == e.sketchType
    && !e.sketchType.Unspecified? && !e.sketchType.Exact?
  }

  /** The decodable sketches of a message. */
  ghost function SketchesOf(message: seq<Option<WindowMerge.Envelope>>): seq<WindowMerge.Envelope> {
    if message == [] then []
    else
      var last := message[|message| - 1];
      SketchesOf(message[..|message| - 1]) + if last.Some? && Decodable(last.value) then [last.value] else []
  }

  ghost function SketchesIn(messages: seq<seq<Option<WindowMerge.Envelope>>>): seq<WindowMerge.Envelope> {
    if messages == [] then [] else SketchesIn(messages[..|messages| - 1]) + SketchesOf(messages[|messages| - 1])
  }

  /** All decodable sketches of all sources. */
  ghost function Sketches(wires: Wires): seq<WindowMerge.Envelope> {
    if wires == [] then [] else Sketches(wires[..|wires| - 1]) + SketchesIn(wires[|wires| - 1])
  }

  /** The samples, and the counts, of the sketches alike `e`. */
  ghost function SamplesAlike(sketches: seq<WindowMerge.Envelope>, e: WindowMerge.Envelope): multiset<Sample> {
    if sketches == [] then multiset{}
    else
      var last := sketches[|sketches| - 1];
      SamplesAlike(sketches[..|sketches| - 1], e) + if Alike(last, e) && last.payload.Snapshot? then last.payload.items else multiset{}
  }

  ghost function CountAlike(sketches: seq<WindowMerge.Envelope>, e: WindowMerge.Envelope): nat {
    if sketches == [] then 0
    else
      var last := sketches[|sketches| - 1];
      CountAlike(sketches[..|sketches| - 1], e) + if Alike(last, e) then last.count else 0
  }

  /** What the merger receives. */
  ghost function ReceivedFrom(messages: seq<seq<Option<WindowMerge.Envelope>>>): seq<Message<SeriesKey, Contribution>> {
    seq(|messages|, n requires 0 <= n < |messages| => Arrivals(messages[n]))
  }

  ghost function Received(wires: Wires): seq<seq<Message<SeriesKey, Contribution>>> {
    seq(|wires|, n requires 0 <= n < |wires| => ReceivedFrom(wires[n]))
  }

  // ---------- the arrivals of a series are the sketches alike ----------

  /** Equal keys and ends are equal fields. */
  lemma {:induction false} AlikeWhen(d: WindowMerge.Envelope, e: WindowMerge.Envelope)
    ensures Alike(d, e) <==> d.windowEndMs == e.windowEndMs && KeyOf(d) == KeyOf(e)
  {
  }

  lemma {:induction false} DecodesWhen(e: WindowMerge.Envelope)
    ensures Decodable(e) <==> e.payload != Empty && DecodeSnapshot(e.sketchType, e.payload).Some?
    ensures Decodable(e) ==> ContributionOf(e) == Contribution(e, e.payload.items, e.count)
  {
  }

  /** The contributions of the sketches for one window and key. */
  ghost function Chosen(sketches: seq<WindowMerge.Envelope>, end: u64, k: SeriesKey): seq<Contribution> {
    if sketches == [] then []
    else
      var last := sketches[|sketches| - 1];
      Chosen(sketches[..|sketches| - 1], end, k)
      + if last.windowEndMs == end && KeyOf(last) == k then [ContributionOf(last)] else []
  }

  lemma {:induction false} ChosenConcat(a: seq<WindowMerge.Envelope>, b: seq<WindowMerge.Envelope>, end: u64, k: SeriesKey)
    ensures Chosen(a + b, end, k) == Chosen(a, end, k) + Chosen(b, end, k)
    decreases |b|
  {
    hide KeyOf, ContributionOf;
    if b == [] {
      assert a + b == a;
    } else {
      ChosenConcat(a, b[..|b| - 1], end, k);
      assert (a + b)[..|a + b| - 1] == a + b[..|b| - 1];
    }
  }

  lemma {:induction false} ChosenOne(e: WindowMerge.Envelope, end: u64, k: SeriesKey)
    ensures Chosen([e], end, k) == if e.windowEndMs == end && KeyOf(e) == k then [ContributionOf(e)] else []
  {
    hide KeyOf, ContributionOf;
    assert [e][..0] == [];
    assert Chosen([e][..0], end, k) == [];
  }

  lemma {:induction false} AcceptedOne(a: Arrival<SeriesKey, Contribution>, end: u64, k: SeriesKey)
    ensures Accepted([a], end, k) == if a.end == end && a.key == k && a.ok then [a.body] else []
  {
    assert [a][..0] == [];
    assert Accepted([a][..0], end, k) == [];
  }

  lemma {:induction false} MessageChosen(message: seq<Option<WindowMerge.Envelope>>, end: u64, k: SeriesKey)
    ensures Accepted(Arrivals(message), end, k) == Chosen(SketchesOf(message), end, k)
    decreases |message|
  {
    hide KeyOf, ContributionOf, Accepted, Chosen, DecodeSnapshot, Decodable;
    if message == [] {
      NothingChosen(end, k);
    } else {
      var init, last := message[..|message| - 1], message[|message| - 1];
      MessageChosen(init, end, k);
      if last.Some? {
        OneMoreChosen(init, last.value, end, k);
      } else {
        assert Arrivals(init) + [] == Arrivals(init) && SketchesOf(init) + [] == SketchesOf(init);
      }
    }
  }

  lemma {:induction false} NothingChosen(end: u64, k: SeriesKey)
    ensures Accepted<SeriesKey, Contribution>([], end, k) == Chosen([], end, k) == []
  {
  }

  lemma {:induction false} OneMoreChosen(init: seq<Option<WindowMerge.Envelope>>, e: WindowMerge.Envelope, end: u64, k: SeriesKey)
    requires Accepted(Arrivals(init), end, k) == Chosen(SketchesOf(init), end, k)
    ensures Accepted(Arrivals(init) + (if e.payload != Empty then [WindowMerge.ArrivalOf(e)] else []), end, k)
         == Chosen(SketchesOf(init) + (if Decodable(e) then [e] else []), end, k)
  {
    hide KeyOf, ContributionOf, Accepted, Chosen, DecodeSnapshot, Decodable, Arrivals, SketchesOf;
    DecodesWhen(e);
    if e.payload != Empty {
      AcceptedConcat(Arrivals(init), [WindowMerge.ArrivalOf(e)], end, k);
      AcceptedOne(WindowMerge.ArrivalOf(e), end, k);
    } else {
      assert Arrivals(init) + [] == Arrivals(init);
    }
    if Decodable(e) {
      ChosenConcat(SketchesOf(init), [e], end, k);
      ChosenOne(e, end, k);
    } else {
      assert SketchesOf(init) + [] == SketchesOf(init);
    }
  }

  lemma {:induction false} MessagesChosen(messages: seq<seq<Option<WindowMerge.Envelope>>>, end: u64, k: SeriesKey)
    ensures Accepted(Flatten(ReceivedFrom(messages)), end, k) == Chosen(SketchesIn(messages), end, k)
    decreases |messages|
  {
    hide Arrivals, SketchesOf, Accepted, Chosen, KeyOf;
    if messages == [] {
      NothingChosen(end, k);
    } else {
      var init, last := messages[..|messages| - 1], messages[|messages| - 1];
      MessagesChosen(init, end, k);
      MessageChosen(last, end, k);
      assert ReceivedFrom(messages)[..|init|] == ReceivedFrom(init);
      AcceptedConcat(Flatten(ReceivedFrom(init)), Arrivals(last), end, k);
      ChosenConcat(SketchesIn(init), SketchesOf(last), end, k);
    }
  }

  /** What the sources send for a window and key are the sketches of that window and key. */
  lemma {:induction false} AllChosen(wires: Wires, end: u64, k: SeriesKey)
    ensures Accepted(AllSent(Received(wires)), end, k) == Chosen(Sketches(wires), end, k)
    decreases |wires|
  {
    hide ReceivedFrom, Flatten, SketchesIn, Accepted, Chosen, KeyOf;
    if wires == [] {
      NothingChosen(end, k);
    } else {
      var init, last := wires[..|wires| - 1], wires[|wires| - 1];
      AllChosen(init, end, k);
      MessagesChosen(last, end, k);
      assert Received(wires)[..|init|] == Received(init);
      AcceptedConcat(AllSent(Received(init)), Flatten(ReceivedFrom(last)), end, k);
      ChosenConcat(Sketches(init), SketchesIn(last), end, k);
    }
  }

  ghost predicate AllDecodable(sketches: seq<WindowMerge.Envelope>) {
    forall i :: 0 <= i < |sketches| ==> Decodable(sketches[i])
  }

  lemma {:induction false} MessageDecodable(message: seq<Option<WindowMerge.Envelope>>)
    ensures AllDecodable(SketchesOf(message))
    decreases |message|
  {
    hide Decodable;
    if message != [] {
      MessageDecodable(message[..|message| - 1]);
    }
  }

  lemma {:induction false} MessagesDecodable(messages: seq<seq<Option<WindowMerge.Envelope>>>)
    ensures AllDecodable(SketchesIn(messages))
    decreases |messages|
  {
    hide Decodable, SketchesOf;
    if messages != [] {
      MessagesDecodable(messages[..|messages| - 1]);
      MessageDecodable(messages[|messages| - 1]);
    }
  }

  lemma {:induction false} SketchesDecodable(wires: Wires)
    ensures AllDecodable(Sketches(wires))
    decreases |wires|
  {
    hide Decodable, SketchesIn;
    if wires != [] {
      SketchesDecodable(wires[..|wires| - 1]);
      MessagesDecodable(wires[|wires| - 1]);
    }
  }

  /** The fold of the contributions is that of the sketches alike. */
  lemma {:induction false} ChosenFolds(sketches: seq<WindowMerge.Envelope>, e: WindowMerge.Envelope)
    requires AllDecodable(sketches)
    ensures MergedItems(Chosen(sketches, e.windowEndMs, KeyOf(e))) == SamplesAlike(sketches, e)
    ensures MergedCount(Chosen(sketches, e.windowEndMs, KeyOf(e))) == CountAlike(sketches, e)
    decreases |sketches|
  {
    hide MergedItems, MergedCount, KeyOf, ContributionOf, Decodable, Alike;
    if sketches == [] {
      NothingMerged();
    } else {
      var init, last := sketches[..|sketches| - 1], sketches[|sketches| - 1];
      ChosenFolds(init, e);
      AlikeWhen(last, e);
      assert Decodable(last);
      DecodesWhen(last);
      assert Decodable(last) ==> last.payload.Snapshot? by { IsSnapshot(last); }
      var list := Chosen(init, e.windowEndMs, KeyOf(e));
      MergedPush(list, ContributionOf(last));
      assert list + [] == list;
    }
  }

  lemma {:induction false} IsSnapshot(e: WindowMerge.Envelope)
    requires Decodable(e)
    ensures e.payload.Snapshot?
  {
  }

  lemma {:induction false} ChosenComesFrom(sketches: seq<WindowMerge.Envelope>, end: u64, k: SeriesKey, n: nat) returns (i: nat)
    requires n < |Chosen(sketches, end, k)|
    ensures i < |sketches| && Chosen(sketches, end, k)[n] == ContributionOf(sketches[i]) && sketches[i].windowEndMs == end && KeyOf(sketches[i]) == k
    decreases |sketches|
  {
    hide KeyOf, ContributionOf;
    var init := sketches[..|sketches| - 1];
    if n < |Chosen(init, end, k)| {
      i := ChosenComesFrom(init, end, k, n);
    } else {
      i := |sketches| - 1;
    }
  }

  lemma {:induction false} ChosenThere(sketches: seq<WindowMerge.Envelope>, i: nat)
    requires i < |sketches|
    ensures Chosen(sketches, sketches[i].windowEndMs, KeyOf(sketches[i])) != []
    decreases |sketches|
  {
    hide KeyOf, ContributionOf;
    if i < |sketches| - 1 {
      ChosenThere(sketches[..|sketches| - 1], i);
    }
  }

  // ---------- the emitted envelopes ----------

  /** An emitted envelope is a sent sketch with the samples and the count of all sent sketches
      alike it, and nothing else. */
  ghost predicate MergesAlike(o: WindowMerge.Envelope, sketches: seq<WindowMerge.Envelope>) {
    exists i :: 0 <= i < |sketches| && Alike(sketches[i], o)
      && o == Stamped(sketches[i], SamplesAlike(sketches, o), CountAlike(sketches, o))
  }

  ghost predicate AllMergeAlike(out: seq<MergedWindow>, sketches: seq<WindowMerge.Envelope>) {
    forall i, k :: 0 <= i < |out| && k in out[i].series ==> MergesAlike(out[i].series[k], sketches)
  }

  ghost predicate EmittedIn(out: seq<MergedWindow>, d: WindowMerge.Envelope) {
    exists i, k :: 0 <= i < |out| && k in out[i].series && Alike(d, out[i].series[k])
  }

  ghost predicate AllEmitted(out: seq<MergedWindow>, sketches: seq<WindowMerge.Envelope>) {
    forall d :: d in sketches && d.windowEndMs < U64_MAX ==> EmittedIn(out, d)
  }

  ghost predicate NoTwoAlike(out: seq<MergedWindow>) {
    forall i, k, j, l :: 0 <= i < |out| && k in out[i].series && 0 <= j < |out| && l in out[j].series ==>
      Alike(out[i].series[k], out[j].series[l]) ==> i == j && k == l
  }

  lemma {:induction false} CarriedIsMerged(o: WindowMerge.Envelope, sketches: seq<WindowMerge.Envelope>, k: SeriesKey, end: u64)
    requires AllDecodable(sketches) && Carries(o, Chosen(sketches, end, k), k, end)
    ensures MergesAlike(o, sketches)
  {
    hide KeyOf, Chosen, MergedItems, MergedCount, Alike, SamplesAlike, CountAlike, Decodable;
    var list := Chosen(sketches, end, k);
    ChosenFolds(sketches, o);
    var n :| 0 <= n < |list| && o == Stamped(list[n].envelope, MergedItems(list), MergedCount(list));
    var i := ChosenComesFrom(sketches, end, k, n);
    AlikeWhen(sketches[i], o);
  }

  /** When every source sends its windows in order and all messages are delivered, then however they
      interleave, each emitted envelope is a sent one with the samples and the count of exactly
      those sent alike; every decodable sketch that was sent is in one; and no two emitted ones
      are alike. */
  lemma {:induction false} EmittedAlike(wires: Wires, steps: seq<Step>, threshold: nat, out: seq<MergedWindow>)
    requires AllInOrder(Received(wires)) && Finishes(Received(wires), steps, true)
    requires AllEmit(out, Due(After(Received(wires), steps, true).value.merger, U64_MAX, threshold).emitted)
    ensures AllMergeAlike(out, Sketches(wires)) && AllEmitted(out, Sketches(wires)) && NoTwoAlike(out)
  {
    hide *;
    var m := Merged(wires, steps, threshold);
    EmitsAll(m, out);
    MergedExactly(m, out, AllSent(Received(wires)));
    SketchesDecodable(wires);
    Emitted(wires, out);
    Covered(wires, out);
    KeptApart(wires, out);
  }

  lemma {:induction false} Merged(wires: Wires, steps: seq<Step>, threshold: nat) returns (m: Merger<SeriesKey, Contribution>)
    requires AllInOrder(Received(wires)) && Finishes(Received(wires), steps, true)
    ensures After(Received(wires), steps, true).Some? && m == Due(After(Received(wires), steps, true).value.merger, U64_MAX, threshold)
    ensures EmitsExactly(m, AllSent(Received(wires)), U64_MAX)
  {
    hide After, Due, EmitsExactly, AllInOrder, Received;
    m := Due(After(Received(wires), steps, true).value.merger, U64_MAX, threshold);
    Confluence.Confluence(Received(wires), steps, true, U64_MAX, threshold);
  }

  lemma {:induction false} EmitsAll(m: Merger<SeriesKey, Contribution>, out: seq<MergedWindow>)
    requires AllEmit(out, m.emitted)
    ensures |out| == |m.emitted| && forall i :: 0 <= i < |out| ==> Emits(out[i], m.emitted[i])
  {
    hide Emits;
  }

  lemma {:induction false} Emitted(wires: Wires, out: seq<MergedWindow>)
    requires AllDecodable(Sketches(wires))
    requires forall i, k :: 0 <= i < |out| && k in out[i].series ==>
      Carries(out[i].series[k], Accepted(AllSent(Received(wires)), out[i].end, k), k, out[i].end)
    ensures AllMergeAlike(out, Sketches(wires))
  {
    hide Carries, MergesAlike, Accepted, AllSent, Received, Sketches;
    forall i, k | 0 <= i < |out| && k in out[i].series
      ensures MergesAlike(out[i].series[k], Sketches(wires))
    {
      AllChosen(wires, out[i].end, k);
      CarriedIsMerged(out[i].series[k], Sketches(wires), k, out[i].end);
    }
  }

  lemma {:induction false} CarriesKey(o: WindowMerge.Envelope, list: seq<Contribution>, k: SeriesKey, end: u64)
    requires Carries(o, list, k, end)
    ensures KeyOf(o) == k && o.windowEndMs == end
  {
  }

  lemma {:induction false} Covered(wires: Wires, out: seq<MergedWindow>)
    requires forall i, k :: 0 <= i < |out| && k in out[i].series ==>
      Carries(out[i].series[k], Accepted(AllSent(Received(wires)), out[i].end, k), k, out[i].end)
    requires forall e: u64, k: SeriesKey :: e < U64_MAX && Accepted(AllSent(Received(wires)), e, k) != [] ==>
      exists i :: 0 <= i < |out| && out[i].end == e && k in out[i].series
    ensures AllEmitted(out, Sketches(wires))
  {
    hide Carries, Accepted, AllSent, Received, Sketches, Alike, KeyOf, Chosen;
    forall d | d in Sketches(wires) && d.windowEndMs < U64_MAX
      ensures EmittedIn(out, d)
    {
      var n :| 0 <= n < |Sketches(wires)| && Sketches(wires)[n] == d;
      ChosenThere(Sketches(wires), n);
      AllChosen(wires, d.windowEndMs, KeyOf(d));
      var i :| 0 <= i < |out| && out[i].end == d.windowEndMs && KeyOf(d) in out[i].series;
      CarriesKey(out[i].series[KeyOf(d)], Accepted(AllSent(Received(wires)), out[i].end, KeyOf(d)), KeyOf(d), out[i].end);
      AlikeWhen(d, out[i].series[KeyOf(d)]);
    }
  }

  lemma {:induction false} KeptApart(wires: Wires, out: seq<MergedWindow>)
    requires forall i, j :: 0 <= i < j < |out| ==> out[i].end < out[j].end
    requires forall i, k :: 0 <= i < |out| && k in out[i].series ==>
      Carries(out[i].series[k], Accepted(AllSent(Received(wires)), out[i].end, k), k, out[i].end)
    ensures NoTwoAlike(out)
  {
    hide Carries, Accepted, AllSent, Received, Alike, KeyOf;
    forall i, k, j, l | 0 <= i < |out| && k in out[i].series && 0 <= j < |out| && l in out[j].series && Alike(out[i].series[k], out[j].series[l])
      ensures i == j && k == l
    {
      CarriesKey(out[i].series[k], Accepted(AllSent(Received(wires)), out[i].end, k), k, out[i].end);
      CarriesKey(out[j].series[l], Accepted(AllSent(Received(wires)), out[j].end, l), l, out[j].end);
      AlikeWhen(out[i].series[k], out[j].series[l]);
    }
  }

  // ---------- what passes through ----------

  ghost predicate Blank(o: Option<WindowMerge.Envelope>) {
    o.Some? && o.value.payload.Empty?
  }

  ghost predicate PassedRight(out: seq<WindowMerge.Envelope>, message: seq<Option<WindowMerge.Envelope>>, at: seq<nat>) {
    |at| == |out| && forall i :: 0 <= i < |out| ==> at[i] < |message| && message[at[i]] == Some(out[i]) && Blank(message[at[i]])
  }

  ghost predicate Ascending(at: seq<nat>) {
    forall i, j :: 0 <= i < j < |at| ==> at[i] < at[j]
  }

  ghost predicate PassedAll(message: seq<Option<WindowMerge.Envelope>>, at: seq<nat>) {
    forall n :: 0 <= n < |message| && Blank(message[n]) ==> n in at
  }

  /** The envelopes without payload pass through, each as often as it came and in the order they came;
      `at` says where each stood. */
  lemma {:induction false} PassedInOrder(message: seq<Option<WindowMerge.Envelope>>) returns (at: seq<nat>)
    ensures PassedRight(Passthrough(message), message, at) && Ascending(at) && PassedAll(message, at)
    decreases |message|
  {
    if message == [] {
      at := [];
    } else {
      var n := |message| - 1;
      var init := message[..n];
      var before := PassedInOrder(init);
      at := if Blank(message[n]) then before + [n] else before;
      RightMore(Passthrough(init), message, before);
      AllMore(message, before);
    }
  }

  lemma {:induction false} RightMore(out: seq<WindowMerge.Envelope>, message: seq<Option<WindowMerge.Envelope>>, at: seq<nat>)
    requires message != [] && PassedRight(out, message[..|message| - 1], at) && Ascending(at)
    ensures PassedRight(out, message, at)
    ensures var n := |message| - 1;
      Blank(message[n]) ==> PassedRight(out + [message[n].value], message, at + [n]) && Ascending(at + [n])
  {
    assert forall i :: 0 <= i < |message| - 1 ==> message[..|message| - 1][i] == message[i];
  }

  lemma {:induction false} AllMore(message: seq<Option<WindowMerge.Envelope>>, at: seq<nat>)
    requires message != [] && PassedAll(message[..|message| - 1], at)
    ensures PassedAll(message, if Blank(message[|message| - 1]) then at + [|message| - 1] else at)
  {
    assert forall i :: 0 <= i < |message| - 1 ==> message[..|message| - 1][i] == message[i];
  }
}
