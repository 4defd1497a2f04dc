/** The window merger as a machine over its steps. */
module WindowProtocol {
  import opened Basics

  /** One envelope as the merger sees it: `ok` says whether its payload decodes. */
  datatype Arrival<K(==), P> = Arrival(end: u64, key: K, ok: bool, body: P)

  /** One emitted window. */
  datatype Closed<K(==), P> = Closed(end: u64, series: map<K, seq<P>>)

  /** An open window holds, per series, the contributions that arrived for it, in arrival
      order; what a merger keeps is a fold of that list. The machine also keeps what it
      emitted, what came too late and what could not be decoded. */
  datatype Merger<K(==), P> = Merger(
    open: map<u64, map<K, seq<P>>>,
    messages: map<u64, nat>,
    emittedUntil: u64,
    emitted: seq<Closed<K, P>>,
    late: seq<Arrival<K, P>>,
    rejected: seq<Arrival<K, P>>)

  ghost function Fresh<K, P>(): Merger<K, P> {
    Merger(map[], map[], 0, [], [], [])
  }

  /** What a window holds for one series. */
  ghost function Held<K, P>(series: map<K, seq<P>>, key: K): seq<P> {
    if key in series then series[key] else []
  }

  ghost function Window<K, P>(open: map<u64, map<K, seq<P>>>, end: u64): map<K, seq<P>> {
    if end in open then open[end] else map[]
  }

  ghost function Counted(messages: map<u64, nat>, end: u64): nat {
    if end in messages then messages[end] else 0
  }

  /** One envelope. `blank` says whether an undecodable envelope still opens its window,
      as it does in `window_merge` and does not in `exact_merge`. */
  ghost function Add<K, P>(m: Merger<K, P>, a: Arrival<K, P>, blank: bool): Merger<K, P> {
    if a.end <= m.emittedUntil then
      m.(late := m.late + [a])
    else
      var w := Window(m.open, a.end);
      if a.ok then
        m.(open := m.open[a.end := w[a.key := Held(w, a.key) + [a.body]]])
      else
        m.(rejected := m.rejected + [a], open := if blank then m.open[a.end := w] else m.open)
  }

  ghost function AddAll<K, P>(m: Merger<K, P>, msg: seq<Arrival<K, P>>, blank: bool): Merger<K, P> {
    if msg == [] then m else Add(AddAll(m, msg[..|msg| - 1], blank), msg[|msg| - 1], blank)
  }

  ghost function Ends<K, P>(msg: seq<Arrival<K, P>>): set<u64> {
    set a | a in msg :: a.end
  }

  /** One message carried the windows `ends`. */
  ghost function CountAll<K, P>(m: Merger<K, P>, ends: set<u64>): Merger<K, P> {
    m.(messages := map e | e in m.messages.Keys + (set x | x in ends && x > m.emittedUntil) ::
      Counted(m.messages, e) + if e in ends && e > m.emittedUntil then 1 else 0)
  }

  /** The windows that at least `sources` messages carried. */
  ghost function Complete(messages: map<u64, nat>, sources: nat): set<u64> {
    set e | e in messages && sources > 0 && messages[e] >= sources
  }

  ghost function Cutoff(messages: map<u64, nat>, timedOut: u64, sources: nat): (c: u64)
    ensures timedOut <= c
    ensures forall e :: e in Complete(messages, sources) ==> e <= c
    ensures c == timedOut || c in Complete(messages, sources)
  {
    Max(timedOut, MaxOf(Complete(messages, sources)))
  }

  /** The windows of `open` with an end in `ends`, by increasing end. */
  ghost function InOrder<K, P>(open: map<u64, map<K, seq<P>>>, ends: set<u64>): (r: seq<Closed<K, P>>)
    requires ends <= open.Keys
    decreases |ends|
  {
    if ends == {} then []
    else
      var last := MaxOf(ends);
      InOrder(open, ends - {last}) + [Closed(last, open[last])]
  }

  /** `r` lists windows of `open` with ends in `ends`, by increasing end. */
  ghost predicate Listing<K, P>(r: seq<Closed<K, P>>, open: map<u64, map<K, seq<P>>>, ends: set<u64>) {
    && (forall i :: 0 <= i < |r| ==> r[i].end in ends && r[i].end in open && r[i].series == open[r[i].end])
    && (forall i, j :: 0 <= i < j < |r| ==> r[i].end < r[j].end)
  }

  lemma {:induction false} InOrderIsSorted<K, P>(open: map<u64, map<K, seq<P>>>, ends: set<u64>)
    requires ends <= open.Keys
    ensures Listing(InOrder(open, ends), open, ends)
    decreases |ends|
  {
    if ends != {} {
      var last := MaxOf(ends);
      var rest := InOrder(open, ends - {last});
      InOrderIsSorted(open, ends - {last});
      var r := InOrder(open, ends);
      assert r == rest + [Closed(last, open[last])];
      forall i | 0 <= i < |rest|
        ensures r[i] == rest[i] && r[i].end in ends && r[i].end < last
      {
        assert rest[i].end in ends - {last};
      }
    }
  }

  lemma {:induction false} InOrderHasAll<K, P>(open: map<u64, map<K, seq<P>>>, ends: set<u64>, e: u64) returns (i: nat)
    requires ends <= open.Keys && e in ends
    ensures i < |InOrder(open, ends)| && InOrder(open, ends)[i] == Closed(e, open[e])
    decreases |ends|
  {
    var last := MaxOf(ends);
    if e == last {
      i := |InOrder(open, ends)| - 1;
    } else {
      i := InOrderHasAll(open, ends - {last}, e);
    }
  }

  ghost function Ready<K, P>(open: map<u64, map<K, seq<P>>>, cutoff: u64): set<u64> {
    set e | e in open && e < SatAdd(cutoff, 1)
  }

  /** Close and emit every window up to the cutoff. */
  ghost function Due<K, P>(m: Merger<K, P>, timedOut: u64, sources: nat): Merger<K, P> {
    var cutoff := Cutoff(m.messages, timedOut, sources);
    var ready := Ready(m.open, cutoff);
    m.(open := SplitOff(m.open, SatAdd(cutoff, 1)),
       messages := SplitOff(m.messages, SatAdd(cutoff, 1)),
       emittedUntil := Max(m.emittedUntil, MaxOf(ready)),
       emitted := m.emitted + InOrder(m.open, ready))
  }

  lemma {:induction false} AddAllPush<K, P>(m: Merger<K, P>, msg: seq<Arrival<K, P>>, a: Arrival<K, P>, blank: bool)
    ensures AddAll(m, msg + [a], blank) == Add(AddAll(m, msg, blank), a, blank)
    ensures Ends(msg + [a]) == Ends(msg) + {a.end}
  {
    assert (msg + [a])[..|msg|] == msg;
  }

  /** Counting windows one at a time counts them all. */
  lemma {:induction false} CountOneMore<K(!new), P(!new)>(m: Merger<K, P>, done: set<u64>, end: u64)
    requires end !in done
    ensures CountAll(CountAll(m, done), {end}) == CountAll(m, done + {end})
  {
    assert CountAll(CountAll(m, done), {end}).messages == CountAll(m, done + {end}).messages;
  }

  lemma {:induction false} CountKeepsEmitted<K, P>(m: Merger<K, P>, ends: set<u64>)
    ensures CountAll(m, ends).emitted == m.emitted
  {
  }

  lemma {:induction false} CountNone<K, P>(m: Merger<K, P>)
    requires forall e :: e in m.messages ==> e > m.emittedUntil
    ensures CountAll(m, {}) == m
  {
    assert CountAll(m, {}).messages == m.messages;
  }

  lemma {:induction false} MaxOfIs(s: set<u64>, c: u64)
    requires forall e :: e in s ==> e <= c
    requires c in s || c == 0
    ensures MaxOf(s) == c
  {
  }

  lemma {:induction false} InOrderNext<K, P>(open: map<u64, map<K, seq<P>>>, done: set<u64>, end: u64)
    requires done <= open.Keys && end in open && forall d :: d in done ==> d < end
    ensures InOrder(open, done + {end}) == InOrder(open, done) + [Closed(end, open[end])]
    ensures MaxOf(done + {end}) == end
  {
    MaxOfIs(done + {end}, end);
    assert done + {end} - {end} == done;
  }

  /** The largest window that `sources` messages carried, 0 if there is none. */
  method CompleteUntil(messages: map<u64, nat>, sources: nat) returns (complete: u64)
    ensures complete == MaxOf(Complete(messages, sources))
  {
    complete := 0;
    var rest := messages.Keys;
    while rest != {}
      invariant rest <= messages.Keys
      invariant complete == 0 || complete in Complete(messages, sources)
      invariant forall e :: e in Complete(messages, sources) && e !in rest ==> e <= complete
      decreases |rest|
    {
      var end :| end in rest;
      rest := rest - {end};
      if sources > 0 && messages[end] >= sources && end > complete {
        complete := end;
      }
    }
    MaxOfIs(Complete(messages, sources), complete);
  }

  /** One data message: every envelope, then the counters, then the emission. */
  ghost function OnData<K, P>(m: Merger<K, P>, msg: seq<Arrival<K, P>>, timedOut: u64, sources: nat, blank: bool): Merger<K, P> {
    Due(CountAll(AddAll(m, msg, blank), Ends(msg)), timedOut, sources)
  }

  // ---------- safety of every run, whatever the clock and the senders do ----------

  /** What every step keeps. */
  ghost predicate Safe<K, P>(m: Merger<K, P>) {
    && m.emittedUntil < U64_MAX
    && (forall e :: e in m.open ==> e > m.emittedUntil)
    && (forall e :: e in m.messages ==> e > m.emittedUntil)
    && (forall i :: 0 <= i < |m.emitted| ==> m.emitted[i].end <= m.emittedUntil)
    && (forall i, j :: 0 <= i < j < |m.emitted| ==> m.emitted[i].end < m.emitted[j].end)
  }

  lemma {:induction false} AddAllSafe<K, P>(m: Merger<K, P>, msg: seq<Arrival<K, P>>, blank: bool)
    requires Safe(m)
    ensures Safe(AddAll(m, msg, blank))
    ensures AddAll(m, msg, blank).emittedUntil == m.emittedUntil
    ensures AddAll(m, msg, blank).emitted == m.emitted
    ensures AddAll(m, msg, blank).messages == m.messages
    decreases |msg|
  {
    if msg != [] {
      AddAllSafe(m, msg[..|msg| - 1], blank);
    }
  }

  lemma {:induction false} DueSafe<K, P>(m: Merger<K, P>, timedOut: u64, sources: nat)
    requires Safe(m)
    ensures var n := Due(m, timedOut, sources);
      && Safe(n)
      && m.emitted <= n.emitted
      && (forall e :: e in n.open ==> e > timedOut || e == U64_MAX)
  {
    var n := Due(m, timedOut, sources);
    var cutoff := Cutoff(m.messages, timedOut, sources);
    var ready := Ready(m.open, cutoff);
    var closing := InOrder(m.open, ready);
    InOrderIsSorted(m.open, ready);
    assert n.emitted == m.emitted + closing;
    forall i | 0 <= i < |n.emitted|
      ensures i < |m.emitted| ==> n.emitted[i] == m.emitted[i]
      ensures i >= |m.emitted| ==> n.emitted[i].end in ready && n.emitted[i].end > m.emittedUntil
    {
      if i >= |m.emitted| {
        assert n.emitted[i].end == closing[i - |m.emitted|].end;
      }
    }
    forall i, j | 0 <= i < j < |n.emitted|
      ensures n.emitted[i].end < n.emitted[j].end
    {
      if i >= |m.emitted| {
        assert n.emitted[i] == closing[i - |m.emitted|] && n.emitted[j] == closing[j - |m.emitted|];
      }
    }
  }

  lemma {:induction false} CountAllSafe<K, P>(m: Merger<K, P>, ends: set<u64>)
    requires Safe(m)
    ensures Safe(CountAll(m, ends))
  {
  }

  lemma {:induction false} OnDataSafe<K, P>(m: Merger<K, P>, msg: seq<Arrival<K, P>>, timedOut: u64, sources: nat, blank: bool)
    requires Safe(m)
    ensures Safe(OnData(m, msg, timedOut, sources, blank))
    ensures m.emitted <= OnData(m, msg, timedOut, sources, blank).emitted
  {
    AddAllSafe(m, msg, blank);
    DueSafe(CountAll(AddAll(m, msg, blank), Ends(msg)), timedOut, sources);
  }

  // ---------- conservation of points ----------

  ghost function ListWeight<P(!new)>(w: P -> nat): seq<P> -> nat {
    list => Sum(list, w)
  }

  ghost function SeriesWeight<K(!new), P(!new)>(series: map<K, seq<P>>, w: P -> nat): nat {
    MapSum(series, ListWeight(w))
  }

  ghost function WindowWeight<K(!new), P(!new)>(w: P -> nat): map<K, seq<P>> -> nat {
    series => SeriesWeight(series, w)
  }

  ghost function OpenWeight<K(!new), P(!new)>(open: map<u64, map<K, seq<P>>>, w: P -> nat): nat {
    MapSum(open, WindowWeight(w))
  }

  ghost function EmittedWeight<K(!new), P(!new)>(emitted: seq<Closed<K, P>>, w: P -> nat): nat {
    if emitted == [] then 0
    else EmittedWeight(emitted[..|emitted| - 1], w) + SeriesWeight(emitted[|emitted| - 1].series, w)
  }

  ghost function ArrivedWeight<K(!new), P(!new)>(arrivals: seq<Arrival<K, P>>, w: P -> nat): nat {
    Sum(arrivals, (a: Arrival<K, P>) => w(a.body))
  }

  /** Everything the merger has ever accounted for. */
  ghost function Accounted<K(!new), P(!new)>(m: Merger<K, P>, w: P -> nat): nat {
    EmittedWeight(m.emitted, w) + OpenWeight(m.open, w) + ArrivedWeight(m.late, w) + ArrivedWeight(m.rejected, w)
  }

  lemma {:induction false} AddConserves<K(!new), P(!new)>(m: Merger<K, P>, a: Arrival<K, P>, blank: bool, w: P -> nat)
    ensures Accounted(Add(m, a, blank), w) == Accounted(m, w) + w(a.body)
  {
    var f := (a: Arrival<K, P>) => w(a.body);
    var n := Add(m, a, blank);
    if a.end <= m.emittedUntil {
      SumPush(m.late, a, f);
    } else {
      var before := Window(m.open, a.end);
      var after := Window(n.open, a.end);
      if a.ok {
        SumPush(Held(before, a.key), a.body, w);
        MapSumUpdate(before, a.key, Held(after, a.key), ListWeight(w));
      } else {
        SumPush(m.rejected, a, f);
      }
      if a.ok || blank {
        MapSumUpdate(m.open, a.end, after, WindowWeight(w));
      }
    }
  }

  lemma {:induction false} AddAllConserves<K(!new), P(!new)>(m: Merger<K, P>, msg: seq<Arrival<K, P>>, blank: bool, w: P -> nat)
    ensures Accounted(AddAll(m, msg, blank), w) == Accounted(m, w) + ArrivedWeight(msg, w)
    decreases |msg|
  {
    if msg != [] {
      AddAllConserves(m, msg[..|msg| - 1], blank, w);
      AddConserves(AddAll(m, msg[..|msg| - 1], blank), msg[|msg| - 1], blank, w);
    }
  }

  lemma {:induction false} EmittedConcat<K(!new), P(!new)>(s: seq<Closed<K, P>>, t: seq<Closed<K, P>>, w: P -> nat)
    ensures EmittedWeight(s + t, w) == EmittedWeight(s, w) + EmittedWeight(t, w)
    decreases |t|
  {
    if t == [] {
      assert s + t == s;
    } else {
      EmittedConcat(s, t[..|t| - 1], w);
      assert (s + t)[..|s + t| - 1] == s + t[..|t| - 1];
    }
  }

  /** Closing windows moves their weight from the open side to the emitted side. */
  lemma {:induction false} CloseConserves<K(!new), P(!new)>(open: map<u64, map<K, seq<P>>>, ends: set<u64>, w: P -> nat)
    requires ends <= open.Keys
    ensures OpenWeight(open, w) == OpenWeight(open - ends, w) + EmittedWeight(InOrder(open, ends), w)
    decreases |ends|
  {
    if ends == {} {
      assert open - ends == open;
    } else {
      var last := MaxOf(ends);
      var rest := ends - {last};
      CloseConserves(open, rest, w);
      MapSumRemove(open - rest, last, WindowWeight(w));
      assert open - rest - {last} == open - ends;
      var r := InOrder(open, ends);
      assert r[..|r| - 1] == InOrder(open, rest);
    }
  }

  lemma {:induction false} DueConserves<K(!new), P(!new)>(m: Merger<K, P>, timedOut: u64, sources: nat, w: P -> nat)
    ensures Accounted(Due(m, timedOut, sources), w) == Accounted(m, w)
  {
    var ready := Ready(m.open, Cutoff(m.messages, timedOut, sources));
    CloseConserves(m.open, ready, w);
    EmittedConcat(m.emitted, InOrder(m.open, ready), w);
    assert Due(m, timedOut, sources).open == m.open - ready;
  }

  /** The steps of a merger under an arbitrary clock and arbitrary senders. */
  datatype Event<K(==), P> =
    | Data(msg: seq<Arrival<K, P>>, timedOut: u64)
    | Tick(timedOut: u64)

  ghost function Run<K, P>(events: seq<Event<K, P>>, sources: nat, blank: bool): Merger<K, P> {
    if events == [] then Fresh()
    else
      var m := Run(events[..|events| - 1], sources, blank);
      match events[|events| - 1]
      case Data(msg, timedOut) => OnData(m, msg, timedOut, sources, blank)
      case Tick(timedOut) => Due(m, timedOut, sources)
  }

  ghost function Input<K, P>(events: seq<Event<K, P>>): seq<Arrival<K, P>> {
    if events == [] then []
    else Input(events[..|events| - 1]) + if events[|events| - 1].Data? then events[|events| - 1].msg else []
  }

  /** In every run, every open window lies beyond what was emitted, the emitted ends
      strictly increase, and the input is exactly emitted + pending + late + rejected. */
  lemma {:induction false} RunIsSafe<K(!new), P(!new)>(events: seq<Event<K, P>>, sources: nat, blank: bool, w: P -> nat)
    ensures var m := Run(events, sources, blank);
      Safe(m) && Accounted(m, w) == ArrivedWeight(Input(events), w)
    decreases |events|
  {
    if events == [] {
    } else {
      var init := events[..|events| - 1];
      RunIsSafe(init, sources, blank, w);
      var m := Run(init, sources, blank);
      match events[|events| - 1]
      case Data(msg, timedOut) =>
        OnDataSafe(m, msg, timedOut, sources, blank);
        AddAllConserves(m, msg, blank, w);
        var counted := CountAll(AddAll(m, msg, blank), Ends(msg));
        assert Accounted(counted, w) == Accounted(AddAll(m, msg, blank), w);
        DueConserves(counted, timedOut, sources, w);
        SumConcat(Input(init), msg, (a: Arrival<K, P>) => w(a.body));
      case Tick(timedOut) =>
        DueSafe(m, timedOut, sources);
        DueConserves(m, timedOut, sources, w);
        assert Input(events) == Input(init);
    }
  }
}
