/** In-order sources and a merger: all interleavings. */
module Confluence {
  import opened Basics
  import opened WindowProtocol

  type Message<K(==), P> = seq<Arrival<K, P>>

  /** A source sends each window in one message, windows in increasing order. */
  ghost predicate SendsInOrder<K, P>(source: seq<Message<K, P>>) {
    && (forall j, x :: 0 <= j < |source| && x in Ends(source[j]) ==> x > 0)
    && (forall i, j, x, y :: 0 <= i < j < |source| && x in Ends(source[i]) && y in Ends(source[j]) ==> x < y)
  }

  ghost predicate AllInOrder<K, P>(sources: seq<seq<Message<K, P>>>) {
    forall s :: 0 <= s < |sources| ==> SendsInOrder(sources[s])
  }

  /** The merger, how many messages each source has delivered, and every arrival so far. */
  datatype System<K(==), P> = System(merger: Merger<K, P>, next: seq<nat>, hist: seq<Arrival<K, P>>)

  /** `timedOut` is the clock less the grace. */
  datatype Step = Deliver(source: nat, timedOut: u64) | Tick(timedOut: u64)

  ghost function Start<K, P>(sources: nat): System<K, P> {
    System(Fresh(), seq(sources, _ => 0), [])
  }

  /** Every undelivered window ends after `t`. */
  ghost predicate Beyond<K, P>(sources: seq<seq<Message<K, P>>>, next: seq<nat>, t: int)
    requires |next| == |sources|
  {
    forall s, j, x :: 0 <= s < |sources| && next[s] <= j < |sources[s]| && x in Ends(sources[s][j]) ==> x > t
  }

  /** Source `source` has a message left. */
  ghost predicate CanDeliver<K, P>(sources: seq<seq<Message<K, P>>>, next: seq<nat>, source: nat) {
    && |next| == |sources|
    && source < |sources|
    && next[source] < |sources[source]|
  }

  /** One step, or None when it is impossible: no message left, or the grace of a window
      runs out while a source still has to deliver it. */
  ghost function Next<K, P>(sources: seq<seq<Message<K, P>>>, sys: System<K, P>, step: Step, blank: bool): Option<System<K, P>> {
    if |sys.next| != |sources| then None
    else match step
      case Tick(timedOut) =>
        if Beyond(sources, sys.next, timedOut) then
          Some(sys.(merger := Due(sys.merger, timedOut, |sources|)))
        else None
      case Deliver(s, timedOut) =>
        if !CanDeliver(sources, sys.next, s) then None
        else
          var msg := sources[s][sys.next[s]];
          var next := sys.next[s := sys.next[s] + 1];
          if Beyond(sources, next, timedOut) then
            Some(System(OnData(sys.merger, msg, timedOut, |sources|, blank), next, sys.hist + msg))
          else None
  }

  ghost function After<K, P>(sources: seq<seq<Message<K, P>>>, steps: seq<Step>, blank: bool): Option<System<K, P>> {
    if steps == [] then Some(Start(|sources|))
    else
      match After(sources, steps[..|steps| - 1], blank)
      case None => None
      case Some(sys) => Next(sources, sys, steps[|steps| - 1], blank)
  }

  /** The accepted contributions to one window and series, in arrival order. */
  ghost function Accepted<K, P>(hist: seq<Arrival<K, P>>, end: u64, key: K): seq<P> {
    if hist == [] then []
    else
      var a := hist[|hist| - 1];
      Accepted(hist[..|hist| - 1], end, key) + if a.end == end && a.key == key && a.ok then [a.body] else []
  }

  lemma {:induction false} AcceptedConcat<K, P>(h: seq<Arrival<K, P>>, g: seq<Arrival<K, P>>, end: u64, key: K)
    ensures Accepted(h + g, end, key) == Accepted(h, end, key) + Accepted(g, end, key)
    decreases |g|
  {
    if g == [] {
      assert h + g == h;
    } else {
      AcceptedConcat(h, g[..|g| - 1], end, key);
      assert (h + g)[..|h + g| - 1] == h + g[..|g| - 1];
    }
  }

  lemma {:induction false} AcceptedNone<K, P>(h: seq<Arrival<K, P>>, end: u64, key: K)
    requires end !in Ends(h)
    ensures Accepted(h, end, key) == []
    decreases |h|
  {
    if h != [] {
      var init := h[..|h| - 1];
      assert h[|h| - 1].end in Ends(h);
      assert forall e :: e in Ends(init) ==> e in Ends(h);
      AcceptedNone(init, end, key);
    }
  }

  lemma {:induction false} AcceptedMember<K, P>(h: seq<Arrival<K, P>>, i: nat)
    requires i < |h| && h[i].ok
    ensures Accepted(h, h[i].end, h[i].key) != []
    decreases |h|
  {
    if i < |h| - 1 {
      AcceptedMember(h[..|h| - 1], i);
    }
  }

  lemma {:induction false} AcceptedComesFrom<K, P>(h: seq<Arrival<K, P>>, end: u64, key: K) returns (i: nat)
    requires Accepted(h, end, key) != []
    ensures i < |h| && h[i].ok && h[i].end == end && h[i].key == key
    decreases |h|
  {
    i := |h| - 1;
    if !(h[i].end == end && h[i].key == key && h[i].ok) {
      i := AcceptedComesFrom(h[..|h| - 1], end, key);
    }
  }

  lemma {:induction false} AcceptedRemove<K, P>(g: seq<Arrival<K, P>>, i: nat, end: u64, key: K)
    requires i < |g|
    ensures multiset(Accepted(g, end, key))
         == multiset(Accepted(g[..i] + g[i + 1..], end, key)) + multiset(Accepted([g[i]], end, key))
  {
    assert g == g[..i] + ([g[i]] + g[i + 1..]);
    AcceptedConcat(g[..i], [g[i]] + g[i + 1..], end, key);
    AcceptedConcat([g[i]], g[i + 1..], end, key);
    AcceptedConcat(g[..i], g[i + 1..], end, key);
  }

  /** The contributions depend on the arrivals as a multiset only. */
  lemma {:induction false} AcceptedPermutation<K, P>(h: seq<Arrival<K, P>>, g: seq<Arrival<K, P>>, end: u64, key: K)
    requires multiset(h) == multiset(g)
    ensures multiset(Accepted(h, end, key)) == multiset(Accepted(g, end, key))
    decreases |h|
  {
    if h == [] {
      assert |multiset(g)| == |g|;
    } else {
      var init := h[..|h| - 1];
      assert h == init + [h[|h| - 1]];
      var i, rest := RemoveSame(init, h[|h| - 1], h, g);
      AcceptedPermutation(init, rest, end, key);
      AcceptedRemove(g, i, end, key);
      AcceptedConcat(init, [h[|h| - 1]], end, key);
    }
  }

  // ---------- everything delivered so far ----------

  ghost function Flatten<K, P>(messages: seq<Message<K, P>>): seq<Arrival<K, P>> {
    if messages == [] then [] else Flatten(messages[..|messages| - 1]) + messages[|messages| - 1]
  }

  lemma {:induction false} FlattenPush<K, P>(messages: seq<Message<K, P>>, msg: Message<K, P>)
    ensures Flatten(messages + [msg]) == Flatten(messages) + msg
  {
    assert (messages + [msg])[..|messages|] == messages;
  }

  /** What the sources have delivered, source by source. */
  ghost function Delivered<K, P>(sources: seq<seq<Message<K, P>>>, next: seq<nat>): seq<Arrival<K, P>>
    requires |next| == |sources|
    requires forall s :: 0 <= s < |sources| ==> next[s] <= |sources[s]|
  {
    if sources == [] then []
    else
      var s := |sources| - 1;
      Delivered(sources[..s], next[..s]) + Flatten(sources[s][..next[s]])
  }

  lemma {:induction false} DeliverOne<K, P>(sources: seq<seq<Message<K, P>>>, next: seq<nat>, s: nat)
    requires |next| == |sources| && s < |sources| && next[s] < |sources[s]|
    requires forall s :: 0 <= s < |sources| ==> next[s] <= |sources[s]|
    ensures multiset(Delivered(sources, next[s := next[s] + 1])) == multiset(Delivered(sources, next)) + multiset(sources[s][next[s]])
    decreases |sources|
  {
    hide Flatten;
    var last := |sources| - 1;
    var after := next[s := next[s] + 1];
    var msg := sources[s][next[s]];
    var before, tail := Delivered(sources[..last], next[..last]), Flatten(sources[last][..next[last]]);
    if s == last {
      assert after[..last] == next[..last];
      assert sources[s][..after[s]] == sources[s][..next[s]] + [msg];
      FlattenPush(sources[s][..next[s]], msg);
      assert before + (tail + msg) == (before + tail) + msg;
    } else {
      DeliverOne(sources[..last], next[..last], s);
      assert after[..last] == next[..last][s := next[s] + 1];
      PushInside(before, Delivered(sources[..last], after[..last]), msg, tail);
    }
  }

  lemma {:induction false} PushInside<T>(a: seq<T>, b: seq<T>, msg: seq<T>, tail: seq<T>)
    requires multiset(b) == multiset(a) + multiset(msg)
    ensures multiset(b + tail) == multiset(a + tail) + multiset(msg)
  {
  }

  /** Everything the sources send. */
  ghost function AllSent<K, P>(sources: seq<seq<Message<K, P>>>): seq<Arrival<K, P>> {
    if sources == [] then [] else AllSent(sources[..|sources| - 1]) + Flatten(sources[|sources| - 1])
  }

  lemma {:induction false} AllDelivered<K, P>(sources: seq<seq<Message<K, P>>>, next: seq<nat>)
    requires |next| == |sources|
    requires forall s :: 0 <= s < |sources| ==> next[s] == |sources[s]|
    ensures Delivered(sources, next) == AllSent(sources)
    decreases |sources|
  {
    if sources != [] {
      var s := |sources| - 1;
      AllDelivered(sources[..s], next[..s]);
      assert sources[s][..next[s]] == sources[s];
    }
  }

  // ---------- the invariant ----------

  ghost predicate Carried<K, P>(source: seq<Message<K, P>>, n: nat, e: u64) {
    exists j :: 0 <= j < n && j < |source| && e in Ends(source[j])
  }

  /** The sources that have delivered window `e`. */
  ghost function Carriers<K, P>(sources: seq<seq<Message<K, P>>>, next: seq<nat>, e: u64): set<nat>
    requires |next| == |sources|
  {
    set s | s in Below(|sources|) && Carried(sources[s], next[s], e)
  }

  /** Counters count the sources that delivered a window; one that has been dropped
      belongs to a window nobody holds and nobody will send. */
  ghost predicate CountersAgree<K, P>(sources: seq<seq<Message<K, P>>>, next: seq<nat>, m: Merger<K, P>)
    requires |next| == |sources|
  {
    forall e: u64 :: e > m.emittedUntil ==>
      && Counted(m.messages, e) <= |Carriers(sources, next, e)|
      && (Counted(m.messages, e) < |Carriers(sources, next, e)| ==> e !in m.open && Beyond(sources, next, e))
  }

  /** Open windows hold all that arrived for them. */
  ghost predicate OpenAgrees<K(!new), P>(m: Merger<K, P>, hist: seq<Arrival<K, P>>) {
    forall e: u64, k: K :: e > m.emittedUntil ==> Held(Window(m.open, e), k) == Accepted(hist, e, k)
  }

  /** So do the emitted ones, and nothing emitted is missing. */
  ghost predicate EmittedAgrees<K(!new), P>(m: Merger<K, P>, hist: seq<Arrival<K, P>>) {
    && (forall i, k: K :: 0 <= i < |m.emitted| ==>
         Held(m.emitted[i].series, k) == Accepted(hist, m.emitted[i].end, k))
    && (forall e: u64, k: K :: e <= m.emittedUntil && Accepted(hist, e, k) != [] ==>
         exists i :: 0 <= i < |m.emitted| && m.emitted[i].end == e)
  }

  /** No window lists a series without a contribution. */
  ghost predicate NoEmptySeries<K(!new), P>(m: Merger<K, P>) {
    && (forall e, k :: e in m.open && k in m.open[e] ==> m.open[e][k] != [])
    && (forall i, k :: 0 <= i < |m.emitted| && k in m.emitted[i].series ==> m.emitted[i].series[k] != [])
  }

  ghost predicate Inv<K(!new), P>(sources: seq<seq<Message<K, P>>>, sys: System<K, P>) {
    var m := sys.merger;
    && |sys.next| == |sources|
    && (forall s :: 0 <= s < |sources| ==> sys.next[s] <= |sources[s]|)
    && Safe(m)
    && m.late == []
    && Beyond(sources, sys.next, m.emittedUntil)
    && CountersAgree(sources, sys.next, m)
    && OpenAgrees(m, sys.hist)
    && EmittedAgrees(m, sys.hist)
    && NoEmptySeries(m)
    && multiset(sys.hist) == multiset(Delivered(sources, sys.next))
  }

  /** `n` is `m` with the contributions of `msg` added to its open windows. */
  ghost predicate Absorbs<K(!new), P>(m: Merger<K, P>, n: Merger<K, P>, msg: Message<K, P>) {
    && n.late == m.late && n.emitted == m.emitted && n.emittedUntil == m.emittedUntil && n.messages == m.messages
    && (forall e: u64, k: K :: Held(Window(n.open, e), k) == Held(Window(m.open, e), k) + Accepted(msg, e, k))
    && (forall e :: e in n.open ==> e in m.open || e in Ends(msg))
    && (forall e, k :: e in n.open && k in n.open[e] ==> n.open[e][k] != [])
  }

  lemma {:induction false} AddHolds<K(!new), P>(m: Merger<K, P>, a: Arrival<K, P>, blank: bool)
    requires a.end > m.emittedUntil
    requires forall e, k :: e in m.open && k in m.open[e] ==> m.open[e][k] != []
    ensures Absorbs(m, Add(m, a, blank), [a])
  {
    var n := Add(m, a, blank);
    assert a in [a] && a.end in Ends([a]);
    forall e: u64, k: K
      ensures Accepted([a], e, k) == if a.end == e && a.key == k && a.ok then [a.body] else []
    {
      assert [a][..0] == [];
    }
  }

  /** A message with only later windows goes into the open windows, and nowhere else. */
  lemma {:induction false} AddAllHolds<K(!new), P>(m: Merger<K, P>, msg: Message<K, P>, blank: bool)
    requires forall e, k :: e in m.open && k in m.open[e] ==> m.open[e][k] != []
    requires forall x :: x in Ends(msg) ==> x > m.emittedUntil
    ensures Absorbs(m, AddAll(m, msg, blank), msg)
    decreases |msg|
  {
    hide Add, Absorbs, Accepted, Held, Window;
    if msg == [] {
      AbsorbsNothing(m);
    } else {
      var init, a := msg[..|msg| - 1], msg[|msg| - 1];
      assert forall x :: x in Ends(init) ==> x in Ends(msg);
      assert a.end in Ends(msg);
      AddAllHolds(m, init, blank);
      OpenSeriesStayNonEmpty(m, AddAll(m, init, blank), init);
      AddHolds(AddAll(m, init, blank), a, blank);
      AbsorbsBoth(m, AddAll(m, init, blank), AddAll(m, msg, blank), init, [a]);
      assert msg == init + [a];
    }
  }

  lemma {:induction false} AbsorbsNothing<K(!new), P>(m: Merger<K, P>)
    requires forall e, k :: e in m.open && k in m.open[e] ==> m.open[e][k] != []
    ensures Absorbs(m, m, [])
  {
  }

  lemma {:induction false} OpenSeriesStayNonEmpty<K(!new), P>(m: Merger<K, P>, n: Merger<K, P>, msg: Message<K, P>)
    requires Absorbs(m, n, msg)
    ensures n.emittedUntil == m.emittedUntil
    ensures forall e, k :: e in n.open && k in n.open[e] ==> n.open[e][k] != []
  {
  }

  lemma {:induction false} AbsorbsBoth<K(!new), P>(m: Merger<K, P>, n: Merger<K, P>, o: Merger<K, P>, g: Message<K, P>, h: Message<K, P>)
    requires Absorbs(m, n, g) && Absorbs(n, o, h)
    ensures Absorbs(m, o, g + h)
  {
    forall e: u64, k: K
      ensures Held(Window(o.open, e), k) == Held(Window(m.open, e), k) + Accepted(g + h, e, k)
    {
      AcceptedConcat(g, h, e, k);
      assert Held(Window(n.open, e), k) == Held(Window(m.open, e), k) + Accepted(g, e, k);
      assert Held(Window(o.open, e), k) == Held(Window(n.open, e), k) + Accepted(h, e, k);
    }
    forall e | e in o.open
      ensures e in m.open || e in Ends(g + h)
    {
      if e in Ends(g) || e in Ends(h) {
        var a :| (a in g || a in h) && a.end == e;
        assert a in g + h;
      }
    }
  }

  /** If every source has delivered window `e`, all that is left lies beyond it. */
  lemma {:induction false} AllCarriedMeansBeyond<K, P>(sources: seq<seq<Message<K, P>>>, next: seq<nat>, e: u64)
    requires AllInOrder(sources) && |next| == |sources|
    requires |Carriers(sources, next, e)| >= |sources|
    ensures Beyond(sources, next, e)
  {
    SubsetSize(Carriers(sources, next, e), Below(|sources|));
    forall s, j, x | 0 <= s < |sources| && next[s] <= j < |sources[s]| && x in Ends(sources[s][j])
      ensures x > e
    {
      assert s in Carriers(sources, next, e);
      var i :| 0 <= i < next[s] && i < |sources[s]| && e in Ends(sources[s][i]);
      assert SendsInOrder(sources[s]);
    }
  }

  /** Every window a merger closes holds all that arrived for it. */
  lemma {:induction false} DueEmits<K(!new), P>(m: Merger<K, P>, hist: seq<Arrival<K, P>>, timedOut: u64, sources: nat)
    requires Safe(m) && OpenAgrees(m, hist) && EmittedAgrees(m, hist) && NoEmptySeries(m)
    ensures var n := Due(m, timedOut, sources);
      OpenAgrees(n, hist) && EmittedAgrees(n, hist) && NoEmptySeries(n)
  {
    var n := Due(m, timedOut, sources);
    var ready := Ready(m.open, Cutoff(m.messages, timedOut, sources));
    var closing := InOrder(m.open, ready);
    InOrderIsSorted(m.open, ready);
    DueSafe(m, timedOut, sources);
    forall e: u64, k: K | e > n.emittedUntil
      ensures Held(Window(n.open, e), k) == Accepted(hist, e, k)
    {
      assert e !in ready;
      assert e in m.open ==> e in n.open && n.open[e] == m.open[e];
      assert Held(Window(m.open, e), k) == Accepted(hist, e, k);
    }
    forall i | 0 <= i < |n.emitted|
      ensures i < |m.emitted| ==> n.emitted[i] == m.emitted[i]
      ensures i >= |m.emitted| ==> n.emitted[i].end in m.open && n.emitted[i].series == m.open[n.emitted[i].end]
    {
      if i >= |m.emitted| {
        assert n.emitted[i] == closing[i - |m.emitted|];
      }
    }
    forall e: u64, k: K | e <= n.emittedUntil && Accepted(hist, e, k) != []
      ensures exists i :: 0 <= i < |n.emitted| && n.emitted[i].end == e
    {
      if e <= m.emittedUntil {
        var i :| 0 <= i < |m.emitted| && m.emitted[i].end == e;
        assert n.emitted[i].end == e;
      } else {
        assert Held(Window(m.open, e), k) != [];
        var i := InOrderHasAll(m.open, ready, e);
        assert n.emitted[|m.emitted| + i].end == e;
      }
    }
    forall i, k: K | 0 <= i < |n.emitted|
      ensures Held(n.emitted[i].series, k) == Accepted(hist, n.emitted[i].end, k)
    {
      if i >= |m.emitted| {
        assert Held(Window(m.open, n.emitted[i].end), k) == Accepted(hist, n.emitted[i].end, k);
      }
    }
  }

  /** Closing windows keeps the invariant when no source still has to deliver one. */
  lemma {:induction false} DueKeeps<K(!new), P>(sources: seq<seq<Message<K, P>>>, sys: System<K, P>, timedOut: u64)
    requires AllInOrder(sources) && Inv(sources, sys)
    requires Beyond(sources, sys.next, timedOut)
    ensures Inv(sources, sys.(merger := Due(sys.merger, timedOut, |sources|)))
  {
    hide Delivered, OpenAgrees, EmittedAgrees, NoEmptySeries, CountersAgree;
    DueSafe(sys.merger, timedOut, |sources|);
    DueEmits(sys.merger, sys.hist, timedOut, |sources|);
    DueCounts(sources, sys.next, sys.merger, timedOut);
    hide Due, Safe, Beyond;
  }

  /** What is cut off has been carried by every source, or is beyond what any will send. */
  lemma {:induction false} CutoffIsBeyond<K(!new), P>(sources: seq<seq<Message<K, P>>>, next: seq<nat>, m: Merger<K, P>, timedOut: u64)
    requires AllInOrder(sources) && |next| == |sources| && (forall s :: 0 <= s < |sources| ==> next[s] <= |sources[s]|)
    requires Safe(m) && CountersAgree(sources, next, m) && Beyond(sources, next, timedOut)
    ensures Beyond(sources, next, Cutoff(m.messages, timedOut, |sources|))
  {
    var cutoff := Cutoff(m.messages, timedOut, |sources|);
    if cutoff != timedOut {
      assert cutoff in Complete(m.messages, |sources|);
      assert cutoff > m.emittedUntil;
      assert Counted(m.messages, cutoff) <= |Carriers(sources, next, cutoff)|;
      AllCarriedMeansBeyond(sources, next, cutoff);
    }
  }

  lemma {:induction false} DueCounts<K(!new), P>(sources: seq<seq<Message<K, P>>>, next: seq<nat>, m: Merger<K, P>, timedOut: u64)
    requires AllInOrder(sources) && |next| == |sources| && (forall s :: 0 <= s < |sources| ==> next[s] <= |sources[s]|)
    requires Safe(m) && CountersAgree(sources, next, m) && Beyond(sources, next, timedOut) && Beyond(sources, next, m.emittedUntil)
    ensures Beyond(sources, next, Due(m, timedOut, |sources|).emittedUntil)
    ensures CountersAgree(sources, next, Due(m, timedOut, |sources|))
  {
    CutoffIsBeyond(sources, next, m, timedOut);
    var n := Due(m, timedOut, |sources|);
    var cutoff := Cutoff(m.messages, timedOut, |sources|);
    BeyondBoth(sources, next, m, timedOut);
    hide Carriers;
    forall e: u64 | e > n.emittedUntil
      ensures Counted(n.messages, e) <= |Carriers(sources, next, e)|
      ensures Counted(n.messages, e) < |Carriers(sources, next, e)| ==> e !in n.open && Beyond(sources, next, e)
    {
      DueCount(sources, next, m, timedOut, e);
    }
  }

  /** Nothing that goes out is still to be sent. */
  lemma {:induction false} BeyondBoth<K(!new), P>(sources: seq<seq<Message<K, P>>>, next: seq<nat>, m: Merger<K, P>, timedOut: u64)
    requires |next| == |sources| && (forall s :: 0 <= s < |sources| ==> next[s] <= |sources[s]|)
    requires Beyond(sources, next, Cutoff(m.messages, timedOut, |sources|)) && Beyond(sources, next, m.emittedUntil)
    ensures Beyond(sources, next, Due(m, timedOut, |sources|).emittedUntil)
  {
  }

  lemma {:induction false} DueCount<K(!new), P>(sources: seq<seq<Message<K, P>>>, next: seq<nat>, m: Merger<K, P>, timedOut: u64, e: u64)
    requires |next| == |sources| && (forall s :: 0 <= s < |sources| ==> next[s] <= |sources[s]|)
    requires CountersAgree(sources, next, m) && Beyond(sources, next, Cutoff(m.messages, timedOut, |sources|))
    requires e > Due(m, timedOut, |sources|).emittedUntil
    ensures var n := Due(m, timedOut, |sources|);
      && Counted(n.messages, e) <= |Carriers(sources, next, e)|
      && (Counted(n.messages, e) < |Carriers(sources, next, e)| ==> e !in n.open && Beyond(sources, next, e))
  {
    assert e > m.emittedUntil;
    assert Counted(m.messages, e) <= |Carriers(sources, next, e)|;
    hide Carriers;
  }

  /** A source delivers a window in at most one message. */
  lemma {:induction false} CarriersGrow<K, P>(sources: seq<seq<Message<K, P>>>, next: seq<nat>, s: nat, e: u64)
    requires AllInOrder(sources) && CanDeliver(sources, next, s)
    ensures var after := next[s := next[s] + 1];
      var inMessage := e in Ends(sources[s][next[s]]);
      && Carriers(sources, after, e) == Carriers(sources, next, e) + (if inMessage then {s} else {})
      && (inMessage ==> s !in Carriers(sources, next, e))
  {
    var after := next[s := next[s] + 1];
    assert SendsInOrder(sources[s]);
    forall t | t in Below(|sources|)
      ensures Carried(sources[t], after[t], e) <==> Carried(sources[t], next[t], e) || (t == s && e in Ends(sources[s][next[s]]))
    {
      if t == s && e in Ends(sources[s][next[s]]) {
        assert 0 <= next[s] < after[s];
      }
    }
  }

  /** Delivering more leaves less to deliver. */
  lemma {:induction false} BeyondAfterDelivery<K, P>(sources: seq<seq<Message<K, P>>>, next: seq<nat>, s: nat, t: int)
    requires CanDeliver(sources, next, s)
    ensures Beyond(sources, next, t) ==> Beyond(sources, next[s := next[s] + 1], t)
    ensures Beyond(sources, next, t) ==> forall x :: x in Ends(sources[s][next[s]]) ==> x > t
  {
  }

  lemma {:induction false} CounterAfterMessage<K, P>(sources: seq<seq<Message<K, P>>>, next: seq<nat>, s: nat, m: Merger<K, P>, added: Merger<K, P>, e: u64)
    requires AllInOrder(sources) && CanDeliver(sources, next, s)
    requires e > m.emittedUntil
    requires Counted(m.messages, e) <= |Carriers(sources, next, e)|
    requires Counted(m.messages, e) < |Carriers(sources, next, e)| ==> e !in m.open && Beyond(sources, next, e)
    requires added.messages == m.messages && added.emittedUntil == m.emittedUntil
    requires e in added.open ==> e in m.open || e in Ends(sources[s][next[s]])
    ensures var n := CountAll(added, Ends(sources[s][next[s]]));
      var after := next[s := next[s] + 1];
      && Counted(n.messages, e) <= |Carriers(sources, after, e)|
      && (Counted(n.messages, e) < |Carriers(sources, after, e)| ==> e !in n.open && Beyond(sources, after, e))
  {
    CarriersGrow(sources, next, s, e);
    BeyondAfterDelivery(sources, next, s, e);
    hide Beyond, Carriers;
    var n := CountAll(added, Ends(sources[s][next[s]]));
    assert Counted(n.messages, e) == Counted(m.messages, e) + if e in Ends(sources[s][next[s]]) then 1 else 0;
  }

  lemma {:induction false} CountersAfterMessage<K, P>(sources: seq<seq<Message<K, P>>>, next: seq<nat>, s: nat, m: Merger<K, P>, added: Merger<K, P>)
    requires AllInOrder(sources) && CanDeliver(sources, next, s)
    requires CountersAgree(sources, next, m)
    requires added.messages == m.messages && added.emittedUntil == m.emittedUntil
    requires forall e :: e in added.open ==> e in m.open || e in Ends(sources[s][next[s]])
    ensures CountersAgree(sources, next[s := next[s] + 1], CountAll(added, Ends(sources[s][next[s]])))
  {
    forall e: u64 | e > m.emittedUntil
      ensures var n := CountAll(added, Ends(sources[s][next[s]]));
        var after := next[s := next[s] + 1];
        && Counted(n.messages, e) <= |Carriers(sources, after, e)|
        && (Counted(n.messages, e) < |Carriers(sources, after, e)| ==> e !in n.open && Beyond(sources, after, e))
    {
      CounterAfterMessage(sources, next, s, m, added, e);
    }
  }

  /** A message with only later windows leaves the history in step with the merger. */
  lemma {:induction false} HistoryAfterMessage<K(!new), P>(m: Merger<K, P>, n: Merger<K, P>, hist: seq<Arrival<K, P>>, msg: Message<K, P>)
    requires Safe(m) && OpenAgrees(m, hist) && EmittedAgrees(m, hist)
    requires forall x :: x in Ends(msg) ==> x > m.emittedUntil
    requires Absorbs(m, n, msg)
    ensures OpenAgrees(n, hist + msg) && EmittedAgrees(n, hist + msg)
  {
    forall e: u64, k: K
      ensures Accepted(hist + msg, e, k) == Accepted(hist, e, k) + Accepted(msg, e, k)
      ensures e <= m.emittedUntil ==> Accepted(hist + msg, e, k) == Accepted(hist, e, k)
    {
      AcceptedConcat(hist, msg, e, k);
      if e <= m.emittedUntil {
        AcceptedNone(msg, e, k);
      }
    }
  }

  lemma {:induction false} AbsorbEnvelopes<K(!new), P>(m: Merger<K, P>, hist: seq<Arrival<K, P>>, msg: Message<K, P>, blank: bool)
    requires Safe(m) && m.late == [] && OpenAgrees(m, hist) && EmittedAgrees(m, hist) && NoEmptySeries(m)
    requires forall x :: x in Ends(msg) ==> x > m.emittedUntil
    ensures var n := AddAll(m, msg, blank);
      && Safe(n) && n.late == [] && n.emittedUntil == m.emittedUntil && n.messages == m.messages && n.emitted == m.emitted
      && OpenAgrees(n, hist + msg) && EmittedAgrees(n, hist + msg) && NoEmptySeries(n)
  {
    AddAllSafe(m, msg, blank);
    AddAllHolds(m, msg, blank);
    var added := AddAll(m, msg, blank);
    assert OpenAgrees(added, hist + msg) && EmittedAgrees(added, hist + msg) by {
      HistoryAfterMessage(m, added, hist, msg);
    }
  }

  lemma {:induction false} AbsorbMessage<K(!new), P>(m: Merger<K, P>, hist: seq<Arrival<K, P>>, msg: Message<K, P>, blank: bool)
    requires Safe(m) && m.late == [] && OpenAgrees(m, hist) && EmittedAgrees(m, hist) && NoEmptySeries(m)
    requires forall x :: x in Ends(msg) ==> x > m.emittedUntil
    ensures var n := CountAll(AddAll(m, msg, blank), Ends(msg));
      && Safe(n) && n.late == [] && n.emittedUntil == m.emittedUntil
      && OpenAgrees(n, hist + msg) && EmittedAgrees(n, hist + msg) && NoEmptySeries(n)
  {
    hide AddAll;
    AbsorbEnvelopes(m, hist, msg, blank);
  }

  lemma {:induction false} OnlyTheMessageOpens<K(!new), P>(m: Merger<K, P>, msg: Message<K, P>, blank: bool)
    requires NoEmptySeries(m)
    requires forall x :: x in Ends(msg) ==> x > m.emittedUntil
    ensures var n := AddAll(m, msg, blank);
      && n.messages == m.messages && n.emittedUntil == m.emittedUntil
      && forall e :: e in n.open ==> e in m.open || e in Ends(msg)
  {
    AddAllHolds(m, msg, blank);
  }

  lemma {:induction false} DeliverKeeps<K(!new), P>(sources: seq<seq<Message<K, P>>>, sys: System<K, P>, s: nat, blank: bool)
    requires AllInOrder(sources) && Inv(sources, sys)
    requires CanDeliver(sources, sys.next, s)
    ensures var msg := sources[s][sys.next[s]];
      Inv(sources, System(CountAll(AddAll(sys.merger, msg, blank), Ends(msg)), sys.next[s := sys.next[s] + 1], sys.hist + msg))
  {
    hide Safe, OpenAgrees, EmittedAgrees, NoEmptySeries, CountersAgree, AddAll, CountAll, Delivered;
    var m := sys.merger;
    var msg := sources[s][sys.next[s]];
    BeyondAfterDelivery(sources, sys.next, s, m.emittedUntil);
    AbsorbMessage(m, sys.hist, msg, blank);
    OnlyTheMessageOpens(m, msg, blank);
    CountersAfterMessage(sources, sys.next, s, m, AddAll(m, msg, blank));
    DeliverOne(sources, sys.next, s);
    var n := CountAll(AddAll(m, msg, blank), Ends(msg));
    var next := sys.next[s := sys.next[s] + 1];
    assert multiset(sys.hist + msg) == multiset(sys.hist) + multiset(msg);
    Together(sources, n, next, sys.hist + msg);
  }

  lemma {:induction false} Together<K(!new), P>(sources: seq<seq<Message<K, P>>>, m: Merger<K, P>, next: seq<nat>, hist: seq<Arrival<K, P>>)
    requires |next| == |sources|
    requires forall s :: 0 <= s < |sources| ==> next[s] <= |sources[s]|
    requires Safe(m) && m.late == []
    requires Beyond(sources, next, m.emittedUntil) && CountersAgree(sources, next, m)
    requires OpenAgrees(m, hist) && EmittedAgrees(m, hist) && NoEmptySeries(m)
    requires multiset(hist) == multiset(Delivered(sources, next))
    ensures Inv(sources, System(m, next, hist))
  {
  }

  lemma {:induction false} StartInv<K(!new), P>(sources: seq<seq<Message<K, P>>>)
    requires AllInOrder(sources)
    ensures Inv(sources, Start(|sources|))
  {
    var sys: System<K, P> := Start(|sources|);
    forall s, j, x | 0 <= s < |sources| && 0 <= j < |sources[s]| && x in Ends(sources[s][j])
      ensures x > 0
    {
      assert SendsInOrder(sources[s]);
    }
    NothingDelivered(sources);
    forall e: u64
      ensures Carriers(sources, sys.next, e) == {}
    {
    }
  }

  lemma {:induction false} NothingDelivered<K, P>(sources: seq<seq<Message<K, P>>>)
    ensures Delivered(sources, seq(|sources|, _ => 0)) == []
    decreases |sources|
  {
    if sources != [] {
      var s := |sources| - 1;
      NothingDelivered(sources[..s]);
      assert seq(|sources|, _ => 0)[..s] == seq(s, _ => 0);
      assert sources[s][..0] == [];
    }
  }

  lemma {:induction false} Reachable<K(!new), P>(sources: seq<seq<Message<K, P>>>, steps: seq<Step>, blank: bool)
    requires AllInOrder(sources)
    requires After(sources, steps, blank).Some?
    ensures Inv(sources, After(sources, steps, blank).value)
    decreases |steps|
  {
    hide AddAll, CountAll, Due, Inv;
    if steps == [] {
      StartInv(sources);
    } else {
      Reachable(sources, steps[..|steps| - 1], blank);
      var sys := After(sources, steps[..|steps| - 1], blank).value;
      match steps[|steps| - 1]
      case Tick(timedOut) =>
        DueKeeps(sources, sys, timedOut);
      case Deliver(s, timedOut) =>
        DeliverKeeps(sources, sys, s, blank);
        var msg := sources[s][sys.next[s]];
        var counted := System(CountAll(AddAll(sys.merger, msg, blank), Ends(msg)), sys.next[s := sys.next[s] + 1], sys.hist + msg);
        DueKeeps(sources, counted, timedOut);
    }
  }

  // ---------- the results ----------

  /** Once every source delivered window `e`, no step leaves it open. */
  lemma {:induction false} CompleteWindowsAreClosed<K(!new), P>(sources: seq<seq<Message<K, P>>>, steps: seq<Step>, blank: bool, e: u64)
    requires AllInOrder(sources) && sources != [] && steps != []
    requires After(sources, steps, blank).Some?
    requires e < U64_MAX && |Carriers(sources, After(sources, steps, blank).value.next, e)| >= |sources|
    ensures e !in After(sources, steps, blank).value.merger.open
  {
    hide AddAll, CountAll, Due, Inv, Carriers, Beyond;
    var init := steps[..|steps| - 1];
    Reachable(sources, init, blank);
    var sys := After(sources, init, blank).value;
    match steps[|steps| - 1]
    case Tick(timedOut) =>
      ClosesComplete(sources, sys, timedOut, e);
    case Deliver(s, timedOut) =>
      DeliverKeeps(sources, sys, s, blank);
      var msg := sources[s][sys.next[s]];
      var counted := System(CountAll(AddAll(sys.merger, msg, blank), Ends(msg)), sys.next[s := sys.next[s] + 1], sys.hist + msg);
      ClosesComplete(sources, counted, timedOut, e);
  }

  lemma {:induction false} ClosesComplete<K(!new), P>(sources: seq<seq<Message<K, P>>>, sys: System<K, P>, timedOut: u64, e: u64)
    requires Inv(sources, sys) && sources != []
    requires e < U64_MAX && |Carriers(sources, sys.next, e)| >= |sources|
    ensures e !in Due(sys.merger, timedOut, |sources|).open
  {
    var m := sys.merger;
    if e in m.open {
      assert Counted(m.messages, e) >= |sources|;
      assert e in Complete(m.messages, |sources|);
    }
  }

  /** What the merger has emitted agrees with everything the sources send: each window
      and series at most once, by increasing end, with exactly its contributions; and
      every window that ends by `limit` is there. */
  ghost predicate EmitsExactly<K(!new), P>(m: Merger<K, P>, sent: seq<Arrival<K, P>>, limit: u64) {
    && m.late == []
    && (forall i, j :: 0 <= i < j < |m.emitted| ==> m.emitted[i].end < m.emitted[j].end)
    && (forall i, k :: 0 <= i < |m.emitted| && k in m.emitted[i].series ==>
         && Accepted(sent, m.emitted[i].end, k) != []
         && multiset(m.emitted[i].series[k]) == multiset(Accepted(sent, m.emitted[i].end, k)))
    && (forall e: u64, k: K :: e <= limit && e < U64_MAX && Accepted(sent, e, k) != [] ==>
         exists i :: 0 <= i < |m.emitted| && m.emitted[i].end == e && k in m.emitted[i].series)
  }

  /** A run that delivers every message of every source. */
  ghost predicate Finishes<K(!new), P>(sources: seq<seq<Message<K, P>>>, steps: seq<Step>, blank: bool) {
    && After(sources, steps, blank).Some?
    && var next := After(sources, steps, blank).value.next;
       |next| == |sources| && forall s :: 0 <= s < |sources| ==> next[s] == |sources[s]|
  }

  /** Every interleaving of in-order sources ends with the same windows: after the last
      message and a final closing, the emitted windows are the contributions of all
      sources, each window once, and nothing was ever late. */
  lemma {:induction false} Confluence<K(!new), P>(sources: seq<seq<Message<K, P>>>, steps: seq<Step>, blank: bool, timedOut: u64, threshold: nat)
    requires AllInOrder(sources) && Finishes(sources, steps, blank)
    ensures EmitsExactly(Due(After(sources, steps, blank).value.merger, timedOut, threshold), AllSent(sources), timedOut)
  {
    Reachable(sources, steps, blank);
    var sys := After(sources, steps, blank).value;
    var m := Due(sys.merger, timedOut, threshold);
    DueSafe(sys.merger, timedOut, threshold);
    DueEmits(sys.merger, sys.hist, timedOut, threshold);
    AllDelivered(sources, sys.next);
    var sent := AllSent(sources);
    forall e: u64, k: K
      ensures multiset(Accepted(sys.hist, e, k)) == multiset(Accepted(sent, e, k))
      ensures Accepted(sys.hist, e, k) == [] <==> Accepted(sent, e, k) == []
    {
      AcceptedPermutation(sys.hist, sent, e, k);
      assert |multiset(Accepted(sys.hist, e, k))| == |Accepted(sys.hist, e, k)|;
      assert |multiset(Accepted(sent, e, k))| == |Accepted(sent, e, k)|;
    }
    forall i, k | 0 <= i < |m.emitted| && k in m.emitted[i].series
      ensures Accepted(sent, m.emitted[i].end, k) != []
      ensures multiset(m.emitted[i].series[k]) == multiset(Accepted(sent, m.emitted[i].end, k))
    {
      assert Held(m.emitted[i].series, k) == Accepted(sys.hist, m.emitted[i].end, k);
    }
    forall e: u64, k: K | e <= timedOut && e < U64_MAX && Accepted(sent, e, k) != []
      ensures exists i :: 0 <= i < |m.emitted| && m.emitted[i].end == e && k in m.emitted[i].series
    {
      assert Held(Window(m.open, e), k) == [];
      assert e <= m.emittedUntil;
      var i :| 0 <= i < |m.emitted| && m.emitted[i].end == e;
      assert Held(m.emitted[i].series, k) == Accepted(sys.hist, e, k);
    }
  }
}
