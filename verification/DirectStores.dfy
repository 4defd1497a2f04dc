/** Two stages against one store that observes everything itself. */
module DirectStores {
  import opened Basics
  import opened Envelopes
  import opened SeriesKeys
  import opened KllWindows
  import opened KllResults
  import opened StageFolds
  import opened TwoStages

  // ---------- verdicts ----------

  /** Whether a store takes an observation in. */
  ghost predicate Takes(log: Log, cfg: Config, shape: Shape, o: Observation)
    requires shape.paneMs > 0
  {
    Observed(log, cfg, shape, o).0.entries != log.entries
  }

  ghost predicate UpTakes(p: Plan, s: Stages, m: Move)
    requires p.Valid() && m.Feed? && m.up < |s.ups|
  {
    Takes(s.ups[m.up], p.Cfg(p.up), p.ShapeOf(p.up), m.o)
  }

  ghost predicate DirectTakes(p: Plan, s: Stages, m: Move)
    requires p.Valid() && m.Feed?
  {
    Takes(s.direct, p.Cfg(p.direct), p.ShapeOf(p.direct), m.o)
  }

  /** The upstream store and the direct store take the same observations in. */
  ghost predicate SameVerdict(p: Plan, s: Stages, m: Move)
    requires p.Valid()
  {
    m.Feed? && m.up < |s.ups| ==> (UpTakes(p, s, m) <==> DirectTakes(p, s, m))
  }

  /** The direct store takes in nothing that the upstream store refuses. */
  ghost predicate NoMore(p: Plan, s: Stages, m: Move)
    requires p.Valid()
  {
    m.Feed? && m.up < |s.ups| ==> (DirectTakes(p, s, m) ==> UpTakes(p, s, m))
  }

  ghost predicate SameVerdicts(p: Plan, n: nat, moves: seq<Move>)
    requires p.Valid()
  {
    moves == [] || (
      var init := moves[..|moves| - 1];
      SameVerdicts(p, n, init) && SameVerdict(p, Ran(p, n, init), moves[|moves| - 1]))
  }

  ghost predicate NeverMore(p: Plan, n: nat, moves: seq<Move>)
    requires p.Valid()
  {
    moves == [] || (
      var init := moves[..|moves| - 1];
      NeverMore(p, n, init) && NoMore(p, Ran(p, n, init), moves[|moves| - 1]))
  }

  /** Without caps, the verdicts on an observation that fits the stores are the same exactly when
      it is late for both or for neither. */
  lemma {:induction false} SameVerdictWhen(p: Plan, s: Stages, up: nat, o: Observation)
    requires p.Valid() && up < |s.ups| && p.up.maxSeries == 0 && p.direct.maxSeries == 0
    requires o.matches && o.sample.Some? && Floor(o.timestampMs, p.paneMs) + p.paneMs <= U64_MAX
    ensures SameVerdict(p, s, Feed(up, o)) <==> (o.timestampMs < s.ups[up].closedUntil <==> o.timestampMs < s.direct.closedUntil)
  {
    TakesWhen(s.ups[up], p.Cfg(p.up), p.ShapeOf(p.up), o);
    TakesWhen(s.direct, p.Cfg(p.direct), p.ShapeOf(p.direct), o);
    hide Takes;
  }

  lemma {:induction false} TakesWhen(log: Log, cfg: Config, shape: Shape, o: Observation)
    requires shape.Valid() && cfg.maxSeries == 0 && o.matches && o.sample.Some? && Floor(o.timestampMs, shape.paneMs) + shape.paneMs <= U64_MAX
    ensures Takes(log, cfg, shape, o) <==> o.timestampMs >= log.closedUntil
  {
    hide KeyFor, PaneLabels;
    var e := ObservedEntry(cfg, shape, o);
    assert |log.entries + [e]| == |log.entries| + 1;
  }

  // ---------- what an observation adds ----------

  /** The entry of an observation, the same for all stores. */
  ghost function EntryFor(p: Plan, o: Observation): Entry
    requires p.Valid() && o.sample.Some?
  {
    ObservedEntry(p.Cfg(p.up), p.ShapeOf(p.up), o)
  }

  ghost predicate Gains(p: Plan, before: seq<Entry>, after: seq<Entry>, o: Observation, taken: bool)
    requires p.Valid()
  {
    if taken then o.sample.Some? && after == before + [EntryFor(p, o)] else after == before
  }

  lemma {:induction false} StoreGains(p: Plan, log: Log, store: Store, o: Observation)
    requires p.Valid() && p.ShapeOf(store).Valid()
    ensures Gains(p, log.entries, Step(log, p.Cfg(store), p.ShapeOf(store), Observe(o)).entries, o, Takes(log, p.Cfg(store), p.ShapeOf(store), o))
  {
    hide KeyFor, PaneLabels, Admits;
  }

  /** What a move adds to the upstream stores together, and to the direct store. */
  lemma {:induction false} MoveGains(p: Plan, s: Stages, m: Move)
    requires p.Valid()
    ensures if m.Feed? && m.up < |s.ups| then
        && Gains(p, s.direct.entries, Moved(p, s, m).direct.entries, m.o, DirectTakes(p, s, m))
        && |Moved(p, s, m).ups| == |s.ups|
        && EntriesOf(Moved(p, s, m).ups) == EntriesOf(s.ups)[m.up := EntriesOf(Moved(p, s, m).ups)[m.up]]
        && Gains(p, EntriesOf(s.ups)[m.up], EntriesOf(Moved(p, s, m).ups)[m.up], m.o, UpTakes(p, s, m))
      else
        Moved(p, s, m).direct.entries == s.direct.entries && EntriesOf(Moved(p, s, m).ups) == EntriesOf(s.ups)
  {
    hide Takes, Gains, CanDeliver, PaneMerged, Observed;
    if m.Feed? && m.up < |s.ups| {
      StoreGains(p, s.direct, p.direct, m.o);
      StoreGains(p, s.ups[m.up], p.up, m.o);
    }
  }

  lemma {:induction false} FlatGains(ups: seq<seq<Entry>>, u: nat, e: Entry, from: int, to: int, key: Key)
    requires u < |ups|
    ensures AddsUp(Range(Flat(ups[u := ups[u] + [e]]), from, to, key), Range(Flat(ups), from, to, key), Range([e], from, to, key))
    decreases |ups|
  {
    hide Range, ItemsOf, CountOf;
    var n := |ups| - 1;
    var grown := ups[u := ups[u] + [e]];
    if u == n {
      assert grown[..n] == ups[..n];
      assert Flat(grown) == Flat(ups) + [e];
      RangeConcat(Flat(ups), [e], from, to, key);
      FoldConcat(Range(Flat(ups), from, to, key), Range([e], from, to, key));
    } else {
      FlatGains(ups[..n], u, e, from, to, key);
      assert grown[..n] == ups[..n][u := ups[..n][u] + [e]];
      RangeConcat(Flat(grown[..n]), ups[n], from, to, key);
      RangeConcat(Flat(ups[..n]), ups[n], from, to, key);
      FoldConcat(Range(Flat(grown[..n]), from, to, key), Range(ups[n], from, to, key));
      FoldConcat(Range(Flat(ups[..n]), from, to, key), Range(ups[n], from, to, key));
    }
  }

  lemma {:induction false} DirectGains(entries: seq<Entry>, e: Entry, from: int, to: int, key: Key)
    ensures AddsUp(Range(entries + [e], from, to, key), Range(entries, from, to, key), Range([e], from, to, key))
  {
    RangeConcat(entries, [e], from, to, key);
    FoldConcat(Range(entries, from, to, key), Range([e], from, to, key));
    hide Range, ItemsOf, CountOf;
  }

  /** What the upstream stores hold together, and what the direct store holds. */
  ghost function Below(s: Stages, from: int, to: int, key: Key): seq<Entry> {
    Range(Flat(EntriesOf(s.ups)), from, to, key)
  }

  ghost function Beside(s: Stages, from: int, to: int, key: Key): seq<Entry> {
    Range(s.direct.entries, from, to, key)
  }

  /** A move in which one side, or both, may gain the same entry. */
  ghost predicate Grows(before: seq<Entry>, after: seq<Entry>, more: seq<Entry>, taken: bool) {
    if taken then AddsUp(after, before, more) else SameFold(after, before)
  }

  lemma {:induction false} MoveFolds(p: Plan, s: Stages, m: Move, from: int, to: int, key: Key)
    requires p.Valid() && m.Feed? && m.up < |s.ups| && (UpTakes(p, s, m) || DirectTakes(p, s, m))
    ensures m.o.sample.Some?
    ensures var more := Range([EntryFor(p, m.o)], from, to, key);
      && Grows(Below(s, from, to, key), Below(Moved(p, s, m), from, to, key), more, UpTakes(p, s, m))
      && Grows(Beside(s, from, to, key), Beside(Moved(p, s, m), from, to, key), more, DirectTakes(p, s, m))
  {
    MoveGains(p, s, m);
    hide Takes, Moved, Range, ItemsOf, CountOf, Flat, EntryFor;
    if UpTakes(p, s, m) {
      FlatGains(EntriesOf(s.ups), m.up, EntryFor(p, m.o), from, to, key);
    } else {
      assert EntriesOf(Moved(p, s, m).ups) == EntriesOf(s.ups);
    }
    if DirectTakes(p, s, m) {
      DirectGains(s.direct.entries, EntryFor(p, m.o), from, to, key);
    }
  }

  lemma {:induction false} OtherMoves(p: Plan, s: Stages, m: Move, from: int, to: int, key: Key)
    requires p.Valid()
    requires m.Feed? && m.up < |s.ups| ==> !UpTakes(p, s, m) && !DirectTakes(p, s, m)
    ensures Below(Moved(p, s, m), from, to, key) == Below(s, from, to, key) && Beside(Moved(p, s, m), from, to, key) == Beside(s, from, to, key)
  {
    MoveGains(p, s, m);
    hide Takes, Moved, Range, Flat, EntryFor;
    assert EntriesOf(Moved(p, s, m).ups) == EntriesOf(s.ups);
  }

  // ---------- the direct store holds the same ----------

  lemma {:induction false} SameMoves(p: Plan, s: Stages, m: Move, from: int, to: int, key: Key)
    requires p.Valid() && SameVerdict(p, s, m) && SameFold(Beside(s, from, to, key), Below(s, from, to, key))
    ensures SameFold(Beside(Moved(p, s, m), from, to, key), Below(Moved(p, s, m), from, to, key))
  {
    hide UpTakes, DirectTakes, Moved, Below, Beside, ItemsOf, CountOf, Range, EntryFor;
    if m.Feed? && m.up < |s.ups| && UpTakes(p, s, m) {
      MoveFolds(p, s, m, from, to, key);
    } else {
      OtherMoves(p, s, m, from, to, key);
    }
  }

  /** If both take the same observations in, the direct store holds what the upstream stores hold
      together. */
  lemma {:induction false} DirectIsFlat(p: Plan, n: nat, moves: seq<Move>, from: int, to: int, key: Key)
    requires p.Valid() && SameVerdicts(p, n, moves)
    ensures SameFold(Beside(Ran(p, n, moves), from, to, key), Below(Ran(p, n, moves), from, to, key))
    decreases |moves|
  {
    hide Moved, Below, Beside, SameVerdict, SameFold;
    if moves == [] {
      NothingYet(n, from, to, key);
    } else {
      DirectIsFlat(p, n, moves[..|moves| - 1], from, to, key);
      SameMoves(p, Ran(p, n, moves[..|moves| - 1]), moves[|moves| - 1], from, to, key);
    }
  }

  lemma {:induction false} NothingYet(n: nat, from: int, to: int, key: Key)
    ensures Beside(Started(n), from, to, key) == [] == Below(Started(n), from, to, key)
    ensures SameFold(Beside(Started(n), from, to, key), Below(Started(n), from, to, key))
  {
    NothingFlat(n);
    assert EntriesOf(Started(n).ups) == seq(n, _ => []);
  }

  lemma {:induction false} NothingFlat(n: nat)
    ensures Flat(seq(n, _ => [])) == []
    decreases n
  {
    if n > 0 {
      NothingFlat(n - 1);
      var ups: seq<seq<Entry>> := seq(n, _ => []);
      assert ups[..n - 1] == seq(n - 1, _ => []);
    }
  }

  // ---------- and only then ----------

  lemma {:induction false} MoveAtMost(p: Plan, s: Stages, m: Move, from: int, to: int, key: Key)
    requires p.Valid() && NoMore(p, s, m)
    ensures CountOf(Beside(Moved(p, s, m), from, to, key)) - CountOf(Beside(s, from, to, key))
         <= CountOf(Below(Moved(p, s, m), from, to, key)) - CountOf(Below(s, from, to, key))
  {
    hide UpTakes, DirectTakes, Moved, Below, Beside, ItemsOf, CountOf, Range, EntryFor;
    if m.Feed? && m.up < |s.ups| && UpTakes(p, s, m) {
      MoveFolds(p, s, m, from, to, key);
    } else {
      OtherMoves(p, s, m, from, to, key);
    }
  }

  lemma {:induction false} DirectAtMost(p: Plan, n: nat, moves: seq<Move>, from: int, to: int, key: Key)
    requires p.Valid() && NeverMore(p, n, moves)
    ensures CountOf(Beside(Ran(p, n, moves), from, to, key)) <= CountOf(Below(Ran(p, n, moves), from, to, key))
    decreases |moves|
  {
    hide Moved, Below, Beside, NoMore, CountOf;
    if moves == [] {
      NothingYet(n, from, to, key);
    } else {
      DirectAtMost(p, n, moves[..|moves| - 1], from, to, key);
      MoveAtMost(p, Ran(p, n, moves[..|moves| - 1]), moves[|moves| - 1], from, to, key);
    }
  }

  /** An observation that only the upstream store takes in leaves the direct store behind at its
      pane and series. */
  lemma {:induction false} FallsBehind(p: Plan, s: Stages, m: Move) returns (e: Entry)
    requires p.Valid() && m.Feed? && m.up < |s.ups| && UpTakes(p, s, m) && !DirectTakes(p, s, m)
    ensures CountOf(Beside(Moved(p, s, m), e.start, e.start + 1, e.key)) == CountOf(Beside(s, e.start, e.start + 1, e.key))
    ensures CountOf(Below(Moved(p, s, m), e.start, e.start + 1, e.key)) == CountOf(Below(s, e.start, e.start + 1, e.key)) + 1
  {
    MoveFolds(p, s, m, 0, 0, []);
    e := EntryFor(p, m.o);
    MoveFolds(p, s, m, e.start, e.start + 1, e.key);
    OneEntry(p, m.o);
    hide *;
    SplitGrowth(Below(s, e.start, e.start + 1, e.key), Below(Moved(p, s, m), e.start, e.start + 1, e.key), Range([e], e.start, e.start + 1, e.key), UpTakes(p, s, m));
    SplitGrowth(Beside(s, e.start, e.start + 1, e.key), Beside(Moved(p, s, m), e.start, e.start + 1, e.key), Range([e], e.start, e.start + 1, e.key), DirectTakes(p, s, m));
  }

  lemma {:induction false} SplitGrowth(before: seq<Entry>, after: seq<Entry>, more: seq<Entry>, taken: bool)
    requires Grows(before, after, more, taken)
    ensures CountOf(after) == CountOf(before) + if taken then CountOf(more) else 0
  {
    hide CountOf, ItemsOf;
  }

  lemma {:induction false} OneEntry(p: Plan, o: Observation)
    requires p.Valid() && o.sample.Some?
    ensures var e := EntryFor(p, o); CountOf(Range([e], e.start, e.start + 1, e.key)) == 1
  {
    hide KeyFor, PaneLabels;
    var e := EntryFor(p, o);
    assert [e][..0] == [];
    assert Range([e], e.start, e.start + 1, e.key) == [] + [e];
    FoldOne(e);
  }

  lemma {:induction false} SomewhereBehind(p: Plan, n: nat, moves: seq<Move>) returns (e: Entry)
    requires p.Valid() && NeverMore(p, n, moves) && !SameVerdicts(p, n, moves)
    ensures CountOf(Beside(Ran(p, n, moves), e.start, e.start + 1, e.key)) < CountOf(Below(Ran(p, n, moves), e.start, e.start + 1, e.key))
    decreases |moves|
  {
    hide Moved, Below, Beside, CountOf, UpTakes, DirectTakes;
    var init, m := moves[..|moves| - 1], moves[|moves| - 1];
    var s := Ran(p, n, init);
    if SameVerdicts(p, n, init) {
      e := FallsBehind(p, s, m);
      DirectAtMost(p, n, init, e.start, e.start + 1, e.key);
    } else {
      e := SomewhereBehind(p, n, init);
      MoveAtMost(p, s, m, e.start, e.start + 1, e.key);
    }
  }

  /** A direct store that takes in nothing more than the upstream stores holds everywhere what they
      hold exactly when it refuses nothing that they take in. */
  lemma {:induction false} DirectExactlyWhen(p: Plan, n: nat, moves: seq<Move>)
    requires p.Valid() && NeverMore(p, n, moves)
    ensures SameVerdicts(p, n, moves)
      <==> forall from: int, to: int, key: Key :: SameFold(Beside(Ran(p, n, moves), from, to, key), Below(Ran(p, n, moves), from, to, key))
  {
    hide Ran, Below, Beside, CountOf, ItemsOf;
    var s := Ran(p, n, moves);
    if SameVerdicts(p, n, moves) {
      forall from: int, to: int, key: Key
        ensures SameFold(Beside(s, from, to, key), Below(s, from, to, key))
      {
        DirectIsFlat(p, n, moves, from, to, key);
      }
    } else {
      var e := SomewhereBehind(p, n, moves);
      assert !SameFold(Beside(s, e.start as int, e.start as int + 1, e.key), Below(s, e.start as int, e.start as int + 1, e.key));
    }
  }

  // ---------- answers ----------

  /** Two answers for a series agree in their window, sketch and count. */
  ghost predicate SameAnswer(a: Envelope, b: Envelope) {
    a.windowStartMs == b.windowStartMs && a.windowEndMs == b.windowEndMs && a.payload == b.payload && a.count == b.count && a.metricName == b.metricName
  }

  ghost predicate SameAnswers(a: map<Key, Envelope>, b: map<Key, Envelope>) {
    a.Keys == b.Keys && forall k :: k in a.Keys * b.Keys ==> SameAnswer(a[k], b[k])
  }

  /** Two stores hold the same in a range, series by series. */
  ghost predicate SameRanges(x: seq<Entry>, y: seq<Entry>, from: u64, to: u64) {
    forall key: Key :: SameFold(Range(x, from, to, key), Range(y, from, to, key))
  }

  /** Every pane of a range that holds anything has arrived. */
  ghost predicate AllComplete(p: Plan, s: Stages, from: u64, to: u64)
    requires p.Valid()
  {
    forall key: Key :: Complete(s.origins, EntriesOf(s.ups), p.paneMs, from, to, key)
  }

  /** In every run in which both take the same observations in, the downstream store answers a range
      as the direct store does exactly when every upstream pane of the range that holds anything
      has been delivered and taken in. */
  lemma {:induction false} TwoStagesAnswerAsOne(p: Plan, n: nat, moves: seq<Move>, from: u64, to: u64, a: map<Key, Envelope>, b: map<Key, Envelope>)
    requires p.Valid() && SameVerdicts(p, n, moves) && from < to && from % p.paneMs == 0 && to % p.paneMs == 0
    requires IsAnswer(a, p.Cfg(p.down), Ran(p, n, moves).down, from, to) && IsAnswer(b, p.Cfg(p.direct), Ran(p, n, moves).direct, from, to)
    ensures SameAnswers(a, b) <==> AllComplete(p, Ran(p, n, moves), from, to)
  {
    hide *;
    DeliveredInEveryRun(p, n, moves);
    InvFacts(p, Ran(p, n, moves));
    AllCompleteWhen(p, n, moves, from, to);
    AnswersAgreeWhen(p, Ran(p, n, moves), from, to, a, b);
  }

  lemma {:induction false} AllCompleteWhen(p: Plan, n: nat, moves: seq<Move>, from: u64, to: u64)
    requires p.Valid() && SameVerdicts(p, n, moves) && from < to && from % p.paneMs == 0 && to % p.paneMs == 0
    ensures AllComplete(p, Ran(p, n, moves), from, to) <==> SameRanges(Ran(p, n, moves).down.entries, Ran(p, n, moves).direct.entries, from, to)
  {
    hide Ran, Complete, SameVerdicts, Range, SameFold;
    var s := Ran(p, n, moves);
    forall key: Key
      ensures Complete(s.origins, EntriesOf(s.ups), p.paneMs, from, to, key)
        <==> SameFold(Range(s.down.entries, from, to, key), Range(s.direct.entries, from, to, key))
    {
      CompleteWhen(p, n, moves, from, to, key);
    }
  }

  lemma {:induction false} CompleteWhen(p: Plan, n: nat, moves: seq<Move>, from: u64, to: u64, key: Key)
    requires p.Valid() && SameVerdicts(p, n, moves) && from < to && from % p.paneMs == 0 && to % p.paneMs == 0
    ensures var s := Ran(p, n, moves);
      Complete(s.origins, EntriesOf(s.ups), p.paneMs, from, to, key)
      <==> SameFold(Range(s.down.entries, from, to, key), Range(s.direct.entries, from, to, key))
  {
    FlatInEveryRun(p, n, moves, from, to, key);
    DirectIsFlat(p, n, moves, from, to, key);
    hide Ran, Complete, SameVerdicts, Range, ItemsOf, CountOf;
  }

  lemma {:induction false} AnswersAgreeWhen(p: Plan, s: Stages, from: u64, to: u64, a: map<Key, Envelope>, b: map<Key, Envelope>)
    requires p.Valid() && Weighty(s.down.entries) && Weighty(s.direct.entries)
    requires IsAnswer(a, p.Cfg(p.down), s.down, from, to) && IsAnswer(b, p.Cfg(p.direct), s.direct, from, to)
    ensures SameAnswers(a, b) <==> SameRanges(s.down.entries, s.direct.entries, from, to)
  {
    hide Weighty, Range, ItemsOf, CountOf, SameFold, IsAnswer, SameAnswer;
    if SameRanges(s.down.entries, s.direct.entries, from, to) {
      forall key: Key
        ensures key in a.Keys <==> key in b.Keys
      {
        AnswerAgreesWhen(p, s, from, to, a, b, key);
      }
      assert a.Keys == b.Keys;
      forall key | key in a.Keys * b.Keys
        ensures SameAnswer(a[key], b[key])
      {
        AnswerAgreesWhen(p, s, from, to, a, b, key);
      }
      assert SameAnswers(a, b);
    } else if SameAnswers(a, b) {
      forall key: Key
        ensures SameFold(Range(s.down.entries, from, to, key), Range(s.direct.entries, from, to, key))
      {
        AnswerAgreesWhen(p, s, from, to, a, b, key);
        assert key in a.Keys <==> key in b.Keys;
        assert key in a.Keys ==> key in a.Keys * b.Keys;
      }
    }
  }

  lemma {:induction false} AnswerAgreesWhen(p: Plan, s: Stages, from: u64, to: u64, a: map<Key, Envelope>, b: map<Key, Envelope>, key: Key)
    requires p.Valid() && Weighty(s.down.entries) && Weighty(s.direct.entries)
    requires IsAnswer(a, p.Cfg(p.down), s.down, from, to) && IsAnswer(b, p.Cfg(p.direct), s.direct, from, to)
    ensures SameFold(Range(s.down.entries, from, to, key), Range(s.direct.entries, from, to, key))
      <==> (key in a <==> key in b) && (key in a && key in b ==> SameAnswer(a[key], b[key]))
  {
    hide Weighty, Range, ItemsOf, CountOf, KeyFor, PaneLabels;
    RangeCounts(s.down.entries, from, to, key);
    RangeCounts(s.direct.entries, from, to, key);
    FoldNone();
  }
}
