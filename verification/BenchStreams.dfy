/** The benchmark's streams: values batched a window at a time, the lanes they fill, and the
    bounded interleaving of two such streams into one merge. */
module BenchStreams {
  import opened Basics

  const MAX_PENDING := 1024

  datatype Meta = Meta(window: nat, source: nat, offset: nat)

  datatype Kind = Tumbling | Rolling

  /** The labels of an answer: its kind, and its quantile or rank by number. */
  datatype Answer = Answer(kind: Kind, slot: nat)

  datatype Point<T> = Point(meta: Meta, value: T, answer: Option<Answer>)

  type Message<T> = seq<Point<T>>

  datatype Error = EmptyBatch | OutOfOrder | MixedMeta | WrongSource | MissingBatch | WindowOverflow | PendingBound | BadAnswer

  datatype Role = Branch | Merge | Estimate

  // ---------- messages ----------

  function MessageOf<T>(values: seq<T>, meta: Meta): Message<T> {
    seq(|values|, i requires 0 <= i < |values| => Point(meta, values[i], None))
  }

  function Values<T>(msg: Message<T>): (r: seq<T>)
    ensures |r| == |msg|
  {
    seq(|msg|, i requires 0 <= i < |msg| => msg[i].value)
  }

  predicate SameMeta<T(==)>(msg: Message<T>) {
    forall i :: 0 <= i < |msg| ==> msg[i].meta == msg[0].meta
  }

  lemma {:induction false} ValuesOf<T>(values: seq<T>, meta: Meta)
    ensures Values(MessageOf(values, meta)) == values
    ensures SameMeta(MessageOf(values, meta)) && |MessageOf(values, meta)| == |values|
    ensures values != [] ==> MessageOf(values, meta)[0].meta == meta
  {
  }

  /** Values in batches, each stamped with its offset. */
  function Chunked<T(==)>(values: seq<T>, batch: nat, window: nat, source: nat, offset: nat): seq<Message<T>>
    requires batch > 0
    decreases |values|
  {
    if values == [] then []
    else
      var n := Min(batch, |values|);
      [MessageOf(values[..n], Meta(window, source, offset))] + Chunked(values[n..], batch, window, source, offset + n)
  }

  /** Cut values into batches; batch `i` starts at `i * batch`. */
  method Chunks<T(==)>(values: seq<T>, batch: nat, window: nat, source: nat) returns (out: seq<Message<T>>)
    requires batch > 0
    ensures out == Chunked(values, batch, window, source, 0)
  {
    hide MessageOf;
    out := [];
    var rest, i := values, 0;
    while rest != []
      invariant out + Chunked(rest, batch, window, source, i * batch) == Chunked(values, batch, window, source, 0)
      decreases |rest|
    {
      var n := Min(batch, |rest|);
      ghost var before := out;
      out := out + [MessageOf(rest[..n], Meta(window, source, i * batch))];
      assert before + Chunked(rest, batch, window, source, i * batch)
          == out + Chunked(rest[n..], batch, window, source, i * batch + n);
      rest := rest[n..];
      assert (i + 1) * batch == i * batch + batch;
      i := i + 1;
    }
  }

  // ---------- lanes ----------

  /** All that has come from one source: the finished windows, and the open one. */
  datatype Lane<T> = Lane(full: seq<seq<T>>, open: seq<T>)

  function NoLane<T>(): Lane<T> {
    Lane([], [])
  }

  function Took<T>(lane: Lane<T>, values: seq<T>, size: nat): Lane<T> {
    if |lane.open| + |values| == size then Lane(lane.full + [lane.open + values], []) else Lane(lane.full, lane.open + values)
  }

  /** The part of one window that has come. */
  function Part<T>(lane: Lane<T>, w: nat): seq<T> {
    if w < |lane.full| then lane.full[w] else if w == |lane.full| then lane.open else []
  }

  /** How many windows have begun. */
  function Begun<T>(lane: Lane<T>): nat {
    |lane.full| + if |lane.open| == 0 then 0 else 1
  }

  /** Whether a batch continues its lane. */
  predicate Continues<T>(lane: Lane<T>, offset: nat) {
    offset == |lane.open|
  }

  // ---------- a lane fed by a stream ----------

  /** What a source sends, window by window. */
  type Runs<!T> = nat -> seq<T>

  ghost predicate AllOfSize<T(!new)>(runs: Runs<T>, size: nat) {
    forall w: nat :: |runs(w)| == size
  }

  /** All messages of the first `n` windows. */
  ghost function Stream<T>(runs: Runs<T>, batch: nat, source: nat, n: nat): seq<Message<T>>
    requires batch > 0
  {
    if n == 0 then [] else Stream(runs, batch, source, n - 1) + Chunked(runs(n - 1), batch, n - 1, source, 0)
  }

  lemma {:induction false} StreamGrows<T>(runs: Runs<T>, batch: nat, source: nat, m: nat, n: nat)
    requires batch > 0 && m <= n
    ensures Stream(runs, batch, source, m) <= Stream(runs, batch, source, n)
    decreases n
  {
    if m < n {
      StreamGrows(runs, batch, source, m, n - 1);
    }
  }

  /** The first `n` windows. */
  ghost function Windows<T>(runs: Runs<T>, n: nat): (r: seq<seq<T>>)
    ensures |r| == n && forall i :: 0 <= i < n ==> r[i] == runs(i)
  {
    seq(n, i requires 0 <= i < n => runs(i))
  }

  lemma {:induction false} WindowsPush<T>(runs: Runs<T>, n: nat)
    ensures Windows(runs, n) + [runs(n)] == Windows(runs, n + 1)
  {
  }

  /** `msgs` of the stream have come; the lane holds their values. */
  ghost predicate Sending<T(!new)>(msgs: seq<Message<T>>, lane: Lane<T>, runs: Runs<T>, batch: nat, source: nat)
    requires batch > 0
  {
    var w, o := |lane.full|, |lane.open|;
    && lane.full == Windows(runs, w) && o < |runs(w)| && lane.open == runs(w)[..o]
    && Stream(runs, batch, source, w) <= msgs
    && msgs + Chunked(runs(w)[o..], batch, w, source, o) == Stream(runs, batch, source, w + 1)
  }

  lemma {:induction false} SendingStart<T(!new)>(runs: Runs<T>, batch: nat, source: nat)
    requires batch > 0 && runs(0) != []
    ensures Sending([], NoLane(), runs, batch, source)
  {
    var run := runs(0);
    assert Windows(runs, 0) == [];
    assert run[0..] == run && run[..0] == [];
    assert Stream(runs, batch, source, 0) == [];
    assert Stream(runs, batch, source, 1) == [] + Chunked(run, batch, 0, source, 0);
  }

  /** The next message of the stream is the next batch of the open window. */
  lemma {:induction false} NextMessage<T(!new)>(msgs: seq<Message<T>>, lane: Lane<T>, runs: Runs<T>, batch: nat, source: nat, m: Message<T>, n: nat)
    requires batch > 0 && Sending(msgs, lane, runs, batch, source)
    requires msgs + [m] <= Stream(runs, batch, source, n)
    ensures var w, o := |lane.full|, |lane.open|;
      var run := runs(w);
      var k := Min(batch, |run| - o);
      && m == MessageOf(run[o..][..k], Meta(w, source, o))
      && Chunked(run[o..], batch, w, source, o) == [m] + Chunked(run[o + k..], batch, w, source, o + k)
  {
    var w, o := |lane.full|, |lane.open|;
    var run := runs(w);
    hide MessageOf;
    if n <= w {
      StreamGrows(runs, batch, source, n, w);
      assert false;
    }
    StreamGrows(runs, batch, source, w + 1, n);
    var k := Min(batch, |run| - o);
    assert run[o..][k..] == run[o + k..];
    var rest := Chunked(run[o..], batch, w, source, o);
    assert rest[0] == MessageOf(run[o..][..k], Meta(w, source, o));
    assert Stream(runs, batch, source, w + 1)[|msgs|] == rest[0];
    assert Stream(runs, batch, source, n)[|msgs|] == m;
  }

  lemma {:induction false} SendingStep<T(!new)>(msgs: seq<Message<T>>, lane: Lane<T>, runs: Runs<T>, size: nat, batch: nat, source: nat, m: Message<T>, n: nat)
    requires batch > 0 && Sending(msgs, lane, runs, batch, source) && AllOfSize(runs, size)
    requires msgs + [m] <= Stream(runs, batch, source, n)
    ensures m != [] && m[0].meta == Meta(|lane.full|, source, |lane.open|) && SameMeta(m)
    ensures |lane.open| + |m| <= size
    ensures Values(m) <= runs(|lane.full|)[|lane.open|..]
    ensures Sending(msgs + [m], Took(lane, Values(m), size), runs, batch, source)
  {
    var w, o := |lane.full|, |lane.open|;
    var run := runs(w);
    assert |run| == size && |runs(w + 1)| == size;
    var k := Min(batch, size - o);
    NextMessage(msgs, lane, runs, batch, source, m, n);
    ValuesOf(run[o..][..k], Meta(w, source, o));
    SendingIs(msgs, lane, runs, batch, source);
    StepShape(msgs, lane, runs, batch, source, m, k);
    hide MessageOf, Values, Chunked, Stream, Windows;
    if o + k == size {
      FullStep(msgs, lane, runs, batch, source, m);
    } else {
      PartStep(msgs, lane, runs, batch, source, m, k);
    }
    hide Sending, Took;
  }

  lemma {:induction false} StepShape<T(!new)>(msgs: seq<Message<T>>, lane: Lane<T>, runs: Runs<T>, batch: nat, source: nat, m: Message<T>, k: nat)
    requires batch > 0 && Sending(msgs, lane, runs, batch, source)
    requires var w, o := |lane.full|, |lane.open|;
      && o + k <= |runs(w)| && Values(m) == runs(w)[o..][..k]
      && Chunked(runs(w)[o..], batch, w, source, o) == [m] + Chunked(runs(w)[o + k..], batch, w, source, o + k)
    ensures var w, o := |lane.full|, |lane.open|;
      && lane.open + Values(m) == runs(w)[..o + k]
      && lane.full == Windows(runs, w)
      && (msgs + [m]) + Chunked(runs(w)[o + k..], batch, w, source, o + k) == Stream(runs, batch, source, w + 1)
  {
    hide Values, Chunked, Stream, Windows;
    var w, o := |lane.full|, |lane.open|;
    var rest := Chunked(runs(w)[o + k..], batch, w, source, o + k);
    assert msgs + ([m] + rest) == (msgs + [m]) + rest;
  }

  lemma {:induction false} PartStep<T(!new)>(msgs: seq<Message<T>>, lane: Lane<T>, runs: Runs<T>, batch: nat, source: nat, m: Message<T>, k: nat)
    requires batch > 0 && Sending(msgs, lane, runs, batch, source)
    requires var w, o := |lane.full|, |lane.open|;
      && o + k < |runs(w)| && |Values(m)| == k && lane.open + Values(m) == runs(w)[..o + k]
      && (msgs + [m]) + Chunked(runs(w)[o + k..], batch, w, source, o + k) == Stream(runs, batch, source, w + 1)
    ensures Sending(msgs + [m], Took(lane, Values(m), |runs(|lane.full|)|), runs, batch, source)
  {
    hide Values, Chunked, Stream, Windows;
    assert Stream(runs, batch, source, |lane.full|) <= msgs + [m];
  }

  lemma {:induction false} FullStep<T(!new)>(msgs: seq<Message<T>>, lane: Lane<T>, runs: Runs<T>, batch: nat, source: nat, m: Message<T>)
    requires batch > 0 && lane.full == Windows(runs, |lane.full|)
    requires var w := |lane.full|;
      && runs(w + 1) != [] && lane.open + Values(m) == runs(w)
      && (msgs + [m]) + Chunked([], batch, w, source, |runs(w)|) == Stream(runs, batch, source, w + 1)
    ensures Sending(msgs + [m], Took(lane, Values(m), |runs(|lane.full|)|), runs, batch, source)
  {
    hide Values;
    var w := |lane.full|;
    var next := runs(w + 1);
    WindowsPush(runs, w);
    assert msgs + [m] + [] == msgs + [m];
    assert next[0..] == next && next[..0] == [];
    assert Stream(runs, batch, source, w + 2) == Stream(runs, batch, source, w + 1) + Chunked(next, batch, w + 1, source, 0);
  }

  /** A lane that has the whole stream has finished every window. */
  lemma {:induction false} StreamEnds<T(!new)>(lane: Lane<T>, runs: Runs<T>, size: nat, batch: nat, source: nat, n: nat)
    requires batch > 0 && size > 0 && AllOfSize(runs, size) && Sending(Stream(runs, batch, source, n), lane, runs, batch, source)
    ensures |lane.full| == n
  {
    var w, o := |lane.full|, |lane.open|;
    assert Chunked(runs(w)[o..], batch, w, source, o) != [];
    assert |runs(n)| == size;
    if w + 1 <= n {
      StreamGrows(runs, batch, source, w + 1, n);
      assert false;
    }
    if n < w {
      StreamGrows(runs, batch, source, n + 1, w);
      StreamLonger(runs, batch, source, n);
      assert false;
    }
  }

  lemma {:induction false} StreamLonger<T>(runs: Runs<T>, batch: nat, source: nat, n: nat)
    requires batch > 0 && runs(n) != []
    ensures |Stream(runs, batch, source, n + 1)| > |Stream(runs, batch, source, n)|
  {
    assert Chunked(runs(n), batch, n, source, 0) != [];
  }

  lemma {:induction false} SendingIs<T(!new)>(msgs: seq<Message<T>>, lane: Lane<T>, runs: Runs<T>, batch: nat, source: nat)
    requires batch > 0 && Sending(msgs, lane, runs, batch, source)
    ensures forall i :: 0 <= i < |lane.full| ==> lane.full[i] == runs(i)
    ensures lane.open <= runs(|lane.full|) && |lane.open| < |runs(|lane.full|)|
  {
  }

  // ---------- two interleaved lanes ----------

  /** The messages of one source. */
  ghost function From<T>(feed: seq<Message<T>>, source: nat): seq<Message<T>> {
    if feed == [] then []
    else
      var m := feed[|feed| - 1];
      From(feed[..|feed| - 1], source) + if |m| > 0 && m[0].meta.source == source then [m] else []
  }

  /** Two streams delivered in any interleaving, each in order and not necessarily to its end. */
  ghost predicate Interleaves<T>(feed: seq<Message<T>>, left: seq<Message<T>>, right: seq<Message<T>>) {
    && From(feed, 0) <= left && From(feed, 1) <= right
    && forall i :: 0 <= i < |feed| ==> |feed[i]| > 0 && feed[i][0].meta.source < 2
  }

  lemma {:induction false} PrefixInterleaves<T>(feed: seq<Message<T>>, left: seq<Message<T>>, right: seq<Message<T>>)
    requires Interleaves(feed, left, right) && feed != []
    ensures Interleaves(feed[..|feed| - 1], left, right)
  {
  }

  ghost function LaneAfter<T>(msgs: seq<Message<T>>, size: nat): Lane<T> {
    if msgs == [] then NoLane() else Took(LaneAfter(msgs[..|msgs| - 1], size), Values(msgs[|msgs| - 1]), size)
  }

  /** The windows begun by either lane and not finished by both. */
  ghost function Unfinished<T>(l: Lane<T>, r: Lane<T>): int {
    Max(Begun(l), Begun(r)) - Min(|l.full|, |r.full|)
  }

  /** The backlog after a feed, when windows have `size0` and `size1` values in each lane. */
  ghost function Backlog<T>(feed: seq<Message<T>>, size0: nat, size1: nat): int {
    Unfinished(LaneAfter(From(feed, 0), size0), LaneAfter(From(feed, 1), size1))
  }

  ghost predicate WithinBound<T>(feed: seq<Message<T>>, size0: nat, size1: nat) {
    forall n :: 0 <= n <= |feed| ==> BoundedAt(feed, n, size0, size1)
  }

  ghost predicate BoundedAt<T>(feed: seq<Message<T>>, n: nat, size0: nat, size1: nat)
    requires n <= |feed|
  {
    Backlog(feed[..n], size0, size1) <= MAX_PENDING
  }

  lemma {:induction false} BoundPrefix<T>(feed: seq<Message<T>>, size0: nat, size1: nat)
    requires feed != []
    ensures WithinBound(feed, size0, size1)
      <==> WithinBound(feed[..|feed| - 1], size0, size1) && Backlog(feed, size0, size1) <= MAX_PENDING
  {
    hide Backlog;
    var init := feed[..|feed| - 1];
    forall n | 0 <= n <= |init|
      ensures BoundedAt(init, n, size0, size1) <==> BoundedAt(feed, n, size0, size1)
    {
      assert init[..n] == feed[..n];
    }
    assert feed[..|feed|] == feed;
    assert BoundedAt(feed, |feed|, size0, size1) <==> Backlog(feed, size0, size1) <= MAX_PENDING;
    hide BoundedAt;
  }

  lemma {:induction false} LastWithin<T>(feed: seq<Message<T>>, size0: nat, size1: nat)
    requires WithinBound(feed, size0, size1)
    ensures Backlog(feed, size0, size1) <= MAX_PENDING
  {
    assert BoundedAt(feed, |feed|, size0, size1);
    assert feed[..|feed|] == feed;
  }

  lemma {:induction false} NoBacklog<T>(size0: nat, size1: nat)
    ensures WithinBound<T>([], size0, size1)
  {
  }

  ghost function Span(lo: nat, hi: nat): (r: set<nat>)
    ensures forall x :: x in r <==> lo <= x < hi
    ensures |r| == if lo <= hi then hi - lo else 0
    decreases hi
  {
    if lo >= hi then {} else Span(lo, hi - 1) + {hi - 1}
  }

  ghost function Finished<T>(l: Lane<T>, r: Lane<T>): nat {
    Min(|l.full|, |r.full|)
  }

  /** The windows a merge of the two lanes holds. */
  ghost function Backlogged<T>(l: Lane<T>, r: Lane<T>): set<nat> {
    Span(Finished(l, r), Max(Begun(l), Begun(r)))
  }

  ghost predicate LaneAt<T(!new)>(feed: seq<Message<T>>, lane: Lane<T>, runs: Runs<T>, size: nat, batch: nat, source: nat)
    requires batch > 0
  {
    lane == LaneAfter(From(feed, source), size) && Sending(From(feed, source), lane, runs, batch, source)
  }

  lemma {:induction false} LaneStart<T(!new)>(runs: Runs<T>, size: nat, batch: nat, source: nat)
    requires batch > 0 && size > 0 && AllOfSize(runs, size)
    ensures LaneAt([], NoLane(), runs, size, batch, source)
  {
    assert |runs(0)| == size;
    SendingStart(runs, batch, source);
  }

  /** A delivered message fits its lane, and leaves the other alone. */
  lemma {:induction false} LaneNext<T(!new)>(feed: seq<Message<T>>, m: Message<T>, lane: Lane<T>, runs: Runs<T>, size: nat, batch: nat, source: nat, n: nat)
    requires batch > 0 && m != [] && LaneAt(feed, lane, runs, size, batch, source) && AllOfSize(runs, size)
    requires From(feed + [m], source) <= Stream(runs, batch, source, n)
    ensures m[0].meta.source != source ==> LaneAt(feed + [m], lane, runs, size, batch, source)
    ensures m[0].meta.source == source ==>
      && m[0].meta == Meta(|lane.full|, source, |lane.open|) && SameMeta(m)
      && |lane.open| + |m| <= size
      && Values(m) <= runs(|lane.full|)[|lane.open|..]
      && LaneAt(feed + [m], Took(lane, Values(m), size), runs, size, batch, source)
  {
    assert (feed + [m])[..|feed|] == feed;
    hide Took, Values, AllOfSize;
    if m[0].meta.source == source {
      var msgs := From(feed, source);
      assert From(feed + [m], source) == msgs + [m];
      assert (msgs + [m])[..|msgs|] == msgs;
      hide Sending;
      SendingStep(msgs, lane, runs, size, batch, source, m, n);
    } else {
      assert From(feed, source) + [] == From(feed, source);
    }
  }

  lemma {:induction false} LanesBacklog<T(!new)>(feed: seq<Message<T>>, l: Lane<T>, r: Lane<T>, runs0: Runs<T>, runs1: Runs<T>, size0: nat, size1: nat, batch: nat)
    requires batch > 0 && LaneAt(feed, l, runs0, size0, batch, 0) && LaneAt(feed, r, runs1, size1, batch, 1)
    ensures Backlog(feed, size0, size1) == Unfinished(l, r)
  {
    hide Sending, Begun;
  }

  /** In numbers: lane `x` at window `w` has begun `bx` and comes to have finished `done`;
      lane `y` has finished `fy` and begun `sy`. */
  lemma {:induction false} FedNumbers(w: nat, bx: nat, done: nat, fy: nat, sy: nat, pending: set<nat>)
    requires w <= bx <= w + 1 && fy <= sy <= fy + 1 && w <= done <= w + 1
    requires pending == Span(Min(w, fy), Max(bx, sy))
    ensures w < done && w < fy ==> pending + {w} - {w} == Span(Min(done, fy), Max(w + 1, sy))
    ensures !(w < done && w < fy) ==> pending + {w} == Span(Min(done, fy), Max(w + 1, sy))
  {
    hide Span;
    var lo, hi := Min(done, fy), Max(w + 1, sy);
    if w < done && w < fy {
      forall x: nat
        ensures x in pending + {w} - {w} <==> x in Span(lo, hi)
      {
      }
    } else {
      forall x: nat
        ensures x in pending + {w} <==> x in Span(lo, hi)
      {
      }
    }
  }

  lemma {:induction false} BegunTook<T>(x: Lane<T>, values: seq<T>, size: nat)
    requires values != [] && |x.open| + |values| <= size
    ensures |x.full| <= Begun(x) <= |x.full| + 1 == Begun(Took(x, values, size))
    ensures |x.full| <= |Took(x, values, size).full| <= |x.full| + 1
  {
  }

  lemma {:induction false} FedSizes(w: nat, bx: nat, done: nat, fy: nat, sy: nat)
    requires w <= bx <= w + 1 && fy <= sy <= fy + 1 && w <= done <= w + 1
    ensures |Span(Min(done, fy), Max(w + 1, sy))| == Max(w + 1, sy) - Min(done, fy)
    ensures w < done && w < fy ==> Max(w + 1, sy) - Min(done, fy) <= Max(bx, sy) - Min(w, fy)
    ensures Min(done, fy) == if w < done && w < fy then w + 1 else Min(w, fy)
  {
    hide Span;
  }

  lemma {:induction false} BegunIs<T>(l: Lane<T>)
    ensures |l.full| <= Begun(l) <= |l.full| + 1
  {
  }

  lemma {:induction false} UnfinishedIs<T>(l: Lane<T>, r: Lane<T>)
    ensures Unfinished(l, r) == Max(Begun(l), Begun(r)) - Min(|l.full|, |r.full|)
  {
  }

  /** Feeding lane `x` at window `w`: if that finishes the window, the backlog does not grow. */
  lemma {:induction false} FedSpan<T>(x: Lane<T>, y: Lane<T>, values: seq<T>, size: nat, pending: set<nat>)
    requires values != [] && |x.open| + |values| <= size
    requires pending == Span(Min(|x.full|, |y.full|), Max(Begun(x), Begun(y)))
    ensures var w, x' := |x.full|, Took(x, values, size);
      var span := Span(Min(|x'.full|, |y.full|), Max(Begun(x'), Begun(y)));
      && |span| == Unfinished(x', y)
      && (w < |x'.full| && w < |y.full| ==> pending + {w} - {w} == span && Unfinished(x', y) <= Unfinished(x, y))
      && (!(w < |x'.full| && w < |y.full|) ==> pending + {w} == span)
      && Min(|x'.full|, |y.full|) == (if w < |x'.full| && w < |y.full| then w + 1 else Min(|x.full|, |y.full|))
      && (w < |x'.full| && w < |y.full| ==> Min(|x.full|, |y.full|) == w)
  {
    BegunTook(x, values, size);
    BegunIs(y);
    hide Begun, Took, Span, Unfinished;
    var x' := Took(x, values, size);
    UnfinishedIs(x, y);
    UnfinishedIs(x', y);
    FedNumbers(|x.full|, Begun(x), |x'.full|, |y.full|, Begun(y), pending);
    FedSizes(|x.full|, Begun(x), |x'.full|, |y.full|, Begun(y));
  }

  /** Both lanes after one of them took a batch at window `w`, and what is pending then. */
  ghost predicate Fed<T>(l: Lane<T>, r: Lane<T>, l': Lane<T>, r': Lane<T>, w: nat, pending: set<nat>) {
    && |Backlogged(l', r')| == Unfinished(l', r')
    && (if w < |l'.full| && w < |r'.full| then
          && pending - {w} == Backlogged(l', r') && Unfinished(l', r') <= Unfinished(l, r)
          && Finished(l', r') == w + 1 && Finished(l, r) == w
        else
          pending == Backlogged(l', r') && Finished(l', r') == Finished(l, r))
  }

  lemma {:induction false} FedLeft<T>(l: Lane<T>, r: Lane<T>, values: seq<T>, size: nat, pending: set<nat>)
    requires values != [] && |l.open| + |values| <= size && pending == Backlogged(l, r)
    ensures Fed(l, r, Took(l, values, size), r, |l.full|, pending + {|l.full|})
  {
    FedSpan(l, r, values, size, pending);
    hide Span, Unfinished, Begun, Took;
  }

  lemma {:induction false} FedRight<T>(l: Lane<T>, r: Lane<T>, values: seq<T>, size: nat, pending: set<nat>)
    requires values != [] && |r.open| + |values| <= size && pending == Backlogged(l, r)
    ensures Fed(l, r, l, Took(r, values, size), |r.full|, pending + {|r.full|})
  {
    var r' := Took(r, values, size);
    assert Min(|l.full|, |r.full|) == Min(|r.full|, |l.full|) && Max(Begun(l), Begun(r)) == Max(Begun(r), Begun(l));
    assert Min(|l.full|, |r'.full|) == Min(|r'.full|, |l.full|) && Max(Begun(l), Begun(r')) == Max(Begun(r'), Begun(l));
    FedSpan(r, l, values, size, pending);
    hide Span, Begun, Took;
  }
}
