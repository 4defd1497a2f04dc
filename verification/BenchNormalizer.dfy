/** Input normalization: incoming points cut into batches of one window each. */
module BenchNormalizer {
  import opened Basics
  import opened BenchStreams

  datatype NormalizedBatch = NormalizedBatch(meta: Meta, firstIndex: nat, count: nat)

  /** Where a source stands: in a window, at an offset. */
  datatype Pos = Pos(window: nat, offset: nat)

  function After(p: Pos, count: nat, points: nat): Pos {
    if p.offset + count == points then Pos(p.window + 1, 0) else Pos(p.window, p.offset + count)
  }

  /** How many points are behind a place. */
  function Total(p: Pos, points: nat): nat {
    p.window * points + p.offset
  }

  lemma {:induction false} AfterTotal(p: Pos, count: nat, points: nat)
    ensures Total(After(p, count, points), points) == Total(p, points) + count
  {
    assert (p.window + 1) * points == p.window * points + points;
  }

  /** A batch of the values at its place, inside one window. */
  ghost predicate Cut(points: nat, batch: nat, source: nat, n: NormalizedBatch) {
    && n.meta.source == source && n.firstIndex == source * points + n.meta.offset + 1
    && 0 < n.count <= batch && n.meta.offset + n.count <= points
  }

  /** The batches cover everything from one place to another, in order. */
  ghost predicate Tiles(points: nat, batch: nat, source: nat, batches: seq<NormalizedBatch>, from: Pos, to: Pos) {
    if batches == [] then from == to
    else
      var last := batches[|batches| - 1];
      && Tiles(points, batch, source, batches[..|batches| - 1], from, Pos(last.meta.window, last.meta.offset))
      && Cut(points, batch, source, last)
      && to == After(Pos(last.meta.window, last.meta.offset), last.count, points)
  }

  lemma {:induction false} TilesPush(points: nat, batch: nat, source: nat, batches: seq<NormalizedBatch>, from: Pos, at: Pos, n: NormalizedBatch)
    requires Tiles(points, batch, source, batches, from, at) && Cut(points, batch, source, n) && n.meta == Meta(at.window, source, at.offset)
    ensures Tiles(points, batch, source, batches + [n], from, After(at, n.count, points))
  {
    assert (batches + [n])[..|batches|] == batches;
  }

  /** One call after another covers everything from the first start to the last end. */
  lemma {:induction false} TilesConcat(points: nat, batch: nat, source: nat, x: seq<NormalizedBatch>, y: seq<NormalizedBatch>, from: Pos, mid: Pos, to: Pos)
    requires Tiles(points, batch, source, x, from, mid) && Tiles(points, batch, source, y, mid, to)
    ensures Tiles(points, batch, source, x + y, from, to)
    decreases |y|
  {
    if y == [] {
      assert x + y == x;
    } else {
      var last := y[|y| - 1];
      TilesConcat(points, batch, source, x, y[..|y| - 1], from, mid, Pos(last.meta.window, last.meta.offset));
      assert (x + y)[..|x + y| - 1] == x + y[..|y| - 1];
    }
  }

  class InputNormalizer {
    const points: nat
    const batch: nat
    const source: nat
    var window: nat
    var offset: nat

    ghost predicate Valid()
      reads this
    {
      batch > 0 && offset < points
    }

    ghost function At(): Pos
      reads this
    {
      Pos(window, offset)
    }

    constructor (source: nat, points: nat, batch: nat)
      requires points > 0 && batch > 0
      ensures Valid() && At() == Pos(0, 0) && this.points == points && this.batch == batch && this.source == source
    {
      this.points, this.batch, this.source := points, batch, source;
      window, offset := 0, 0;
    }

    /** Cut `count` incoming points into batches that never straddle a window. */
    method Normalize(count: nat) returns (batches: seq<NormalizedBatch>)
      requires Valid()
      modifies this
      ensures Valid()
      ensures Tiles(points, batch, source, batches, old(At()), At())
      ensures Total(At(), points) == Total(old(At()), points) + count
    {
      hide Tiles, Total;
      batches := [];
      NothingTiles(points, batch, source, At());
      var left := count;
      while left > 0
        invariant 0 <= left && Valid() && Tiles(points, batch, source, batches, old(At()), At())
        invariant Total(At(), points) == Total(old(At()), points) + count - left
      {
        var take := Min(Min(left, batch), points - offset);
        var n := NormalizedBatch(Meta(window, source, offset), source * points + offset + 1, take);
        TilesPush(points, batch, source, batches, old(At()), At(), n);
        AfterTotal(At(), take, points);
        batches := batches + [n];
        offset := offset + take;
        left := left - take;
        if offset == points {
          window := window + 1;
          offset := 0;
        }
      }
    }
  }

  lemma {:induction false} NothingTiles(points: nat, batch: nat, source: nat, p: Pos)
    ensures Tiles(points, batch, source, [], p, p)
  {
  }
}
