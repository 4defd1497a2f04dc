/** Exact data of one series and window, and its binary format. */
module ExactWindows {
  import opened Basics
  import opened Envelopes

  datatype ExactWindow = ExactWindow(values: seq<F64>, counts: map<Text, nat>, points: nat)

  const EmptyWindow := ExactWindow([], map[], 0)

  function CountIn(counts: map<Text, nat>, key: Text): nat {
    if key in counts then counts[key] else 0
  }

  function AddedCounts(a: map<Text, nat>, b: map<Text, nat>): map<Text, nat> {
    map k | k in a.Keys + b.Keys :: CountIn(a, k) + CountIn(b, k)
  }

  /** Both windows together. */
  function Merged(w: ExactWindow, other: ExactWindow): ExactWindow {
    ExactWindow(w.values + other.values, AddedCounts(w.counts, other.counts), w.points + other.points)
  }

  /** Add another source's window. */
  method Merge(w: ExactWindow, other: ExactWindow) returns (r: ExactWindow)
    ensures r == Merged(w, other)
  {
    var counts := MergeCounts(w.counts, other.counts);
    r := ExactWindow(w.values + other.values, counts, w.points + other.points);
  }

  method MergeCounts(a: map<Text, nat>, b: map<Text, nat>) returns (counts: map<Text, nat>)
    ensures counts == AddedCounts(a, b)
  {
    hide AddedPart;
    counts := a;
    var rest := b.Keys;
    PartStart(a, b);
    while rest != {}
      invariant rest <= b.Keys
      invariant AddedPart(counts, a, b, b.Keys - rest)
      decreases |rest|
    {
      var k :| k in rest;
      PartStep(counts, a, b, b.Keys - rest, k);
      assert b.Keys - (rest - {k}) == b.Keys - rest + {k};
      counts := counts[k := CountIn(counts, k) + b[k]];
      rest := rest - {k};
    }
    PartEnd(counts, a, b);
    assert b.Keys - rest == b.Keys;
  }

  /** `counts` is `a` with the counts of `b` added for the keys in `done`. */
  ghost predicate AddedPart(counts: map<Text, nat>, a: map<Text, nat>, b: map<Text, nat>, done: set<Text>) {
    && counts.Keys == a.Keys + done
    && forall k :: k in counts ==> counts[k] == CountIn(a, k) + if k in done then CountIn(b, k) else 0
  }

  lemma {:induction false} PartStart(a: map<Text, nat>, b: map<Text, nat>)
    ensures AddedPart(a, a, b, b.Keys - b.Keys)
  {
  }

  lemma {:induction false} PartStep(counts: map<Text, nat>, a: map<Text, nat>, b: map<Text, nat>, done: set<Text>, k: Text)
    requires AddedPart(counts, a, b, done) && k !in done && k in b
    ensures AddedPart(counts[k := CountIn(counts, k) + b[k]], a, b, done + {k})
  {
  }

  lemma {:induction false} PartEnd(counts: map<Text, nat>, a: map<Text, nat>, b: map<Text, nat>)
    ensures AddedPart(counts, a, b, b.Keys) ==> counts == AddedCounts(a, b)
  {
  }

  lemma {:induction false} AddNoCount(a: map<Text, nat>)
    ensures AddedCounts(a, map[]) == a
  {
  }

  /** The same data: values up to their order. */
  ghost predicate SameData(w: ExactWindow, other: ExactWindow) {
    multiset(w.values) == multiset(other.values) && w.counts == other.counts && w.points == other.points
  }

  // ---------- windows as collections of items ----------

  /** What one point adds to one series: a value, or an occurrence of an attribute value. */
  datatype Item = Value(value: F64) | Occurrence(key: Text)

  function AddItem(w: ExactWindow, item: Item): ExactWindow {
    match item
    case Value(v) => w.(values := w.values + [v], points := w.points + 1)
    case Occurrence(k) => w.(counts := w.counts[k := CountIn(w.counts, k) + 1], points := w.points + 1)
  }

  /** The window of a list of items. */
  function Holding(items: seq<Item>): ExactWindow {
    if items == [] then EmptyWindow else AddItem(Holding(items[..|items| - 1]), items[|items| - 1])
  }

  lemma {:induction false} AddItemToMerged(w: ExactWindow, other: ExactWindow, item: Item)
    ensures AddItem(Merged(w, other), item) == Merged(w, AddItem(other, item))
  {
    match item
    case Value(v) =>
      assert (w.values + other.values) + [v] == w.values + (other.values + [v]);
    case Occurrence(k) =>
      var sum := AddedCounts(w.counts, other.counts);
      assert AddedCounts(w.counts, other.counts[k := CountIn(other.counts, k) + 1]) == sum[k := CountIn(sum, k) + 1];
  }

  lemma {:induction false} HoldingConcat(a: seq<Item>, b: seq<Item>)
    ensures Holding(a + b) == Merged(Holding(a), Holding(b))
    decreases |b|
  {
    if b == [] {
      assert a + b == a;
      AddNoCount(Holding(a).counts);
    } else {
      var init, last := b[..|b| - 1], b[|b| - 1];
      HoldingConcat(a, init);
      assert (a + b)[..|a + b| - 1] == a + init;
      AddItemToMerged(Holding(a), Holding(init), last);
    }
  }

  /** No item is lost or made up: the window holds each value, and counts each key, as often
      as the items do. */
  ghost predicate HoldsExactly(w: ExactWindow, items: multiset<Item>) {
    && (forall v: F64 :: multiset(w.values)[v] == items[Value(v)])
    && (forall k: Text :: k in w.counts <==> items[Occurrence(k)] > 0)
    && (forall k: Text :: CountIn(w.counts, k) == items[Occurrence(k)])
    && w.points == |items|
    && |w.values| <= |items|
  }

  lemma {:induction false} AddItemHolds(w: ExactWindow, items: multiset<Item>, item: Item)
    requires HoldsExactly(w, items)
    ensures HoldsExactly(AddItem(w, item), items + multiset{item})
  {
    var next := AddItem(w, item);
    match item
    case Value(v) =>
      assert multiset(next.values) == multiset(w.values) + multiset{v};
    case Occurrence(k) =>
  }

  lemma {:induction false} HoldingHolds(items: seq<Item>)
    ensures HoldsExactly(Holding(items), multiset(items))
    decreases |items|
  {
    hide *;
    if items == [] {
      NothingHolds();
    } else {
      var init, last := items[..|items| - 1], items[|items| - 1];
      assert items == init + [last];
      HoldingHolds(init);
      AddItemHolds(Holding(init), multiset(init), last);
      MultisetPush(init, last);
      HoldingPush(init, last);
    }
  }

  lemma {:induction false} HoldingPush(init: seq<Item>, last: Item)
    ensures Holding(init + [last]) == AddItem(Holding(init), last)
  {
    assert (init + [last])[..|init|] == init;
    hide AddItem;
  }

  lemma {:induction false} MultisetPush(init: seq<Item>, last: Item)
    ensures multiset(init + [last]) == multiset(init) + multiset{last}
  {
  }

  lemma {:induction false} NothingHolds()
    ensures HoldsExactly(Holding([]), multiset([]))
  {
  }

  /** Windows of the same items, in whatever order they arrived, hold the same data. */
  lemma {:induction false} HoldingCommutes(a: seq<Item>, b: seq<Item>)
    requires multiset(a) == multiset(b)
    ensures SameData(Holding(a), Holding(b))
  {
    HoldingHolds(a);
    HoldingHolds(b);
    forall v: F64
      ensures multiset(Holding(a).values)[v] == multiset(Holding(b).values)[v]
    {
    }
    forall k | k in Holding(a).counts
      ensures Holding(a).counts[k] == Holding(b).counts[k]
    {
      assert CountIn(Holding(a).counts, k) == CountIn(Holding(b).counts, k);
    }
    assert |multiset(a)| == |a| && |multiset(b)| == |b|;
  }

  /** A window of few enough items, with short keys, can be written. */
  lemma {:induction false} ItemsFit(items: seq<Item>)
    requires |items| <= U64_MAX
    requires forall x :: x in items && x.Occurrence? ==> |x.key| < 0x1_0000_0000
    ensures Addressable(Holding(items)) && ShortKeys(Holding(items))
  {
    HoldingHolds(items);
    CountsFit(items);
    var w := Holding(items);
    forall k | k in w.counts
      ensures w.counts[k] <= U64_MAX && |k| < 0x1_0000_0000
    {
      assert CountIn(w.counts, k) == multiset(items)[Occurrence(k)];
      MultiplicityFits(multiset(items), Occurrence(k));
      assert |multiset(items)| == |items|;
      assert Occurrence(k) in multiset(items);
    }
  }

  lemma {:induction false} MultiplicityFits(items: multiset<Item>, x: Item)
    ensures items[x] <= |items|
  {
    assert items == items[x := 0] + multiset{}[x := items[x]];
    assert |multiset{}[x := items[x]]| == items[x];
  }

  lemma {:induction false} CountsFit(items: seq<Item>)
    ensures |Holding(items).counts| <= |items|
    decreases |items|
  {
    if items != [] {
      var init, last := items[..|items| - 1], items[|items| - 1];
      CountsFit(init);
      var counts := Holding(init).counts;
      if last.Occurrence? && last.key !in counts {
        var after := Holding(items).counts;
        SmallerMap(after, last.key);
        assert after - {last.key} == counts;
      } else if last.Occurrence? {
        assert Holding(items).counts.Keys == counts.Keys;
        assert |Holding(items).counts| == |Holding(items).counts.Keys| && |counts| == |counts.Keys|;
      }
    }
  }

  // ---------- the binary format ----------

  const Magic: seq<byte> := [0x45, 0x58, 0x76, 0x31]

  function Power(n: nat): (p: nat)
    ensures p >= 1
  {
    if n == 0 then 1 else 256 * Power(n - 1)
  }

  /** The low `n` bytes of `x`, little-endian; what is beyond them is cut off. */
  function LittleEndian(x: nat, n: nat): (r: seq<byte>)
    ensures |r| == n
  {
    if n == 0 then [] else [x % 256] + LittleEndian(x / 256, n - 1)
  }

  function FromLittleEndian(s: seq<byte>): nat {
    if s == [] then 0 else s[0] + 256 * FromLittleEndian(s[1..])
  }

  lemma {:induction false} LittleEndianRoundTrip(x: nat, n: nat)
    requires x < Power(n)
    ensures FromLittleEndian(LittleEndian(x, n)) == x
    decreases n
  {
    if n > 0 {
      LittleEndianRoundTrip(x / 256, n - 1);
      assert LittleEndian(x, n)[1..] == LittleEndian(x / 256, n - 1);
    }
  }

  lemma {:induction false} FromLittleEndianIsBounded(s: seq<byte>)
    ensures FromLittleEndian(s) < Power(|s|)
    decreases |s|
  {
    if s != [] {
      FromLittleEndianIsBounded(s[1..]);
    }
  }

  lemma {:induction false} Powers()
    ensures Power(8) == U64_MAX + 1 && Power(4) == 0x1_0000_0000
  {
    assert Power(4) == 256 * (256 * (256 * (256 * Power(0))));
    assert Power(8) == 256 * (256 * (256 * (256 * Power(4))));
  }

  function EncodedValues(values: seq<F64>): seq<byte> {
    if values == [] then [] else LittleEndian(values[0], 8) + EncodedValues(values[1..])
  }

  /** One (key, count) pair: the length as four bytes, the key, the count. */
  function EncodedPair(key: Text, count: nat): seq<byte> {
    LittleEndian(|key|, 4) + key + LittleEndian(count, 8)
  }

  function EncodedCounts(counts: map<Text, nat>, order: seq<Text>): seq<byte>
    requires forall k :: k in order ==> k in counts
  {
    if order == [] then [] else EncodedPair(order[0], counts[order[0]]) + EncodedCounts(counts, order[1..])
  }

  /** `order` lists every key of the map once: one way to iterate over it. */
  ghost predicate Iterates(order: seq<Text>, counts: map<Text, nat>) {
    && (forall k :: k in order <==> k in counts)
    && (forall i, j :: 0 <= i < j < |order| ==> order[i] != order[j])
  }

  /** The bytes of a window whose counts are iterated in `order`. */
  function Encoded(w: ExactWindow, order: seq<Text>): seq<byte>
    requires forall k :: k in order ==> k in w.counts
  {
    Magic + LittleEndian(w.points, 8) + LittleEndian(|w.values|, 8) + EncodedValues(w.values)
    + LittleEndian(|w.counts|, 8) + EncodedCounts(w.counts, order)
  }

  /** Every number fits the machine word the source keeps it in. */
  ghost predicate Addressable(w: ExactWindow) {
    && w.points <= U64_MAX && |w.values| <= U64_MAX && |w.counts| <= U64_MAX
    && forall k :: k in w.counts ==> w.counts[k] <= U64_MAX
  }

  /** Encode a window, iterating over its counts in some order. */
  method Encode(w: ExactWindow) returns (out: seq<byte>, ghost order: seq<Text>)
    ensures Iterates(order, w.counts)
    ensures out == Encoded(w, order)
  {
    hide EncodedValues, EncodedCounts, LittleEndian;
    var values := EncodeValues(w.values);
    var pairs;
    pairs, order := EncodeCounts(w.counts);
    out := Magic + LittleEndian(w.points, 8) + LittleEndian(|w.values|, 8) + values
           + LittleEndian(|w.counts|, 8) + pairs;
  }

  method EncodeValues(values: seq<F64>) returns (out: seq<byte>)
    ensures out == EncodedValues(values)
  {
    hide LittleEndian;
    out := [];
    for i := 0 to |values|
      invariant out + EncodedValues(values[i..]) == EncodedValues(values)
    {
      out := out + LittleEndian(values[i], 8);
      assert values[i..][1..] == values[i + 1..];
    }
  }

  method EncodeCounts(counts: map<Text, nat>) returns (out: seq<byte>, ghost order: seq<Text>)
    ensures Iterates(order, counts)
    ensures out == EncodedCounts(counts, order)
  {
    hide EncodedPair;
    out, order := [], [];
    var rest := counts.Keys;
    while rest != {}
      invariant rest <= counts.Keys
      invariant forall k :: k in order <==> k in counts.Keys - rest
      invariant forall i, j :: 0 <= i < j < |order| ==> order[i] != order[j]
      invariant out == EncodedCounts(counts, order)
      decreases |rest|
    {
      var k :| k in rest;
      EncodedCountsPush(counts, order, k);
      hide EncodedCounts;
      assert k !in order;
      out := out + EncodedPair(k, counts[k]);
      order := order + [k];
      rest := rest - {k};
    }
  }

  lemma {:induction false} EncodedCountsPush(counts: map<Text, nat>, order: seq<Text>, k: Text)
    requires k in counts && forall k :: k in order ==> k in counts
    ensures EncodedCounts(counts, order + [k]) == EncodedCounts(counts, order) + EncodedPair(k, counts[k])
    decreases |order|
  {
    if order == [] {
      assert [k][1..] == [];
    } else {
      EncodedCountsPush(counts, order[1..], k);
      assert (order + [k])[1..] == order[1..] + [k];
    }
  }

  datatype DecodeError = NotExact | Truncated | NotUtf8

  /** The cursor: the next `n` bytes and the rest. */
  function Take(s: seq<byte>, n: nat): Result<(seq<byte>, seq<byte>), DecodeError> {
    if |s| < n then Err(Truncated) else Ok((s[..n], s[n..]))
  }

  function TakeU64(s: seq<byte>): Result<(u64, seq<byte>), DecodeError> {
    match Take(s, 8)
    case Err(e) => Err(e)
    case Ok((head, rest)) =>
      Powers();
      FromLittleEndianIsBounded(head);
      Ok((FromLittleEndian(head), rest))
  }

  function DecodedValues(n: nat, s: seq<byte>): Result<(seq<F64>, seq<byte>), DecodeError> {
    if n == 0 then Ok(([], s))
    else
      match TakeU64(s)
      case Err(e) => Err(e)
      case Ok((v, rest)) =>
        match DecodedValues(n - 1, rest)
        case Err(e) => Err(e)
        case Ok((values, tail)) => Ok(([v] + values, tail))
  }

  /** One (key, count) pair. */
  function DecodedPair(s: seq<byte>): Result<(Text, u64, seq<byte>), DecodeError> {
    match Take(s, 4)
    case Err(e) => Err(e)
    case Ok((length, rest)) =>
      match Take(rest, FromLittleEndian(length))
      case Err(e) => Err(e)
      case Ok((key, tail)) =>
        if !ValidUtf8(key) then Err(NotUtf8)
        else
          match TakeU64(tail)
          case Err(e) => Err(e)
          case Ok((count, end)) => Ok((key, count, end))
  }

  function DecodedCounts(n: nat, s: seq<byte>, counts: map<Text, nat>): Result<(map<Text, nat>, seq<byte>), DecodeError> {
    if n == 0 then Ok((counts, s))
    else
      match DecodedPair(s)
      case Err(e) => Err(e)
      case Ok((key, count, rest)) => DecodedCounts(n - 1, rest, counts[key := count])
  }

  /** The window at the start of `s`, and what follows it. */
  function Parsed(s: seq<byte>): Result<(ExactWindow, seq<byte>), DecodeError> {
    if !(Magic <= s) then Err(NotExact)
    else
      match TakeU64(s[4..])
      case Err(e) => Err(e)
      case Ok((points, s1)) =>
        match TakeU64(s1)
        case Err(e) => Err(e)
        case Ok((n, s2)) =>
          match DecodedValues(n, s2)
          case Err(e) => Err(e)
          case Ok((values, s3)) =>
            match TakeU64(s3)
            case Err(e) => Err(e)
            case Ok((m, s4)) =>
              match DecodedCounts(m, s4, map[])
              case Err(e) => Err(e)
              case Ok((counts, s5)) => Ok((ExactWindow(values, counts, points), s5))
  }

  /** The inverse of encoding; what follows the window is ignored. */
  function Decoded(s: seq<byte>): Result<ExactWindow, DecodeError> {
    match Parsed(s)
    case Err(e) => Err(e)
    case Ok((w, _)) => Ok(w)
  }

  /** Decode with a cursor over the remaining bytes. */
  method Decode(bytes: seq<byte>) returns (r: Result<ExactWindow, DecodeError>)
    ensures r == Decoded(bytes)
  {
    if !(Magic <= bytes) {
      return Err(NotExact);
    }
    var cursor := bytes[4..];
    var points, n, m;
    match TakeU64(cursor) {
      case Err(e) => return Err(e);
      case Ok((x, rest)) => points, cursor := x, rest;
    }
    match TakeU64(cursor) {
      case Err(e) => return Err(e);
      case Ok((x, rest)) => n, cursor := x, rest;
    }
    ghost var start := cursor;
    var values: seq<F64> := [];
    PrependNothing(DecodedValues(n, start));
    for i := 0 to n
      invariant DecodedValues(n, start) == Prepend(values, DecodedValues(n - i, cursor))
    {
      match TakeU64(cursor) {
        case Err(e) => return Err(e);
        case Ok((x, rest)) =>
          PrependPush(values, x, DecodedValues(n - i - 1, rest));
          values, cursor := values + [x], rest;
      }
    }
    assert values + [] == values;
    match TakeU64(cursor) {
      case Err(e) => return Err(e);
      case Ok((x, rest)) => m, cursor := x, rest;
    }
    start := cursor;
    var counts: map<Text, nat> := map[];
    for i := 0 to m
      invariant DecodedCounts(m, start, map[]) == DecodedCounts(m - i, cursor, counts)
    {
      match DecodedPair(cursor) {
        case Err(e) => return Err(e);
        case Ok((key, count, rest)) => counts, cursor := counts[key := count], rest;
      }
    }
    return Ok(ExactWindow(values, counts, points));
  }

  ghost function Prepend(values: seq<F64>, r: Result<(seq<F64>, seq<byte>), DecodeError>): Result<(seq<F64>, seq<byte>), DecodeError> {
    match r
    case Err(e) => Err(e)
    case Ok((tail, rest)) => Ok((values + tail, rest))
  }

  lemma {:induction false} PrependNothing(r: Result<(seq<F64>, seq<byte>), DecodeError>)
    ensures Prepend([], r) == r
  {
    if r.Ok? {
      assert [] + r.value.0 == r.value.0;
    }
  }

  lemma {:induction false} PrependPush(values: seq<F64>, x: F64, r: Result<(seq<F64>, seq<byte>), DecodeError>)
    ensures Prepend(values + [x], r) == Prepend(values, Prepend([x], r))
  {
    if r.Ok? {
      assert (values + [x]) + r.value.0 == values + ([x] + r.value.0);
    }
  }

  // ---------- the round trip ----------

  /** Keys whose length fits the four bytes it is written in. */
  ghost predicate ShortKeys(w: ExactWindow) {
    forall k :: k in w.counts ==> |k| < 0x1_0000_0000
  }

  lemma {:induction false} TakeBack(head: seq<byte>, rest: seq<byte>)
    ensures Take(head + rest, |head|) == Ok((head, rest))
  {
    assert (head + rest)[..|head|] == head && (head + rest)[|head|..] == rest;
  }

  lemma {:induction false} TakeU64Back(x: u64, rest: seq<byte>)
    ensures TakeU64(LittleEndian(x, 8) + rest) == Ok((x, rest))
  {
    TakeBack(LittleEndian(x, 8), rest);
    Powers();
    LittleEndianRoundTrip(x, 8);
  }

  lemma {:induction false} ValuesBack(values: seq<F64>, rest: seq<byte>)
    ensures DecodedValues(|values|, EncodedValues(values) + rest) == Ok((values, rest))
    decreases |values|
  {
    hide LittleEndian, TakeU64;
    if values == [] {
      assert [] + rest == rest;
    } else {
      var tail := EncodedValues(values[1..]) + rest;
      assert EncodedValues(values) + rest == LittleEndian(values[0], 8) + tail;
      TakeU64Back(values[0], tail);
      ValuesBack(values[1..], rest);
      assert [values[0]] + values[1..] == values;
    }
  }

  lemma {:induction false} PairBack(key: Text, count: u64, rest: seq<byte>)
    requires |key| < 0x1_0000_0000
    ensures DecodedPair(EncodedPair(key, count) + rest) == Ok((key, count, rest))
  {
    hide ValidUtf8;
    var tail := LittleEndian(count, 8) + rest;
    assert EncodedPair(key, count) + rest == LittleEndian(|key|, 4) + (key + tail);
    TakeBack(LittleEndian(|key|, 4), key + tail);
    Powers();
    LittleEndianRoundTrip(|key|, 4);
    TakeBack(key, tail);
    TakeU64Back(count, rest);
  }

  ghost function CountsOf(counts: map<Text, nat>, order: seq<Text>): map<Text, nat>
    requires forall k :: k in order ==> k in counts
  {
    map k | k in order :: counts[k]
  }

  lemma {:induction false} CountsBack(counts: map<Text, nat>, order: seq<Text>, n: nat, rest: seq<byte>)
    requires n <= |order|
    requires forall k :: k in order ==> k in counts && counts[k] <= U64_MAX && |k| < 0x1_0000_0000
    ensures DecodedCounts(|order| - n, EncodedCounts(counts, order[n..]) + rest, CountsOf(counts, order[..n]))
         == Ok((CountsOf(counts, order), rest))
    decreases |order| - n
  {
    hide EncodedPair, DecodedPair;
    if n == |order| {
      assert order[..n] == order && order[n..] == [];
      assert [] + rest == rest;
    } else {
      var k := order[n];
      var tail := EncodedCounts(counts, order[n + 1..]) + rest;
      assert order[n..][1..] == order[n + 1..];
      assert EncodedCounts(counts, order[n..]) + rest == EncodedPair(k, counts[k]) + tail;
      PairBack(k, counts[k], tail);
      assert order[..n + 1] == order[..n] + [k];
      assert CountsOf(counts, order[..n])[k := counts[k]] == CountsOf(counts, order[..n + 1]);
      CountsBack(counts, order, n + 1, rest);
    }
  }

  lemma {:induction false} IterationSize(order: seq<Text>, counts: map<Text, nat>)
    requires Iterates(order, counts)
    ensures |order| == |counts|
  {
    DistinctSize(order);
    assert (set k | k in order) == counts.Keys;
    assert |counts.Keys| == |counts|;
  }

  lemma {:induction false} DistinctSize(order: seq<Text>)
    requires forall i, j :: 0 <= i < j < |order| ==> order[i] != order[j]
    ensures |set k | k in order| == |order|
    decreases |order|
  {
    if order != [] {
      var init, last := order[..|order| - 1], order[|order| - 1];
      DistinctSize(init);
      assert (set k | k in order) == (set k | k in init) + {last};
    }
  }

  /** A window comes back from its bytes, whatever order its counts were written in and
      whatever follows it. */
  lemma {:induction false} ParsesBack(w: ExactWindow, order: seq<Text>, junk: seq<byte>)
    requires Addressable(w) && ShortKeys(w) && Iterates(order, w.counts)
    ensures Parsed(Encoded(w, order) + junk) == Ok((w, junk))
  {
    hide Encoded, EncodedValues, EncodedCounts, LittleEndian, TakeU64, DecodedValues, DecodedCounts;
    IterationSize(order, w.counts);
    var s4 := EncodedCounts(w.counts, order) + junk;
    var s3 := LittleEndian(|w.counts|, 8) + s4;
    var s2 := EncodedValues(w.values) + s3;
    var s1 := LittleEndian(|w.values|, 8) + s2;
    Layout(w, order, junk);
    TakeU64Back(w.points, s1);
    TakeU64Back(|w.values|, s2);
    ValuesBack(w.values, s3);
    TakeU64Back(|w.counts|, s4);
    AllCountsBack(w.counts, order, junk);
  }

  lemma {:induction false} AllCountsBack(counts: map<Text, nat>, order: seq<Text>, rest: seq<byte>)
    requires Iterates(order, counts)
    requires forall k :: k in counts ==> counts[k] <= U64_MAX && |k| < 0x1_0000_0000
    ensures DecodedCounts(|order|, EncodedCounts(counts, order) + rest, map[]) == Ok((counts, rest))
  {
    CountsBack(counts, order, 0, rest);
    assert order[0..] == order && CountsOf(counts, order[..0]) == map[];
    assert CountsOf(counts, order) == counts;
  }

  lemma {:induction false} Layout(w: ExactWindow, order: seq<Text>, junk: seq<byte>)
    requires forall k :: k in order ==> k in w.counts
    ensures Magic <= Encoded(w, order) + junk
    ensures (Encoded(w, order) + junk)[4..]
         == LittleEndian(w.points, 8) + (LittleEndian(|w.values|, 8) + (EncodedValues(w.values)
            + (LittleEndian(|w.counts|, 8) + (EncodedCounts(w.counts, order) + junk))))
  {
    hide EncodedValues, EncodedCounts, LittleEndian;
    assert Encoded(w, order) + junk
        == Magic + (LittleEndian(w.points, 8) + (LittleEndian(|w.values|, 8) + (EncodedValues(w.values)
           + (LittleEndian(|w.counts|, 8) + (EncodedCounts(w.counts, order) + junk)))));
  }

  lemma {:induction false} DecodedKeysAreShort(n: nat, s: seq<byte>, counts: map<Text, nat>)
    requires forall k :: k in counts ==> |k| < 0x1_0000_0000
    requires DecodedCounts(n, s, counts).Ok?
    ensures forall k :: k in DecodedCounts(n, s, counts).value.0 ==> |k| < 0x1_0000_0000
    decreases n
  {
    if n > 0 {
      var length := Take(s, 4).value.0;
      Powers();
      FromLittleEndianIsBounded(length);
      var (key, count, rest) := DecodedPair(s).value;
      DecodedKeysAreShort(n - 1, rest, counts[key := count]);
    }
  }

  /** Decoding undoes encoding exactly when every key is shorter than 2^32 bytes: the length
      of a longer one does not fit its field. */
  lemma {:induction false} RoundTrip(w: ExactWindow, order: seq<Text>, junk: seq<byte>)
    requires Addressable(w) && Iterates(order, w.counts)
    ensures Decoded(Encoded(w, order) + junk) == Ok(w) <==> ShortKeys(w)
  {
    hide Encoded, DecodedValues, DecodedCounts, TakeU64;
    if ShortKeys(w) {
      ParsesBack(w, order, junk);
    }
    var s := Encoded(w, order) + junk;
    if Decoded(s) == Ok(w) {
      var s3 := DecodedValues(TakeU64(TakeU64(s[4..]).value.1).value.0, TakeU64(TakeU64(s[4..]).value.1).value.1).value.1;
      var (m, s4) := TakeU64(s3).value;
      DecodedKeysAreShort(m, s4, map[]);
    }
  }

  // ---------- truncated input ----------

  lemma {:induction false} TakeU64Extends(s: seq<byte>, t: seq<byte>)
    requires TakeU64(s).Ok?
    ensures TakeU64(s + t) == Ok((TakeU64(s).value.0, TakeU64(s).value.1 + t))
  {
    assert (s + t)[..8] == s[..8];
    assert (s + t)[8..] == s[8..] + t;
  }

  lemma {:induction false} ValuesExtend(n: nat, s: seq<byte>, t: seq<byte>)
    requires DecodedValues(n, s).Ok?
    ensures DecodedValues(n, s + t) == Ok((DecodedValues(n, s).value.0, DecodedValues(n, s).value.1 + t))
    decreases n
  {
    hide TakeU64;
    if n > 0 {
      TakeU64Extends(s, t);
      ValuesExtend(n - 1, TakeU64(s).value.1, t);
    }
  }

  lemma {:induction false} PairExtends(s: seq<byte>, t: seq<byte>)
    requires DecodedPair(s).Ok?
    ensures DecodedPair(s + t)
         == Ok((DecodedPair(s).value.0, DecodedPair(s).value.1, DecodedPair(s).value.2 + t))
  {
    hide ValidUtf8, TakeU64;
    assert (s + t)[..4] == s[..4] && (s + t)[4..] == s[4..] + t;
    var rest := s[4..];
    var n := FromLittleEndian(s[..4]);
    assert (rest + t)[..n] == rest[..n] && (rest + t)[n..] == rest[n..] + t;
    TakeU64Extends(rest[n..], t);
  }

  lemma {:induction false} CountsExtend(n: nat, s: seq<byte>, counts: map<Text, nat>, t: seq<byte>)
    requires DecodedCounts(n, s, counts).Ok?
    ensures DecodedCounts(n, s + t, counts)
         == Ok((DecodedCounts(n, s, counts).value.0, DecodedCounts(n, s, counts).value.1 + t))
    decreases n
  {
    hide DecodedPair;
    if n > 0 {
      PairExtends(s, t);
      var (key, count, rest) := DecodedPair(s).value;
      CountsExtend(n - 1, rest, counts[key := count], t);
    }
  }

  /** Parsing looks only at the bytes of the window. */
  lemma {:induction false} ParsingExtends(s: seq<byte>, t: seq<byte>)
    requires Parsed(s).Ok?
    ensures Parsed(s + t) == Ok((Parsed(s).value.0, Parsed(s).value.1 + t))
  {
    hide TakeU64, DecodedValues, DecodedCounts;
    assert (s + t)[4..] == s[4..] + t;
    assert (s + t)[..4] == s[..4];
    TakeU64Extends(s[4..], t);
    var s1 := TakeU64(s[4..]).value.1;
    TakeU64Extends(s1, t);
    var (n, s2) := TakeU64(s1).value;
    ValuesExtend(n, s2, t);
    var s3 := DecodedValues(n, s2).value.1;
    TakeU64Extends(s3, t);
    var (m, s4) := TakeU64(s3).value;
    CountsExtend(m, s4, map[], t);
  }

  /** Every proper prefix of an encoded window is rejected. */
  lemma {:induction false} PrefixesAreRejected(w: ExactWindow, order: seq<Text>, n: nat)
    requires Addressable(w) && ShortKeys(w) && Iterates(order, w.counts)
    requires n < |Encoded(w, order)|
    ensures Decoded(Encoded(w, order)[..n]).Err?
  {
    hide Encoded, Parsed;
    var s := Encoded(w, order);
    ParsesBack(w, order, []);
    assert s + [] == s;
    assert s[..n] + s[n..] == s;
    if Parsed(s[..n]).Ok? {
      ParsingExtends(s[..n], s[n..]);
    }
  }

  lemma {:induction false} TakeU64Shrinks(s: seq<byte>, k: nat)
    requires TakeU64(s).Ok? && k <= |TakeU64(s).value.1|
    ensures TakeU64(s[..|s| - k]) == Ok((TakeU64(s).value.0, TakeU64(s).value.1[..|TakeU64(s).value.1| - k]))
  {
    var t := s[..|s| - k];
    assert t[..8] == s[..8];
    assert t[8..] == s[8..][..|s[8..]| - k];
  }

  lemma {:induction false} ValuesShrink(n: nat, s: seq<byte>, k: nat)
    requires DecodedValues(n, s).Ok? && k <= |DecodedValues(n, s).value.1|
    ensures |DecodedValues(n, s).value.1| <= |s|
    ensures DecodedValues(n, s[..|s| - k])
         == Ok((DecodedValues(n, s).value.0, DecodedValues(n, s).value.1[..|DecodedValues(n, s).value.1| - k]))
    decreases n
  {
    if n > 0 {
      var rest := TakeU64(s).value.1;
      ValuesShrink(n - 1, rest, k);
      TakeU64Shrinks(s, k);
    }
  }

  lemma {:induction false} PairShrinks(s: seq<byte>, k: nat)
    requires DecodedPair(s).Ok? && k <= |DecodedPair(s).value.2|
    ensures |DecodedPair(s).value.2| <= |s|
    ensures DecodedPair(s[..|s| - k])
         == Ok((DecodedPair(s).value.0, DecodedPair(s).value.1,
                DecodedPair(s).value.2[..|DecodedPair(s).value.2| - k]))
  {
    hide ValidUtf8;
    var t := s[..|s| - k];
    var n := FromLittleEndian(s[..4]);
    var rest := s[4..];
    assert t[..4] == s[..4] && t[4..] == rest[..|rest| - k];
    assert t[4..][..n] == rest[..n] && t[4..][n..] == rest[n..][..|rest[n..]| - k];
    TakeU64Shrinks(rest[n..], k);
  }

  lemma {:induction false} CountsShrink(n: nat, s: seq<byte>, counts: map<Text, nat>, k: nat)
    requires DecodedCounts(n, s, counts).Ok? && k <= |DecodedCounts(n, s, counts).value.1|
    ensures |DecodedCounts(n, s, counts).value.1| <= |s|
    ensures DecodedCounts(n, s[..|s| - k], counts)
         == Ok((DecodedCounts(n, s, counts).value.0,
                DecodedCounts(n, s, counts).value.1[..|DecodedCounts(n, s, counts).value.1| - k]))
    decreases n
  {
    hide DecodedPair;
    if n > 0 {
      var (key, count, rest) := DecodedPair(s).value;
      CountsShrink(n - 1, rest, counts[key := count], k);
      PairShrinks(s, k);
    }
  }

  lemma {:induction false} ParsingShrinks(s: seq<byte>, k: nat)
    requires Parsed(s).Ok? && k <= |Parsed(s).value.1|
    ensures k <= |s| && Parsed(s[..|s| - k]) == Ok((Parsed(s).value.0, Parsed(s).value.1[..|Parsed(s).value.1| - k]))
  {
    hide DecodedValues, DecodedCounts;
    var s1 := TakeU64(s[4..]).value.1;
    var (n, s2) := TakeU64(s1).value;
    var s3 := DecodedValues(n, s2).value.1;
    var (m, s4) := TakeU64(s3).value;
    CountsShrink(m, s4, map[], k);
    TakeU64Shrinks(s3, k);
    ValuesShrink(n, s2, k);
    TakeU64Shrinks(s1, k);
    TakeU64Shrinks(s[4..], k);
    hide TakeU64;
    assert s[..|s| - k][4..] == s[4..][..|s[4..]| - k];
    assert s[..|s| - k][..4] == s[..4];
  }

  /** How many bytes of `s` the parser reads. */
  ghost function BytesRead(s: seq<byte>): int
    requires Parsed(s).Ok?
  {
    |s| - |Parsed(s).value.1|
  }

  /** A prefix of any bytes decodes exactly when the bytes do and it holds all that is read
      of them; then it decodes to the same window. So every proper prefix is rejected
      exactly when the bytes are, or are read to their end, whatever keys they hold. */
  lemma {:induction false} PrefixDecodesExactlyWhen(s: seq<byte>, n: nat)
    requires n <= |s|
    ensures Decoded(s[..n]).Ok? <==> Parsed(s).Ok? && BytesRead(s) <= n
    ensures Decoded(s[..n]).Ok? ==> Decoded(s[..n]) == Decoded(s)
  {
    hide Parsed;
    assert s[..n] + s[n..] == s;
    if Parsed(s[..n]).Ok? {
      ParsingExtends(s[..n], s[n..]);
    } else if Parsed(s).Ok? && BytesRead(s) <= n {
      ParsingShrinks(s, |s| - n);
    }
  }
}
