/** Canonical series keys: the string that identifies a label set. */
module SeriesKeys {
  import opened Basics
  import opened Envelopes
  import opened Sorting

  // ---------- strings compare byte by byte ----------

  predicate Less(a: seq<byte>, b: seq<byte>) {
    b != [] && (a == [] || a[0] < b[0] || (a[0] == b[0] && Less(a[1..], b[1..])))
  }

  lemma {:induction false} LessIsTotal(a: seq<byte>, b: seq<byte>)
    ensures Less(a, b) || a == b || Less(b, a)
    ensures !(Less(a, b) && Less(b, a)) && !Less(a, a)
    decreases |a|
  {
    if a != [] {
      LessIsTotal(a[1..], a[1..]);
      if b != [] && a[0] == b[0] {
        LessIsTotal(a[1..], b[1..]);
        assert a == [a[0]] + a[1..] && b == [b[0]] + b[1..];
      }
    }
  }

  lemma {:induction false} LessIsTransitive(a: seq<byte>, b: seq<byte>, c: seq<byte>)
    requires Less(a, b) && Less(b, c)
    ensures Less(a, c)
    decreases |a|
  {
    if a != [] && a[0] == b[0] == c[0] {
      LessIsTransitive(a[1..], b[1..], c[1..]);
    }
  }

  /** Keys in byte order. */
  predicate InOrder(a: Text, b: Text) {
    !Less(b, a)
  }

  lemma {:induction false} ByteOrderIsTotal()
    ensures TotalOrder(InOrder)
  {
    forall a: Text, b: Text
      ensures (InOrder(a, b) || InOrder(b, a)) && (InOrder(a, b) && InOrder(b, a) ==> a == b)
    {
      LessIsTotal(a, b);
    }
    forall a: Text, b: Text, c: Text | InOrder(a, b) && InOrder(b, c)
      ensures InOrder(a, c)
    {
      LessIsTotal(a, b);
      LessIsTotal(b, c);
      LessIsTotal(a, c);
      if Less(c, a) && a != b && b != c {
        LessIsTransitive(a, b, c);
      }
    }
  }

  // ---------- keys ----------

  function Keys(labels: seq<KeyValue>): seq<Text> {
    seq(|labels|, i requires 0 <= i < |labels| => labels[i].key)
  }

  /** `key=value;`. */
  function Chunk(key: Text, value: Text): seq<byte> {
    key + [0x3D] + value + [0x3B]
  }

  /** Every label as it comes. */
  function Written(labels: seq<KeyValue>): seq<byte> {
    if labels == [] then [] else Written(labels[..|labels| - 1]) + Chunk(labels[|labels| - 1].key, labels[|labels| - 1].value)
  }

  /** Look up each key in turn; a missing key is skipped. */
  function Walked(labels: seq<KeyValue>, keys: seq<Text>): seq<byte> {
    if keys == [] then []
    else
      var k := keys[|keys| - 1];
      Walked(labels, keys[..|keys| - 1]) +
      match LookupLabel(labels, k)
      case None => []
      case Some(v) => Chunk(k, v)
  }

  /** Already sorted, with distinct keys. */
  predicate StrictlySorted(labels: seq<KeyValue>) {
    forall i :: 0 < i < |labels| ==> Less(labels[i - 1].key, labels[i].key)
  }

  /** The key of a label set: of the keys in `aggregateBy`, or of all labels in key order. */
  function AttributesKey(labels: seq<KeyValue>, aggregateBy: seq<Text>): seq<byte> {
    if aggregateBy == [] then
      if StrictlySorted(labels) then Written(labels) else Walked(labels, Sort(Keys(labels), InOrder))
    else Walked(labels, aggregateBy)
  }

  lemma {:induction false} WrittenNext(labels: seq<KeyValue>, n: nat)
    requires n < |labels|
    ensures Written(labels[..n + 1]) == Written(labels[..n]) + Chunk(labels[n].key, labels[n].value)
  {
    assert labels[..n + 1][..n] == labels[..n];
  }

  lemma {:induction false} WalkedNext(labels: seq<KeyValue>, keys: seq<Text>, n: nat)
    requires n < |keys|
    ensures Walked(labels, keys[..n + 1]) == Walked(labels, keys[..n]) +
      match LookupLabel(labels, keys[n])
      case None => []
      case Some(v) => Chunk(keys[n], v)
  {
    assert keys[..n + 1][..n] == keys[..n];
  }

  lemma {:induction false} NothingWritten(labels: seq<KeyValue>)
    ensures Written([]) == [] && Walked(labels, []) == []
  {
  }

  /** Write the key into a buffer. */
  method WriteAttributesKey(buf: seq<byte>, labels: seq<KeyValue>, aggregateBy: seq<Text>) returns (out: seq<byte>)
    ensures out == buf + AttributesKey(labels, aggregateBy)
  {
    hide Written, Walked, Sort, Keys, Chunk, StrictlySorted, LookupLabel;
    NothingWritten(labels);
    out := buf;
    var keys := aggregateBy;
    if aggregateBy == [] {
      if StrictlySorted(labels) {
        for n := 0 to |labels|
          invariant out == buf + Written(labels[..n])
        {
          WrittenNext(labels, n);
          out := out + Chunk(labels[n].key, labels[n].value);
        }
        assert labels[..|labels|] == labels;
        return;
      }
      keys := Sort(Keys(labels), InOrder);
    }
    for n := 0 to |keys|
      invariant out == buf + Walked(labels, keys[..n])
    {
      WalkedNext(labels, keys, n);
      match LookupLabel(labels, keys[n])
      case None =>
      case Some(v) => out := out + Chunk(keys[n], v);
    }
    assert keys[..|keys|] == keys;
  }

  predicate UniqueKeys(labels: seq<KeyValue>) {
    forall i, j :: 0 <= i < j < |labels| ==> labels[i].key != labels[j].key
  }

  lemma {:induction false} StrictlySortedOrders(labels: seq<KeyValue>, i: nat, j: nat)
    requires StrictlySorted(labels) && i < j < |labels|
    ensures Less(labels[i].key, labels[j].key)
    decreases j
  {
    if i < j - 1 {
      StrictlySortedOrders(labels, i, j - 1);
      LessIsTransitive(labels[i].key, labels[j - 1].key, labels[j].key);
    }
  }

  lemma {:induction false} StrictlySortedIsUnique(labels: seq<KeyValue>)
    requires StrictlySorted(labels)
    ensures UniqueKeys(labels) && Sorted(Keys(labels), InOrder)
  {
    forall i, j | 0 <= i < j < |labels|
      ensures labels[i].key != labels[j].key && !Less(labels[j].key, labels[i].key)
    {
      StrictlySortedOrders(labels, i, j);
      LessIsTotal(labels[i].key, labels[j].key);
    }
  }

  /** With distinct keys, a label is found by its key. */
  lemma {:induction false} LookupFinds(labels: seq<KeyValue>, i: nat)
    requires UniqueKeys(labels) && i < |labels|
    ensures LookupLabel(labels, labels[i].key) == Some(labels[i].value)
    decreases |labels|
  {
    if i > 0 {
      assert labels[0].key != labels[i].key;
      LookupFinds(labels[1..], i - 1);
    }
  }

  lemma {:induction false} LookupNone(labels: seq<KeyValue>, k: Text)
    requires forall i :: 0 <= i < |labels| ==> labels[i].key != k
    ensures LookupLabel(labels, k) == None
    decreases |labels|
  {
    if labels != [] {
      LookupNone(labels[1..], k);
    }
  }

  lemma {:induction false} WalkWritesAll(labels: seq<KeyValue>, n: nat)
    requires UniqueKeys(labels) && n <= |labels|
    ensures Walked(labels, Keys(labels)[..n]) == Written(labels[..n])
    decreases n
  {
    hide Chunk, LookupLabel;
    if n > 0 {
      assert Keys(labels)[..n][n - 1] == labels[n - 1].key;
      WalkWritesAll(labels, n - 1);
      LookupFinds(labels, n - 1);
      assert Keys(labels)[..n][..n - 1] == Keys(labels)[..n - 1];
      assert labels[..n][..n - 1] == labels[..n - 1];
    }
  }

  /** The path for labels that are already sorted writes what the sorted walk writes. */
  lemma {:induction false} FastPathIsTheWalk(labels: seq<KeyValue>)
    ensures AttributesKey(labels, []) == Walked(labels, Sort(Keys(labels), InOrder))
  {
    if StrictlySorted(labels) {
      StrictlySortedIsUnique(labels);
      ByteOrderIsTotal();
      SortSorts(Keys(labels), InOrder);
      SortedIsUnique(Sort(Keys(labels), InOrder), Keys(labels), InOrder);
      WalkWritesAll(labels, |labels|);
      assert Keys(labels)[..|labels|] == Keys(labels) && labels[..|labels|] == labels;
    }
  }

  lemma {:induction false} WalkDependsOnLookups(labels: seq<KeyValue>, other: seq<KeyValue>, keys: seq<Text>)
    requires forall k :: k in keys ==> LookupLabel(labels, k) == LookupLabel(other, k)
    ensures Walked(labels, keys) == Walked(other, keys)
    decreases |keys|
  {
    if keys != [] {
      assert keys[|keys| - 1] in keys;
      WalkDependsOnLookups(labels, other, keys[..|keys| - 1]);
    }
  }

  lemma {:induction false} KeysPermute(labels: seq<KeyValue>, other: seq<KeyValue>)
    requires multiset(labels) == multiset(other)
    ensures multiset(Keys(labels)) == multiset(Keys(other))
    decreases |labels|
  {
    assert |multiset(labels)| == |labels| && |multiset(other)| == |other|;
    if labels != [] {
      var init, last := labels[..|labels| - 1], labels[|labels| - 1];
      assert labels == init + [last];
      var i, rest := RemoveSame(init, last, labels, other);
      KeysPermute(init, rest);
      assert Keys(labels) == Keys(init) + [last.key];
      KeysRemove(other, i);
    }
  }

  lemma {:induction false} KeysRemove(labels: seq<KeyValue>, i: nat)
    requires i < |labels|
    ensures multiset(Keys(labels)) == multiset(Keys(labels[..i] + labels[i + 1..])) + multiset{labels[i].key}
  {
    assert Keys(labels[..i] + labels[i + 1..]) == Keys(labels)[..i] + Keys(labels)[i + 1..];
    MultisetSplit(Keys(labels), i);
  }

  /** The key of distinct labels does not depend on their order. */
  lemma {:induction false} OrderDoesNotMatter(labels: seq<KeyValue>, other: seq<KeyValue>, aggregateBy: seq<Text>)
    requires UniqueKeys(labels) && multiset(labels) == multiset(other)
    ensures AttributesKey(labels, aggregateBy) == AttributesKey(other, aggregateBy)
  {
    hide Sort, Sorted;
    FastPathIsTheWalk(labels);
    FastPathIsTheWalk(other);
    KeysPermute(labels, other);
    ByteOrderIsTotal();
    SortIsUnique(Keys(labels), Keys(other), InOrder);
    forall k: Text
      ensures LookupLabel(labels, k) == LookupLabel(other, k)
    {
      SameLookup(labels, other, k);
    }
    WalkDependsOnLookups(labels, other, if aggregateBy == [] then Sort(Keys(labels), InOrder) else aggregateBy);
  }

  lemma {:induction false} SameLookup(labels: seq<KeyValue>, other: seq<KeyValue>, k: Text)
    requires UniqueKeys(labels) && multiset(labels) == multiset(other)
    ensures LookupLabel(labels, k) == LookupLabel(other, k)
  {
    PermutedUnique(labels, other);
    if i :| 0 <= i < |labels| && labels[i].key == k {
      LookupFinds(labels, i);
      assert labels[i] in multiset(other);
      var j :| 0 <= j < |other| && other[j] == labels[i];
      LookupFinds(other, j);
    } else {
      LookupNone(labels, k);
      forall j | 0 <= j < |other|
        ensures other[j].key != k
      {
        assert other[j] in multiset(labels);
      }
      LookupNone(other, k);
    }
  }

  lemma {:induction false} PermutedUnique(labels: seq<KeyValue>, other: seq<KeyValue>)
    requires UniqueKeys(labels) && multiset(labels) == multiset(other)
    ensures UniqueKeys(other)
  {
    forall i, j | 0 <= i < j < |other|
      ensures other[i].key != other[j].key
    {
      if other[i].key == other[j].key {
        assert other[i] in multiset(labels) && other[j] in multiset(labels);
        assert other[i] == other[j];
        assert multiset(other)[other[i]] >= 2 by { Twice(other, i, j); }
        UniqueOnce(labels, other[i]);
      }
    }
  }

  lemma {:induction false} UniqueOnce(labels: seq<KeyValue>, x: KeyValue)
    requires UniqueKeys(labels)
    ensures multiset(labels)[x] <= 1
    decreases |labels|
  {
    if labels != [] {
      var init, last := labels[..|labels| - 1], labels[|labels| - 1];
      UniqueOnce(init, x);
      assert labels == init + [last];
      if x == last {
        assert x !in init;
      }
    }
  }

  // ---------- projection ----------

  /** The labels in `aggregateBy`, in its order; all labels when it is empty. */
  function SeriesAttrs(labels: seq<KeyValue>, aggregateBy: seq<Text>): seq<KeyValue> {
    if aggregateBy == [] then labels else Projected(labels, aggregateBy)
  }

  function Projected(labels: seq<KeyValue>, keys: seq<Text>): seq<KeyValue> {
    if keys == [] then []
    else
      match LookupLabel(labels, keys[0])
      case None => Projected(labels, keys[1..])
      case Some(v) => [KeyValue(keys[0], v)] + Projected(labels, keys[1..])
  }

  lemma {:induction false} ProjectionKeepsLookups(labels: seq<KeyValue>, keys: seq<Text>, k: Text)
    ensures LookupLabel(Projected(labels, keys), k) == if k in keys then LookupLabel(labels, k) else None
    decreases |keys|
  {
    if keys != [] {
      ProjectionKeepsLookups(labels, keys[1..], k);
      var projected := Projected(labels, keys);
      if LookupLabel(labels, keys[0]).Some? {
        assert projected[1..] == Projected(labels, keys[1..]);
      }
    }
  }

  lemma {:induction false} ProjectionDependsOnLookups(labels: seq<KeyValue>, other: seq<KeyValue>, keys: seq<Text>)
    requires forall k :: k in keys ==> LookupLabel(labels, k) == LookupLabel(other, k)
    ensures Projected(labels, keys) == Projected(other, keys)
    decreases |keys|
  {
    if keys != [] {
      ProjectionDependsOnLookups(labels, other, keys[1..]);
    }
  }

  /** Projecting twice is projecting once, and the projected labels have the key of all
      labels, for every label list and every `aggregateBy`. */
  lemma {:induction false} ProjectionIsIdempotent(labels: seq<KeyValue>, aggregateBy: seq<Text>)
    ensures SeriesAttrs(SeriesAttrs(labels, aggregateBy), aggregateBy) == SeriesAttrs(labels, aggregateBy)
    ensures AttributesKey(SeriesAttrs(labels, aggregateBy), aggregateBy) == AttributesKey(labels, aggregateBy)
  {
    if aggregateBy != [] {
      var projected := Projected(labels, aggregateBy);
      forall k | k in aggregateBy
        ensures LookupLabel(projected, k) == LookupLabel(labels, k)
      {
        ProjectionKeepsLookups(labels, aggregateBy, k);
      }
      ProjectionDependsOnLookups(projected, labels, aggregateBy);
      WalkDependsOnLookups(projected, labels, aggregateBy);
    }
  }

  // ---------- the keys of a config ----------

  /** The part of a config that decides series identity. */
  datatype Identity = Identity(aggId: u64, globalAggregation: bool, omitResourceAttrs: bool, aggregateBy: seq<Text>)

  function Decimal(n: nat): seq<byte> {
    if n < 10 then [0x30 + n] else Decimal(n / 10) + [0x30 + n % 10]
  }

  lemma {:induction false} DecimalIsInjective(n: nat, m: nat)
    requires Decimal(n) == Decimal(m)
    ensures n == m
    decreases n
  {
    var a, b := Decimal(n), Decimal(m);
    assert a[|a| - 1] == 0x30 + n % 10 && b[|b| - 1] == 0x30 + m % 10;
    if n >= 10 && m >= 10 {
      assert a[..|a| - 1] == Decimal(n / 10) && b[..|b| - 1] == Decimal(m / 10);
      DecimalIsInjective(n / 10, m / 10);
    } else {
      DecimalLength(n);
      DecimalLength(m);
    }
  }

  lemma {:induction false} DecimalLength(n: nat)
    ensures n >= 10 ==> |Decimal(n)| >= 2
    ensures n < 10 ==> |Decimal(n)| == 1
  {
  }

  function SeriesKey(aggId: u64, resource: seq<KeyValue>, labels: seq<KeyValue>, aggregateBy: seq<Text>): seq<byte> {
    Decimal(aggId) + [0x7C] + AttributesKey(resource, []) + [0x7C] + AttributesKey(labels, aggregateBy)
  }

  /** The key of an observation or of a stored entry. */
  function KeyFor(id: Identity, resource: seq<KeyValue>, labels: seq<KeyValue>): seq<byte> {
    if id.globalAggregation then SeriesKey(id.aggId, [], [], [])
    else if id.omitResourceAttrs then SeriesKey(id.aggId, [], labels, id.aggregateBy)
    else SeriesKey(id.aggId, resource, labels, id.aggregateBy)
  }

  /** The labels the pane store keeps with an entry. */
  function PaneLabels(id: Identity, resource: seq<KeyValue>, labels: seq<KeyValue>): (seq<KeyValue>, seq<KeyValue>) {
    if id.globalAggregation then ([], [])
    else (if id.omitResourceAttrs then [] else resource, SeriesAttrs(labels, id.aggregateBy))
  }

  /** The labels the tumbling window keeps with an entry. */
  function WindowLabels(id: Identity, resource: seq<KeyValue>, labels: seq<KeyValue>): (seq<KeyValue>, seq<KeyValue>) {
    if id.globalAggregation then ([], [])
    else (if id.omitResourceAttrs then [] else resource, labels)
  }

  /** The key of an observation is the key rebuilt from the labels stored with its entry, and
      storing stored labels changes nothing: keys and labels survive any number of stages. */
  lemma {:induction false} KeysSurviveStorage(id: Identity, resource: seq<KeyValue>, labels: seq<KeyValue>)
    ensures var (r, l) := PaneLabels(id, resource, labels);
      KeyFor(id, r, l) == KeyFor(id, resource, labels) && PaneLabels(id, r, l) == (r, l)
    ensures var (r, l) := WindowLabels(id, resource, labels);
      KeyFor(id, r, l) == KeyFor(id, resource, labels) && WindowLabels(id, r, l) == (r, l)
  {
    hide AttributesKey, SeriesAttrs;
    ProjectionIsIdempotent(labels, id.aggregateBy);
  }
}
