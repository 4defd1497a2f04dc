/** When two label sets have one series key. */
module LabelSets {
  import opened Basics
  import opened Envelopes
  import opened Sorting
  import opened SeriesKeys

  /** Without `=`, `;` and `|`, which nothing escapes. */
  ghost predicate Clean(t: seq<byte>) {
    forall i :: 0 <= i < |t| ==> t[i] != 0x3D && t[i] != 0x3B && t[i] != 0x7C
  }

  ghost predicate CleanLabels(labels: seq<KeyValue>) {
    forall i :: 0 <= i < |labels| ==> Clean(labels[i].key) && Clean(labels[i].value)
  }

  lemma {:induction false} FirstMark(a: seq<byte>, x: seq<byte>, mark: byte)
    requires mark !in a
    ensures var all := a + [mark] + x;
      |a| < |all| && all[|a|] == mark && all[..|a|] == a && all[|a| + 1..] == x && forall i :: 0 <= i < |a| ==> all[i] != mark
  {
  }

  /** Two strings that go on after the first `mark` split alike. */
  lemma {:induction false} SplitAtMark(a: seq<byte>, x: seq<byte>, b: seq<byte>, y: seq<byte>, mark: byte)
    requires a + [mark] + x == b + [mark] + y
    requires mark !in a && mark !in b
    ensures a == b && x == y
  {
    FirstMark(a, x, mark);
    FirstMark(b, y, mark);
  }

  /** The labels from the first on: the same key, written front to back. */
  ghost function Forward(labels: seq<KeyValue>): seq<byte> {
    if labels == [] then [] else Chunk(labels[0].key, labels[0].value) + Forward(labels[1..])
  }

  lemma {:induction false} ForwardPush(labels: seq<KeyValue>, kv: KeyValue)
    ensures Forward(labels + [kv]) == Forward(labels) + Chunk(kv.key, kv.value)
    decreases |labels|
  {
    hide Chunk;
    if labels == [] {
      assert [kv][1..] == [];
      assert Forward([kv][1..]) == [];
      assert Chunk(kv.key, kv.value) + [] == Chunk(kv.key, kv.value) == [] + Chunk(kv.key, kv.value);
    } else {
      ForwardPush(labels[1..], kv);
      assert (labels + [kv])[1..] == labels[1..] + [kv];
      assert Chunk(labels[0].key, labels[0].value) + (Forward(labels[1..]) + Chunk(kv.key, kv.value))
          == (Chunk(labels[0].key, labels[0].value) + Forward(labels[1..])) + Chunk(kv.key, kv.value);
    }
  }

  lemma {:induction false} WrittenForward(labels: seq<KeyValue>)
    ensures Written(labels) == Forward(labels)
    decreases |labels|
  {
    hide Chunk;
    if labels != [] {
      var init, last := labels[..|labels| - 1], labels[|labels| - 1];
      WrittenForward(init);
      ForwardPush(init, last);
      assert init + [last] == labels;
    }
  }

  /** Clean labels can be read back. */
  lemma {:induction false} ForwardDecides(labels: seq<KeyValue>, other: seq<KeyValue>)
    requires CleanLabels(labels) && CleanLabels(other) && Forward(labels) == Forward(other)
    ensures labels == other
    decreases |labels|
  {
    if labels != [] && other != [] {
      FirstDecides(labels, other);
      ForwardDecides(labels[1..], other[1..]);
      assert labels == [labels[0]] + labels[1..] && other == [other[0]] + other[1..];
    }
  }

  lemma {:induction false} ForwardFirst(labels: seq<KeyValue>)
    requires labels != []
    ensures Forward(labels) == labels[0].key + [0x3D] + (labels[0].value + [0x3B] + Forward(labels[1..]))
  {
    var a, rest := labels[0], Forward(labels[1..]);
    hide Forward;
    ChunkThen(a.key, a.value, rest);
    assert Forward(labels) == Chunk(a.key, a.value) + rest by { ForwardIs(labels); }
  }

  lemma {:induction false} ForwardIs(labels: seq<KeyValue>)
    requires labels != []
    ensures Forward(labels) == Chunk(labels[0].key, labels[0].value) + Forward(labels[1..])
  {
  }

  lemma {:induction false} ChunkThen(key: Text, value: Text, rest: seq<byte>)
    ensures Chunk(key, value) + rest == key + [0x3D] + (value + [0x3B] + rest)
  {
  }

  lemma {:induction false} CleanFirst(labels: seq<KeyValue>)
    requires labels != [] && CleanLabels(labels)
    ensures 0x3D !in labels[0].key && 0x3B !in labels[0].value
  {
    assert Clean(labels[0].key) && Clean(labels[0].value);
  }

  lemma {:induction false} FirstDecides(labels: seq<KeyValue>, other: seq<KeyValue>)
    requires labels != [] && other != [] && CleanLabels(labels) && CleanLabels(other) && Forward(labels) == Forward(other)
    ensures labels[0] == other[0] && Forward(labels[1..]) == Forward(other[1..])
  {
    hide Forward, CleanLabels;
    var a, b := labels[0], other[0];
    var x, y := Forward(labels[1..]), Forward(other[1..]);
    ForwardFirst(labels);
    ForwardFirst(other);
    CleanFirst(labels);
    CleanFirst(other);
    SplitAtMark(a.key, a.value + [0x3B] + x, b.key, b.value + [0x3B] + y, 0x3D);
    SplitAtMark(a.value, x, b.value, y, 0x3B);
  }

  lemma {:induction false} ProjectedPush(labels: seq<KeyValue>, keys: seq<Text>, k: Text)
    ensures Projected(labels, keys + [k]) == Projected(labels, keys) +
      match LookupLabel(labels, k)
      case None => []
      case Some(v) => [KeyValue(k, v)]
    decreases |keys|
  {
    hide LookupLabel;
    if keys == [] {
      assert [k][1..] == [];
      assert Projected(labels, [k][1..]) == [];
    } else {
      ProjectedPush(labels, keys[1..], k);
      assert (keys + [k])[1..] == keys[1..] + [k];
    }
  }

  /** A walk over keys writes the projection to them. */
  lemma {:induction false} WalkWritesProjection(labels: seq<KeyValue>, keys: seq<Text>)
    ensures Walked(labels, keys) == Written(Projected(labels, keys))
    decreases |keys|
  {
    hide LookupLabel, Chunk;
    if keys != [] {
      var init, k := keys[..|keys| - 1], keys[|keys| - 1];
      WalkWritesProjection(labels, init);
      ProjectedPush(labels, init, k);
      assert init + [k] == keys;
      match LookupLabel(labels, k)
      case None =>
        assert Projected(labels, init) + [] == Projected(labels, init);
        assert Walked(labels, init) + [] == Walked(labels, init);
      case Some(v) =>
        var all := Projected(labels, init) + [KeyValue(k, v)];
        assert all[..|all| - 1] == Projected(labels, init);
    }
  }

  lemma {:induction false} ProjectedClean(labels: seq<KeyValue>, keys: seq<Text>)
    requires CleanLabels(labels)
    ensures CleanLabels(Projected(labels, keys))
    decreases |keys|
  {
    hide Clean;
    if keys != [] {
      ProjectedClean(labels, keys[1..]);
      LookupClean(labels, keys[0]);
    }
  }

  lemma {:induction false} LookupClean(labels: seq<KeyValue>, key: Text)
    requires CleanLabels(labels)
    ensures LookupLabel(labels, key).Some? ==> Clean(key) && Clean(LookupLabel(labels, key).value)
    decreases |labels|
  {
    hide Clean;
    if labels != [] && labels[0].key != key {
      assert CleanLabels(labels[1..]);
      LookupClean(labels[1..], key);
    }
  }

  /** The labels that a key stands for: the projection, in the order of the keys. */
  ghost function Canonical(labels: seq<KeyValue>, aggregateBy: seq<Text>): seq<KeyValue> {
    Projected(labels, if aggregateBy == [] then Sort(Keys(labels), InOrder) else aggregateBy)
  }

  lemma {:induction false} KeyWritesCanonical(labels: seq<KeyValue>, aggregateBy: seq<Text>)
    ensures AttributesKey(labels, aggregateBy) == Written(Canonical(labels, aggregateBy))
  {
    if aggregateBy == [] {
      if StrictlySorted(labels) {
        FastPathIsTheWalk(labels);
      }
      WalkWritesProjection(labels, Sort(Keys(labels), InOrder));
    } else {
      WalkWritesProjection(labels, aggregateBy);
    }
    hide StrictlySorted, Walked, Written, Sort, Keys, Projected;
  }

  /** Clean labels have one key exactly when they have one canonical form. */
  lemma {:induction false} SameCanonical(labels: seq<KeyValue>, other: seq<KeyValue>, aggregateBy: seq<Text>)
    requires CleanLabels(labels) && CleanLabels(other)
    ensures AttributesKey(labels, aggregateBy) == AttributesKey(other, aggregateBy) <==> Canonical(labels, aggregateBy) == Canonical(other, aggregateBy)
  {
    KeyWritesCanonical(labels, aggregateBy);
    KeyWritesCanonical(other, aggregateBy);
    var a, b := Canonical(labels, aggregateBy), Canonical(other, aggregateBy);
    CanonicalClean(labels, aggregateBy);
    CanonicalClean(other, aggregateBy);
    hide AttributesKey, Canonical, CleanLabels, Written, Forward;
    WrittenForward(a);
    WrittenForward(b);
    if Written(a) == Written(b) {
      ForwardDecides(a, b);
    }
  }

  lemma {:induction false} CanonicalClean(labels: seq<KeyValue>, aggregateBy: seq<Text>)
    requires CleanLabels(labels)
    ensures CleanLabels(Canonical(labels, aggregateBy))
  {
    ProjectedClean(labels, if aggregateBy == [] then Sort(Keys(labels), InOrder) else aggregateBy);
  }

  /** With `aggregate_by`, clean labels have one key exactly when they agree on those names. */
  lemma {:induction false} AggregatedKeyDecides(labels: seq<KeyValue>, other: seq<KeyValue>, aggregateBy: seq<Text>)
    requires CleanLabels(labels) && CleanLabels(other) && aggregateBy != []
    ensures AttributesKey(labels, aggregateBy) == AttributesKey(other, aggregateBy)
      <==> forall k :: k in aggregateBy ==> LookupLabel(labels, k) == LookupLabel(other, k)
  {
    SameCanonical(labels, other, aggregateBy);
    hide AttributesKey, LookupLabel, Projected;
    if Projected(labels, aggregateBy) == Projected(other, aggregateBy) {
      forall k | k in aggregateBy
        ensures LookupLabel(labels, k) == LookupLabel(other, k)
      {
        ProjectionKeepsLookups(labels, aggregateBy, k);
        ProjectionKeepsLookups(other, aggregateBy, k);
      }
    }
    if forall k :: k in aggregateBy ==> LookupLabel(labels, k) == LookupLabel(other, k) {
      ProjectionDependsOnLookups(labels, other, aggregateBy);
    }
  }

  lemma {:induction false} SortKeeps(labels: seq<KeyValue>, k: Text)
    ensures k in Sort(Keys(labels), InOrder) <==> exists i :: 0 <= i < |labels| && labels[i].key == k
  {
    ByteOrderIsTotal();
    SortSorts(Keys(labels), InOrder);
    var keys, sorted := Keys(labels), Sort(Keys(labels), InOrder);
    hide Sort;
    assert k in sorted <==> k in multiset(sorted);
    assert k in keys <==> k in multiset(keys);
    if i :| 0 <= i < |labels| && labels[i].key == k {
      assert keys[i] == k;
    }
  }

  lemma {:induction false} CanonicalLookup(labels: seq<KeyValue>, k: Text)
    ensures LookupLabel(Canonical(labels, []), k) == LookupLabel(labels, k)
  {
    ProjectionKeepsLookups(labels, Sort(Keys(labels), InOrder), k);
    SortKeeps(labels, k);
    hide Sort, Keys, Projected;
    if k !in Sort(Keys(labels), InOrder) {
      LookupNone(labels, k);
    }
  }

  /** Labels with unique keys are given by their lookups. */
  lemma {:induction false} LookupsDecide(labels: seq<KeyValue>, other: seq<KeyValue>)
    requires UniqueKeys(labels) && UniqueKeys(other) && forall k: Text :: LookupLabel(labels, k) == LookupLabel(other, k)
    ensures multiset(labels) == multiset(other)
  {
    forall x: KeyValue
      ensures multiset(labels)[x] == multiset(other)[x]
    {
      TimesListed(labels, x);
      TimesListed(other, x);
    }
  }

  lemma {:induction false} TimesListed(labels: seq<KeyValue>, x: KeyValue)
    requires UniqueKeys(labels)
    ensures multiset(labels)[x] == if LookupLabel(labels, x.key) == Some(x.value) then 1 else 0
    decreases |labels|
  {
    if labels != [] {
      var rest := labels[1..];
      assert labels == [labels[0]] + rest;
      assert UniqueKeys(rest);
      TimesListed(rest, x);
      if labels[0].key == x.key {
        LookupNone(rest, x.key);
      }
    }
  }

  /** Without `aggregate_by`, clean labels with unique keys have one key exactly when they are the same
      labels, in whatever order. */
  lemma {:induction false} WholeKeyDecides(labels: seq<KeyValue>, other: seq<KeyValue>)
    requires CleanLabels(labels) && CleanLabels(other) && UniqueKeys(labels) && UniqueKeys(other)
    ensures AttributesKey(labels, []) == AttributesKey(other, []) <==> multiset(labels) == multiset(other)
  {
    hide AttributesKey, Canonical, CleanLabels, UniqueKeys, LookupLabel;
    if AttributesKey(labels, []) == AttributesKey(other, []) {
      SameCanonical(labels, other, []);
      forall k: Text
        ensures LookupLabel(labels, k) == LookupLabel(other, k)
      {
        CanonicalLookup(labels, k);
        CanonicalLookup(other, k);
      }
      LookupsDecide(labels, other);
    }
    if multiset(labels) == multiset(other) {
      OrderDoesNotMatter(labels, other, []);
    }
  }

  lemma {:induction false} KeyIsUnmarked(labels: seq<KeyValue>, aggregateBy: seq<Text>)
    requires CleanLabels(labels)
    ensures 0x7C !in AttributesKey(labels, aggregateBy)
  {
    KeyWritesCanonical(labels, aggregateBy);
    CanonicalClean(labels, aggregateBy);
    hide AttributesKey, Canonical;
    WrittenUnmarked(Canonical(labels, aggregateBy));
  }

  lemma {:induction false} WrittenUnmarked(labels: seq<KeyValue>)
    requires CleanLabels(labels)
    ensures 0x7C !in Written(labels)
    decreases |labels|
  {
    if labels != [] {
      WrittenUnmarked(labels[..|labels| - 1]);
    }
  }

  lemma {:induction false} DecimalUnmarked(n: nat)
    ensures 0x7C !in Decimal(n)
    decreases n
  {
    if n >= 10 {
      DecimalUnmarked(n / 10);
    }
  }

  /** A series key, of clean labels, is given by the aggregation and the keys of both label sets. */
  lemma {:induction false} SeriesKeyDecides(aggId: u64, resource: seq<KeyValue>, labels: seq<KeyValue>,
                                            other: u64, resource': seq<KeyValue>, labels': seq<KeyValue>, aggregateBy: seq<Text>)
    requires CleanLabels(resource) && CleanLabels(labels) && CleanLabels(resource') && CleanLabels(labels')
    ensures SeriesKey(aggId, resource, labels, aggregateBy) == SeriesKey(other, resource', labels', aggregateBy) <==>
      && aggId == other && AttributesKey(resource, []) == AttributesKey(resource', [])
      && AttributesKey(labels, aggregateBy) == AttributesKey(labels', aggregateBy)
  {
    hide AttributesKey, Decimal, CleanLabels;
    if SeriesKey(aggId, resource, labels, aggregateBy) == SeriesKey(other, resource', labels', aggregateBy) {
      KeyIsUnmarked(resource, []);
      KeyIsUnmarked(resource', []);
      DecimalUnmarked(aggId);
      DecimalUnmarked(other);
      var a, b := AttributesKey(labels, aggregateBy), AttributesKey(labels', aggregateBy);
      var x, y := AttributesKey(resource, []) + [0x7C] + a, AttributesKey(resource', []) + [0x7C] + b;
      assert Decimal(aggId) + [0x7C] + x == SeriesKey(aggId, resource, labels, aggregateBy);
      assert Decimal(other) + [0x7C] + y == SeriesKey(other, resource', labels', aggregateBy);
      SplitAtMark(Decimal(aggId), x, Decimal(other), y, 0x7C);
      SplitAtMark(AttributesKey(resource, []), a, AttributesKey(resource', []), b, 0x7C);
      DecimalIsInjective(aggId, other);
    }
  }

  /** Two observations of clean labels are one series exactly when, under the identity's settings, their
      resources and labels agree. */
  lemma {:induction false} KeyForDecides(id: Identity, resource: seq<KeyValue>, labels: seq<KeyValue>, resource': seq<KeyValue>, labels': seq<KeyValue>)
    requires CleanLabels(resource) && CleanLabels(labels) && CleanLabels(resource') && CleanLabels(labels')
    requires UniqueKeys(resource) && UniqueKeys(labels) && UniqueKeys(resource') && UniqueKeys(labels')
    ensures KeyFor(id, resource, labels) == KeyFor(id, resource', labels') <==>
      id.globalAggregation || ((id.omitResourceAttrs || multiset(resource) == multiset(resource')) && SameFor(id.aggregateBy, labels, labels'))
  {
    hide SeriesKey, CleanLabels, UniqueKeys, SameFor, AttributesKey;
    NoLabelsClean();
    if !id.globalAggregation {
      LabelsDecide(id.aggregateBy, labels, labels');
      if id.omitResourceAttrs {
        SeriesKeyDecides(id.aggId, [], labels, id.aggId, [], labels', id.aggregateBy);
      } else {
        SeriesKeyDecides(id.aggId, resource, labels, id.aggId, resource', labels', id.aggregateBy);
        WholeKeyDecides(resource, resource');
      }
    }
  }

  lemma {:induction false} NoLabelsClean()
    ensures CleanLabels([])
  {
  }

  /** The labels agree on the names in `aggregateBy`, or altogether if there are none. */
  ghost predicate SameFor(aggregateBy: seq<Text>, labels: seq<KeyValue>, labels': seq<KeyValue>) {
    if aggregateBy == [] then multiset(labels) == multiset(labels')
    else forall k :: k in aggregateBy ==> LookupLabel(labels, k) == LookupLabel(labels', k)
  }

  lemma {:induction false} LabelsDecide(aggregateBy: seq<Text>, labels: seq<KeyValue>, labels': seq<KeyValue>)
    requires CleanLabels(labels) && CleanLabels(labels') && UniqueKeys(labels) && UniqueKeys(labels')
    ensures AttributesKey(labels, aggregateBy) == AttributesKey(labels', aggregateBy) <==> SameFor(aggregateBy, labels, labels')
  {
    hide AttributesKey, CleanLabels, UniqueKeys, LookupLabel;
    if aggregateBy == [] {
      WholeKeyDecides(labels, labels');
    } else {
      AggregatedKeyDecides(labels, labels', aggregateBy);
    }
  }

  /** Nothing is escaped: a label whose value holds a separator can be taken for two labels. */
  lemma {:induction false} SeparatorsCollide(a: Text, x: Text, b: Text, y: Text, joined: Text)
    requires joined == x + [0x3B] + b + [0x3D] + y && Less(a, b)
    ensures AttributesKey([KeyValue(a, x), KeyValue(b, y)], []) == AttributesKey([KeyValue(a, joined)], [])
  {
    hide Less, Sort, Keys;
    var two, one := [KeyValue(a, x), KeyValue(b, y)], [KeyValue(a, joined)];
    assert StrictlySorted(two) && StrictlySorted(one);
    hide StrictlySorted, Chunk, Forward;
    hide Written;
    NothingWritten(two);
    WrittenNext(two, 0);
    WrittenNext(two, 1);
    WrittenNext(one, 0);
    assert two[..2] == two && two[..0] == [] && one[..1] == one && one[..0] == [];
    ChunksJoin(a, x, b, y, joined);
  }

  lemma {:induction false} ChunksJoin(a: Text, x: Text, b: Text, y: Text, joined: Text)
    requires joined == x + [0x3B] + b + [0x3D] + y
    ensures [] + Chunk(a, x) + Chunk(b, y) == [] + Chunk(a, joined)
  {
  }
}
