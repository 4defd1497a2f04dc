/** Length-prefixed label keys, and stable series identifiers. */
module LabelKeys {
  import opened Basics
  import opened Envelopes
  import opened Sorting
  import opened SeriesKeys

  const U32_MAX: nat := 0xFFFF_FFFF

  type Envelope = SketchEnvelope<seq<byte>>

  /** Labels by key, then by value. */
  predicate LabelBefore(a: KeyValue, b: KeyValue) {
    Less(a.key, b.key) || (a.key == b.key && InOrder(a.value, b.value))
  }

  lemma {:induction false} LabelOrderIsTotal()
    ensures TotalOrder(LabelBefore)
  {
    ByteOrderIsTotal();
    forall a: KeyValue, b: KeyValue
      ensures Less(a.key, b.key) || a.key == b.key || Less(b.key, a.key)
      ensures !(Less(a.key, b.key) && Less(b.key, a.key)) && !Less(a.key, a.key)
    {
      LessIsTotal(a.key, b.key);
      LessIsTotal(a.key, a.key);
    }
    forall a: KeyValue, b: KeyValue, c: KeyValue | Less(a.key, b.key) && Less(b.key, c.key)
      ensures Less(a.key, c.key)
    {
      LessIsTransitive(a.key, b.key, c.key);
    }
    hide Less, InOrder;
  }

  /** `length:text`. */
  function Prefixed(s: Text): seq<byte> {
    Decimal(|s|) + [0x3A] + s
  }

  function Spelled(labels: seq<KeyValue>): seq<byte> {
    if labels == [] then [] else Prefixed(labels[0].key) + (Prefixed(labels[0].value) + Spelled(labels[1..]))
  }

  /** The key of a label set: sorted, each length-prefixed. */
  function LabelKey(labels: seq<KeyValue>): seq<byte> {
    Spelled(Sort(labels, LabelBefore))
  }

  method AppendLabelsToKey(key: seq<byte>, labels: seq<KeyValue>) returns (out: seq<byte>)
    ensures out == key + LabelKey(labels)
  {
    hide Sort, Prefixed;
    var rest := Sort(labels, LabelBefore);
    out := key;
    while rest != []
      invariant out + Spelled(rest) == key + LabelKey(labels)
      decreases |rest|
    {
      ghost var before := out;
      out := out + Prefixed(rest[0].key) + Prefixed(rest[0].value);
      assert before + Spelled(rest) == out + Spelled(rest[1..]);
      rest := rest[1..];
    }
  }

  // ---------- the keys can be read back ----------

  lemma {:induction false} DecimalDigits(n: nat)
    ensures forall i :: 0 <= i < |Decimal(n)| ==> Decimal(n)[i] != 0x3A
    decreases n
  {
    if n >= 10 {
      DecimalDigits(n / 10);
    }
  }

  /** A number ends at its colon. */
  lemma {:induction false} NumberDecodes(n: nat, x: seq<byte>, m: nat, y: seq<byte>)
    requires Decimal(n) + [0x3A] + x == Decimal(m) + [0x3A] + y
    ensures n == m && x == y
  {
    var a, b := Decimal(n), Decimal(m);
    var all := a + [0x3A] + x;
    DecimalDigits(n);
    DecimalDigits(m);
    assert all[|a|] == 0x3A && all[|b|] == 0x3A;
    assert forall i :: 0 <= i < |a| ==> all[i] == a[i];
    assert forall i :: 0 <= i < |b| ==> all[i] == b[i];
    assert |a| == |b|;
    assert a == all[..|a|] && b == all[..|b|];
    DecimalIsInjective(n, m);
    assert x == all[|a| + 1..] && y == all[|b| + 1..];
  }

  lemma {:induction false} TextDecodes(s: Text, x: seq<byte>, t: Text, y: seq<byte>)
    requires Prefixed(s) + x == Prefixed(t) + y
    ensures s == t && x == y
  {
    assert Prefixed(s) + x == Decimal(|s|) + [0x3A] + (s + x);
    assert Prefixed(t) + y == Decimal(|t|) + [0x3A] + (t + y);
    NumberDecodes(|s|, s + x, |t|, t + y);
    assert s == (s + x)[..|s|] && t == (t + y)[..|t|];
    assert x == (s + x)[|s|..] && y == (t + y)[|t|..];
  }

  lemma {:induction false} PrefixedIsLong(s: Text)
    ensures Prefixed(s) != []
  {
  }

  /** A spelled list can be read back. */
  lemma {:induction false} SpelledIsInjective(a: seq<KeyValue>, b: seq<KeyValue>)
    requires Spelled(a) == Spelled(b)
    ensures a == b
    decreases |a|
  {
    hide Prefixed;
    if a != [] {
      PrefixedIsLong(a[0].key);
    }
    if b != [] {
      PrefixedIsLong(b[0].key);
    }
    if a != [] && b != [] {
      TextDecodes(a[0].key, Prefixed(a[0].value) + Spelled(a[1..]), b[0].key, Prefixed(b[0].value) + Spelled(b[1..]));
      TextDecodes(a[0].value, Spelled(a[1..]), b[0].value, Spelled(b[1..]));
      SpelledIsInjective(a[1..], b[1..]);
      assert a == [a[0]] + a[1..] && b == [b[0]] + b[1..];
    }
  }

  /** Two label lists have one key exactly when they are the same labels in some order. */
  lemma {:induction false} LabelKeyDecides(a: seq<KeyValue>, b: seq<KeyValue>)
    ensures LabelKey(a) == LabelKey(b) <==> multiset(a) == multiset(b)
  {
    LabelOrderIsTotal();
    SortSorts(a, LabelBefore);
    SortSorts(b, LabelBefore);
    if multiset(a) == multiset(b) {
      SortIsUnique(a, b, LabelBefore);
    }
    if LabelKey(a) == LabelKey(b) {
      SpelledIsInjective(Sort(a, LabelBefore), Sort(b, LabelBefore));
    }
    hide Sort, Spelled, TotalOrder;
  }

  // ---------- series identity ----------

  /** The identity of a series: aggregation, metric, resource labels, labels. */
  function SeriesIdentity(e: Envelope): seq<byte> {
    Decimal(e.aggId) + [0x3A] + (Prefixed(e.metricName) + [0x3A] + (LabelKey(e.resourceLabels) + LabelKey(e.labels)))
  }

  /** Within one resource, the identity tells the metric and the labels. */
  lemma {:induction false} IdentityDecides(d: Envelope, e: Envelope)
    requires multiset(d.resourceLabels) == multiset(e.resourceLabels)
    ensures SeriesIdentity(d) == SeriesIdentity(e)
      <==> d.aggId == e.aggId && d.metricName == e.metricName && multiset(d.labels) == multiset(e.labels)
  {
    LabelKeyDecides(d.resourceLabels, e.resourceLabels);
    LabelKeyDecides(d.labels, e.labels);
    hide LabelKey, Prefixed;
    if SeriesIdentity(d) == SeriesIdentity(e) {
      var r := LabelKey(d.resourceLabels);
      NumberDecodes(d.aggId, Prefixed(d.metricName) + [0x3A] + (r + LabelKey(d.labels)),
                    e.aggId, Prefixed(e.metricName) + [0x3A] + (r + LabelKey(e.labels)));
      assert Prefixed(d.metricName) + [0x3A] + (r + LabelKey(d.labels)) == Prefixed(d.metricName) + ([0x3A] + (r + LabelKey(d.labels)));
      assert Prefixed(e.metricName) + [0x3A] + (r + LabelKey(e.labels)) == Prefixed(e.metricName) + ([0x3A] + (r + LabelKey(e.labels)));
      TextDecodes(d.metricName, [0x3A] + (r + LabelKey(d.labels)), e.metricName, [0x3A] + (r + LabelKey(e.labels)));
      SameTail([0x3A], r + LabelKey(d.labels), r + LabelKey(e.labels));
      SameTail(r, LabelKey(d.labels), LabelKey(e.labels));
    }
  }

  /** Across resources it does not: a label counts the same on either side. */
  lemma {:induction false} IdentityIgnoresTheBoundary(e: Envelope, kv: KeyValue)
    ensures SeriesIdentity(e.(resourceLabels := [kv], labels := [])) == SeriesIdentity(e.(resourceLabels := [], labels := [kv]))
  {
    assert LabelKey([]) == [];
    assert LabelKey([kv]) + [] == [] + LabelKey([kv]);
  }

  /** Whether two envelopes go under one resource. */
  predicate SameResource(d: Envelope, e: Envelope) {
    d.aggId == e.aggId && d.sketchType == e.sketchType && d.schemaVersion == e.schemaVersion
    && LabelKey(d.resourceLabels) == LabelKey(e.resourceLabels)
  }

  /** One number a series, for the lifetime of a stream. */
  class SeriesIds {
    var next: nat
    var ids: map<seq<byte>, nat>

    /** Until the counter saturates, different series have different numbers. */
    ghost predicate Valid()
      reads this
    {
      && 1 <= next <= U32_MAX
      && (forall k :: k in ids ==> 1 <= ids[k] <= next)
      && (next < U32_MAX ==>
           && (forall k :: k in ids ==> ids[k] < next)
           && forall j, k :: j in ids && k in ids && ids[j] == ids[k] ==> j == k)
    }

    constructor ()
      ensures Valid() && next == 1 && ids == map[]
    {
      next, ids := 1, map[];
    }

    method SeriesIdFor(e: Envelope) returns (id: nat)
      requires Valid()
      modifies this
      ensures Valid() && SeriesIdentity(e) in ids && ids[SeriesIdentity(e)] == id
      ensures forall k :: k in old(ids) ==> k in ids && ids[k] == old(ids)[k]
      ensures ids.Keys == old(ids).Keys + {SeriesIdentity(e)}
      ensures old(next) <= next <= old(next) + 1
    {
      hide SeriesIdentity;
      var key := SeriesIdentity(e);
      if key in ids {
        return ids[key];
      }
      id := next;
      next := if next < U32_MAX then next + 1 else U32_MAX;
      ids := ids[key := id];
    }
  }
}
