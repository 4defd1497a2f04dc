/** What is encoded is what is decoded, once each: every envelope of a flush comes back as one
    observation with the same payload, type, window, metric, count and value, and with the
    same labels up to order, when no series drops the sketch it opens with. */
module EnvelopeRoundTrip {
  import opened Basics
  import opened Envelopes
  import opened LabelKeys
  import opened EnvelopeTrees
  import opened EnvelopeCodec
  import opened EnvelopeSeries

  ghost predicate ResourceKeysFree(labels: seq<KeyValue>) {
    forall i :: 0 <= i < |labels| ==> labels[i].key !in {TypeKey(), AggIdKey(), VersionKey(), SizeKey()}
  }

  ghost predicate SeriesKeysFree(labels: seq<KeyValue>) {
    forall i :: 0 <= i < |labels| ==> labels[i].key != SeriesIdKey()
  }

  /** No label uses a reserved key, integers fit in 63 bits, and the payload is valid. */
  ghost predicate Storable(lib: Library, e: Envelope) {
    && ResourceKeysFree(e.resourceLabels) && SeriesKeysFree(e.labels)
    && e.aggId < I64_LIMIT && e.windowStartMs < I64_LIMIT && e.windowEndMs < I64_LIMIT && e.schemaVersion <= U32_MAX
    && ValidPayload(lib, e.sketchType, e.payload)
  }

  /** An envelope read back: everything it had, its labels in some order. */
  ghost predicate SameEnvelope(d: Envelope, e: Envelope) {
    && d.schemaVersion == e.schemaVersion && d.sketchType == e.sketchType && d.aggId == e.aggId
    && multiset(d.resourceLabels) == multiset(e.resourceLabels) && multiset(d.labels) == multiset(e.labels)
    && d.windowStartMs == e.windowStartMs && d.windowEndMs == e.windowEndMs
    && d.payload == e.payload && d.metricName == e.metricName && d.count == e.count && d.value == e.value
  }

  /** An envelope without what a scalar point cannot carry. */
  function Bare(e: Envelope): Envelope {
    e.(resourceLabels := [], count := 0)
  }

  /** An observation for a row: its sketch, or its scalar at the end of the window. In a series
      that opened without a sketch, a sketch comes back without its count and its own copy of
      the resource labels. */
  ghost predicate Reads(o: Observation, e: Envelope, summary: bool) {
    && o.timestampMs == SatNanos(e.windowEndMs) / NANOS && o.metric == e.metricName
    && multiset(o.resourceLabels) == multiset(e.resourceLabels) && multiset(o.labels) == multiset(e.labels)
    && if e.payload == [] then o.value == Scalar(e.value)
       else o.value.Sketch? && SameEnvelope(o.value.envelope, if summary then e else Bare(e))
  }

  // ---------- attributes ----------

  lemma {:induction false} ReadSchemaPush(attrs: seq<Attr>, a: Attr)
    ensures ReadSchema(attrs + [a]) == SchemaStep(ReadSchema(attrs), a)
  {
    assert (attrs + [a])[..|attrs|] == attrs;
    hide SchemaStep;
  }

  lemma {:induction false} ReadSchemaLabels(labels: seq<KeyValue>)
    requires ResourceKeysFree(labels)
    ensures ReadSchema(LabelAttrs(labels)) == Schema(None, None, None, labels)
    decreases |labels|
  {
    hide Truncated, TypeKey, AggIdKey, VersionKey, SizeKey;
    if labels != [] {
      var init, last := labels[..|labels| - 1], labels[|labels| - 1];
      LabelAttrsPush(labels);
      hide LabelAttrs;
      ReadSchemaLabels(init);
      ReadSchemaPush(LabelAttrs(init), Attr(last.key, Str(last.value)));
      hide ReadSchema;
      assert init + [last] == labels;
    }
  }

  lemma {:induction false} ReadAggId(attrs: seq<Attr>, v: AttrValue)
    ensures ReadSchema(attrs + [Attr(AggIdKey(), v)]) == ReadSchema(attrs).(aggId := AsInt(v))
  {
    NamesDiffer();
    ReadSchemaPush(attrs, Attr(AggIdKey(), v));
    hide TypeKey, AggIdKey, VersionKey, SizeKey, ReadSchema;
  }

  lemma {:induction false} ReadType(attrs: seq<Attr>, t: SketchType)
    ensures ReadSchema(attrs + [Attr(TypeKey(), TypeName(t))]) == ReadSchema(attrs).(kind := Some(TypeName(t)))
  {
    ReadSchemaPush(attrs, Attr(TypeKey(), TypeName(t)));
    hide TypeKey, AggIdKey, VersionKey, SizeKey, ReadSchema;
  }

  lemma {:induction false} ReadVersion(attrs: seq<Attr>, v: nat)
    requires v <= U32_MAX
    ensures ReadSchema(attrs + [Attr(VersionKey(), Int(v))]) == ReadSchema(attrs).(version := Some(v))
  {
    NamesDiffer();
    TruncatedKeeps(v);
    ReadSchemaPush(attrs, Attr(VersionKey(), Int(v)));
    hide Truncated, TypeKey, AggIdKey, VersionKey, SizeKey, ReadSchema;
  }

  lemma {:induction false} ResourceAttrsOneByOne(e: Envelope)
    requires e.schemaVersion <= U32_MAX
    ensures ResourceAttrs(e) == LabelAttrs(e.resourceLabels) + [Attr(AggIdKey(), Int(e.aggId))] + [Attr(TypeKey(), TypeName(e.sketchType))]
                                + [Attr(VersionKey(), Int(e.schemaVersion))]
  {
    hide TypeKey, AggIdKey, VersionKey, LabelAttrs;
  }

  lemma {:induction false} ReadResource(e: Envelope)
    requires e.schemaVersion <= U32_MAX && ResourceKeysFree(e.resourceLabels)
    ensures ReadSchema(ResourceAttrs(e)) == Schema(Some(TypeName(e.sketchType)), AsInt(Int(e.aggId)), Some(e.schemaVersion), e.resourceLabels)
  {
    hide *;
    var a, t := Attr(AggIdKey(), Int(e.aggId)), Attr(TypeKey(), TypeName(e.sketchType));
    ReadSchemaLabels(e.resourceLabels);
    ResourceAttrsOneByOne(e);
    ReadAggId(LabelAttrs(e.resourceLabels), Int(e.aggId));
    ReadType(LabelAttrs(e.resourceLabels) + [a], e.sketchType);
    ReadVersion(LabelAttrs(e.resourceLabels) + [a] + [t], e.schemaVersion);
  }

  lemma {:induction false} ReadLabelsPush(attrs: seq<Attr>, a: Attr)
    ensures ReadLabels(attrs + [a]) == if a.key == SeriesIdKey() then ReadLabels(attrs) else AddLabel(ReadLabels(attrs), a)
  {
    hide SeriesIdKey, AddLabel;
    var all := attrs + [a];
    assert all[..|all| - 1] == attrs && all[|all| - 1] == a;
  }

  lemma {:induction false} ReadOnlyId(id: nat)
    requires id <= U32_MAX
    ensures ReadLabels([Attr(SeriesIdKey(), Int(id))]) == []
  {
    hide SeriesIdKey;
    assert [Attr(SeriesIdKey(), Int(id))][..0] == [];
    assert ReadLabels([]) == [];
  }

  lemma {:induction false} LabelAttrsPush(labels: seq<KeyValue>)
    requires labels != []
    ensures var last := labels[|labels| - 1];
      LabelAttrs(labels) == LabelAttrs(labels[..|labels| - 1]) + [Attr(last.key, Str(last.value))]
  {
  }

  lemma {:induction false} ReadScopeLabels(id: nat, labels: seq<KeyValue>)
    requires id <= U32_MAX && SeriesKeysFree(labels)
    ensures ReadLabels([Attr(SeriesIdKey(), Int(id))] + LabelAttrs(labels)) == labels
    decreases |labels|
  {
    hide SeriesIdKey, ReadLabels;
    var head := [Attr(SeriesIdKey(), Int(id))];
    if labels == [] {
      ReadOnlyId(id);
      assert head + LabelAttrs(labels) == head;
    } else {
      hide LabelAttrs;
      var init, last := labels[..|labels| - 1], labels[|labels| - 1];
      var a := Attr(last.key, Str(last.value));
      ReadScopeLabels(id, init);
      LabelAttrsPush(labels);
      ReadLabelsPush(head + LabelAttrs(init), a);
      assert head + LabelAttrs(labels) == head + LabelAttrs(init) + [a];
      assert init + [last] == labels;
    }
  }

  lemma {:induction false} ReadRecordPush(attrs: seq<Attr>, a: Attr, labels: seq<KeyValue>)
    ensures ReadRecord(attrs + [a], labels) == RecordStep(ReadRecord(attrs, labels), a)
  {
    assert (attrs + [a])[..|attrs|] == attrs;
    hide RecordStep;
  }

  lemma {:induction false} ReadBytes(payload: seq<byte>, labels: seq<KeyValue>)
    ensures ReadRecord([Attr(EnvelopeName(), Bytes(payload))], labels) == Record(Some(payload), None, None, labels)
    ensures ReadRecord([], labels) == Record(None, None, None, labels)
  {
    assert [] + [Attr(EnvelopeName(), Bytes(payload))] == [Attr(EnvelopeName(), Bytes(payload))];
    ReadRecordPush([], Attr(EnvelopeName(), Bytes(payload)), labels);
    hide EnvelopeName, StartKey, EndKey;
  }

  lemma {:induction false} ReadStart(attrs: seq<Attr>, n: u64, labels: seq<KeyValue>)
    ensures ReadRecord(attrs + [Attr(StartKey(), Int(n))], labels) == ReadRecord(attrs, labels).(start := AsInt(Int(n)))
  {
    NamesDiffer();
    ReadRecordPush(attrs, Attr(StartKey(), Int(n)), labels);
    hide EnvelopeName, StartKey, EndKey, ReadRecord;
  }

  lemma {:induction false} ReadEnd(attrs: seq<Attr>, n: u64, labels: seq<KeyValue>)
    ensures ReadRecord(attrs + [Attr(EndKey(), Int(n))], labels) == ReadRecord(attrs, labels).(end := AsInt(Int(n)))
  {
    NamesDiffer();
    ReadRecordPush(attrs, Attr(EndKey(), Int(n)), labels);
    hide EnvelopeName, StartKey, EndKey, ReadRecord;
  }

  lemma {:induction false} ReadRow(e: Envelope, labels: seq<KeyValue>)
    ensures ReadRecord(RowAttrs(e), labels)
         == Record(if e.payload == [] then None else Some(e.payload), AsInt(Int(e.windowStartMs)), AsInt(Int(e.windowEndMs)), labels)
  {
    var s, t := Attr(StartKey(), Int(e.windowStartMs)), Attr(EndKey(), Int(e.windowEndMs));
    var head := if e.payload != [] then [Attr(EnvelopeName(), Bytes(e.payload))] else [];
    assert RowAttrs(e) == head + [s] + [t];
    hide *;
    ReadBytes(e.payload, labels);
    ReadStart(head, e.windowStartMs, labels);
    ReadEnd(head + [s], e.windowEndMs, labels);
  }

  // ---------- rows ----------

  /** What a row shares with its resource and with the first row of its series. */
  ghost predicate SharesSeries(e: Envelope, representative: Envelope, first: Envelope) {
    && e.aggId == representative.aggId && e.sketchType == representative.sketchType && e.schemaVersion == representative.schemaVersion
    && multiset(e.resourceLabels) == multiset(representative.resourceLabels)
    && e.metricName == first.metricName && multiset(e.labels) == multiset(first.labels)
  }

  lemma {:induction false} RowReads(lib: Library, e: Envelope, representative: Envelope, first: Envelope, id: nat)
    requires Storable(lib, e) && Storable(lib, representative) && Storable(lib, first) && id <= U32_MAX
    requires SharesSeries(e, representative, first) && (first.payload != [] ==> e.payload != [])
    ensures var summary := first.payload != [];
      var schema := ReadSchema(ResourceAttrs(representative));
      var labels := ReadLabels(ScopeAttrs(first, id));
      var o := ReadPoint(lib, PointOf(e, summary), summary, first.metricName, schema, labels);
      o.Ok? && Reads(o.value, e, summary)
  {
    ReadResource(representative);
    ReadScopeLabels(id, first.labels);
    PointReads(lib, e, representative, first, first.payload != []);
    hide ReadSchema, ReadLabels, ResourceAttrs, ReadPoint, PointOf, Reads, LabelAttrs, ValidPayload;
  }

  lemma {:induction false} PointReads(lib: Library, e: Envelope, representative: Envelope, first: Envelope, summary: bool)
    requires Storable(lib, e) && SharesSeries(e, representative, first) && (summary ==> e.payload != [])
    ensures var schema := Schema(Some(TypeName(representative.sketchType)), AsInt(Int(representative.aggId)), Some(representative.schemaVersion),
                                 representative.resourceLabels);
      var o := ReadPoint(lib, PointOf(e, summary), summary, first.metricName, schema, first.labels);
      o.Ok? && Reads(o.value, e, summary)
  {
    ReadRow(e, first.labels);
    hide ReadRecord, RowAttrs, SatNanos;
  }

  /** Rows that the encoder put together share their series, once numbers are told apart. */
  lemma {:induction false} RowsShare(envelopes: seq<Envelope>, numbers: seq<nat>, ids: map<seq<byte>, nat>, row: nat, first: nat, representative: nat, id: nat)
    requires |numbers| == |envelopes| && Numbered(numbers, envelopes, ids, |envelopes|) && Injective(ids)
    requires representative < |envelopes| && first < |envelopes|
    requires RowOk(row, id, representative, envelopes, numbers) && RowOk(first, id, representative, envelopes, numbers)
    ensures SharesSeries(envelopes[row], envelopes[representative], envelopes[first])
  {
    var e, f, r := envelopes[row], envelopes[first], envelopes[representative];
    LabelKeyDecides(r.resourceLabels, e.resourceLabels);
    LabelKeyDecides(r.resourceLabels, f.resourceLabels);
    assert SeriesIdentity(e) == SeriesIdentity(f);
    IdentityDecides(e, f);
    hide LabelKey, SeriesIdentity;
  }

  /** All that a flush needs for its round trip. */
  ghost predicate FlushOk(lib: Library, envelopes: seq<Envelope>, numbers: seq<nat>, ids: map<seq<byte>, nat>) {
    && InRange(envelopes, numbers) && Numbered(numbers, envelopes, ids, |envelopes|) && Injective(ids)
    && (forall i :: 0 <= i < |envelopes| ==> Storable(lib, envelopes[i]))
  }

  /** The observations read are those of the rows, one each. */
  ghost predicate ReadsRows(r: Observations, envelopes: seq<Envelope>, rows: seq<nat>) {
    && r.Ok? && |r.value| == |rows|
    && forall i :: 0 <= i < |rows| ==> rows[i] < |envelopes| && Reads(r.value[i], envelopes[rows[i]], OpensWithSketch(envelopes, rows[i]))
  }

  /** A row reads back in a series whose first envelope is `first`. */
  ghost predicate Belongs(envelopes: seq<Envelope>, first: nat, row: nat) {
    first < |envelopes| && row < |envelopes| && Opens(envelopes, first, row) && (envelopes[first].payload != [] ==> envelopes[row].payload != [])
  }

  lemma {:induction false} ThenReads(a: Observations, b: Observations, envelopes: seq<Envelope>, x: seq<nat>, y: seq<nat>)
    requires ReadsRows(a, envelopes, x) && ReadsRows(b, envelopes, y)
    ensures ReadsRows(Then(a, b), envelopes, x + y)
  {
    hide Reads, OpensWithSketch;
  }

  lemma {:induction false} OneReads(o: Result<Observation, Error>, envelopes: seq<Envelope>, row: nat)
    requires row < |envelopes| && o.Ok? && Reads(o.value, envelopes[row], OpensWithSketch(envelopes, row))
    ensures ReadsRows(One(o), envelopes, [row])
  {
    hide Reads, OpensWithSketch;
  }

  // ---------- series, resources, the tree ----------

  lemma {:induction false} SameSeriesReads(lib: Library, envelopes: seq<Envelope>, numbers: seq<nat>, ids: map<seq<byte>, nat>,
                        row: nat, first: nat, representative: nat, id: nat)
    requires FlushOk(lib, envelopes, numbers, ids) && representative < |envelopes| && first < |envelopes|
    requires RowOk(row, id, representative, envelopes, numbers) && RowOk(first, id, representative, envelopes, numbers) && Belongs(envelopes, first, row)
    ensures id <= U32_MAX
    ensures var summary := envelopes[first].payload != [];
      var schema := ReadSchema(ResourceAttrs(envelopes[representative]));
      var labels := ReadLabels(ScopeAttrs(envelopes[first], id));
      var o := ReadPoint(lib, PointOf(envelopes[row], summary), summary, envelopes[first].metricName, schema, labels);
      o.Ok? && Reads(o.value, envelopes[row], OpensWithSketch(envelopes, row))
  {
    RowsShare(envelopes, numbers, ids, row, first, representative, id);
    OpenedBy(envelopes, first, row);
    assert Storable(lib, envelopes[row]) && Storable(lib, envelopes[first]) && Storable(lib, envelopes[representative]);
    assert numbers[row] <= U32_MAX;
    hide FlushOk, RowOk, Storable, SharesSeries, SameSeries, Opens, Reads;
    RowReads(lib, envelopes[row], envelopes[representative], envelopes[first], id);
    hide *;
  }

  /** The rows of a series, as points under its resource, read back. */
  ghost predicate SeriesReads(lib: Library, envelopes: seq<Envelope>, rows: seq<nat>, first: nat, representative: nat, id: nat) {
    && representative < |envelopes| && first < |envelopes| && id <= U32_MAX && envelopes[representative].schemaVersion <= U32_MAX
    && (forall i :: 0 <= i < |rows| ==> rows[i] < |envelopes|)
    && var summary := envelopes[first].payload != [];
       ReadsRows(ReadPoints(lib, PointsOf(envelopes, rows, summary), summary, envelopes[first].metricName,
                            ReadSchema(ResourceAttrs(envelopes[representative])), ReadLabels(ScopeAttrs(envelopes[first], id))),
                 envelopes, rows)
  }

  ghost predicate AllBelong(rows: seq<nat>, first: nat, envelopes: seq<Envelope>) {
    forall i :: 0 <= i < |rows| ==> Belongs(envelopes, first, rows[i])
  }

  ghost predicate RowsOk(rows: seq<nat>, id: nat, representative: nat, envelopes: seq<Envelope>, numbers: seq<nat>)
    requires representative < |envelopes| == |numbers|
  {
    forall i :: 0 <= i < |rows| ==> RowOk(rows[i], id, representative, envelopes, numbers)
  }

  lemma {:induction false} LastRowOk(rows: seq<nat>, id: nat, representative: nat, envelopes: seq<Envelope>, numbers: seq<nat>)
    requires representative < |envelopes| == |numbers| && rows != [] && RowsOk(rows, id, representative, envelopes, numbers)
    ensures RowsOk(rows[..|rows| - 1], id, representative, envelopes, numbers)
    ensures RowOk(rows[|rows| - 1], id, representative, envelopes, numbers)
  {
    hide RowOk;
  }

  lemma {:induction false} LastBelongs(rows: seq<nat>, first: nat, envelopes: seq<Envelope>)
    requires rows != [] && AllBelong(rows, first, envelopes)
    ensures AllBelong(rows[..|rows| - 1], first, envelopes) && Belongs(envelopes, first, rows[|rows| - 1])
  {
    hide Belongs;
  }

  lemma {:induction false} PointsRead(lib: Library, envelopes: seq<Envelope>, numbers: seq<nat>, ids: map<seq<byte>, nat>,
                                      rows: seq<nat>, first: nat, representative: nat, id: nat)
    requires FlushOk(lib, envelopes, numbers, ids) && representative < |envelopes| && |numbers| == |envelopes|
    requires first < |envelopes| && id <= U32_MAX && RowOk(first, id, representative, envelopes, numbers)
    requires envelopes[representative].schemaVersion <= U32_MAX && RowsOk(rows, id, representative, envelopes, numbers)
    requires AllBelong(rows, first, envelopes)
    ensures SeriesReads(lib, envelopes, rows, first, representative, id)
    decreases |rows|
  {
    hide *;
    if rows == [] {
      NoRowsRead(lib, envelopes, first, representative, id);
    } else {
      var init, row := rows[..|rows| - 1], rows[|rows| - 1];
      LastRowOk(rows, id, representative, envelopes, numbers);
      LastBelongs(rows, first, envelopes);
      PointsRead(lib, envelopes, numbers, ids, init, first, representative, id);
      NextPointReads(lib, envelopes, numbers, ids, init, row, first, representative, id);
      assert init + [row] == rows;
    }
  }

  lemma {:induction false} NoRowsRead(lib: Library, envelopes: seq<Envelope>, first: nat, representative: nat, id: nat)
    requires representative < |envelopes| && first < |envelopes| && id <= U32_MAX && envelopes[representative].schemaVersion <= U32_MAX
    ensures SeriesReads(lib, envelopes, [], first, representative, id)
  {
    hide ReadSchema, ReadLabels, ResourceAttrs, ScopeAttrs;
  }

  lemma {:induction false} NextPointReads(lib: Library, envelopes: seq<Envelope>, numbers: seq<nat>, ids: map<seq<byte>, nat>,
                       init: seq<nat>, row: nat, first: nat, representative: nat, id: nat)
    requires FlushOk(lib, envelopes, numbers, ids) && SeriesReads(lib, envelopes, init, first, representative, id) && |numbers| == |envelopes|
    requires RowOk(first, id, representative, envelopes, numbers) && RowOk(row, id, representative, envelopes, numbers) && Belongs(envelopes, first, row)
    ensures SeriesReads(lib, envelopes, init + [row], first, representative, id)
  {
    hide FlushOk, ReadSchema, ReadLabels, ReadPoints, ReadPoint, One, ResourceAttrs, ScopeAttrs, PointOf, PointsOf, ReadsRows, Reads, Then, Opens, OpensWithSketch;
    var summary := envelopes[first].payload != [];
    var metric := envelopes[first].metricName;
    var schema, labels := ReadSchema(ResourceAttrs(envelopes[representative])), ReadLabels(ScopeAttrs(envelopes[first], id));
    SameSeriesReads(lib, envelopes, numbers, ids, row, first, representative, id);
    hide RowOk, Belongs;
    var o := ReadPoint(lib, PointOf(envelopes[row], summary), summary, metric, schema, labels);
    OneReads(o, envelopes, row);
    ThenReads(ReadPoints(lib, PointsOf(envelopes, init, summary), summary, metric, schema, labels), One(o), envelopes, init, [row]);
    PointsPush(lib, envelopes, init, row, summary, metric, schema, labels);
  }

  lemma {:induction false} NothingReads(envelopes: seq<Envelope>)
    ensures ReadsRows(Ok([]), envelopes, [])
  {
  }

  lemma {:induction false} PointsPush(lib: Library, envelopes: seq<Envelope>, init: seq<nat>, row: nat, summary: bool, metric: Text, schema: Schema, labels: seq<KeyValue>)
    requires row < |envelopes| && forall i :: 0 <= i < |init| ==> init[i] < |envelopes|
    ensures ReadPoints(lib, PointsOf(envelopes, init + [row], summary), summary, metric, schema, labels)
         == Then(ReadPoints(lib, PointsOf(envelopes, init, summary), summary, metric, schema, labels),
                 One(ReadPoint(lib, PointOf(envelopes[row], summary), summary, metric, schema, labels)))
  {
    hide ReadPoint, PointOf, Then, One;
    var rows := init + [row];
    assert rows[..|rows| - 1] == init;
    var points := PointsOf(envelopes, rows, summary);
    assert points == PointsOf(envelopes, init, summary) + [PointOf(envelopes[row], summary)];
    assert points[..|points| - 1] == PointsOf(envelopes, init, summary);
  }

  /** A series' rows belong to the envelope that opens it. */
  ghost predicate ScopeBelongs(g: ScopeGroup, envelopes: seq<Envelope>) {
    g.rows != [] && AllBelong(g.rows, g.rows[0], envelopes)
  }

  ghost predicate ScopesBelong(scopes: seq<ScopeGroup>, envelopes: seq<Envelope>) {
    forall i :: 0 <= i < |scopes| ==> ScopeBelongs(scopes[i], envelopes)
  }

  ghost predicate GroupsBelong(groups: seq<ResourceGroup>, envelopes: seq<Envelope>) {
    forall g :: 0 <= g < |groups| ==> ScopesBelong(groups[g].scopes, envelopes)
  }

  lemma {:induction false} ScopeReads(lib: Library, envelopes: seq<Envelope>, numbers: seq<nat>, ids: map<seq<byte>, nat>, g: ScopeGroup, representative: nat)
    requires FlushOk(lib, envelopes, numbers, ids) && representative < |envelopes| && |numbers| == |envelopes| && InRange(envelopes, numbers)
    requires ScopeOk(g, representative, envelopes, numbers) && ScopeBelongs(g, envelopes)
    ensures var s := ScopeTree(g, representative, envelopes, numbers);
      ReadsRows(ReadPoints(lib, s.data.points, s.data.Summary?, s.metric, ReadSchema(ResourceAttrs(envelopes[representative])), ReadLabels(s.attrs)),
                envelopes, g.rows)
  {
    hide FlushOk, ReadPoints, ReadSchema, ReadLabels, ResourceAttrs, ScopeAttrs, ReadsRows, PointsOf;
    assert RowOk(g.rows[0], g.seriesId, representative, envelopes, numbers);
    hide AllBelong;
    PointsRead(lib, envelopes, numbers, ids, g.rows, g.rows[0], representative, g.seriesId);
  }

  lemma {:induction false} ScopesRead(lib: Library, envelopes: seq<Envelope>, numbers: seq<nat>, ids: map<seq<byte>, nat>,
                                      scopes: seq<ScopeGroup>, representative: nat)
    requires FlushOk(lib, envelopes, numbers, ids) && representative < |envelopes| && |numbers| == |envelopes| && InRange(envelopes, numbers)
    requires forall i :: 0 <= i < |scopes| ==> ScopeOk(scopes[i], representative, envelopes, numbers)
    requires ScopesBelong(scopes, envelopes)
    ensures ReadsRows(ReadScopes(lib, ScopeTrees(scopes, representative, envelopes, numbers), ReadSchema(ResourceAttrs(envelopes[representative]))),
                      envelopes, ScopeRows(scopes))
    decreases |scopes|
  {
    hide FlushOk, ReadPoints, ReadSchema, ReadLabels, ResourceAttrs, ReadsRows, ScopeOk, ScopeTree, Then, ScopeBelongs;
    if scopes == [] {
      NothingReads(envelopes);
    } else {
      var init, g := scopes[..|scopes| - 1], scopes[|scopes| - 1];
      ScopesRead(lib, envelopes, numbers, ids, init, representative);
      ScopeReads(lib, envelopes, numbers, ids, g, representative);
      var s := ScopeTree(g, representative, envelopes, numbers);
      var schema := ReadSchema(ResourceAttrs(envelopes[representative]));
      ThenReads(ReadScopes(lib, ScopeTrees(init, representative, envelopes, numbers), schema),
                ReadPoints(lib, s.data.points, s.data.Summary?, s.metric, schema, ReadLabels(s.attrs)),
                envelopes, ScopeRows(init), g.rows);
      var trees := ScopeTrees(scopes, representative, envelopes, numbers);
      assert trees[..|trees| - 1] == ScopeTrees(init, representative, envelopes, numbers);
    }
  }

  lemma {:induction false} TreeReads(lib: Library, envelopes: seq<Envelope>, numbers: seq<nat>, ids: map<seq<byte>, nat>, groups: seq<ResourceGroup>)
    requires FlushOk(lib, envelopes, numbers, ids) && |numbers| == |envelopes| && InRange(envelopes, numbers)
    requires forall g :: 0 <= g < |groups| ==> GroupOk(groups[g], envelopes, numbers)
    requires GroupsBelong(groups, envelopes)
    ensures ReadsRows(Read(lib, ToTree(groups, envelopes, numbers)), envelopes, AllRows(groups))
    decreases |groups|
  {
    hide FlushOk, ReadScopes, ReadSchema, ResourceAttrs, ReadsRows, ScopeTrees, ScopeRows, Then, ScopesBelong;
    if groups == [] {
      NothingReads(envelopes);
    } else {
      var init, g := groups[..|groups| - 1], groups[|groups| - 1];
      assert GroupOk(g, envelopes, numbers);
      TreeReads(lib, envelopes, numbers, ids, init);
      ScopesRead(lib, envelopes, numbers, ids, g.scopes, g.representative);
      ThenReads(Read(lib, ToTree(init, envelopes, numbers)),
                ReadScopes(lib, ScopeTrees(g.scopes, g.representative, envelopes, numbers), ReadSchema(ResourceAttrs(envelopes[g.representative]))),
                envelopes, AllRows(init), ScopeRows(g.scopes));
      var tree := ToTree(groups, envelopes, numbers);
      assert tree[..|tree| - 1] == ToTree(init, envelopes, numbers);
    }
  }

  lemma {:induction false} RowBelongs(groups: seq<ResourceGroup>, envelopes: seq<Envelope>, numbers: seq<nat>, ids: map<seq<byte>, nat>, g: nat, s: nat, k: nat)
    requires |numbers| == |envelopes| && Grouped(groups, envelopes, numbers, |envelopes|) && Ordered(groups, |envelopes|)
    requires Numbered(numbers, envelopes, ids, |envelopes|) && Injective(ids) && SketchesKept(envelopes)
    requires g < |groups| && s < |groups[g].scopes| && k < |groups[g].scopes[s].rows|
    ensures Belongs(envelopes, groups[g].scopes[s].rows[0], groups[g].scopes[s].rows[k])
  {
    hide Grouped, Ordered, Numbered, Injective, OpensWithSketch, SameSeries;
    var row := groups[g].scopes[s].rows[k];
    FirstRowOpens(groups, envelopes, numbers, ids, g, s, k, row);
    OpenedBy(envelopes, groups[g].scopes[s].rows[0], row);
  }

  lemma {:induction false} RowsBelong(groups: seq<ResourceGroup>, envelopes: seq<Envelope>, numbers: seq<nat>, ids: map<seq<byte>, nat>)
    requires |numbers| == |envelopes| && Grouped(groups, envelopes, numbers, |envelopes|) && Ordered(groups, |envelopes|)
    requires Numbered(numbers, envelopes, ids, |envelopes|) && Injective(ids) && SketchesKept(envelopes)
    ensures GroupsBelong(groups, envelopes)
  {
    hide Ordered, Numbered, Injective, SketchesKept, Belongs, AllRows, Apart;
    forall g, s | 0 <= g < |groups| && 0 <= s < |groups[g].scopes|
      ensures ScopeBelongs(groups[g].scopes[s], envelopes)
    {
      assert GroupOk(groups[g], envelopes, numbers);
      assert ScopeOk(groups[g].scopes[s], groups[g].representative, envelopes, numbers);
      hide Grouped, GroupOk;
      forall k | 0 <= k < |groups[g].scopes[s].rows|
        ensures Belongs(envelopes, groups[g].scopes[s].rows[0], groups[g].scopes[s].rows[k])
      {
        RowBelongs(groups, envelopes, numbers, ids, g, s, k);
      }
    }
  }

  /** The round trip: as long as the stream's numbers have not run out and no series drops its
      sketches, decoding an encoded flush gives exactly one observation for each envelope
      (`rows` names each once), with the same content and the same labels in some order; only
      a sketch in a series that opened without one loses its count and resource labels. */
  lemma {:induction false} RoundTrip(lib: Library, envelopes: seq<Envelope>, numbers: seq<nat>, ids: map<seq<byte>, nat>, groups: seq<ResourceGroup>)
    requires FlushOk(lib, envelopes, numbers, ids) && |numbers| == |envelopes| && InRange(envelopes, numbers)
    requires Grouped(groups, envelopes, numbers, |envelopes|) && Ordered(groups, |envelopes|) && SketchesKept(envelopes)
    ensures var rows := AllRows(groups);
      && multiset(rows) == multiset(seq(|envelopes|, i => i))
      && ReadsRows(Read(lib, ToTree(groups, envelopes, numbers)), envelopes, rows)
  {
    FlushFacts(lib, envelopes, numbers, ids);
    hide FlushOk, ReadsRows, GroupOk, Apart, AllRows, ToTree, GroupsBelong, Ordered, SketchesKept, Numbered, Injective;
    RowsBelong(groups, envelopes, numbers, ids);
    TreeReads(lib, envelopes, numbers, ids, groups);
  }

  lemma {:induction false} FlushFacts(lib: Library, envelopes: seq<Envelope>, numbers: seq<nat>, ids: map<seq<byte>, nat>)
    requires FlushOk(lib, envelopes, numbers, ids)
    ensures Numbered(numbers, envelopes, ids, |envelopes|) && Injective(ids)
  {
  }

  /** The time in nanoseconds gives the window end back exactly when it does not saturate. */
  lemma {:induction false} NanosSurvive(ms: u64)
    ensures SatNanos(ms) / NANOS == ms <==> ms * NANOS <= U64_MAX
    ensures SatNanos(ms) / NANOS < I64_LIMIT
  {
    if ms * NANOS <= U64_MAX {
      DivUnique(ms * NANOS, ms, NANOS, 0);
    }
  }

  /** A sketch's window bounds survive exactly when they are below 2^63: a larger one is dropped,
      and the saturated nanoseconds that stand in for it are another time. */
  lemma {:induction false} WindowTimesSurvive(e: Envelope, labels: seq<KeyValue>)
    ensures var r := ReadRecord(RowAttrs(e), labels);
      && (Or(r.start, PointOf(e, true).startNano / NANOS) == e.windowStartMs <==> e.windowStartMs < I64_LIMIT)
      && (Or(r.end, PointOf(e, true).timeNano / NANOS) == e.windowEndMs <==> e.windowEndMs < I64_LIMIT)
  {
    ReadRow(e, labels);
    NanosSurvive(e.windowStartMs);
    NanosSurvive(e.windowEndMs);
    hide ReadRecord, RowAttrs, SatNanos;
  }

  /** An aggregation id survives exactly when it is below 2^63; a larger one reads as 0. */
  lemma {:induction false} AggIdSurvives(e: Envelope)
    requires e.schemaVersion <= U32_MAX && ResourceKeysFree(e.resourceLabels)
    ensures Or(ReadSchema(ResourceAttrs(e)).aggId, 0) == e.aggId <==> e.aggId < I64_LIMIT
  {
    ReadResource(e);
    hide ReadSchema, ResourceAttrs;
  }
}
