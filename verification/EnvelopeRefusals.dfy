/** Exactly which encoded flushes are refused by the decoder. */
module EnvelopeRefusals {
  import opened Basics
  import opened Envelopes
  import opened LabelKeys
  import opened EnvelopeTrees
  import opened EnvelopeCodec
  import opened EnvelopeRoundTrip
  import opened EnvelopeSeries

  /** A flush that can be stored; its series may mix rows with and without a sketch. */
  ghost predicate FlushStorable(lib: Library, envelopes: seq<Envelope>, numbers: seq<nat>) {
    InRange(envelopes, numbers) && forall i :: 0 <= i < |envelopes| ==> Storable(lib, envelopes[i])
  }

  /** A series that opens with a sketch has one in every row. */
  ghost predicate Consistent(rows: seq<nat>, first: nat, envelopes: seq<Envelope>)
    requires first < |envelopes|
  {
    forall i :: 0 <= i < |rows| ==> rows[i] < |envelopes| && (envelopes[first].payload == [] || envelopes[rows[i]].payload != [])
  }

  ghost predicate ConsistentScope(g: ScopeGroup, envelopes: seq<Envelope>) {
    g.rows != [] && g.rows[0] < |envelopes| && Consistent(g.rows, g.rows[0], envelopes)
  }

  ghost predicate ConsistentScopes(scopes: seq<ScopeGroup>, envelopes: seq<Envelope>) {
    forall i :: 0 <= i < |scopes| ==> ConsistentScope(scopes[i], envelopes)
  }

  ghost predicate ConsistentFlush(groups: seq<ResourceGroup>, envelopes: seq<Envelope>) {
    forall g :: 0 <= g < |groups| ==> ConsistentScopes(groups[g].scopes, envelopes)
  }

  // ---------- one row ----------

  lemma {:induction false} PointOutcome(lib: Library, e: Envelope, summary: bool, metric: Text, schema: Schema, labels: seq<KeyValue>)
    requires Storable(lib, e) && schema.kind == Some(TypeName(e.sketchType))
    ensures ReadPoint(lib, PointOf(e, summary), summary, metric, schema, labels).Ok? <==> !summary || e.payload != []
  {
    ReadRow(e, labels);
    hide ReadRecord, RowAttrs, SatNanos, ResourceKeysFree, SeriesKeysFree;
  }

  lemma {:induction false} KindOfResource(lib: Library, representative: Envelope)
    requires Storable(lib, representative)
    ensures ReadSchema(ResourceAttrs(representative)).kind == Some(TypeName(representative.sketchType))
  {
    hide ReadSchema, ResourceAttrs, ResourceKeysFree, SeriesKeysFree, ValidPayload;
    ReadResource(representative);
  }

  /** A row is refused exactly when its series opened with a sketch and it has none. */
  lemma {:induction false} RowOutcome(lib: Library, envelopes: seq<Envelope>, numbers: seq<nat>, row: nat, representative: nat, id: nat,
                                      summary: bool, metric: Text, labels: seq<KeyValue>)
    requires FlushStorable(lib, envelopes, numbers) && representative < |envelopes|
    requires RowOk(row, id, representative, envelopes, numbers)
    ensures ReadPoint(lib, PointOf(envelopes[row], summary), summary, metric, ReadSchema(ResourceAttrs(envelopes[representative])), labels).Ok?
      <==> !summary || envelopes[row].payload != []
  {
    hide Storable, ReadSchema, ResourceAttrs, ReadPoint, PointOf, LabelKey;
    KindOfResource(lib, envelopes[representative]);
    PointOutcome(lib, envelopes[row], summary, metric, ReadSchema(ResourceAttrs(envelopes[representative])), labels);
  }

  // ---------- series, resources, the tree ----------

  /** The points of a series decode exactly when the rows are consistent. */
  ghost predicate PointsDecide(lib: Library, envelopes: seq<Envelope>, rows: seq<nat>, first: nat, metric: Text, schema: Schema, labels: seq<KeyValue>)
    requires first < |envelopes| && forall i :: 0 <= i < |rows| ==> rows[i] < |envelopes|
  {
    var summary := envelopes[first].payload != [];
    ReadPoints(lib, PointsOf(envelopes, rows, summary), summary, metric, schema, labels).Ok? <==> Consistent(rows, first, envelopes)
  }

  lemma {:induction false} PointsOutcome(lib: Library, envelopes: seq<Envelope>, numbers: seq<nat>, rows: seq<nat>, first: nat, representative: nat, id: nat,
                                         metric: Text, labels: seq<KeyValue>)
    requires FlushStorable(lib, envelopes, numbers) && representative < |envelopes| && first < |envelopes|
    requires RowsOk(rows, id, representative, envelopes, numbers)
    ensures PointsDecide(lib, envelopes, rows, first, metric, ReadSchema(ResourceAttrs(envelopes[representative])), labels)
    decreases |rows|
  {
    hide FlushStorable, RowOk, ReadSchema, ResourceAttrs, ReadPoint, PointOf;
    Shape(lib, envelopes, numbers, rows, representative, id);
    if rows != [] {
      var init, row := rows[..|rows| - 1], rows[|rows| - 1];
      var summary := envelopes[first].payload != [];
      var schema := ReadSchema(ResourceAttrs(envelopes[representative]));
      LastRowOk(rows, id, representative, envelopes, numbers);
      PointsOutcome(lib, envelopes, numbers, init, first, representative, id, metric, labels);
      RowOutcome(lib, envelopes, numbers, row, representative, id, summary, metric, labels);
      PointsPush(lib, envelopes, init, row, summary, metric, schema, labels);
      assert init + [row] == rows;
      hide ReadPoints, PointsOf;
      assert Consistent(rows, first, envelopes) <==> Consistent(init, first, envelopes) && (!summary || envelopes[row].payload != []);
    }
  }

  lemma {:induction false} Shape(lib: Library, envelopes: seq<Envelope>, numbers: seq<nat>, rows: seq<nat>, representative: nat, id: nat)
    requires FlushStorable(lib, envelopes, numbers) && representative < |envelopes| && RowsOk(rows, id, representative, envelopes, numbers)
    ensures |numbers| == |envelopes| && envelopes[representative].schemaVersion <= U32_MAX
    ensures forall i :: 0 <= i < |rows| ==> rows[i] < |envelopes|
  {
    hide SameResource, Storable;
    assert forall i :: 0 <= i < |rows| ==> RowOk(rows[i], id, representative, envelopes, numbers);
  }

  lemma {:induction false} ScopeOutcome(lib: Library, envelopes: seq<Envelope>, numbers: seq<nat>, g: ScopeGroup, representative: nat)
    requires FlushStorable(lib, envelopes, numbers) && representative < |envelopes| && InRange(envelopes, numbers)
    requires ScopeOk(g, representative, envelopes, numbers)
    ensures var s := ScopeTree(g, representative, envelopes, numbers);
      ReadPoints(lib, s.data.points, s.data.Summary?, s.metric, ReadSchema(ResourceAttrs(envelopes[representative])), ReadLabels(s.attrs)).Ok?
      <==> ConsistentScope(g, envelopes)
  {
    hide FlushStorable, ReadPoints, ReadSchema, ReadLabels, ResourceAttrs, ScopeAttrs, PointsOf;
    assert RowOk(g.rows[0], g.seriesId, representative, envelopes, numbers);
    var s := ScopeTree(g, representative, envelopes, numbers);
    PointsOutcome(lib, envelopes, numbers, g.rows, g.rows[0], representative, g.seriesId, s.metric, ReadLabels(s.attrs));
  }

  lemma {:induction false} ScopesOutcome(lib: Library, envelopes: seq<Envelope>, numbers: seq<nat>, scopes: seq<ScopeGroup>, representative: nat)
    requires FlushStorable(lib, envelopes, numbers) && representative < |envelopes| && InRange(envelopes, numbers)
    requires forall i :: 0 <= i < |scopes| ==> ScopeOk(scopes[i], representative, envelopes, numbers)
    ensures ReadScopes(lib, ScopeTrees(scopes, representative, envelopes, numbers), ReadSchema(ResourceAttrs(envelopes[representative]))).Ok?
      <==> ConsistentScopes(scopes, envelopes)
    decreases |scopes|
  {
    hide FlushStorable, ReadPoints, ReadSchema, ReadLabels, ResourceAttrs, ScopeOk, ScopeTree, ConsistentScope;
    if scopes != [] {
      var init, g := scopes[..|scopes| - 1], scopes[|scopes| - 1];
      ScopesOutcome(lib, envelopes, numbers, init, representative);
      ScopeOutcome(lib, envelopes, numbers, g, representative);
      var trees := ScopeTrees(scopes, representative, envelopes, numbers);
      assert trees[..|trees| - 1] == ScopeTrees(init, representative, envelopes, numbers);
    }
  }

  lemma {:induction false} TreeOutcome(lib: Library, envelopes: seq<Envelope>, numbers: seq<nat>, groups: seq<ResourceGroup>)
    requires FlushStorable(lib, envelopes, numbers) && InRange(envelopes, numbers)
    requires forall g :: 0 <= g < |groups| ==> GroupOk(groups[g], envelopes, numbers)
    ensures Read(lib, ToTree(groups, envelopes, numbers)).Ok? <==> ConsistentFlush(groups, envelopes)
    decreases |groups|
  {
    hide FlushStorable, ReadScopes, ReadSchema, ResourceAttrs, ScopeTrees, ConsistentScopes;
    if groups != [] {
      var init, g := groups[..|groups| - 1], groups[|groups| - 1];
      assert GroupOk(g, envelopes, numbers);
      TreeOutcome(lib, envelopes, numbers, init);
      ScopesOutcome(lib, envelopes, numbers, g.scopes, g.representative);
      var tree := ToTree(groups, envelopes, numbers);
      assert tree[..|tree| - 1] == ToTree(init, envelopes, numbers);
    }
  }

  // ---------- in terms of the flush ----------

  lemma {:induction false} ConsistentRow(groups: seq<ResourceGroup>, envelopes: seq<Envelope>, g: nat, s: nat, k: nat, row: nat)
    requires ConsistentFlush(groups, envelopes) && PlacedAt(groups, g, s, k, row)
    ensures row < |envelopes| && groups[g].scopes[s].rows[0] < |envelopes|
    ensures envelopes[groups[g].scopes[s].rows[0]].payload == [] || envelopes[row].payload != []
  {
    assert ConsistentScopes(groups[g].scopes, envelopes);
    assert ConsistentScope(groups[g].scopes[s], envelopes);
  }

  /** The groups are consistent exactly when no series of the flush drops its sketches. */
  lemma {:induction false} ConsistentWhen(envelopes: seq<Envelope>, numbers: seq<nat>, ids: map<seq<byte>, nat>, groups: seq<ResourceGroup>)
    requires |numbers| == |envelopes| && Grouped(groups, envelopes, numbers, |envelopes|) && Ordered(groups, |envelopes|)
    requires Numbered(numbers, envelopes, ids, |envelopes|) && Injective(ids)
    ensures ConsistentFlush(groups, envelopes) <==> SketchesKept(envelopes)
  {
    hide Grouped, Ordered, Numbered, Injective, OpensWithSketch, Opens, ConsistentFlush, Belongs;
    if ConsistentFlush(groups, envelopes) {
      forall row | 0 <= row < |envelopes| && OpensWithSketch(envelopes, row)
        ensures envelopes[row].payload != []
      {
        var g, s, k := RowIsPlaced(groups, envelopes, numbers, row);
        FirstRowOpens(groups, envelopes, numbers, ids, g, s, k, row);
        ConsistentRow(groups, envelopes, g, s, k, row);
        OpenedBy(envelopes, groups[g].scopes[s].rows[0], row);
      }
    }
    if SketchesKept(envelopes) {
      RowsBelong(groups, envelopes, numbers, ids);
      BelongingIsConsistent(groups, envelopes);
    }
  }

  lemma {:induction false} BelongingIsConsistent(groups: seq<ResourceGroup>, envelopes: seq<Envelope>)
    requires GroupsBelong(groups, envelopes)
    ensures ConsistentFlush(groups, envelopes)
  {
    hide Opens;
    forall g, s | 0 <= g < |groups| && 0 <= s < |groups[g].scopes|
      ensures ConsistentScope(groups[g].scopes[s], envelopes)
    {
      assert ScopesBelong(groups[g].scopes, envelopes);
      assert ScopeBelongs(groups[g].scopes[s], envelopes);
    }
    hide ConsistentScope;
  }

  /** The decoder refuses an encoded flush exactly when some series of it opens with a sketch and
      has an envelope without one. */
  lemma {:induction false} DecodesExactlyWhen(lib: Library, envelopes: seq<Envelope>, numbers: seq<nat>, ids: map<seq<byte>, nat>, groups: seq<ResourceGroup>)
    requires FlushStorable(lib, envelopes, numbers) && InRange(envelopes, numbers) && Numbered(numbers, envelopes, ids, |envelopes|) && Injective(ids)
    requires Grouped(groups, envelopes, numbers, |envelopes|) && Ordered(groups, |envelopes|)
    ensures Read(lib, ToTree(groups, envelopes, numbers)).Ok? <==> SketchesKept(envelopes)
  {
    hide FlushStorable, Numbered, Injective, Ordered, SketchesKept, ConsistentFlush, Read, ToTree, Apart, AllRows, GroupOk;
    TreeOutcome(lib, envelopes, numbers, groups);
    ConsistentWhen(envelopes, numbers, ids, groups);
  }

  // ---------- flushes of two rows ----------

  lemma {:induction false} SecondRow(e: Envelope, d: Envelope)
    requires SameSeries(e, d) && SameSeries(d, d)
    ensures OpensWithSketch([e, d], 1) <==> e.payload != []
  {
    hide SameSeries;
    var envelopes := [e, d];
    assert envelopes[0] == e && envelopes[1] == d;
    assert Opens(envelopes, 0, 1);
    OpenedBy(envelopes, 0, 1);
  }

  /** A sketch, and then a scalar of the same series: refused. */
  lemma {:induction false} SketchThenScalar(lib: Library, e: Envelope, numbers: seq<nat>, ids: map<seq<byte>, nat>, groups: seq<ResourceGroup>)
    requires var flush := [e, e.(payload := [])];
      && e.payload != [] && FlushStorable(lib, flush, numbers) && InRange(flush, numbers) && Numbered(numbers, flush, ids, |flush|) && Injective(ids)
      && Grouped(groups, flush, numbers, |flush|) && Ordered(groups, |flush|)
    ensures Read(lib, ToTree(groups, [e, e.(payload := [])], numbers)).Err?
  {
    var flush := [e, e.(payload := [])];
    SecondRow(e, e.(payload := []));
    assert !SketchesKept(flush) by { assert flush[1].payload == []; }
    hide *;
    DecodesExactlyWhen(lib, flush, numbers, ids, groups);
  }

  /** A scalar, and then a sketch of the same series: decoded, but the sketch has lost its count
      and its copy of the resource labels. */
  lemma {:induction false} ScalarThenSketch(lib: Library, e: Envelope, numbers: seq<nat>, ids: map<seq<byte>, nat>, groups: seq<ResourceGroup>)
    returns (i: nat)
    requires var flush := [e.(payload := []), e];
      && e.payload != [] && FlushOk(lib, flush, numbers, ids) && |numbers| == |flush|
      && Grouped(groups, flush, numbers, |flush|) && Ordered(groups, |flush|)
    ensures var r := Read(lib, ToTree(groups, [e.(payload := []), e], numbers));
      && r.Ok? && i < |r.value| && r.value[i].value.Sketch?
      && r.value[i].value.envelope.payload == e.payload
      && r.value[i].value.envelope.count == 0 && r.value[i].value.envelope.resourceLabels == []
  {
    var flush := [e.(payload := []), e];
    SecondRow(e.(payload := []), e);
    FirstRow(e.(payload := []), e);
    assert flush[0].payload == [] && flush[1].payload != [];
    assert SketchesKept(flush);
    hide FlushOk, Grouped, Ordered, Read, ToTree, AllRows, OpensWithSketch, Reads;
    RoundTrip(lib, flush, numbers, ids, groups);
    var rows, r := AllRows(groups), Read(lib, ToTree(groups, flush, numbers));
    var all := seq(|flush|, i => i);
    assert all[1] == 1;
    assert 1 in multiset(all);
    assert 1 in rows;
    i :| 0 <= i < |rows| && rows[i] == 1;
    assert Reads(r.value[i], flush[1], OpensWithSketch(flush, 1));
    BareRead(r.value[i], e);
  }

  lemma {:induction false} FirstRow(d: Envelope, e: Envelope)
    requires d.payload == []
    ensures !OpensWithSketch([d, e], 0)
  {
    hide SameSeries;
  }

  lemma {:induction false} BareRead(o: Observation, e: Envelope)
    requires Reads(o, e, false) && e.payload != []
    ensures o.value.Sketch? && o.value.envelope.payload == e.payload && o.value.envelope.count == 0 && o.value.envelope.resourceLabels == []
  {
    assert multiset(o.value.envelope.resourceLabels) == multiset{};
    assert |multiset(o.value.envelope.resourceLabels)| == |o.value.envelope.resourceLabels|;
  }
}
