/** Encoding a flush of envelopes as a tree, and decoding it again. */
module EnvelopeCodec {
  import opened Basics
  import opened Envelopes
  import opened LabelKeys
  import opened EnvelopeTrees

  datatype Error = InvalidPayload | MissingEnvelope | UnknownSketchType

  /** Whether the sketch library decodes bytes as a sketch of a type. */
  type Library = (SketchType, seq<byte>) -> bool

  /** A non-empty payload must be a snapshot of its declared type. */
  predicate ValidPayload(lib: Library, kind: SketchType, payload: seq<byte>) {
    payload == [] || kind.Exact? || (!kind.Unspecified? && lib(kind, payload))
  }

  // ---------- encoding ----------

  function SatNanos(ms: u64): u64 {
    if ms * NANOS > U64_MAX then U64_MAX else ms * NANOS
  }

  function LabelAttrs(labels: seq<KeyValue>): seq<Attr> {
    if labels == [] then []
    else LabelAttrs(labels[..|labels| - 1]) + [Attr(labels[|labels| - 1].key, Str(labels[|labels| - 1].value))]
  }

  function ResourceAttrs(e: Envelope): seq<Attr>
    requires e.schemaVersion <= U32_MAX
  {
    LabelAttrs(e.resourceLabels) + [Attr(AggIdKey(), Int(e.aggId)), Attr(TypeKey(), TypeName(e.sketchType)), Attr(VersionKey(), Int(e.schemaVersion))]
  }

  function ScopeAttrs(e: Envelope, id: nat): seq<Attr>
    requires id <= U32_MAX
  {
    [Attr(SeriesIdKey(), Int(id))] + LabelAttrs(e.labels)
  }

  function RowAttrs(e: Envelope): seq<Attr> {
    (if e.payload != [] then [Attr(EnvelopeName(), Bytes(e.payload))] else [])
    + [Attr(StartKey(), Int(e.windowStartMs)), Attr(EndKey(), Int(e.windowEndMs))]
  }

  /** A row as a summary point, or as a number point. */
  function PointOf(e: Envelope, summary: bool): Point {
    if summary then Point(RowAttrs(e), SatNanos(e.windowStartMs), SatNanos(e.windowEndMs), e.count, e.value)
    else Point(RowAttrs(e), 0, SatNanos(e.windowEndMs), 0, e.value)
  }

  function PointsOf(envelopes: seq<Envelope>, rows: seq<nat>, summary: bool): seq<Point>
    requires forall i :: 0 <= i < |rows| ==> rows[i] < |envelopes|
  {
    if rows == [] then [] else PointsOf(envelopes, rows[..|rows| - 1], summary) + [PointOf(envelopes[rows[|rows| - 1]], summary)]
  }

  /** The envelopes' integers are `u32` and `u64`. */
  ghost predicate InRange(envelopes: seq<Envelope>, ids: seq<nat>) {
    |ids| == |envelopes| && forall i :: 0 <= i < |envelopes| ==> envelopes[i].schemaVersion <= U32_MAX && ids[i] <= U32_MAX
  }

  /** The first row of a series decides its labels, its metric, and whether it is a summary. */
  function ScopeTree(g: ScopeGroup, ghost representative: nat, envelopes: seq<Envelope>, ghost ids: seq<nat>): Scope
    requires representative < |envelopes| && InRange(envelopes, ids) && ScopeOk(g, representative, envelopes, ids)
  {
    assert RowOk(g.rows[0], g.seriesId, representative, envelopes, ids);
    var first := envelopes[g.rows[0]];
    var summary := first.payload != [];
    var points := PointsOf(envelopes, g.rows, summary);
    Scope(ScopeAttrs(first, g.seriesId), first.metricName, if summary then Summary(points) else Gauge(points))
  }

  function ScopeTrees(scopes: seq<ScopeGroup>, ghost representative: nat, envelopes: seq<Envelope>, ghost ids: seq<nat>): seq<Scope>
    requires representative < |envelopes| && InRange(envelopes, ids)
    requires forall i :: 0 <= i < |scopes| ==> ScopeOk(scopes[i], representative, envelopes, ids)
  {
    if scopes == [] then []
    else ScopeTrees(scopes[..|scopes| - 1], representative, envelopes, ids) + [ScopeTree(scopes[|scopes| - 1], representative, envelopes, ids)]
  }

  function ToTree(groups: seq<ResourceGroup>, envelopes: seq<Envelope>, ghost ids: seq<nat>): seq<Resource>
    requires InRange(envelopes, ids) && forall g :: 0 <= g < |groups| ==> GroupOk(groups[g], envelopes, ids)
  {
    if groups == [] then []
    else
      var g := groups[|groups| - 1];
      assert GroupOk(g, envelopes, ids);
      ToTree(groups[..|groups| - 1], envelopes, ids)
      + [Resource(ResourceAttrs(envelopes[g.representative]), ScopeTrees(g.scopes, g.representative, envelopes, ids))]
  }

  /** Every row has the number of its series. */
  ghost predicate Numbered(numbers: seq<nat>, envelopes: seq<Envelope>, ids: map<seq<byte>, nat>, n: nat) {
    && |numbers| == n <= |envelopes|
    && forall i :: 0 <= i < n ==> SeriesIdentity(envelopes[i]) in ids && ids[SeriesIdentity(envelopes[i])] == numbers[i] <= U32_MAX
  }

  class OtapSketchEncoder {
    const series: SeriesIds
    const lib: Library

    ghost predicate Valid()
      reads this, series
    {
      series.Valid()
    }

    constructor (lib: Library)
      ensures Valid() && fresh(series) && series.ids == map[] && this.lib == lib
    {
      this.lib := lib;
      series := new SeriesIds();
    }

    /** Number the series of a flush; a series keeps its number from flush to flush. */
    method Number(envelopes: seq<Envelope>) returns (numbers: seq<nat>)
      requires Valid()
      modifies series
      ensures Valid() && Numbered(numbers, envelopes, series.ids, |envelopes|)
      ensures forall k :: k in old(series.ids) ==> k in series.ids && series.ids[k] == old(series.ids)[k]
    {
      hide SeriesIdentity;
      numbers := [];
      for n := 0 to |envelopes|
        invariant Valid() && Numbered(numbers, envelopes, series.ids, n)
        invariant forall k :: k in old(series.ids) ==> k in series.ids && series.ids[k] == old(series.ids)[k]
      {
        var id := series.SeriesIdFor(envelopes[n]);
        numbers := numbers + [id];
      }
    }

    /** Encode one flush: refused if any payload is not what it says, else grouped. */
    method Encode(envelopes: seq<Envelope>) returns (r: Result<seq<Resource>, Error>, ghost groups: seq<ResourceGroup>, ghost numbers: seq<nat>)
      requires Valid() && forall i :: 0 <= i < |envelopes| ==> envelopes[i].schemaVersion <= U32_MAX
      modifies series
      ensures Valid()
      ensures r.Err? <==> exists i :: 0 <= i < |envelopes| && !ValidPayload(lib, envelopes[i].sketchType, envelopes[i].payload)
      ensures r.Err? ==> series.ids == old(series.ids)
      ensures r.Ok? ==> Numbered(numbers, envelopes, series.ids, |envelopes|)
      ensures r.Ok? ==> InRange(envelopes, numbers) && Grouped(groups, envelopes, numbers, |envelopes|) && Ordered(groups, |envelopes|)
      ensures r.Ok? ==> r.value == ToTree(groups, envelopes, numbers)
    {
      hide ToTree, Apart, AllRows, GroupOk, SeriesIdentity, Ordered;
      groups, numbers := [], [];
      for n := 0 to |envelopes|
        invariant forall i :: 0 <= i < n ==> ValidPayload(lib, envelopes[i].sketchType, envelopes[i].payload)
      {
        if !ValidPayload(lib, envelopes[n].sketchType, envelopes[n].payload) {
          return Err(InvalidPayload), [], [];
        }
      }
      var ids := Number(envelopes);
      var grouped := FromEnvelopes(envelopes, ids);
      return Ok(ToTree(grouped, envelopes, ids)), grouped, ids;
    }
  }

  // ---------- decoding ----------

  datatype Value = Scalar(value: F64) | Sketch(envelope: Envelope)

  datatype Observation = Observation(timestampMs: u64, metric: Text, resourceLabels: seq<KeyValue>, labels: seq<KeyValue>, value: Value)

  /** What a resource says of its sketches, and its other labels. */
  datatype Schema = Schema(kind: Option<AttrValue>, aggId: Option<u64>, version: Option<u64>, labels: seq<KeyValue>)

  /** Integers travel as signed 64-bit; a negative one is dropped. */
  function AsInt(v: AttrValue): Option<u64> {
    if v.Int? && v.n < I64_LIMIT then Some(v.n) else None
  }

  function AsString(v: AttrValue): Option<AttrValue> {
    if v.Str? || v.TypeName? then Some(v) else None
  }

  function AsBytes(v: AttrValue): Option<seq<byte>> {
    if v.Bytes? then Some(v.bytes) else None
  }

  function AddLabel(labels: seq<KeyValue>, a: Attr): seq<KeyValue> {
    if a.value.Str? then labels + [KeyValue(a.key, a.value.text)] else labels
  }

  /** A cast to `u32`. */
  function Truncated(v: nat): nat {
    v % 0x1_0000_0000
  }

  lemma {:induction false} TruncatedKeeps(v: nat)
    requires v <= U32_MAX
    ensures Truncated(v) == v
  {
  }

  function SchemaStep(s: Schema, a: Attr): Schema {
    if a.key == TypeKey() then s.(kind := AsString(a.value))
    else if a.key == AggIdKey() then s.(aggId := AsInt(a.value))
    else if a.key == VersionKey() then s.(version := match AsInt(a.value) { case None => None case Some(v) => Some(Truncated(v)) })
    else if a.key == SizeKey() then s
    else s.(labels := AddLabel(s.labels, a))
  }

  function ReadSchema(attrs: seq<Attr>): Schema {
    if attrs == [] then Schema(None, None, None, []) else SchemaStep(ReadSchema(attrs[..|attrs| - 1]), attrs[|attrs| - 1])
  }

  function ReadLabels(attrs: seq<Attr>): seq<KeyValue> {
    if attrs == [] then []
    else
      var labels, a := ReadLabels(attrs[..|attrs| - 1]), attrs[|attrs| - 1];
      if a.key == SeriesIdKey() then labels else AddLabel(labels, a)
  }

  /** What a point says of its window and its sketch, and its other labels. */
  datatype Record = Record(bytes: Option<seq<byte>>, start: Option<u64>, end: Option<u64>, labels: seq<KeyValue>)

  function RecordStep(r: Record, a: Attr): Record {
    if a.key == EnvelopeName() then r.(bytes := AsBytes(a.value))
    else if a.key == StartKey() then r.(start := AsInt(a.value))
    else if a.key == EndKey() then r.(end := AsInt(a.value))
    else r.(labels := AddLabel(r.labels, a))
  }

  function ReadRecord(attrs: seq<Attr>, labels: seq<KeyValue>): Record {
    if attrs == [] then Record(None, None, None, labels) else RecordStep(ReadRecord(attrs[..|attrs| - 1], labels), attrs[|attrs| - 1])
  }

  function Or(o: Option<u64>, other: u64): u64 {
    match o
    case None => other
    case Some(v) => v
  }

  function KindOf(kind: Option<AttrValue>): Result<SketchType, Error> {
    match kind
    case None => Ok(Unspecified)
    case Some(TypeName(t)) => Ok(t)
    case Some(v) => if v == Str([]) then Ok(Unspecified) else Err(UnknownSketchType)
  }

  function ReadSummary(lib: Library, p: Point, metric: Text, schema: Schema, labels: seq<KeyValue>): Result<Observation, Error> {
    var r := ReadRecord(p.attrs, labels);
    if r.bytes.None? || r.bytes.value == [] then Err(MissingEnvelope)
    else
      match KindOf(schema.kind)
      case Err(e) => Err(e)
      case Ok(kind) =>
        if !ValidPayload(lib, kind, r.bytes.value) then Err(InvalidPayload)
        else
          var ts := p.timeNano / NANOS;
          var e := SketchEnvelope(Or(schema.version, 0), kind, Or(schema.aggId, 0), schema.labels, r.labels,
                                  Or(r.start, p.startNano / NANOS), Or(r.end, ts), r.bytes.value, metric, p.count, p.value);
          Ok(Observation(ts, metric, schema.labels, r.labels, Sketch(e)))
  }

  /** A number point without a sketch is a scalar. One with a sketch, which only a series that
      mixes the two has, is read without its count. */
  function ReadNumber(lib: Library, p: Point, metric: Text, schema: Schema, labels: seq<KeyValue>): Result<Observation, Error> {
    var r := ReadRecord(p.attrs, labels);
    var ts := p.timeNano / NANOS;
    if r.bytes.None? || r.bytes.value == [] then Ok(Observation(ts, metric, schema.labels, r.labels, Scalar(p.value)))
    else
      match KindOf(schema.kind)
      case Err(e) => Err(e)
      case Ok(kind) =>
        if !ValidPayload(lib, kind, r.bytes.value) then Err(InvalidPayload)
        else
          var e := SketchEnvelope(Or(schema.version, 0), kind, Or(schema.aggId, 0), [], r.labels,
                                  Or(r.start, 0), Or(r.end, 0), r.bytes.value, metric, 0, p.value);
          Ok(Observation(ts, metric, schema.labels, r.labels, Sketch(e)))
  }

  type Observations = Result<seq<Observation>, Error>

  function Then(before: Observations, more: Observations): Observations {
    if before.Err? then before
    else if more.Err? then more
    else Ok(before.value + more.value)
  }

  function ReadPoint(lib: Library, p: Point, summary: bool, metric: Text, schema: Schema, labels: seq<KeyValue>): Result<Observation, Error> {
    if summary then ReadSummary(lib, p, metric, schema, labels) else ReadNumber(lib, p, metric, schema, labels)
  }

  function One(o: Result<Observation, Error>): Observations {
    match o
    case Err(e) => Err(e)
    case Ok(o) => Ok([o])
  }

  function ReadPoints(lib: Library, points: seq<Point>, summary: bool, metric: Text, schema: Schema, labels: seq<KeyValue>): Observations {
    if points == [] then Ok([])
    else
      Then(ReadPoints(lib, points[..|points| - 1], summary, metric, schema, labels),
           One(ReadPoint(lib, points[|points| - 1], summary, metric, schema, labels)))
  }

  function ReadScopes(lib: Library, scopes: seq<Scope>, schema: Schema): Observations {
    if scopes == [] then Ok([])
    else
      var s := scopes[|scopes| - 1];
      Then(ReadScopes(lib, scopes[..|scopes| - 1], schema),
           ReadPoints(lib, s.data.points, s.data.Summary?, s.metric, schema, ReadLabels(s.attrs)))
  }

  /** Every point of the tree, or the first refusal. */
  function Read(lib: Library, tree: seq<Resource>): Observations {
    if tree == [] then Ok([])
    else
      var r := tree[|tree| - 1];
      Then(Read(lib, tree[..|tree| - 1]), ReadScopes(lib, r.scopes, ReadSchema(r.attrs)))
  }

  /** Walk the tree, point by point. */
  method Decode(lib: Library, tree: seq<Resource>) returns (r: Observations)
    ensures r == Read(lib, tree)
  {
    hide ReadScopes, ReadSchema;
    var all: seq<Observation> := [];
    for n := 0 to |tree|
      invariant Read(lib, tree[..n]) == Ok(all)
    {
      assert tree[..n + 1][..n] == tree[..n];
      var some := ReadScopes(lib, tree[n].scopes, ReadSchema(tree[n].attrs));
      if some.Err? {
        FirstRefusal(lib, tree, n + 1);
        return some;
      }
      all := all + some.value;
    }
    assert tree[..|tree|] == tree;
    return Ok(all);
  }

  lemma {:induction false} FirstRefusal(lib: Library, tree: seq<Resource>, n: nat)
    requires n <= |tree| && Read(lib, tree[..n]).Err?
    ensures Read(lib, tree) == Read(lib, tree[..n])
    decreases |tree| - n
  {
    hide ReadScopes, ReadSchema;
    if n == |tree| {
      assert tree[..n] == tree;
    } else {
      assert tree[..n + 1][..n] == tree[..n];
      FirstRefusal(lib, tree, n + 1);
    }
  }
}
