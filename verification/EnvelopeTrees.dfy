/** Envelopes as a tree of resources, scopes and points, and back. */
module EnvelopeTrees {
  import opened Basics
  import opened Envelopes
  import opened LabelKeys

  const I64_LIMIT: nat := 0x8000_0000_0000_0000
  const NANOS := 1_000_000

  // ---------- the tree ----------

  /** An attribute value; the name of a sketch type stands for itself. */
  datatype AttrValue = Str(text: Text) | TypeName(kind: SketchType) | Int(n: u64) | Bytes(bytes: seq<byte>)

  datatype Attr = Attr(key: Text, value: AttrValue)

  datatype Point = Point(attrs: seq<Attr>, startNano: u64, timeNano: u64, count: nat, value: F64)

  /** A metric's points: scalars, or summaries that carry sketches. */
  datatype Data = Gauge(points: seq<Point>) | Summary(points: seq<Point>)

  datatype Scope = Scope(attrs: seq<Attr>, metric: Text, data: Data)

  datatype Resource = Resource(attrs: seq<Attr>, scopes: seq<Scope>)

  // ---------- reserved names ----------

  function Ascii(name: string): (t: Text)
    ensures |t| == |name|
  {
    var bytes: seq<byte> := seq(|name|, i requires 0 <= i < |name| => if name[i] < 128 as char then name[i] as int else 0x3F);
    AsciiIsValid(bytes);
    bytes
  }

  function EnvelopeName(): Text { Ascii("sketch.envelope") }
  function TypeKey(): Text { Ascii("sketch.type") }
  function AggIdKey(): Text { Ascii("sketch.agg_id") }
  function VersionKey(): Text { Ascii("sketch.schema_version") }
  function StartKey(): Text { Ascii("sketch.window_start_ms") }
  function EndKey(): Text { Ascii("sketch.window_end_ms") }
  function SeriesIdKey(): Text { Ascii("sketch.series_id") }
  function SizeKey(): Text { Ascii("sketch.size") }

  lemma {:induction false} NamesDiffer()
    ensures |EnvelopeName()| == 15 && |TypeKey()| == |SizeKey()| == 11 && |AggIdKey()| == 13
    ensures |VersionKey()| == 21 && |StartKey()| == 22 && |EndKey()| == 20 && |SeriesIdKey()| == 16
    ensures TypeKey() != SizeKey()
  {
    assert TypeKey()[7] == 't' as int && SizeKey()[7] == 's' as int;
  }

  // ---------- encoding ----------

  /** One series under a resource, and the rows it has. */
  datatype ScopeGroup = ScopeGroup(seriesId: nat, rows: seq<nat>)

  datatype ResourceGroup = ResourceGroup(representative: nat, scopes: seq<ScopeGroup>)

  /** The position of a series among the scopes; past the end if it is not there. */
  function FindScope(scopes: seq<ScopeGroup>, id: nat): (p: nat)
    ensures p <= |scopes| && (p < |scopes| ==> scopes[p].seriesId == id)
    ensures forall i :: 0 <= i < p ==> scopes[i].seriesId != id
  {
    if scopes == [] then 0
    else
      var p := FindScope(scopes[..|scopes| - 1], id);
      if p < |scopes| - 1 || scopes[p].seriesId == id then p else |scopes|
  }

  /** The position of an envelope's resource among the groups. */
  function FindGroup(groups: seq<ResourceGroup>, envelopes: seq<Envelope>, e: Envelope): (p: nat)
    requires Represented(groups, envelopes)
    ensures p <= |groups| && (p < |groups| ==> SameResource(envelopes[groups[p].representative], e))
    ensures forall i :: 0 <= i < p ==> !SameResource(envelopes[groups[i].representative], e)
  {
    if groups == [] then 0
    else
      var p := FindGroup(groups[..|groups| - 1], envelopes, e);
      if p < |groups| - 1 || SameResource(envelopes[groups[p].representative], e) then p else |groups|
  }

  predicate Represented(groups: seq<ResourceGroup>, envelopes: seq<Envelope>) {
    forall g :: 0 <= g < |groups| ==> groups[g].representative < |envelopes|
  }

  function PlaceScope(scopes: seq<ScopeGroup>, id: nat, row: nat): seq<ScopeGroup> {
    var p := FindScope(scopes, id);
    if p < |scopes| then scopes[p := scopes[p].(rows := scopes[p].rows + [row])] else scopes + [ScopeGroup(id, [row])]
  }

  /** A row goes to its resource and its series, which are opened if they are new. */
  function PlaceRow(groups: seq<ResourceGroup>, envelopes: seq<Envelope>, id: nat, row: nat): seq<ResourceGroup>
    requires row < |envelopes| && Represented(groups, envelopes)
  {
    var p := FindGroup(groups, envelopes, envelopes[row]);
    var held := if p < |groups| then groups else groups + [ResourceGroup(row, [])];
    held[p := held[p].(scopes := PlaceScope(held[p].scopes, id, row))]
  }

  /** A row of a series: it has its number, and the resource's identity. */
  ghost predicate RowOk(row: nat, id: nat, representative: nat, envelopes: seq<Envelope>, ids: seq<nat>)
    requires representative < |envelopes| == |ids|
  {
    row < |envelopes| && ids[row] == id && SameResource(envelopes[representative], envelopes[row])
  }

  ghost predicate ScopeOk(g: ScopeGroup, representative: nat, envelopes: seq<Envelope>, ids: seq<nat>)
    requires representative < |envelopes| == |ids|
  {
    g.rows != [] && forall i :: 0 <= i < |g.rows| ==> RowOk(g.rows[i], g.seriesId, representative, envelopes, ids)
  }

  ghost predicate ScopesOk(scopes: seq<ScopeGroup>, representative: nat, envelopes: seq<Envelope>, ids: seq<nat>)
    requires representative < |envelopes| == |ids|
  {
    && (forall i :: 0 <= i < |scopes| ==> ScopeOk(scopes[i], representative, envelopes, ids))
    && forall i, j :: 0 <= i < j < |scopes| ==> scopes[i].seriesId != scopes[j].seriesId
  }

  ghost predicate GroupOk(g: ResourceGroup, envelopes: seq<Envelope>, ids: seq<nat>)
    requires |envelopes| == |ids|
  {
    g.representative < |envelopes| && ScopesOk(g.scopes, g.representative, envelopes, ids)
  }

  function ScopeRows(scopes: seq<ScopeGroup>): seq<nat> {
    if scopes == [] then [] else ScopeRows(scopes[..|scopes| - 1]) + scopes[|scopes| - 1].rows
  }

  function AllRows(groups: seq<ResourceGroup>): seq<nat> {
    if groups == [] then [] else AllRows(groups[..|groups| - 1]) + ScopeRows(groups[|groups| - 1].scopes)
  }

  /** No two groups share a resource. */
  ghost predicate Apart(groups: seq<ResourceGroup>, envelopes: seq<Envelope>)
    requires Represented(groups, envelopes)
  {
    forall g, h :: 0 <= g < h < |groups| ==> !SameResource(envelopes[groups[g].representative], envelopes[groups[h].representative])
  }

  /** The first `n` rows are grouped: each in exactly one series of exactly one resource, and
      no resource or series is split. */
  ghost predicate Grouped(groups: seq<ResourceGroup>, envelopes: seq<Envelope>, ids: seq<nat>, n: nat)
    requires n <= |envelopes| == |ids|
  {
    && (forall g :: 0 <= g < |groups| ==> GroupOk(groups[g], envelopes, ids))
    && Represented(groups, envelopes) && Apart(groups, envelopes)
    && multiset(AllRows(groups)) == multiset(seq(n, i => i))
  }

  lemma {:induction false} PlaceScopeOk(scopes: seq<ScopeGroup>, representative: nat, envelopes: seq<Envelope>, ids: seq<nat>, row: nat)
    requires representative < |envelopes| == |ids| && row < |envelopes|
    requires ScopesOk(scopes, representative, envelopes, ids) && SameResource(envelopes[representative], envelopes[row])
    ensures ScopesOk(PlaceScope(scopes, ids[row], row), representative, envelopes, ids)
  {
    hide SameResource;
    var p := FindScope(scopes, ids[row]);
    assert RowOk(row, ids[row], representative, envelopes, ids);
    hide RowOk;
    if p < |scopes| {
      assert ScopeOk(scopes[p].(rows := scopes[p].rows + [row]), representative, envelopes, ids);
    } else {
      assert ScopeOk(ScopeGroup(ids[row], [row]), representative, envelopes, ids);
    }
  }

  lemma {:induction false} ScopeRowsUpdate(scopes: seq<ScopeGroup>, p: nat, row: nat)
    requires p < |scopes|
    ensures multiset(ScopeRows(scopes[p := scopes[p].(rows := scopes[p].rows + [row])])) == multiset(ScopeRows(scopes)) + multiset{row}
    decreases |scopes|
  {
    var n := |scopes| - 1;
    var updated := scopes[p := scopes[p].(rows := scopes[p].rows + [row])];
    if p == n {
      assert updated[..n] == scopes[..n];
    } else {
      ScopeRowsUpdate(scopes[..n], p, row);
      assert updated[..n] == scopes[..n][p := scopes[p].(rows := scopes[p].rows + [row])];
    }
  }

  lemma {:induction false} PlaceScopeRows(scopes: seq<ScopeGroup>, id: nat, row: nat)
    ensures multiset(ScopeRows(PlaceScope(scopes, id, row))) == multiset(ScopeRows(scopes)) + multiset{row}
  {
    var p := FindScope(scopes, id);
    if p < |scopes| {
      ScopeRowsUpdate(scopes, p, row);
    } else {
      assert (scopes + [ScopeGroup(id, [row])])[..|scopes|] == scopes;
    }
  }

  lemma {:induction false} AllRowsUpdate(groups: seq<ResourceGroup>, p: nat, scopes: seq<ScopeGroup>, row: nat)
    requires p < |groups|
    requires multiset(ScopeRows(scopes)) == multiset(ScopeRows(groups[p].scopes)) + multiset{row}
    ensures multiset(AllRows(groups[p := groups[p].(scopes := scopes)])) == multiset(AllRows(groups)) + multiset{row}
    decreases |groups|
  {
    hide ScopeRows;
    var n := |groups| - 1;
    var updated := groups[p := groups[p].(scopes := scopes)];
    if p == n {
      assert updated[..n] == groups[..n];
    } else {
      AllRowsUpdate(groups[..n], p, scopes, row);
      assert updated[..n] == groups[..n][p := groups[p].(scopes := scopes)];
    }
  }

  lemma {:induction false} AllRowsOpen(groups: seq<ResourceGroup>, row: nat)
    ensures AllRows(groups + [ResourceGroup(row, [])]) == AllRows(groups)
  {
    assert (groups + [ResourceGroup(row, [])])[..|groups|] == groups;
    assert AllRows(groups) + [] == AllRows(groups);
  }

  lemma {:induction false} SameResourceItself(e: Envelope)
    ensures SameResource(e, e)
  {
  }

  /** Rows in the order of the flush, all below `n`. */
  ghost predicate Increasing(rows: seq<nat>, n: nat) {
    && (forall i, j :: 0 <= i < j < |rows| ==> rows[i] < rows[j])
    && (forall i :: 0 <= i < |rows| ==> rows[i] < n)
  }

  ghost predicate OrderedScopes(scopes: seq<ScopeGroup>, n: nat) {
    forall i :: 0 <= i < |scopes| ==> Increasing(scopes[i].rows, n)
  }

  /** Every series has its rows in the order of the flush. */
  ghost predicate Ordered(groups: seq<ResourceGroup>, n: nat) {
    forall g :: 0 <= g < |groups| ==> OrderedScopes(groups[g].scopes, n)
  }

  lemma {:induction false} IncreasingPush(rows: seq<nat>, row: nat)
    requires Increasing(rows, row)
    ensures Increasing(rows, row + 1) && Increasing(rows + [row], row + 1)
  {
  }

  lemma {:induction false} PlaceScopeOrdered(scopes: seq<ScopeGroup>, id: nat, row: nat)
    requires OrderedScopes(scopes, row)
    ensures OrderedScopes(PlaceScope(scopes, id, row), row + 1)
  {
    forall i | 0 <= i < |scopes|
      ensures Increasing(scopes[i].rows, row + 1) && Increasing(scopes[i].rows + [row], row + 1)
    {
      IncreasingPush(scopes[i].rows, row);
    }
    assert Increasing([row], row + 1);
    hide Increasing;
  }

  lemma {:induction false} PlaceRowOrdered(groups: seq<ResourceGroup>, envelopes: seq<Envelope>, id: nat, row: nat)
    requires row < |envelopes| && Represented(groups, envelopes) && Ordered(groups, row)
    ensures Ordered(PlaceRow(groups, envelopes, id, row), row + 1)
  {
    hide Increasing, SameResource, Represented;
    assert OrderedScopes([], row);
    forall scopes: seq<ScopeGroup> | OrderedScopes(scopes, row)
      ensures OrderedScopes(scopes, row + 1) && OrderedScopes(PlaceScope(scopes, id, row), row + 1)
    {
      PlaceScopeOrdered(scopes, id, row);
      StaysOrdered(scopes, row);
    }
    hide OrderedScopes, PlaceScope;
  }

  lemma {:induction false} StaysOrdered(scopes: seq<ScopeGroup>, n: nat)
    requires OrderedScopes(scopes, n)
    ensures OrderedScopes(scopes, n + 1)
  {
  }

  /** Group all rows, in order. */
  method FromEnvelopes(envelopes: seq<Envelope>, ids: seq<nat>) returns (groups: seq<ResourceGroup>)
    requires |envelopes| == |ids|
    ensures Grouped(groups, envelopes, ids, |envelopes|) && Ordered(groups, |envelopes|)
  {
    hide GroupOk, PlaceRow, AllRows, SameResource, Apart, OrderedScopes;
    groups := [];
    NothingGrouped(envelopes, ids);
    for row := 0 to |envelopes|
      invariant Grouped(groups, envelopes, ids, row) && Ordered(groups, row)
    {
      PlaceRowOrdered(groups, envelopes, ids[row], row);
      GroupNext(groups, envelopes, ids, row);
      groups := PlaceRow(groups, envelopes, ids[row], row);
    }
  }

  lemma {:induction false} NothingGrouped(envelopes: seq<Envelope>, ids: seq<nat>)
    requires |envelopes| == |ids|
    ensures Grouped([], envelopes, ids, 0)
  {
    assert seq(0, i => i) == [];
  }

  /** Opening a group for a new resource, without rows yet. */
  ghost function Opened(groups: seq<ResourceGroup>, envelopes: seq<Envelope>, row: nat): (held: seq<ResourceGroup>)
    requires row < |envelopes| && Represented(groups, envelopes)
    ensures Represented(held, envelopes) && FindGroup(groups, envelopes, envelopes[row]) < |held|
  {
    if FindGroup(groups, envelopes, envelopes[row]) < |groups| then groups else groups + [ResourceGroup(row, [])]
  }

  lemma {:induction false} OpenedOk(groups: seq<ResourceGroup>, envelopes: seq<Envelope>, ids: seq<nat>, row: nat)
    requires row < |envelopes| == |ids| && Represented(groups, envelopes) && Apart(groups, envelopes)
    requires forall g :: 0 <= g < |groups| ==> GroupOk(groups[g], envelopes, ids)
    ensures var held := Opened(groups, envelopes, row);
      && (forall g :: 0 <= g < |held| ==> GroupOk(held[g], envelopes, ids))
      && Apart(held, envelopes) && AllRows(held) == AllRows(groups)
      && SameResource(envelopes[held[FindGroup(groups, envelopes, envelopes[row])].representative], envelopes[row])
  {
    hide GroupOk, AllRows, SameResource;
    if FindGroup(groups, envelopes, envelopes[row]) == |groups| {
      AllRowsOpen(groups, row);
      SameResourceItself(envelopes[row]);
      NewGroupOk(envelopes, ids, row);
    }
  }

  lemma {:induction false} NewGroupOk(envelopes: seq<Envelope>, ids: seq<nat>, row: nat)
    requires row < |envelopes| == |ids|
    ensures GroupOk(ResourceGroup(row, []), envelopes, ids)
  {
  }

  lemma {:induction false} GroupNext(groups: seq<ResourceGroup>, envelopes: seq<Envelope>, ids: seq<nat>, row: nat)
    requires row < |envelopes| == |ids| && Grouped(groups, envelopes, ids, row)
    ensures Represented(groups, envelopes) && multiset(AllRows(groups)) == multiset(seq(row, i => i))
    ensures Grouped(PlaceRow(groups, envelopes, ids[row], row), envelopes, ids, row + 1)
  {
    OpenedOk(groups, envelopes, ids, row);
    var held, p := Opened(groups, envelopes, row), FindGroup(groups, envelopes, envelopes[row]);
    PlaceRowShape(groups, envelopes, ids[row], row);
    GrownOk(held, envelopes, ids, p, row);
    hide *;
    GrownRows(held, AllRows(groups), p, ids[row], row);
    NextGrouped(PlaceRow(groups, envelopes, ids[row], row), AllRows(groups), envelopes, ids, row);
  }

  lemma {:induction false} PlaceRowShape(groups: seq<ResourceGroup>, envelopes: seq<Envelope>, id: nat, row: nat)
    requires row < |envelopes| && Represented(groups, envelopes)
    ensures var held, p := Opened(groups, envelopes, row), FindGroup(groups, envelopes, envelopes[row]);
      PlaceRow(groups, envelopes, id, row) == held[p := held[p].(scopes := PlaceScope(held[p].scopes, id, row))]
  {
    hide FindGroup, PlaceScope, SameResource;
  }

  lemma {:induction false} GrownRows(held: seq<ResourceGroup>, rows: seq<nat>, p: nat, id: nat, row: nat)
    requires p < |held| && AllRows(held) == rows
    ensures multiset(AllRows(held[p := held[p].(scopes := PlaceScope(held[p].scopes, id, row))])) == multiset(rows) + multiset{row}
  {
    hide AllRows, PlaceScope;
    PlaceScopeRows(held[p].scopes, id, row);
    AllRowsUpdate(held, p, PlaceScope(held[p].scopes, id, row), row);
  }

  lemma {:induction false} NextGrouped(groups: seq<ResourceGroup>, rows: seq<nat>, envelopes: seq<Envelope>, ids: seq<nat>, row: nat)
    requires row < |envelopes| == |ids| && Represented(groups, envelopes) && Apart(groups, envelopes)
    requires forall g :: 0 <= g < |groups| ==> GroupOk(groups[g], envelopes, ids)
    requires multiset(AllRows(groups)) == multiset(rows) + multiset{row} && multiset(rows) == multiset(seq(row, i => i))
    ensures Grouped(groups, envelopes, ids, row + 1)
  {
    assert seq(row + 1, i => i) == seq(row, i => i) + [row];
    hide GroupOk, Apart, AllRows;
  }

  lemma {:induction false} GrownOk(held: seq<ResourceGroup>, envelopes: seq<Envelope>, ids: seq<nat>, p: nat, row: nat)
    requires row < |envelopes| == |ids| && p < |held| && Represented(held, envelopes) && Apart(held, envelopes)
    requires forall g :: 0 <= g < |held| ==> GroupOk(held[g], envelopes, ids)
    requires SameResource(envelopes[held[p].representative], envelopes[row])
    ensures var grown := held[p := held[p].(scopes := PlaceScope(held[p].scopes, ids[row], row))];
      && Represented(grown, envelopes) && Apart(grown, envelopes)
      && forall g :: 0 <= g < |grown| ==> GroupOk(grown[g], envelopes, ids)
  {
    PlaceScopeOk(held[p].scopes, held[p].representative, envelopes, ids, row);
    hide ScopesOk, PlaceScope, SameResource;
  }
}
