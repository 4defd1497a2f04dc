/** The series of a flush, and the envelope that opens each. */
module EnvelopeSeries {
  import opened Basics
  import opened Envelopes
  import opened LabelKeys
  import opened EnvelopeTrees
  import opened EnvelopeCodec

  /** Numbers tell series apart, until they run out. */
  ghost predicate Injective(ids: map<seq<byte>, nat>) {
    forall j, k :: j in ids && k in ids && ids[j] == ids[k] ==> j == k
  }

  ghost predicate SameSeries(d: Envelope, e: Envelope) {
    SeriesIdentity(d) == SeriesIdentity(e) && SameResource(d, e)
  }

  /** Envelope `i` is the first of the series of envelope `row`. */
  ghost predicate Opens(envelopes: seq<Envelope>, i: nat, row: nat) {
    && i <= row < |envelopes| && SameSeries(envelopes[i], envelopes[row])
    && forall h :: 0 <= h < i ==> !SameSeries(envelopes[h], envelopes[row])
  }

  /** The series of a row opens with a sketch. */
  ghost predicate OpensWithSketch(envelopes: seq<Envelope>, row: nat) {
    exists i: nat :: Opens(envelopes, i, row) && envelopes[i].payload != []
  }

  /** A series that opens with a sketch has one in every envelope. */
  ghost predicate SketchesKept(envelopes: seq<Envelope>) {
    forall row :: 0 <= row < |envelopes| && OpensWithSketch(envelopes, row) ==> envelopes[row].payload != []
  }

  lemma {:induction false} OneOpens(envelopes: seq<Envelope>, i: nat, j: nat, row: nat)
    requires Opens(envelopes, i, row) && Opens(envelopes, j, row)
    ensures i == j
  {
    hide SameSeries;
  }

  lemma {:induction false} OpenedBy(envelopes: seq<Envelope>, first: nat, row: nat)
    requires Opens(envelopes, first, row)
    ensures OpensWithSketch(envelopes, row) <==> envelopes[first].payload != []
  {
    if i: nat :| Opens(envelopes, i, row) && envelopes[i].payload != [] {
      OneOpens(envelopes, i, first, row);
    }
    hide Opens;
  }

  // ---------- where a row is placed ----------

  ghost predicate PlacedAt(groups: seq<ResourceGroup>, g: nat, s: nat, k: nat, row: nat) {
    g < |groups| && s < |groups[g].scopes| && k < |groups[g].scopes[s].rows| && groups[g].scopes[s].rows[k] == row
  }

  lemma {:induction false} InScopeRows(scopes: seq<ScopeGroup>, row: nat) returns (s: nat, k: nat)
    requires row in ScopeRows(scopes)
    ensures s < |scopes| && k < |scopes[s].rows| && scopes[s].rows[k] == row
    decreases |scopes|
  {
    s := |scopes| - 1;
    if row in scopes[s].rows {
      k :| 0 <= k < |scopes[s].rows| && scopes[s].rows[k] == row;
    } else {
      s, k := InScopeRows(scopes[..s], row);
    }
  }

  lemma {:induction false} InAllRows(groups: seq<ResourceGroup>, row: nat) returns (g: nat, s: nat, k: nat)
    requires row in AllRows(groups)
    ensures PlacedAt(groups, g, s, k, row)
    decreases |groups|
  {
    hide ScopeRows;
    g := |groups| - 1;
    if row in ScopeRows(groups[g].scopes) {
      s, k := InScopeRows(groups[g].scopes, row);
    } else {
      g, s, k := InAllRows(groups[..g], row);
    }
  }

  /** Every row of the flush is placed. */
  lemma {:induction false} RowIsPlaced(groups: seq<ResourceGroup>, envelopes: seq<Envelope>, ids: seq<nat>, row: nat) returns (g: nat, s: nat, k: nat)
    requires |envelopes| == |ids| && Grouped(groups, envelopes, ids, |envelopes|) && row < |envelopes|
    ensures PlacedAt(groups, g, s, k, row)
  {
    var all := seq(|envelopes|, i => i);
    assert all[row] == row;
    assert row in multiset(all);
    hide GroupOk, Apart, Represented, AllRows;
    assert row in AllRows(groups);
    g, s, k := InAllRows(groups, row);
  }

  /** A placed row has its series' number and its resource's identity. */
  lemma {:induction false} PlacedOk(groups: seq<ResourceGroup>, envelopes: seq<Envelope>, ids: seq<nat>, g: nat, s: nat, k: nat, row: nat)
    requires |envelopes| == |ids| && Grouped(groups, envelopes, ids, |envelopes|) && PlacedAt(groups, g, s, k, row)
    ensures row < |envelopes| && groups[g].representative < |envelopes|
    ensures ids[row] == groups[g].scopes[s].seriesId && SameResource(envelopes[groups[g].representative], envelopes[row])
  {
    hide SameResource, AllRows, Apart;
    assert GroupOk(groups[g], envelopes, ids);
    assert ScopeOk(groups[g].scopes[s], groups[g].representative, envelopes, ids);
    assert RowOk(row, groups[g].scopes[s].seriesId, groups[g].representative, envelopes, ids);
  }

  lemma {:induction false} NumbersDecide(envelopes: seq<Envelope>, numbers: seq<nat>, ids: map<seq<byte>, nat>, row: nat, other: nat)
    requires |numbers| == |envelopes| && Numbered(numbers, envelopes, ids, |envelopes|) && Injective(ids)
    requires row < |envelopes| && other < |envelopes|
    ensures numbers[row] == numbers[other] <==> SeriesIdentity(envelopes[row]) == SeriesIdentity(envelopes[other])
  {
    hide SeriesIdentity;
  }

  /** Rows of one series are placed together, and only they. */
  lemma {:induction false} PlacedTogether(groups: seq<ResourceGroup>, envelopes: seq<Envelope>, numbers: seq<nat>, ids: map<seq<byte>, nat>,
                                          g: nat, s: nat, k: nat, row: nat, g': nat, s': nat, k': nat, row': nat)
    requires |numbers| == |envelopes| && Grouped(groups, envelopes, numbers, |envelopes|)
    requires Numbered(numbers, envelopes, ids, |envelopes|) && Injective(ids)
    requires PlacedAt(groups, g, s, k, row) && PlacedAt(groups, g', s', k', row')
    ensures row < |envelopes| && row' < |envelopes|
    ensures SameSeries(envelopes[row], envelopes[row']) <==> g == g' && s == s'
  {
    PlacedOk(groups, envelopes, numbers, g, s, k, row);
    PlacedOk(groups, envelopes, numbers, g', s', k', row');
    NumbersDecide(envelopes, numbers, ids, row, row');
    if SameSeries(envelopes[row], envelopes[row']) {
      SameGroup(groups, envelopes, g, row, g', row');
      assert GroupOk(groups[g], envelopes, numbers);
    }
    hide SeriesIdentity, AllRows, LabelKey, Apart, Numbered;
  }

  lemma {:induction false} SameGroup(groups: seq<ResourceGroup>, envelopes: seq<Envelope>, g: nat, row: nat, g': nat, row': nat)
    requires Represented(groups, envelopes) && Apart(groups, envelopes) && g < |groups| && g' < |groups| && row < |envelopes| && row' < |envelopes|
    requires SameResource(envelopes[groups[g].representative], envelopes[row]) && SameResource(envelopes[groups[g'].representative], envelopes[row'])
    requires SameResource(envelopes[row], envelopes[row'])
    ensures g == g'
  {
    assert SameResource(envelopes[groups[g].representative], envelopes[groups[g'].representative]);
    assert SameResource(envelopes[groups[g'].representative], envelopes[groups[g].representative]);
    hide SameResource;
  }

  /** The first row of a group's series is the envelope that opens it. */
  lemma {:induction false} FirstRowOpens(groups: seq<ResourceGroup>, envelopes: seq<Envelope>, numbers: seq<nat>, ids: map<seq<byte>, nat>,
                                         g: nat, s: nat, k: nat, row: nat)
    requires |numbers| == |envelopes| && Grouped(groups, envelopes, numbers, |envelopes|) && Ordered(groups, |envelopes|)
    requires Numbered(numbers, envelopes, ids, |envelopes|) && Injective(ids)
    requires PlacedAt(groups, g, s, k, row)
    ensures Opens(envelopes, groups[g].scopes[s].rows[0], row)
  {
    hide Grouped, Numbered, Injective, SameSeries;
    var first := groups[g].scopes[s].rows[0];
    PlacedTogether(groups, envelopes, numbers, ids, g, s, 0, first, g, s, k, row);
    assert OrderedScopes(groups[g].scopes, |envelopes|);
    assert Increasing(groups[g].scopes[s].rows, |envelopes|);
    forall h | 0 <= h < first
      ensures !SameSeries(envelopes[h], envelopes[row])
    {
      if SameSeries(envelopes[h], envelopes[row]) {
        var g', s', k' := RowIsPlaced(groups, envelopes, numbers, h);
        PlacedTogether(groups, envelopes, numbers, ids, g', s', k', h, g, s, k, row);
        assert false;
      }
    }
  }
}
