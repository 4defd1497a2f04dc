/** Labels, observations and sketch envelopes. */
module Envelopes {
  import opened Basics

  type byte = x: int | 0 <= x < 256

  /** A string, as its bytes: always valid UTF-8 (section 4 of RFC 3629). Strings compare
      byte by byte. */
  type Text = s: seq<byte> | ValidUtf8(s)

  predicate Tail(s: seq<byte>, i: nat) {
    i < |s| && 0x80 <= s[i] <= 0xBF
  }

  predicate ValidUtf8(s: seq<byte>) {
    if s == [] then true
    else if s[0] <= 0x7F then ValidUtf8(s[1..])
    else if 0xC2 <= s[0] <= 0xDF then Tail(s, 1) && ValidUtf8(s[2..])
    else if 0xE0 <= s[0] <= 0xEF then
      && Tail(s, 1) && Tail(s, 2)
      && (s[0] == 0xE0 ==> s[1] >= 0xA0)
      && (s[0] == 0xED ==> s[1] <= 0x9F)
      && ValidUtf8(s[3..])
    else if 0xF0 <= s[0] <= 0xF4 then
      && Tail(s, 1) && Tail(s, 2) && Tail(s, 3)
      && (s[0] == 0xF0 ==> s[1] >= 0x90)
      && (s[0] == 0xF4 ==> s[1] <= 0x8F)
      && ValidUtf8(s[4..])
    else false
  }

  lemma {:induction false} AsciiIsValid(s: seq<byte>)
    requires forall i :: 0 <= i < |s| ==> s[i] <= 0x7F
    ensures ValidUtf8(s)
    decreases |s|
  {
    if s != [] {
      AsciiIsValid(s[1..]);
    }
  }

  datatype KeyValue = KeyValue(key: Text, value: Text)

  /** The first value of `key`. */
  function LookupLabel(labels: seq<KeyValue>, key: Text): Option<Text> {
    if labels == [] then None
    else if labels[0].key == key then Some(labels[0].value)
    else LookupLabel(labels[1..], key)
  }

  datatype SketchType =
    | Unspecified
    | DDSketch
    | KLLSketch
    | HLLSketch
    | CountSketch
    | CountMinSketch
    | CountMinSketchWithHeap
    | Exact

  /** A double, as its bit pattern. */
  type F64 = u64

  /** What a sketch has seen. The sketch library is not part of this model: a sketch is the
      multiset of its observations, and merging is union. */
  type Sample = int

  /** Snapshot bytes: none, a snapshot of a sketch of some type, or something else. */
  datatype Payload = Empty | Snapshot(kind: SketchType, items: multiset<Sample>) | Corrupt

  /** Decode snapshot bytes as a sketch of type `kind`. */
  function DecodeSnapshot(kind: SketchType, payload: Payload): Option<multiset<Sample>> {
    if kind.Unspecified? || kind.Exact? then None
    else if payload.Snapshot? && payload.kind == kind then Some(payload.items)
    else None
  }

  /** The snapshot of a sketch; that of an empty sketch is no bytes. */
  function SnapshotBytes(kind: SketchType, items: multiset<Sample>): Payload {
    if items == multiset{} then Empty else Snapshot(kind, items)
  }

  /** One emitted sketch, or scalar estimate, with its metadata. */
  datatype SketchEnvelope<P> = SketchEnvelope(
    schemaVersion: nat,
    sketchType: SketchType,
    aggId: u64,
    resourceLabels: seq<KeyValue>,
    labels: seq<KeyValue>,
    windowStartMs: u64,
    windowEndMs: u64,
    payload: P,
    metricName: Text,
    count: nat,
    value: F64)
}
