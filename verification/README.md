# Windowed aggregation: a Dafny model

This project models the windowed aggregation runtime of `asap-precompute-rs` and proves what
its windows promise: which observation ends up in which emitted window, once, whatever the
order in which messages, clocks and processors interleave. Verify it with
`dafny verify dfyconfig.toml`.

Sketches are modelled as the multiset of samples they were given, with `snapshot`, `decode` and
`merge`; the exact baseline needs no abstraction. Times are 64-bit (`u64`) wherever the code
saturates or checks for overflow. Objects that update their fields are classes here too; each
method is proved to do to its fields what a plain specification (a machine, a log, a ledger or a
stage) does, and the results are lemmas about all runs of that specification.

## The parts

- **Window merging** (`WindowProtocol`, `Confluence`, `WindowMerge`, `MergedEnvelopes`). A merger counts messages,
  closes a prefix of windows, remembers `emitted_until` and drops late input. It is a machine
  whose open windows hold the list of contributions that arrived; `WindowMerger` and
  `ExactMerge` keep folds of these lists. `WindowProtocol.RunIsSafe` holds under any clock and
  any senders. `Confluence.Confluence` is about N sources that send windows in order, and any
  interleaving of their messages; `MergedEnvelopes.EmittedAlike` says on the envelopes' own fields
  what then goes out.
- **The exact baseline** (`ExactWindows`, `ExactBranches`, `ExactMerges`, `BranchSeries`, `EndToEnd`,
  `EmissionCounts`, `BaselinePoints`). From the points of N sources, through branches, encoded windows, interleaved
  messages and the merge, to one exact window for each window, series and first metric:
  `EndToEnd.ExactBaselineIsExact`, `EmissionCounts.OneWindowExactlyWhen` for how many that are, and `BaselinePoints.AnswersCountPoints`
  for what they hold, counted on the points.
- **The raw sink** (`RawSinks`, `RawReports`). Messages in flight, answers, and reports that may overtake an
  older window: `RawSinks.RunIsAccounted`, `RawReports.ReportsTellTheTruth` for what each report says,
  and `RawSinks.RegisteredExactlyWhen` for what is registered at all.
- **Retained panes** (`SeriesKeys`, `LabelSets`, `KllWindows`, `KllStore`, `KllResults`, `PaneSamples`,
  `StageFolds`, `TwoStages`, `DirectStores`, `KllRolling`, `RollingTicks`). The pane store refines the plain log of what it admitted; answers
  are additive and stable, retention and the series cap hold over every run, and the rolling
  estimator emits exact, final and increasing ranges. `PaneSamples.PanesHoldSamples` and
  `RollingTicks.EmissionHoldsSamples` state what is held and sent on the inputs of a run. `TwoStages` runs any number of stores that
  observe, deliver their closed panes to one store downstream and go on; `DirectStores` runs one
  store beside them that observes everything itself, under its own lateness and cap:
  `DirectStores.TwoStagesAnswerAsOne`.
- **The count-aligned benchmark** (`Sorting`, `BenchNormalizer`, `BenchStreams`, `BenchStages`,
  `BenchProcessors`, `BenchPipeline`, `BenchFeeds`, and for keyed counts `Rankings`, `TopKCounts`, `TopKStages`,
  `TopKProcessors`, `TopKPipeline`, `TopKListings`, `TopKFeeds`). From normalized input through two
  branches, the merge and the estimate to the validating backend: `BenchPipeline.PipelineIsAccepted` and
  `TopKListings.PipelineIsAccepted`. `BenchFeeds` and `TopKFeeds` decide for any feed whatever whether
  a stage accepts it.
- **The tumbling window** (`TumblingWindow`, `TumblingRuns`, `TumblingSamples`). Bounds, eviction, drain and rotation,
  with conservation over every run, and the exact inputs behind every series:
  `TumblingRuns.HeldSinceCleared` and `TumblingSamples.EntryHoldsSamples`.
- **Arithmetic and codecs** (`HeavyHitters`, `Generator`, `LabelKeys`, `EnvelopeTrees`,
  `EnvelopeCodec`, `EnvelopeSeries`, `EnvelopeRoundTrip`, `EnvelopeRefusals`).

`Basics` and `Envelopes` hold machine integers, sums, labels and envelopes.

## What the code does not give

Where a property fails, a lemma says exactly when it holds.

- The binary form of an exact window loses keys of 2^32 bytes and more:
  `ExactWindows.RoundTrip` is an if-and-only-if.
- Two series of a branch can get one key at the merge, exactly if it has `per_attribute` keys and its
  `group_by` names `attribute.key` once: `BranchSeries.KeysTellSeriesApart`, with two such points in
  `BranchSeries.TwoPointsClash`.
- A branch keeps a series' window under the metric of its first point, and the merge keys by metric.
  A series is emitted once exactly if all its sources agree on that metric:
  `EmissionCounts.OneWindowExactlyWhen`, with two sources that do not in
  `EmissionCounts.TwoMetricsSplit`.
- The raw sink drops a point without counting it if its window ends at or before the last reported
  one, even while that window is open. All points are registered exactly if none is overtaken like
  this: `RawSinks.RegisteredExactlyWhen`.
- Nothing in a series key is escaped, so a label whose value holds separators can be taken for two
  labels: `LabelSets.SeparatorsCollide`. Without separators keys decide: `LabelSets.KeyForDecides`.
- A direct store that refuses an observation some upstream store takes in holds less than the two
  stages, exactly then: `DirectStores.DirectExactlyWhen`. Without caps that is a matter of lateness,
  since one store's own watermark may trail the common one: `DirectStores.SameVerdictWhen`.
- A due rolling tick sends nothing when event time or upstream panes are ahead of the clock:
  `KllRolling.AnswerableWhen`. Ticks that are missed coalesce, so with sketches transmitted a
  skipped pane is never sent; ranges are sent at most once, not exactly once.
- The benchmark's merge refuses input once its backlog exceeds `MAX_PENDING`, and its top-k
  backend refuses every answer when the corpora have fewer than ten keys: both are if-and-only-if
  in `BenchPipeline.PipelineIsAccepted` and `TopKListings.PipelineIsAccepted`.
- The series cap of the tumbling window does not hold for envelopes under `EvictOldest`:
  `TumblingRuns.EnvelopeKeepsCap` and `TumblingRuns.ScalarKeepsCap`.
- Recall can exceed 1 when a sketch reports a key twice:
  `HeavyHitters.RecallNeedsDistinctKeys`, with the counts in `HeavyHitters.RepeatedKeyIsCountedTwice`.
- Identifiers can repeat when two or more attributes are unique, although each is documented never
  to: `Generator.RepeatsExactlyWhen` decides any scenario and `Generator.SteadyRepeatsWhen` those with
  one rate and even batches; `Generator.DistinctExactlyWhenSingle` is about all of them at once.
- A flush in which a series opens with a sketch and goes on without one cannot be decoded:
  `EnvelopeRefusals.DecodesExactlyWhen`, at two rows `EnvelopeRefusals.SketchThenScalar`. A sketch in
  a series that opened without one loses its count and its resource labels:
  `EnvelopeRefusals.ScalarThenSketch`. Aggregation ids of 2^63 and more are read as 0, and window
  times of 2^63 and more as other times: `EnvelopeRoundTrip.AggIdSurvives`,
  `EnvelopeRoundTrip.WindowTimesSurvive`.
- A window that ends at time 0 is late from the start, and one that ends at the largest 64-bit time
  is never closed. At shutdown `window_merge` closes everything else, but `exact_merge` still
  subtracts its grace: `WindowMerge.WindowMergeProcessor.OnShutdown`,
  `ExactMerges.ExactMerge.OnShutdown`.
- An undecodable envelope still opens its window in `window_merge` and not in `exact_merge`.

## Model

| member | source | states |
|---|---|---|
| WindowProtocol.RunIsSafe | asap-precompute-rs/src/otap/window_merge.rs:110-170 | over every run of data messages and ticks, with any clock and any senders: every open window and every message counter lies beyond `emitted_until`, emitted window ends strictly increase (so no window is emitted twice), and the weight of all inputs is exactly emitted + pending + late + rejected |
| WindowProtocol.DueSafe | asap-precompute-rs/src/otap/window_merge.rs:146-170 | one emission keeps that invariant, only appends to what was emitted, and leaves no window at or before the time-out open (except one ending at the largest 64-bit time) |
| WindowProtocol.DueConserves | asap-precompute-rs/src/otap/window_merge.rs:146-170 | closing windows moves their weight from pending to emitted, losing and inventing nothing |
| WindowProtocol.AddConserves | asap-precompute-rs/src/otap/window_merge.rs:110-129 | one envelope ends up in exactly one of: an open window, the late list, the rejected list |
| WindowProtocol.CompleteUntil | asap-precompute-rs/src/otap/window_merge.rs:148-154 | the scan over the counters returns the largest window that `sources` messages carried, 0 if there is none or if `sources` is 0 |
| Confluence.AllCarriedMeansBeyond | asap-precompute-rs/src/otap/window_merge.rs:143-145 | the reason windows may be closed on a count: if every in-order source has delivered window `e`, every message still to come carries only later windows, even when messages carry several windows or a source skips one |
| Confluence.Reachable | asap-precompute-rs/src/otap/window_merge.rs:110-170 | in every reachable state of N in-order sources and one merger: counters equal the number of sources that delivered the window, open windows hold exactly the contributions delivered for them, emitted windows hold everything delivered for them, and nothing is late |
| Confluence.CompleteWindowsAreClosed | asap-precompute-rs/src/otap/window_merge.rs:146-163 | as soon as every source has delivered a window, it is not open after the step |
| Confluence.Confluence | asap-precompute-rs/src/otap/window_merge.rs:110-170 | every interleaving of in-order sources, with ticks anywhere as long as grace does not run out for an undelivered window, ends with the same emissions: per window and series exactly the multiset of all contributions of all sources, each window once, in increasing order, nothing late |
| WindowMerge.MergeCommutes | asap-precompute-rs/src/otap/window_merge.rs:117-128 | the merged sketch and count of a series depend only on the multiset of contributions, not on the order in which they arrive |
| WindowMerge.WindowMerger.Add | asap-precompute-rs/src/otap/window_merge.rs:110-129 | adding an envelope is the machine's step: late ones only counted, decodable ones merged into their window and series, an undecodable one refused with its window left open |
| WindowMerge.WindowMerger.MessageCarried | asap-precompute-rs/src/otap/window_merge.rs:132-136 | counts a message for a window that has not been emitted, and nothing else |
| WindowMerge.WindowMerger.Due | asap-precompute-rs/src/otap/window_merge.rs:146-170 | emits exactly the machine's windows, each series as one envelope that carries the merge and the summed count of its contributions |
| WindowMerge.WindowMergeProcessor.OnData | asap-precompute-rs/src/otap/window_merge.rs:239-282 | a data message: every envelope added in order, windows counted once a message, envelopes without payload passed through unchanged and in order, then the due windows emitted; the invariant holds again |
| WindowMerge.WindowMergeProcessor.OnTick | asap-precompute-rs/src/otap/window_merge.rs:283-288 | a tick emits exactly what is due at that time |
| WindowMerge.WindowMergeProcessor.OnShutdown | asap-precompute-rs/src/otap/window_merge.rs:289-292 | shutdown emits every open window; only one ending at the largest 64-bit time can be left |
| WindowMerge.MergedExactly | asap-precompute-rs/src/otap/window_merge.rs:110-170 | when the sources are in order, the envelopes that go out are, for every window and series any source sent, one envelope with the merge of all its decodable sketches and the sum of their counts, by increasing window end |
| MergedEnvelopes.EmittedAlike | asap-precompute-rs/src/otap/window_merge.rs:88-170 | on the envelopes' fields: however in-order sources interleave, each emitted envelope is one that was sent, with the samples and the count of exactly the decodable ones sent with the same metric, type, aggregation, bounds and labels on both sides; every decodable one is in such an envelope, and no two emitted ones agree in all of these |
| MergedEnvelopes.PassedInOrder | asap-precompute-rs/src/otap/window_merge.rs:239-282 | envelopes without payload pass through, each as often as it came and in the order they came |
| ExactWindows.Merge | asap-precompute-rs/src/answers.rs:145-151 | merging two windows appends the values, adds the counts key by key, and adds the points |
| ExactWindows.HoldingHolds | asap-precompute-rs/src/answers.rs:132-151 | a window built from items holds exactly those: its values as a multiset, the occurrences of every key, and one point for each item |
| ExactWindows.HoldingConcat | asap-precompute-rs/src/answers.rs:145-151 | merging is what a single window over both inputs would have held |
| ExactWindows.HoldingCommutes | asap-precompute-rs/src/answers.rs:145-151 | windows over the same multiset of items hold the same data, whatever the order |
| ExactWindows.Encode | asap-precompute-rs/src/answers.rs:154-170 | encodes the window in the binary format, walking the counts in some order |
| ExactWindows.Decode | asap-precompute-rs/src/answers.rs:173-212 | the cursor loop computes the recursive reading of the format, with the same refusals: bad magic, truncation at any field, a key that is not UTF-8 |
| ExactWindows.RoundTrip | asap-precompute-rs/src/answers.rs:154-212 | for every window whose lengths fit their fields, every iteration order of the counts and every trailing bytes, decoding the encoding gives back the window if and only if all keys are shorter than 2^32 bytes |
| ExactWindows.PrefixesAreRejected | asap-precompute-rs/src/answers.rs:173-212 | every proper prefix of the encoding of a window with keys shorter than 2^32 bytes is refused |
| ExactWindows.PrefixDecodesExactlyWhen | asap-precompute-rs/src/answers.rs:173-212 | a prefix of any bytes whatever decodes if and only if the bytes do and it holds all that is read of them, and then it decodes to the same window |
| ExactBranches.ExactBranch.Observe | asap-precompute-rs/src/otap/baseline_nodes.rs:211-262 | one point: ignored unless a scalar, late if its window has been emitted, otherwise added to its quantile series and to every selected attribute's series; the metric kept is that of a series' first point |
| ExactBranches.ExactBranch.Close | asap-precompute-rs/src/otap/baseline_nodes.rs:173-184 | emits exactly the windows ending at or before the time, by increasing end, each series once with its data encoded, and moves `emitted_until` only when something went out |
| ExactMerges.MergedAllCommutes | asap-precompute-rs/src/otap/baseline_nodes.rs:338-345 | the merge of a series' windows holds the same data in whatever order they arrive |
| ExactMerges.ExactMerge.Add | asap-precompute-rs/src/otap/baseline_nodes.rs:330-347 | late windows are dropped, an undecodable payload is refused before anything changes, any other is added to its window and key |
| ExactMerges.ExactMerge.Due | asap-precompute-rs/src/otap/baseline_nodes.rs:349-367 | emits exactly the machine's windows, each series as one envelope that encodes the merged data |
| ExactMerges.ExactMerge.OnData | asap-precompute-rs/src/otap/baseline_nodes.rs:383-410 | a data message is the machine's step: add all, count each carried window once, emit what is due |
| ExactMerges.ExactMerge.OnShutdown | asap-precompute-rs/src/otap/baseline_nodes.rs:412-412 | shutdown closes with the node's own grace, so windows that end within one grace of the largest 64-bit time stay open |
| EndToEnd.BranchIsExact | asap-precompute-rs/src/otap/baseline_nodes.rs:211-270 | a branch that closes no window before its last point drops nothing: every item is in an open window or in an emitted one |
| EndToEnd.TimeOrderIsOnTime | asap-precompute-rs/src/otap/baseline_nodes.rs:286-308 | batches whose points are in time order never make a branch close a window too early, shutdown included |
| EndToEnd.MessagesAreEmissions | asap-precompute-rs/src/otap/baseline_nodes.rs:264-270 | the messages a branch sends, one after the other, are everything it emitted |
| BranchSeries.KeysAreDistinct | asap-precompute-rs/src/otap/baseline_nodes.rs:330-347 | at the merge, two series of one window, under whatever metrics, share a key only if they are the same series under the same metric, when no attribute is selected or `group_by` does not name `attribute.key` exactly once |
| BranchSeries.KeysTellSeriesApart | asap-precompute-rs/src/otap/baseline_nodes.rs:238-262 | the merge tells apart the series of all points a branch can receive if and only if `per_attribute` is empty or `group_by` does not name `attribute.key` exactly once |
| BranchSeries.TwoPointsClash | asap-precompute-rs/src/otap/baseline_nodes.rs:238-262 | otherwise two given points collide: one with the first selected attribute, and one whose only label is `attribute.key` with that attribute as its value |
| EndToEnd.EnvelopeDecodes | asap-precompute-rs/src/otap/baseline_nodes.rs:330-347 | what a branch sent for a series arrives at the merge as that window, that key and that data |
| EndToEnd.AllSentIsAllItems | asap-precompute-rs/src/otap/baseline_nodes.rs:211-270 | what all sources send for a series under a metric adds up to one exact window of all items of the sources whose first point for it has that metric |
| EndToEnd.ExactBaselineIsExact | asap-precompute-rs/src/otap/baseline_nodes.rs:211-412 | N branches on time, points of any metrics, messages interleaved in any order that keeps each source's, no grace running out early: the merge with `sources = N` emits, for every window, series and first metric with an item, exactly one window, whose data is that of one exact window over the points of all sources with that first metric; it emits nothing else, in increasing order, and nothing is ever late |
| BaselinePoints.PointGives | asap-precompute-rs/src/otap/baseline_nodes.rs:211-262 | what a point adds to a series, on its own fields: a scalar adds its float once to the series of its projection if `group_by` is not empty, and to a selected attribute each value as often as it has that label; all in the window with `end - size <= time < end`, and nothing else |
| BaselinePoints.ProjectionPicks | asap-precompute-rs/src/otap/baseline_nodes.rs:232-246 | the labels of a quantile series are the names in `group_by` that the point has, in that order, each with its first value |
| BaselinePoints.AnswersCountPoints | asap-precompute-rs/src/otap/baseline_nodes.rs:211-412 | on the points: in every such run the merge emits for a window, series and metric if and only if some source's first point of that window for the series has the metric, and the emitted window then holds each value, and counts each attribute value, as often as the points of those sources have it |
| EmissionCounts.OneWindowExactlyWhen | asap-precompute-rs/src/otap/baseline_nodes.rs:330-367 | in every such run a series of a window is emitted once for each metric that is the first for it at some source: so exactly once if and only if all sources that hold it agree on that metric, and then the one window holds the items of all sources |
| EmissionCounts.TwoMetricsSplit | asap-precompute-rs/src/otap/baseline_nodes.rs:238-262 | two sources with one point each, alike but for the metric, are such a run: the first metrics of the one series are two |
| RawSinks.RunIsAccounted | asap-precompute-rs/src/otap/baseline_nodes.rs:613-729 | in every run of sends, answers and reports: an open window's in-flight count is the number of unanswered messages that list it (the saturating subtraction never saturates), its points are stored + failed + waiting, every report's gauges add up to the points registered for its window, no window is reported twice although a report may overtake an older open window, and every window ever registered is open or reported |
| RawSinks.ShutdownReportsAll | asap-precompute-rs/src/otap/baseline_nodes.rs:654-671 | the report at shutdown leaves no window open, and every window ever registered has a report with all the points registered for it |
| RawReports.ReportsTellTheTruth | asap-precompute-rs/src/otap/baseline_nodes.rs:633-729 | on the events of any run: each report's points are the registered points of its window in messages answered as stored before it, its failed those in messages answered as not stored, its unacknowledged those in messages not answered; with none of these last it is complete at the latest storing answer, 0 if there is none |
| RawReports.CheckReportsExactly | asap-precompute-rs/src/otap/baseline_nodes.rs:654-671 | a check reports a window if and only if points are registered for it, it has not been reported, a point at or after its end was sent or it ended a grace ago, and none of its points waits for an answer or it ended ten graces ago |
| RawSinks.RawSink.Send | asap-precompute-rs/src/otap/baseline_nodes.rs:613-630 | registers a message under a fresh id, with its points split by window; points of windows that end at or before the last reported one are left out, open or not |
| RawSinks.SendRegisters | asap-precompute-rs/src/otap/baseline_nodes.rs:613-630 | a send adds to each window the number of its points, if the window ends after the last reported one, and nothing otherwise |
| RawSinks.RegisteredExactlyWhen | asap-precompute-rs/src/otap/baseline_nodes.rs:613-671 | over every run, all points sent are registered, window by window, if and only if each was sent while its window ended after the last reported one |
| RawSinks.TimelyRunsRegisterAll | asap-precompute-rs/src/otap/baseline_nodes.rs:613-671 | so do all runs that send in time order and report no window before the source has moved past it |
| RawSinks.RawSink.Answered | asap-precompute-rs/src/otap/baseline_nodes.rs:633-648 | settles every open window the message lists, as stored or as failed; an unknown id changes nothing |
| RawSinks.RawSink.Due | asap-precompute-rs/src/otap/baseline_nodes.rs:654-729 | reports exactly the windows that are ready, by increasing end, with their points, failed, waiting and completion time |
| SeriesKeys.WriteAttributesKey | asap-precompute-rs/src/matchers.rs:175-211 | the loop writes the key the specification defines, on the fast path and on the sorted walk |
| SeriesKeys.FastPathIsTheWalk | asap-precompute-rs/src/matchers.rs:175-211 | for strictly sorted labels the fast path writes what the sorted walk with lookups would |
| SeriesKeys.OrderDoesNotMatter | asap-precompute-rs/src/matchers.rs:169-211 | labels with unique keys give the same key in any order |
| SeriesKeys.ProjectionIsIdempotent | asap-precompute-rs/src/matchers.rs:220-231 | projecting to `aggregate_by` keeps the key, and projecting again changes nothing |
| SeriesKeys.KeysSurviveStorage | asap-precompute-rs/src/config.rs:348-390 | the key rebuilt from the labels that are stored or emitted is the key of the observation, under every identity setting, and storing again changes nothing |
| SeriesKeys.DecimalIsInjective | asap-precompute-rs/src/matchers.rs:146-165 | different aggregation ids are written differently |
| LabelSets.WholeKeyDecides | asap-precompute-rs/src/matchers.rs:169-211 | labels with unique keys and without `=`, `;` and bar have one key if and only if they are the same labels, in any order |
| LabelSets.AggregatedKeyDecides | asap-precompute-rs/src/matchers.rs:175-231 | with `aggregate_by`, labels without separators have one key if and only if they agree on those names |
| LabelSets.KeyForDecides | asap-precompute-rs/src/config.rs:348-390 | under every identity setting, two observations of labels without separators are one series if and only if the resources and labels that count agree |
| LabelSets.SeparatorsCollide | asap-precompute-rs/src/matchers.rs:175-211 | a label whose value holds separators has the key of two labels |
| KllWindows.RangesAddUp | asap-precompute-rs/src/kll_windows.rs:262-274 | answers are additive: items and counts of adjacent ranges add up to those of the joined range |
| KllWindows.RetentionIsBounded | asap-precompute-rs/src/kll_windows.rs:100-113 | live panes start at multiples of the pane within [watermark - retention, watermark], so at most retention / pane + 1 of them are held |
| KllWindows.ObservedOk | asap-precompute-rs/src/kll_windows.rs:126-162 | an observation only appends to the log, at a pane the watermark has not closed; the watermark never moves back |
| KllWindows.PaneMergedOk | asap-precompute-rs/src/kll_windows.rs:167-210 | a merged pane only appends to the log, at an aligned pane within retention; a refused one changes nothing but the watermark |
| PaneSamples.PanesHoldSamples | asap-precompute-rs/src/kll_windows.rs:126-210 | on the inputs of any run: what the store holds for a series and a range of panes is each accepted observation's own sample once, if its time is in the range and its own labels give the key, and each accepted upstream pane's samples if it lies in the range; counts likewise |
| PaneSamples.WatermarkIs | asap-precompute-rs/src/kll_windows.rs:100-108 | the watermark is the last pane boundary by the latest time of all inputs that are not ignored |
| PaneSamples.LateExactlyWhen | asap-precompute-rs/src/kll_windows.rs:126-145 | without a cap an observation that fits is refused, as late, if and only if its time is before the last pane boundary by the latest time so far |
| PaneSamples.CappedExactlyWhen | asap-precompute-rs/src/kll_windows.rs:226-235 | an observation in time is over the cap if and only if its series is new and as many as the cap are live |
| PaneSamples.MergedExactlyWhen | asap-precompute-rs/src/kll_windows.rs:167-210 | without a cap an upstream pane is merged if and only if it is one full aligned pane of a KLL sketch of the right aggregation and starts within retention |
| KllStore.KllWindowStore.Advance | asap-precompute-rs/src/kll_windows.rs:100-108 | the index after advancing holds exactly the log's live entries |
| KllStore.KllWindowStore.Admit | asap-precompute-rs/src/kll_windows.rs:226-235 | a series is admitted exactly when there is no cap, it is live already, or fewer series than the cap are live |
| KllStore.KllWindowStore.Observe | asap-precompute-rs/src/kll_windows.rs:126-162 | the index does to its panes what the log says, with the same result in every case: unmatched, not finite, late, overflowing, over the cap, admitted |
| KllStore.KllWindowStore.MergePane | asap-precompute-rs/src/kll_windows.rs:167-210 | the same for an upstream pane: wrong type, wrong aggregation, not one aligned pane, undecodable, expired, over the cap, merged |
| KllStore.KllWindowStore.Query | asap-precompute-rs/src/kll_windows.rs:241-291 | succeeds exactly when the range is non-empty, aligned, closed and retained; the answer has one envelope for each series with an entry in the range, holding the merge and the count of exactly those entries, under labels that give back the key |
| PaneSamples.AnswerHoldsSamples | asap-precompute-rs/src/kll_windows.rs:241-291 | an answer has one envelope for each series with an accepted input in the range, holding exactly their samples and their count |
| KllResults.RetentionHolds | asap-precompute-rs/src/kll_windows.rs:100-235 | over every run of observations, merged panes and advances: the log stays sound, the number of live panes is bounded, and with a cap never more than `max_series` series are live |
| KllResults.AnswersAreStable | asap-precompute-rs/src/kll_windows.rs:241-291 | a range that can be answered keeps its answer under any later observations and advances, and stays answerable exactly until its start expires |
| KllResults.ClosedRangeStays | asap-precompute-rs/src/kll_windows.rs:126-162 | what closed panes hold is changed by no observation and no advance |
| StageFolds.FlatExactlyWhen | asap-precompute-rs/src/kll_windows.rs:262-274 | a store whose entries are the answers delivered to it holds for a range what the stores below hold together if and only if every pane of theirs that holds anything was delivered |
| TwoStages.AnswerArrives | asap-precompute-rs/src/kll_windows.rs:167-210 | an upstream answer for one pane that is taken in downstream becomes one entry with the same series, items and count |
| TwoStages.DeliveredInEveryRun | asap-precompute-rs/src/kll_windows.rs:126-291 | in every run of upstream observations and advances, deliveries of answered panes and downstream advances, with refusals anywhere: every downstream entry is still exactly what its upstream store holds for that pane and series, though the store has gone on since, and none came twice |
| TwoStages.FlatInEveryRun | asap-precompute-rs/src/kll_windows.rs:126-291 | so in every run the downstream store holds for a range what the upstream stores hold together if and only if every pane of theirs that holds anything has been delivered and taken in |
| DirectStores.SameVerdictWhen | asap-precompute-rs/src/kll_windows.rs:126-162 | without caps, an upstream store and one that observes everything itself rule alike on an observation if and only if it is late for both or for neither |
| DirectStores.DirectExactlyWhen | asap-precompute-rs/src/kll_windows.rs:126-162 | a direct store that takes in nothing the upstream stores refuse holds everywhere what they hold together if and only if it refuses nothing they take in |
| DirectStores.TwoStagesAnswerAsOne | asap-precompute-rs/src/kll_windows.rs:126-291 | in every run in which both take in the same observations, two stages answer a range as the one direct store does, series by series, if and only if every upstream pane of it that holds anything was delivered and taken in |
| KllRolling.KllRollingPrecompute.Tick | asap-precompute-rs/src/kll_windows.rs:427-456 | a tick is the state machine's: not due, or due and answered with the most recent complete range, or due and empty |
| KllRolling.KllRollingPrecompute.Observe | asap-precompute-rs/src/kll_windows.rs:381-404 | a scalar goes to the store, and nothing else changes; a closed instance refuses |
| KllRolling.KllRollingPrecompute.ObserveEnvelope | asap-precompute-rs/src/kll_windows.rs:405-426 | an accepted pane moves the upstream watermark to the later of the two ends |
| KllRolling.EmissionIsExact | asap-precompute-rs/src/kll_windows.rs:427-456 | in every run, a non-empty emission ends at a slide boundary not after the tick and later than any before it, covers the `size` before its end, all of it closed, and holds series by series exactly what was admitted there |
| KllRolling.EmissionsIncrease | asap-precompute-rs/src/kll_windows.rs:427-456 | in every run, emitted ends increase by at least one slide; with sketches transmitted, the ranges are disjoint, so nothing is transmitted twice |
| KllRolling.EmissionsAreFinal | asap-precompute-rs/src/kll_windows.rs:126-162 | what a closed range holds never changes while nothing arrives from upstream |
| KllRolling.AnswerableWhen | asap-precompute-rs/src/kll_windows.rs:427-456 | a due tick finds its range answerable if and only if the watermark is not past the end of the range (or of the first full range); otherwise it sends nothing |
| RollingTicks.EmissionHoldsSamples | asap-precompute-rs/src/kll_windows.rs:427-456 | on the inputs of any run: an emission ends at the pane boundary `b` with `b <= now < b + pane`, or at the largest accepted upstream end if that is earlier, and has an output for exactly the series with an accepted input in the `size` before it, made of exactly their samples, one output for each quantile |
| RollingTicks.TickEmitsExactlyWhen | asap-precompute-rs/src/kll_windows.rs:427-456 | a tick sends something if and only if the estimator is running, that end is positive and later than the last emission's, no input is ahead of the range, and an accepted input is in it, and no series there is made of sketches without samples only |
| RollingTicks.TickEmitsWhen | asap-precompute-rs/src/kll_windows.rs:427-456 | without upstream and with nothing later than the tick, a running estimator sends something if and only if its boundary is positive, no earlier tick at or after that boundary has sent, and an accepted observation lies in the `size` before it |
| BenchNormalizer.InputNormalizer.Normalize | asap-precompute-rs/src/bin/stream_bench/model.rs:163-188 | cuts any number of points into batches that tile the stream from the old position to the new: contiguous, none empty, none over the batch size, none straddling a window |
| BenchNormalizer.TilesConcat | asap-precompute-rs/src/bin/stream_bench/model.rs:163-188 | the batches of several calls tile the whole stream together, however the input was split over calls |
| BenchStreams.Chunks | asap-precompute-rs/src/bin/stream_bench/model.rs:461-486 | a window's values leave in batches of the batch size, in order, each stamped with its offset |
| BenchStreams.SendingStep | asap-precompute-rs/src/bin/stream_bench/model.rs:266-330 | a lane that has taken part of a stream takes its next message without a gap |
| BenchStreams.StreamEnds | asap-precompute-rs/src/bin/stream_bench/model.rs:266-330 | a lane that has taken a whole stream holds every window of it, and nothing open |
| BenchStreams.FedLeft | asap-precompute-rs/src/bin/stream_bench/model.rs:266-330 | feeding one of two lanes keeps what is pending equal to the windows begun by either and not finished by both |
| Sorting.SortSorts | asap-precompute-rs/src/bin/stream_bench/model.rs:131-134 | sorting gives a sorted permutation |
| Sorting.SortedIsUnique | asap-precompute-rs/src/bin/stream_bench/model.rs:131-134 | two sorted listings of one multiset are equal, so the reference does not depend on the algorithm |
| Sorting.MergedIsSort | asap-precompute-rs/src/bin/stream_bench/model.rs:374-392 | merging two sorted runs is sorting their concatenation |
| Sorting.CopiesSorted | asap-precompute-rs/src/bin/stream_bench/model.rs:135-137 | element `i` of `c` sorted copies of a sorted list is element `i / c` of the list |
| BenchProcessors.MergeRuns | asap-precompute-rs/src/bin/stream_bench/model.rs:374-392 | the loop computes the two-run merge |
| BenchProcessors.Processor.ProcessNormalized | asap-precompute-rs/src/bin/stream_bench/model.rs:416-487 | a branch step: wrong source, out of order, missing batch, overflow and backlog refusals, else the batch is taken in and a full window leaves sorted |
| BenchProcessors.Processor.Process | asap-precompute-rs/src/bin/stream_bench/model.rs:266-414 | a merge or estimate step, with all its refusals, and what leaves when a window is complete |
| BenchProcessors.Processor.RollingExact | asap-precompute-rs/src/bin/stream_bench/model.rs:249-264 | retains the last `rolling` windows and sorts all their values |
| BenchProcessors.Backend.Receive | asap-precompute-rs/src/bin/stream_bench/model.rs:526-625 | accepts a message exactly when it is the next window's, and holds each tumbling and rolling answer once with the reference value; a refusal changes nothing |
| BenchPipeline.BranchSendsSorted | asap-precompute-rs/src/bin/stream_bench/model.rs:416-487 | however a source's points are cut, its branch refuses nothing and sends windows 0, 1, 2, ... in order, each a sorted permutation of the source's values |
| BenchPipeline.MergeSendsInOrder | asap-precompute-rs/src/bin/stream_bench/model.rs:266-414 | however the two branches interleave, the merge refuses nothing if and only if the backlog stays within `MAX_PENDING`, and then sends exactly the windows both have finished, in order, each the merge of the two runs |
| BenchPipeline.EstimateAnswers | asap-precompute-rs/src/bin/stream_bench/model.rs:266-414 | fed merged windows in order, the estimate refuses nothing and answers each finished window |
| BenchPipeline.BothIsReference | asap-precompute-rs/src/bin/stream_bench/model.rs:511-525 | what the merge sends for a window is the backend's sorted corpus of both sources |
| BenchPipeline.RollingIsReference | asap-precompute-rs/src/bin/stream_bench/model.rs:131-137 | the quantile of all retained windows is the reference at the divided index |
| BenchPipeline.BackendAccepts | asap-precompute-rs/src/bin/stream_bench/model.rs:526-625 | the backend accepts every answer, window after window |
| BenchPipeline.PipelineIsAccepted | asap-precompute-rs/src/bin/stream_bench/model.rs:139-625 | end to end, for any chunking of the input and any interleaving of the branches, each stage stopped anywhere: no branch refuses; the merge refuses nothing if and only if the backlog stays within the bound; then the estimate refuses nothing and the backend has accepted exactly the answered windows |
| BenchPipeline.AllWindowsArrive | asap-precompute-rs/src/bin/stream_bench/model.rs:139-625 | delivered to the end, all `n` windows of the sources reach the backend and are accepted |
| BenchFeeds.BranchAcceptsExactly | asap-precompute-rs/src/bin/stream_bench/model.rs:416-487 | whatever batches of its source it is given, a branch accepts them if and only if each continues the one before, without a gap and within its window |
| BenchFeeds.MergeAcceptsExactly | asap-precompute-rs/src/bin/stream_bench/model.rs:266-414 | whatever it is fed, the merge accepts a feed if and only if every message is one batch that continues its source without a gap and within its window, and the windows begun by either source and not finished by both stay within the bound; it has then sent the merge of each window that both have finished |
| BenchFeeds.EstimateAcceptsExactly | asap-precompute-rs/src/bin/stream_bench/model.rs:266-414 | whatever it is fed, the estimate accepts a feed if and only if every message continues the merge's stream |
| BenchFeeds.BackendAcceptsExactly | asap-precompute-rs/src/bin/stream_bench/model.rs:526-625 | the backend accepts a message if and only if every point of it is an answer of the next window with the reference value, and each answer asked for occurs once |
| BenchFeeds.ReferenceIsValues | asap-precompute-rs/src/bin/stream_bench/model.rs:511-525 | the reference is the values of the indices 1 to `2 * points`, sorted |
| Rankings.TopOf | asap-precompute-rs/src/bin/stream_bench/topk.rs:74-79 | sorting a map's entries and truncating gives its top `k`, whatever the iteration order |
| Rankings.TopIsUnique | asap-precompute-rs/src/bin/stream_bench/topk.rs:74-79 | a map has one top `k`: ties are broken by key |
| Rankings.ScalingKeepsTop | asap-precompute-rs/src/bin/stream_bench/topk.rs:480-505 | scaling all counts keeps the ranking |
| TopKCounts.TallyConcat | asap-precompute-rs/src/bin/stream_bench/topk.rs:278-340 | tallying two batches of entries adds their counts |
| TopKCounts.ListingTallies | asap-precompute-rs/src/bin/stream_bench/topk.rs:91-104 | whatever order a map's entries are shipped in, tallying them gives the map back |
| TopKCounts.EqualWindowsScale | asap-precompute-rs/src/bin/stream_bench/topk.rs:341-388 | merging equal windows multiplies every count |
| TopKProcessors.TopKBranch.ProcessNormalized | asap-precompute-rs/src/bin/stream_bench/topk.rs:210-250 | a branch step, with its refusals; a full window leaves as its entries in some order, with their number |
| TopKProcessors.TopKProcessor.Process | asap-precompute-rs/src/bin/stream_bench/topk.rs:278-388 | a merge or estimate step: sequence and total checks, per-key sums, and what leaves when a window is complete |
| TopKProcessors.TopKBackend.Receive | asap-precompute-rs/src/bin/stream_bench/topk.rs:436-505 | accepts a message exactly when it is the next window's and its rankings, read back by rank, are the reference with counts scaled by the number of copies |
| TopKPipeline.BranchSendsCounts | asap-precompute-rs/src/bin/stream_bench/topk.rs:210-275 | however its input is cut, a branch refuses nothing and sends the listing of every finished window, in order |
| TopKListings.BranchListsCorpus | asap-precompute-rs/src/bin/stream_bench/topk.rs:210-275 | a branch that lists, in any order, the counts it holds when a window is full lists the counts of its corpus every time |
| TopKPipeline.MergeSendsInOrder | asap-precompute-rs/src/bin/stream_bench/topk.rs:278-388 | fed streams of the two sources' counts in any interleaving, the merge refuses nothing if and only if the backlog stays within the bound, and then sends the windows both branches have finished, in order |
| TopKListings.MergeListsSums | asap-precompute-rs/src/bin/stream_bench/topk.rs:278-388 | a merge that lists, in any order, what it holds for a window it has just completed runs as one that lists the per-key sums of both sources |
| TopKPipeline.CompleteCounts | asap-precompute-rs/src/bin/stream_bench/topk.rs:278-388 | a complete window holds exactly the per-key sums of both sources |
| TopKPipeline.EstimateAnswers | asap-precompute-rs/src/bin/stream_bench/topk.rs:278-388 | the estimate refuses nothing and answers each finished window |
| TopKPipeline.AcceptedWithTenKeys | asap-precompute-rs/src/bin/stream_bench/topk.rs:436-505 | the backend accepts the answer to a window if and only if there are ten different keys |
| TopKListings.PipelineIsAccepted | asap-precompute-rs/src/bin/stream_bench/topk.rs:210-505 | end to end, for any chunking and interleaving, when branches and merge list the counts in their state in any order: no branch refuses; the merge refuses nothing if and only if the backlog stays within the bound; then the estimate refuses nothing, and the backend accepts every answer if and only if the two corpora have ten different keys |
| TopKListings.AllWindowsArrive | asap-precompute-rs/src/bin/stream_bench/topk.rs:210-505 | delivered to the end, all `n` windows of the sources reach the backend, which accepts them all if and only if there are ten different keys |
| TopKFeeds.BranchAcceptsExactly | asap-precompute-rs/src/bin/stream_bench/topk.rs:210-250 | whatever batches of its source it is given, a branch accepts them if and only if each continues the one before, within its window |
| TopKFeeds.MergeAcceptsExactly | asap-precompute-rs/src/bin/stream_bench/topk.rs:278-345 | whatever it is fed, the merge accepts a feed if and only if every message continues its source without a gap and within the number of entries announced for the window, and the backlog stays within the bound |
| TopKFeeds.EstimateAcceptsExactly | asap-precompute-rs/src/bin/stream_bench/topk.rs:278-345 | whatever it is fed, the estimate accepts a feed if and only if every message continues the merge's stream |
| TopKFeeds.BackendAcceptsOnly | asap-precompute-rs/src/bin/stream_bench/topk.rs:436-505 | what the backend accepts is the next window's message, all of it answers, with ten entries of each kind that are, rank by rank, the reference with scaled counts |
| TopKFeeds.ReferenceIsOccurrences | asap-precompute-rs/src/bin/stream_bench/topk.rs:417-433 | the reference ranks the keys of the indices 1 to `2 * points` by how often they occur |
| TumblingWindow.WindowState.InitWindow | asap-precompute-rs/src/window.rs:101-119 | the first input fixes the bounds of the window that covers it; later ones change nothing |
| TumblingWindow.WindowState.Observe | asap-precompute-rs/src/window.rs:127-206 | a scalar: late, over the cap, evicting the series seen longest ago, opening a series, refused by the sketch, or applied; the whole new state in each case |
| TumblingWindow.WindowState.ObserveEnvelope | asap-precompute-rs/src/window.rs:211-262 | an upstream sketch: over the cap, undecodable, without payload, or merged; never late and never evicting |
| TumblingWindow.WindowState.FindOldest | asap-precompute-rs/src/window.rs:165-174 | the scan finds a series seen no later than any other, or none if all were seen at the end of time |
| TumblingWindow.WindowState.Rotate | asap-precompute-rs/src/window.rs:271-281 | closes the window exactly when it is initialized and due, and emits its series and bounds |
| TumblingWindow.WindowState.Drain | asap-precompute-rs/src/window.rs:288-300 | closes a window that holds a series, due or not; an empty one stays |
| TumblingWindow.WindowState.AdvanceWindow | asap-precompute-rs/src/window.rs:332-351 | the next window starts at the bucket of the time, and at least one window on |
| TumblingRuns.RunConserves | asap-precompute-rs/src/window.rs:127-322 | over every run, every input that was applied is emitted once, still active, or was evicted with its series |
| TumblingRuns.HeldSinceCleared | asap-precompute-rs/src/window.rs:127-322 | at every point of every run, evictions included, what a series holds is exactly the inputs applied to it, in order, since the window was last closed or the series last evicted, or since the start |
| TumblingRuns.EntryIsFoldSince | asap-precompute-rs/src/window.rs:305-322 | so the entry of a series that goes out holds the samples and the count of exactly those inputs |
| TumblingSamples.EntryHoldsSamples | asap-precompute-rs/src/window.rs:127-322 | on the inputs: the entry of a series that goes out holds each accepted scalar's own sample once and each accepted envelope's samples, for exactly the inputs whose own labels give its key since the window was last closed or the series last evicted; the count likewise |
| TumblingSamples.SeenIsLatest | asap-precompute-rs/src/window.rs:147-206 | the time by which the oldest series is chosen is the latest of its scalars that were not turned away since it was opened, or that of the envelope that opened it |
| TumblingSamples.FirstWindowCovers | asap-precompute-rs/src/window.rs:101-119 | the first input, whatever becomes of it, opens the aligned window that covers its time |
| TumblingSamples.NextWindowCovers | asap-precompute-rs/src/window.rs:332-351 | a rotation that is due opens the aligned window that covers its time |
| TumblingSamples.BatchBounds | asap-precompute-rs/src/window.rs:101-119 | without a window size, every rotation is due once an input has come, and the bounds are the first input's time, then the last rotation's |
| TumblingSamples.ScalarVerdict | asap-precompute-rs/src/window.rs:127-206 | exactly when a scalar is late, over the cap, or refused by its sketch |
| TumblingSamples.EnvelopeVerdict | asap-precompute-rs/src/window.rs:211-262 | an envelope is never late, and exactly when it is over the cap or refused |
| TumblingRuns.ActiveSinceRotation | asap-precompute-rs/src/window.rs:271-322 | what a rotation closes is all inputs applied since the previous one, across series and in order, when nothing was evicted in between |
| TumblingRuns.EmittedRangesAreDisjoint | asap-precompute-rs/src/window.rs:271-351 | over every run under a fixed nonzero size, emitted ranges are aligned, one size long, and disjoint in order |
| TumblingRuns.CountsAddUp | asap-precompute-rs/src/window.rs:305-322 | the counts of the series that go out add up to the counts that were applied |
| TumblingRuns.ScalarKeepsCap | asap-precompute-rs/src/window.rs:136-181 | a scalar keeps the cap on series if and only if it is late, its series is open, there is room, the policy does not evict, or some series was last seen before the end of time |
| TumblingRuns.EnvelopeKeepsCap | asap-precompute-rs/src/window.rs:230-240 | an envelope keeps the cap if and only if its series is open, there is room, or the policy does not evict |
| TumblingRuns.CapHolds | asap-precompute-rs/src/window.rs:127-262 | with the dropping policies no run ever exceeds the cap |
| HeavyHitters.ExactTop | asap-precompute-rs/src/answers.rs:248-257 | the reported list is the top `k` of the counts, ties by key |
| HeavyHitters.TopkRoundTrip | asap-precompute-rs/src/answers.rs:378-394 | whatever gauges that are not ranked and keyed top-k estimates surround them, the top-k gauges are read back as the ranking that was reported |
| HeavyHitters.TruncationIsSound | asap-precompute-rs/src/answers.rs:422-462 | unless the exact list is cut short, the keys it shows at the threshold are exactly the heavy hitters of the full counts |
| HeavyHitters.AccuracyIsSound | asap-precompute-rs/src/answers.rs:422-462 | with distinct sketch keys, the measures mean what they say: truth and reported count keys, true positives are the keys in both and at most either, and precision, recall and F1 lie in [0, 1] |
| HeavyHitters.MeasuresAre | asap-precompute-rs/src/answers.rs:422-462 | precision times the reported keys, and recall times the heavy hitters, are the true positives, each 1 when there is nothing to count; F1 is their harmonic mean |
| HeavyHitters.AnsweredExactlyWhen | asap-precompute-rs/src/answers.rs:430-437 | there is an answer if and only if each list is shorter than `k` or has an entry below the threshold |
| HeavyHitters.RecallNeedsDistinctKeys | asap-precompute-rs/src/answers.rs:422-462 | for a sketch list of at most `k` entries, recall is at most 1 against every exact top `k` of a count map if and only if the sketch's keys at the threshold are distinct |
| HeavyHitters.RepeatedKeyIsCountedTwice | asap-precompute-rs/src/answers.rs:422-462 | if they are not, the count map with the repeated key alone, at the least whole count that reaches the threshold, makes recall exceed 1 |
| Generator.LatestIsInForce | asap-precompute-rs/src/otap/scenario_generator.rs:277-285 | the rate of a second is that of the latest change that applies, the last listed of several at one time, or the base rate if none does |
| Generator.RateIsInForce | asap-precompute-rs/src/otap/scenario_generator.rs:277-285 | the rate of a second is that of the change with a rate whose time has come, than which none such is later, nor as late and listed after it; the base rate if there is none |
| Generator.FewestBatches | asap-precompute-rs/src/otap/scenario_generator.rs:288-299 | no fewer batches a second than there are would hold the highest rate |
| Generator.RateIsBounded | asap-precompute-rs/src/otap/scenario_generator.rs:277-294 | no second has a higher rate than the highest of the scenario |
| Generator.BatchesAreContiguous | asap-precompute-rs/src/otap/scenario_generator.rs:333-340 | the batches of a second start at its first point, follow one another without gap, and hold at most `max_batch_size` points |
| Generator.BatchesAddUp | asap-precompute-rs/src/otap/scenario_generator.rs:297-340 | the batches of a second add up exactly to its rate |
| Generator.Generator.Batch | asap-precompute-rs/src/otap/scenario_generator.rs:343-372 | every unique attribute of every point of a batch gets the counter that its second, batch and place determine |
| Generator.IdentifiersAreDistinct | asap-precompute-rs/src/otap/scenario_generator.rs:313-321 | with a single unique attribute no two points of all seconds get the same identifier |
| Generator.BatchCountersDiffer | asap-precompute-rs/src/otap/scenario_generator.rs:313-372 | within one batch no two unique attributes share a counter, on one point or on several |
| Generator.SeedsKeepApart | asap-precompute-rs/src/otap/scenario_generator.rs:313-321 | sources with different seeds never share an identifier of one attribute |
| Generator.RepeatsExactlyWhen | asap-precompute-rs/src/otap/scenario_generator.rs:313-372 | in a given scenario, whatever its rates and batch size, a unique attribute never repeats a counter if and only if no batch starts a multiple of the number of unique attributes after another, within that one's points |
| Generator.SteadyRepeatsWhen | asap-precompute-rs/src/otap/scenario_generator.rs:297-372 | with one rate, batches of `c` points and `u` unique attributes that is: if and only if no `j` between 0 and `c` makes `j * u` a multiple of `c` |
| Generator.DistinctExactlyWhenSingle | asap-precompute-rs/src/otap/scenario_generator.rs:313-372 | over all rates and batch sizes, a unique attribute never repeats a counter if and only if it is the only unique attribute |
| LabelKeys.AppendLabelsToKey | asap-precompute-rs/src/otap/codec.rs:194-206 | the loop appends the length-prefixed labels, sorted |
| LabelKeys.LabelKeyDecides | asap-precompute-rs/src/otap/codec.rs:194-206 | two label lists get the same key if and only if they are the same labels in some order |
| LabelKeys.IdentityDecides | asap-precompute-rs/src/otap/codec.rs:157-177 | within one resource, two rows have the same series identity if and only if aggregation, metric and labels are the same |
| LabelKeys.IdentityIgnoresTheBoundary | asap-precompute-rs/src/otap/codec.rs:157-177 | across resources they need not: a label counts the same on either side of the boundary |
| LabelKeys.SeriesIds.SeriesIdFor | asap-precompute-rs/src/otap/codec.rs:157-177 | a known series keeps its number, a new one gets the next; until the numbers run out, different series have different numbers |
| EnvelopeTrees.FromEnvelopes | asap-precompute-rs/src/otap/codec.rs:243-282 | grouping puts every row in exactly one series of exactly one resource, with no resource and no series split, and keeps each series' rows in flush order |
| EnvelopeCodec.OtapSketchEncoder.Encode | asap-precompute-rs/src/otap/codec.rs:140-155 | refuses a flush exactly when some payload is not a snapshot of its type, and then numbers nothing; otherwise numbers and groups all rows, each series in flush order |
| EnvelopeCodec.Decode | asap-precompute-rs/src/otap/codec.rs:1325-1434 | the walk over the tree gives every point's observation, or the first refusal |
| EnvelopeRoundTrip.RowReads | asap-precompute-rs/src/otap/codec.rs:1485-1655 | a row, as a point under its resource and series, is read back with its content |
| EnvelopeSeries.FirstRowOpens | asap-precompute-rs/src/otap/codec.rs:157-282 | the first row of an encoded series is the first envelope of the flush with its resource, aggregation, metric and labels |
| EnvelopeRoundTrip.RoundTrip | asap-precompute-rs/src/otap/codec.rs:140-1655 | when no series that opens with a sketch has an envelope without one, decoding an encoded flush gives exactly one observation for each envelope, with the same payload, type, aggregation, version, window, metric, count and value, and the same labels up to order; a row without payload comes back as its scalar, and a sketch in a series that opened as a scalar without its count and resource labels |
| EnvelopeRoundTrip.AggIdSurvives | asap-precompute-rs/src/otap/codec.rs:792-829 | an aggregation id is read back if and only if it is below 2^63; a larger one is read as 0 |
| EnvelopeRoundTrip.WindowTimesSurvive | asap-precompute-rs/src/otap/codec.rs:1485-1655 | each bound of a sketch's window is read back if and only if it is below 2^63; the saturated nanoseconds a larger one falls back to are another time |
| EnvelopeRefusals.DecodesExactlyWhen | asap-precompute-rs/src/otap/codec.rs:1485-1655 | the decoder refuses an encoded flush if and only if the flush has an envelope without payload after a first envelope with payload of the same resource and series |
| EnvelopeRefusals.SketchThenScalar | asap-precompute-rs/src/otap/codec.rs:1485-1655 | a flush of two: a sketch, then a scalar of its series, encodes and is refused |
| EnvelopeRefusals.ScalarThenSketch | asap-precompute-rs/src/otap/codec.rs:1485-1655 | the other way round it decodes, but the sketch is read with count 0 and without its copy of the resource labels |

## Left out

- Sketch internals and their error bounds: a sketch is the multiset of its samples.
- Asynchronous glue, timers and effect handlers: the clock is an argument, messages arrive in any order the senders allow.
- Arrow and OTLP encoding: the transport carries the tree of resources, scopes and points faithfully.
- Arrival times, stage timing, statistics counters, dashboards and log texts: they do not decide where an observation goes.
- The order of the series within one emitted window: windows are maps, emitted by increasing end.
- Doubles: values are ordered tokens or reals; a quantile's rounded index is an arbitrary index in range.
- Counters that exceed 64 bits: counts are unbounded, saturation of stored counts is not modelled.
- The exact detector, drift, cardinality and novelty trackers, configuration parsing, matchers other than the series key: easy members.
- EndToEnd.ExactBaselineIsExact: is about branches that close no window on their timer before its last point, attribute values shorter than 2^32 bytes, and configurations whose series keys do not clash.
- EmissionCounts.OneWindowExactlyWhen: is about the same runs.
- Confluence.Confluence: is about windows that end after time 0 and before the largest 64-bit time, since the others are late or never closed.
- ExactWindows.Merge: exact windows are values, not objects updated in place, so aliasing is not captured; encoding and decoding keep their loops.
- RawSinks.RunIsAccounted: is about registered points; which points are registered is `RawSinks.RegisteredExactlyWhen`.
- RawSinks.RawSink.Due: transit quantiles, the window start of a report and its label set are not modelled; `end + 10 * grace` is taken not to overflow.
- KllRolling.KllRollingPrecompute.Tick: the quantile of each estimate is attached to the merged samples, not computed; replacing the configuration of a running instance is not modelled.
- KllStore.KllWindowStore.constructor: takes a valid pane and retention; the refusals of other settings are not modelled.
- BaselinePoints.AnswersCountPoints: is about the same runs.
- BenchPipeline.PipelineIsAccepted: is about the `exact` scenario; pass-through of raw values and the KLL scenario are not modelled, nor is the branch role fed with messages instead of normalized batches.
- TopKListings.PipelineIsAccepted: is about the `topk-exact` scenario; the recall check is implied by the equality of the rankings.
- TopKProcessors.TopKProcessor.Process: the state after a refusal is not described, since a refusal ends the benchmark.
- TopKProcessors.TopKBranch.ProcessNormalized: the branch is a class of its own, since it shares no state with merge and estimate.
- TumblingWindow.WindowState.Observe: times are unbounded, so the sum with the lateness does not overflow; which of several oldest series is evicted is left open; a change of the window size is not modelled.
- HeavyHitters.AccuracyIsSound: the average relative error is not modelled.
- Generator.Generator.Batch: only unique attributes are modelled; drawn values, growth, injected values and the random numbers are left out, and a value injected over an identifier is not considered.
- SeriesKeys.KeysSurviveStorage: claims no injectivity; when keys differ is `LabelSets.KeyForDecides`, for labels with unique keys and without `=`, `;` and `|`.
- TumblingRuns.ActiveSinceRotation: is about a rotation after an earlier one and no eviction in between; `TumblingRuns.HeldSinceCleared` is about every series and every run.
- DirectStores.TwoStagesAnswerAsOne: is about pane stores with one pane width; ranges are whole panes, and an answer holds samples and counts, not the order of its envelopes.
- EnvelopeRoundTrip.RoundTrip: is about labels without reserved keys, integers below 2^63 and numbers that have not run out; the sketch size attribute, temporality and the per-point copies of type and aggregation are not modelled, and the names of sketch types stand for themselves.
- BenchFeeds.BranchAcceptsExactly: is about batches of one source, none of them empty, as the normalizer cuts them; so is `TopKFeeds.BranchAcceptsExactly`.
- TumblingSamples.SeenIsLatest: is about runs whose evicted series were open, as the scan that picks them ensures.
