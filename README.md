# Splittable DoFn claim protocol

A Dafny model of the splittable-DoFn machinery exercised by Apache Beam's
`SplittableDoFnTest`: the offset-range restriction and its tracker (claims in
increasing order, checkpoint into primary and residual), and the four splittable
DoFns the test defines — `PairStringWithIndexToLength`, `SDFWithMultipleOutputsPerBlock`,
`SDFWithSideInputsAndOutputs` and `SDFWithLifecycle` — each driven by a model of the runner
loop that the tests rely on.

Files:

- `wrappers.dfy`: `Option`.
- `offset_range.dfy`: Java `int` (`int32`, wrapping addition, truncating halving), `OffsetRange`, and
  `Indices`, the positions of a range in order.
- `tracker.dfy`: `OffsetRangeTracker` as a class with the fields `range` and `lastClaimedIndex`.
  Its checkpoint is specified by the pure functions `Primary` and `Residual`.
- `runner.dfy`: the runner around one invocation. It is not part of the source and is stated here
  so that the drivers can be proved:
  - `ProcessContext` collects the outputs, and checkpoints the tracker once an invocation has
    emitted `maxOutputs` outputs. Beam's runner checkpoints on an output or time bound; only the
    output bound is modelled, as a parameter.
  - `FinishInvocation` picks the residual to reschedule: the runner's checkpoint, a checkpoint
    taken on `resume()`, or nothing on `stop()`.
- `pair_with_index.dfy`, `blocks.dfy`, `side_outputs.dfy`, `lifecycle.dfy`: the four DoFns.
  Each has its process method as an imperative method over the tracker and the context,
  and a driver that runs every residual to completion with a fresh tracker.

Conventions:

- A failing `checkState`, `assertEquals` or `assertTrue` in the source is a precondition.
- The `IllegalStateException` of `snapToNextBlock` is a value: `None`, and
  `ProcessResult.IllegalStateException`.
- Every driver is proved for every positive `maxOutputs`. The results therefore hold whether or
  not the runner checkpoints in the middle of an invocation.

Three behaviours of the code that the model keeps as written, each shown by a member:

- `tryClaim` (line 107-114) checks only the upper bound of the range. So after a checkpoint with
  nothing claimed, whose primary is the empty `[from, from)`, a claim below the range start still
  succeeds. A second checkpoint then hands back a residual of positions the range never held
  (`[3, 5)` from `[5, 10)` after a claim of 2) and leaves an inverted primary (`[5, 3)`):
  `Trackers.ClaimBelowRangeAfterCheckpoint`. The partition of `Trackers.CheckpointPartitions`
  is therefore stated only for a last claim at or above `from - 1`.
- A refused claim records nothing. After a claim at or beyond the end is refused, a later claim of
  a smaller position inside the range succeeds: `Trackers.ClaimAfterRefusal`.
- `PairStringWithIndexToLength.process` (line 118-127) outputs a pair *before* it tests
  `i % 3 == 0`. On `[0, 5)` the first invocation therefore claims only 0 and resumes, the second
  claims 1, 2, 3, and the third claims 4: `PairWithIndexExamples.CcccccInvocations`.

An element's length is Java's `String.length()`, counted in UTF-16 code units
(`PairWithIndex.Utf16Length`): a character outside the Basic Multilingual Plane counts twice,
so such a character is paired with two indices (`PairWithIndexExamples.SupplementaryCharacterPairs`).

## Model

| member | source | states |
|---|---|---|
| OffsetRanges.AddInt32 | sdks/java/core/src/test/java/org/apache/beam/sdk/transforms/SplittableDoFnTest.java:137-138 | Java `from + to`: the one `int` congruent to the sum modulo 2^32, equal to the sum when it fits |
| OffsetRanges.HalfInt32 | sdks/java/core/src/test/java/org/apache/beam/sdk/transforms/SplittableDoFnTest.java:137-138 | Java `/ 2` truncates toward zero: the result is floor(x/2) for non-negative x and ceil(x/2) for negative x |
| OffsetRanges.IndicesAppend | sdks/java/core/src/test/java/org/apache/beam/sdk/transforms/SplittableDoFnTest.java:67-74 | the positions of [a, b) followed by those of [b, c) are the positions of [a, c) |
| OffsetRanges.IndicesExactlyOnce | sdks/java/core/src/test/java/org/apache/beam/sdk/transforms/SplittableDoFnTest.java:67-74 | a range holds each position x with from <= x < to exactly once and no other position |
| OffsetRanges.EachIndexOnce | sdks/java/core/src/test/java/org/apache/beam/sdk/transforms/SplittableDoFnTest.java:67-74 | the same for all positions at once |
| Trackers.OffsetRangeTracker.constructor | sdks/java/core/src/test/java/org/apache/beam/sdk/transforms/SplittableDoFnTest.java:86-88 | a new tracker holds the range and has claimed nothing |
| Trackers.OffsetRangeTracker.CurrentRestriction | sdks/java/core/src/test/java/org/apache/beam/sdk/transforms/SplittableDoFnTest.java:90-93 | returns the tracker's current range |
| Trackers.OffsetRangeTracker.TryClaim | sdks/java/core/src/test/java/org/apache/beam/sdk/transforms/SplittableDoFnTest.java:107-114 | precondition: claims strictly increase; succeeds iff i < range.to, and then records i as last claimed; a refused claim changes nothing; the range never changes |
| Trackers.Primary | sdks/java/core/src/test/java/org/apache/beam/sdk/transforms/SplittableDoFnTest.java:97-104 | the range a checkpoint keeps starts where the range starts; it is empty when nothing was claimed and otherwise ends just after the last claim, within the range |
| Trackers.Residual | sdks/java/core/src/test/java/org/apache/beam/sdk/transforms/SplittableDoFnTest.java:97-104 | the range a checkpoint hands back ends where the range ends and starts where the primary ends; with nothing claimed it is the whole range |
| Trackers.OffsetRangeTracker.Checkpoint | sdks/java/core/src/test/java/org/apache/beam/sdk/transforms/SplittableDoFnTest.java:95-105 | returns the residual and shrinks the range to the primary, both as functions of the old range and last claim; keeps the last claim below the range end |
| Trackers.CheckpointPartitions | sdks/java/core/src/test/java/org/apache/beam/sdk/transforms/SplittableDoFnTest.java:95-105 | when the last claim, if any, is at least from - 1 and below to: primary and residual are adjacent, start and end where the range does, and their positions in order are exactly the range's; nothing claimed gives an empty primary and the whole range as residual |
| Trackers.ClaimAfterCheckpointFails | sdks/java/core/src/test/java/org/apache/beam/sdk/transforms/SplittableDoFnTest.java:96-114 | after a checkpoint, every claim the ordering still allows at or above the range start is refused |
| Trackers.ClaimAfterRefusal | sdks/java/core/src/test/java/org/apache/beam/sdk/transforms/SplittableDoFnTest.java:107-114 | a refused claim of 12 on [0, 10) is followed by an accepted claim of 5 |
| Trackers.ClaimBelowRangeAfterCheckpoint | sdks/java/core/src/test/java/org/apache/beam/sdk/transforms/SplittableDoFnTest.java:96-114 | on [5, 10) with nothing claimed, a checkpoint returns [5, 10) and a later claim of 2 is accepted; a second checkpoint then returns [3, 5) and leaves the inverted primary [5, 3) |
| Runner.ProcessContext.Output | sdks/java/core/src/test/java/org/apache/beam/sdk/transforms/SplittableDoFnTest.java:121 | c.output appends the value; the first time the output count reaches maxOutputs the tracker is checkpointed and its residual kept, otherwise tracker and checkpoint are unchanged |
| Runner.FinishInvocation | sdks/java/core/src/test/java/org/apache/beam/sdk/transforms/SplittableDoFnTest.java:123-126 | the residual rescheduled after an invocation: the runner's checkpoint if one was taken, else a checkpoint now on resume(), else none on stop() |
| PairWithIndex.Pairs | sdks/java/core/src/test/java/org/apache/beam/sdk/transforms/SplittableDoFnTest.java:120-123 | the outputs of [from, to) are one pair per position of the range |
| PairWithIndex.KeyedWithAppend | sdks/java/core/src/test/java/org/apache/beam/sdk/transforms/SplittableDoFnTest.java:121 | pairing a concatenation with the key is the concatenation of the pairings |
| PairWithIndex.KeyedWithCount | sdks/java/core/src/test/java/org/apache/beam/sdk/transforms/SplittableDoFnTest.java:121 | a pair occurs in the pairing as often as its position occurs in the positions, and only with the key |
| PairWithIndex.PairsAppend | sdks/java/core/src/test/java/org/apache/beam/sdk/transforms/SplittableDoFnTest.java:120-121 | the outputs for [a, b) then [b, c) are the outputs for [a, c) |
| PairWithIndex.PairsSnoc | sdks/java/core/src/test/java/org/apache/beam/sdk/transforms/SplittableDoFnTest.java:120-121 | outputting (element, b) after the outputs of [a, b) gives the outputs of [a, b + 1) |
| PairWithIndex.PairsExactlyOnce | sdks/java/core/src/test/java/org/apache/beam/sdk/transforms/SplittableDoFnTest.java:163-173 | the outputs for [from, to) hold (key, i) exactly once for each i in the range and nothing else |
| PairWithIndex.NextMultipleOfThree | sdks/java/core/src/test/java/org/apache/beam/sdk/transforms/SplittableDoFnTest.java:122-124 | the first i' >= i with i' % 3 == 0 lies in [i, i + 3) (Java's truncating % and Dafny's agree on zero) |
| PairWithIndex.ClaimedEnd | sdks/java/core/src/test/java/org/apache/beam/sdk/transforms/SplittableDoFnTest.java:119-127 | the end of what one invocation claims lies in (from, to], at most maxOutputs and at most one past the next multiple of 3 beyond from, and is one of those three bounds |
| PairWithIndex.Utf16Length | sdks/java/core/src/test/java/org/apache/beam/sdk/transforms/SplittableDoFnTest.java:129-132 | Java's `String.length()`: at least the number of characters and at most twice it, one code unit per Basic Multilingual Plane character and two for any other |
| PairWithIndex.Utf16LengthBmp | sdks/java/core/src/test/java/org/apache/beam/sdk/transforms/SplittableDoFnTest.java:129-132 | for a string of Basic Multilingual Plane characters the length is the number of characters |
| PairWithIndex.GetInitialRange | sdks/java/core/src/test/java/org/apache/beam/sdk/transforms/SplittableDoFnTest.java:129-132 | the initial restriction is [0, element.length()), the length in UTF-16 code units |
| PairWithIndex.SplitRange | sdks/java/core/src/test/java/org/apache/beam/sdk/transforms/SplittableDoFnTest.java:134-139 | two restrictions: the first starts at from, the second ends at to, and they meet at one point (where, and how balanced the halves are, is stated by SplitRangeTiles) |
| PairWithIndex.SplitRangeTiles | sdks/java/core/src/test/java/org/apache/beam/sdk/transforms/SplittableDoFnTest.java:134-139 | when from + to fits in an int, the meeting point lies in [from, to], the halves' positions in order are exactly the range's, and the halves differ in size by at most one, the second not smaller for a non-negative sum and the first not smaller for a negative sum, i.e. the split is at Java's truncated (from + to) / 2 |
| PairWithIndex.SplitRangeOverflow | sdks/java/core/src/test/java/org/apache/beam/sdk/transforms/SplittableDoFnTest.java:137-138 | on [2^30, 2^30 + 2) the sum overflows: the first half is inverted and the second starts below 0 |
| PairWithIndex.Process | sdks/java/core/src/test/java/org/apache/beam/sdk/transforms/SplittableDoFnTest.java:118-127 | outputs the pairs of [from, ClaimedEnd), resumes exactly when it stopped right after the next multiple of 3, leaves the last claim at ClaimedEnd - 1, and the runner's checkpoint, if taken, leaves [ClaimedEnd, to) as residual |
| PairWithIndex.Invoke | sdks/java/core/src/test/java/org/apache/beam/sdk/transforms/SplittableDoFnTest.java:118-127 | one invocation with a fresh tracker outputs the claimed prefix's pairs; the residual is absent only when nothing is left, and a present residual is [ClaimedEnd, to), which may be empty |
| PairWithIndex.RunRestriction | sdks/java/core/src/test/java/org/apache/beam/sdk/transforms/SplittableDoFnTest.java:118-127 | running a restriction and all its residuals outputs exactly its pairs, in order |
| PairWithIndex.RunElement | sdks/java/core/src/test/java/org/apache/beam/sdk/transforms/SplittableDoFnTest.java:129-139 | initial range, split, each half run to completion: each index below the element's Java length paired with it exactly once, nothing else |
| PairWithIndexExamples.CcccccInvocations | sdks/java/core/src/test/java/org/apache/beam/sdk/transforms/SplittableDoFnTest.java:120-124 | on [0, 5) the invocations end after 0, after 3, and at 5 |
| PairWithIndexExamples.SmallLengths | sdks/java/core/src/test/java/org/apache/beam/sdk/transforms/SplittableDoFnTest.java:163-173 | "a", "bb" and "ccccc" have Java lengths 1, 2 and 5 |
| PairWithIndexExamples.SmallPairs | sdks/java/core/src/test/java/org/apache/beam/sdk/transforms/SplittableDoFnTest.java:163-173 | the pairs of "a", "bb" and "ccccc" are the eight expected by the test |
| PairWithIndexExamples.SupplementaryCharacterPairs | sdks/java/core/src/test/java/org/apache/beam/sdk/transforms/SplittableDoFnTest.java:129-132 | the one-character element U+1F600 has Java length 2 and is paired with 0 and 1 |
| PairWithIndexExamples.PairWithIndexBasic | sdks/java/core/src/test/java/org/apache/beam/sdk/transforms/SplittableDoFnTest.java:154-176 | "a", "bb", "ccccc" yield exactly the eight expected pairs |
| MultipleOutputsPerBlock.SnapFrom | sdks/java/core/src/test/java/org/apache/beam/sdk/transforms/SplittableDoFnTest.java:241-248 | the scan from i either fails or returns a block index between i and the last block |
| MultipleOutputsPerBlock.Snap | sdks/java/core/src/test/java/org/apache/beam/sdk/transforms/SplittableDoFnTest.java:241-248 | snapToNextBlock either fails or returns a block index i with 1 <= i < the number of block starts |
| MultipleOutputsPerBlock.SnapFromIsFirstBlock | sdks/java/core/src/test/java/org/apache/beam/sdk/transforms/SplittableDoFnTest.java:241-248 | the scan from i returns the first block at or after i that the index falls in, or fails when none does |
| MultipleOutputsPerBlock.SnapIsFirstBlock | sdks/java/core/src/test/java/org/apache/beam/sdk/transforms/SplittableDoFnTest.java:241-248 | snapToNextBlock returns the smallest i >= 1 with blockStarts[i - 1] < index <= blockStarts[i], and throws exactly when there is none |
| MultipleOutputsPerBlock.SnapFindsBlock | sdks/java/core/src/test/java/org/apache/beam/sdk/transforms/SplittableDoFnTest.java:241-248 | over strictly increasing block starts, an index in block i snaps to i |
| MultipleOutputsPerBlock.BlocksStrictlyIncreasing | sdks/java/core/src/test/java/org/apache/beam/sdk/transforms/SplittableDoFnTest.java:252 | the block starts are strictly increasing |
| MultipleOutputsPerBlock.SnapToNextBlock | sdks/java/core/src/test/java/org/apache/beam/sdk/transforms/SplittableDoFnTest.java:241-248 | the loop returns what the scan specifies, None for the exception |
| MultipleOutputsPerBlock.GetInitialRange | sdks/java/core/src/test/java/org/apache/beam/sdk/transforms/SplittableDoFnTest.java:266-269 | the initial restriction is [0, MAX_INDEX) |
| MultipleOutputsPerBlock.OutputBlock | sdks/java/core/src/test/java/org/apache/beam/sdk/transforms/SplittableDoFnTest.java:259-261 | outputs every position of a claimed block, even after the runner checkpoints in its middle |
| MultipleOutputsPerBlock.ClaimBlocks | sdks/java/core/src/test/java/org/apache/beam/sdk/transforms/SplittableDoFnTest.java:255-263 | claims blocks by their first position until a claim is refused; outputs the positions of the claimed blocks; a runner checkpoint leaves as residual everything after the last claimed block start |
| MultipleOutputsPerBlock.SnapAndClaim | sdks/java/core/src/test/java/org/apache/beam/sdk/transforms/SplittableDoFnTest.java:250-264 | the exception exactly when an end of the restriction does not snap; otherwise stop() on an empty block interval, else the outcome of the claiming loop |
| MultipleOutputsPerBlock.ProcessElement | sdks/java/core/src/test/java/org/apache/beam/sdk/transforms/SplittableDoFnTest.java:250-264 | the same, for the block starts processElement allocates |
| MultipleOutputsPerBlock.RunBlockInvocations | sdks/java/core/src/test/java/org/apache/beam/sdk/transforms/SplittableDoFnTest.java:277-286 | running [0, MAX_INDEX) and all residuals outputs the positions of [0, MAX_INDEX) in order, for any runner output bound |
| MultipleOutputsPerBlock.RunBlocks | sdks/java/core/src/test/java/org/apache/beam/sdk/transforms/SplittableDoFnTest.java:277-286 | MAX_INDEX outputs in all, each position of [0, MAX_INDEX) exactly once |
| SideInputsAndOutputs.DecimalStringForm | sdks/java/core/src/test/java/org/apache/beam/sdk/transforms/SplittableDoFnTest.java:302-303 | the decimal text of an element, as Java's string concatenation writes it, starts with a minus sign exactly when the element is negative, and is digits otherwise |
| SideInputsAndOutputs.NatDigitsRoundTrip | sdks/java/core/src/test/java/org/apache/beam/sdk/transforms/SplittableDoFnTest.java:302-303 | reading back the decimal digits of n gives n |
| SideInputsAndOutputs.DecimalRoundTrip | sdks/java/core/src/test/java/org/apache/beam/sdk/transforms/SplittableDoFnTest.java:302-303 | reading back the decimal text of any int gives it back |
| SideInputsAndOutputs.MainTextFormat | sdks/java/core/src/test/java/org/apache/beam/sdk/transforms/SplittableDoFnTest.java:302 | the main output text is "main:", the side input value, ":" and then a decimal text that reads back as the element |
| SideInputsAndOutputs.SideTextFormat | sdks/java/core/src/test/java/org/apache/beam/sdk/transforms/SplittableDoFnTest.java:303 | the side output text is "side:", the side input value, ":" and then a decimal text that reads back as the element |
| SideInputsAndOutputs.OutputsIdentifyElement | sdks/java/core/src/test/java/org/apache/beam/sdk/transforms/SplittableDoFnTest.java:302-303 | for one side input value, main texts are equal iff the elements are, likewise side texts, and no main text is a side text |
| SideInputsAndOutputs.GetInitialRestriction | sdks/java/core/src/test/java/org/apache/beam/sdk/transforms/SplittableDoFnTest.java:306-309 | every element has the single position 0 |
| SideInputsAndOutputs.Process | sdks/java/core/src/test/java/org/apache/beam/sdk/transforms/SplittableDoFnTest.java:298-304 | claiming the range start must succeed; then the main text and the side text for the element are output in that order; a runner checkpoint leaves everything after the start as residual |
| SideInputsAndOutputs.RouteMainThenSide | sdks/java/core/src/test/java/org/apache/beam/sdk/transforms/SplittableDoFnTest.java:302-303 | routing by tag sends the main text to the main output and the side text to the side output |
| SideInputsAndOutputs.InvokeOnElement | sdks/java/core/src/test/java/org/apache/beam/sdk/transforms/SplittableDoFnTest.java:298-304 | one invocation yields one main text and one side text for the element |
| SideInputsAndOutputs.RunSideInputsAndOutputs | sdks/java/core/src/test/java/org/apache/beam/sdk/transforms/SplittableDoFnTest.java:298-304 | each element yields its main text on the main output and its side text on the side output, in element order |
| SideInputsAndOutputs.TestSideInputsAndOutputs | sdks/java/core/src/test/java/org/apache/beam/sdk/transforms/SplittableDoFnTest.java:317-342 | elements 0, 1, 2 with side input "foo" give "main:foo:0..2" and "side:foo:0..2" |
| Lifecycle.Next | sdks/java/core/src/test/java/org/apache/beam/sdk/transforms/SplittableDoFnTest.java:397-436 | each hook's state assertion and transition: nothing is allowed after teardown, no hook returns to BEFORE_SETUP, from BEFORE_SETUP only setup is allowed, processElement is allowed exactly inside a bundle and keeps the state, and only startBundle and processElement lead inside a bundle |
| Lifecycle.Run | sdks/java/core/src/test/java/org/apache/beam/sdk/transforms/SplittableDoFnTest.java:397-436 | running no hooks leaves the state; once any hook has run the state is never BEFORE_SETUP; after teardown every further hook fails |
| Lifecycle.Replay | sdks/java/core/src/test/java/org/apache/beam/sdk/transforms/SplittableDoFnTest.java:395-436 | a fresh DoFn is in BEFORE_SETUP after a sequence of hooks exactly when the sequence is empty |
| Lifecycle.RunSnoc | sdks/java/core/src/test/java/org/apache/beam/sdk/transforms/SplittableDoFnTest.java:414-436 | running one more hook continues from the state the earlier hooks reached |
| Lifecycle.RunAppend | sdks/java/core/src/test/java/org/apache/beam/sdk/transforms/SplittableDoFnTest.java:414-436 | running a concatenation runs the first part, then the second from where it ended |
| Lifecycle.PrefixSucceeds | sdks/java/core/src/test/java/org/apache/beam/sdk/transforms/SplittableDoFnTest.java:414-436 | every prefix of an accepted hook sequence is accepted |
| Lifecycle.StepAllowed | sdks/java/core/src/test/java/org/apache/beam/sdk/transforms/SplittableDoFnTest.java:414-436 | in an accepted sequence, each hook is called in a state that allows it |
| Lifecycle.ReplayCounts | sdks/java/core/src/test/java/org/apache/beam/sdk/transforms/SplittableDoFnTest.java:387-437 | after an accepted sequence: setup was called once unless nothing was called, teardown once exactly when torn down, and start bundle once more than finish bundle exactly inside a bundle |
| Lifecycle.SetUpFirst | sdks/java/core/src/test/java/org/apache/beam/sdk/transforms/SplittableDoFnTest.java:414-418 | setup is the first hook |
| Lifecycle.TearDownLast | sdks/java/core/src/test/java/org/apache/beam/sdk/transforms/SplittableDoFnTest.java:432-436 | nothing follows teardown |
| Lifecycle.ProcessOnlyInsideBundle | sdks/java/core/src/test/java/org/apache/beam/sdk/transforms/SplittableDoFnTest.java:397-402 | an element is processed only inside a bundle: after setup, before teardown, with one more start bundle than finish bundle before it |
| Lifecycle.Repeat | sdks/java/core/src/test/java/org/apache/beam/sdk/transforms/SplittableDoFnTest.java:397-402 | n calls of one hook |
| Lifecycle.Bundle | sdks/java/core/src/test/java/org/apache/beam/sdk/transforms/SplittableDoFnTest.java:397-430 | one bundle is startBundle, n processElement calls and finishBundle, in that order |
| Lifecycle.ProcessKeepsInside | sdks/java/core/src/test/java/org/apache/beam/sdk/transforms/SplittableDoFnTest.java:397-402 | any number of process calls keep the DoFn inside its bundle |
| Lifecycle.BundleAllowed | sdks/java/core/src/test/java/org/apache/beam/sdk/transforms/SplittableDoFnTest.java:420-430 | start bundle, any number of elements, finish bundle is accepted outside a bundle and ends outside one |
| Lifecycle.GetInitialRestriction | sdks/java/core/src/test/java/org/apache/beam/sdk/transforms/SplittableDoFnTest.java:404-407 | every element has the single position 0 |
| Lifecycle.SDFWithLifecycle.constructor | sdks/java/core/src/test/java/org/apache/beam/sdk/transforms/SplittableDoFnTest.java:395 | a new DoFn is before setup with no hooks called |
| Lifecycle.SDFWithLifecycle.SetUp | sdks/java/core/src/test/java/org/apache/beam/sdk/transforms/SplittableDoFnTest.java:414-418 | requires before setup; moves outside the bundle and records the hook, so the state is always what the hook history leads to |
| Lifecycle.SDFWithLifecycle.StartBundle | sdks/java/core/src/test/java/org/apache/beam/sdk/transforms/SplittableDoFnTest.java:420-424 | requires outside a bundle; moves inside and records the hook |
| Lifecycle.SDFWithLifecycle.ProcessElement | sdks/java/core/src/test/java/org/apache/beam/sdk/transforms/SplittableDoFnTest.java:397-402 | requires inside a bundle and a successful claim of 0; outputs the element once and leaves the last claim at 0 |
| Lifecycle.SDFWithLifecycle.FinishBundle | sdks/java/core/src/test/java/org/apache/beam/sdk/transforms/SplittableDoFnTest.java:426-430 | requires inside a bundle; moves outside and records the hook |
| Lifecycle.SDFWithLifecycle.TearDown | sdks/java/core/src/test/java/org/apache/beam/sdk/transforms/SplittableDoFnTest.java:432-436 | requires outside a bundle; moves to torn down and records the hook |
| Lifecycle.InvokeOnElement | sdks/java/core/src/test/java/org/apache/beam/sdk/transforms/SplittableDoFnTest.java:397-407 | one invocation on an element outputs it once and records one process call |
| Lifecycle.RunLifecycle | sdks/java/core/src/test/java/org/apache/beam/sdk/transforms/SplittableDoFnTest.java:439-450 | setup, one bundle over all elements, teardown: each element output once in order, and the hooks form an accepted sequence ending torn down |
| Lifecycle.TestLifecycleMethods | sdks/java/core/src/test/java/org/apache/beam/sdk/transforms/SplittableDoFnTest.java:439-450 | "a", "b", "c" come out, each once |

## Left out

- The pipeline, `Create`, `PAssert`, coders and the runner's scheduling are not modelled. The
  drivers stand in for the runner's loop over residuals, and run invocations one after another.
  The tests compare outputs in any order; the drivers' outputs have a fixed order, which implies that.
- The runner checkpoints on a time bound as well as an output bound. The time bound depends on a
  clock, so only the output bound is modelled, as the parameter `maxOutputs`.
- Windowing, timestamps and late data (`testPairWithIndexWindowedTimestamped`, `testLateData`,
  `ReifyTimestampsFn`) are not modelled. They concern metadata the runner attaches, not the claim protocol.
- `OffsetRange.toString` is not modelled: it is only used for diagnostics.
- The resume delay of `ProcessContinuation` is not modelled. It affects scheduling only.
- `newTracker` is not modelled separately: it is the tracker constructor.
- The side input is a string parameter, because the view machinery is not part of this model.
  Main and side outputs share one context as tagged values.
- Lifecycle.SDFWithLifecycle: the hook history is a ghost field. It exists only to state the
  lifecycle invariant; the Java class keeps only `state`.
- Lifecycle.RunLifecycle and SideInputsAndOutputs.RunSideInputsAndOutputs do not reschedule the
  empty residual `[1, 1)` that appears when the runner checkpoints at an element's only output:
  both drivers drop it. Had it been rescheduled, `SDFWithLifecycle.processElement`'s `tryClaim(0)`
  on `[1, 1)` would succeed, because `tryClaim` checks only the upper bound, and the element would
  be output twice; `SDFWithSideInputsAndOutputs`' `checkState(tryClaim(1))` would throw instead.
- PairWithIndex.SplitRange: the tiling is proved only when `from + to` fits in an `int`. For the
  initial ranges of real strings it always does. Beyond that, `SplitRangeOverflow` shows the halves do not tile.
