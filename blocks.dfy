/**
 * SDFWithMultipleOutputsPerBlock: a splittable DoFn over [0, MAX_INDEX) that claims whole
 * blocks by their first position and outputs every position of each claimed block, so that
 * outputs may continue after the runner has taken a checkpoint inside a block.
 */
module MultipleOutputsPerBlock {
  import opened Wrappers
  import opened OffsetRanges
  import opened Trackers
  import opened Runner

  const MaxIndex: int32 := 98765

  /** The block starts processElement allocates; block i covers [Blocks[i], Blocks[i + 1]). */
  const Blocks: seq<int32> := [-1, 0, 12, 123, 1234, 12345, 34567, MaxIndex]

  /** What a process method call ends in: a continuation, or the IllegalStateException it throws. */
  datatype ProcessResult = Returned(continuation: ProcessContinuation) | IllegalStateException

  ghost predicate StrictlyIncreasing(s: seq<int32>)
  {
    forall i, j :: 0 <= i < j < |s| ==> s[i] < s[j]
  }

  /** index lies in the block ending at blockStarts[i]: blockStarts[i - 1] < index <= blockStarts[i]. */
  predicate SnapsTo(index: int, blockStarts: seq<int32>, i: int)
  {
    1 <= i < |blockStarts| && blockStarts[i - 1] < index <= blockStarts[i]
  }

  /** snapToNextBlock's scan, from position i onwards; None stands for the exception it throws. */
  function SnapFrom(index: int, blockStarts: seq<int32>, i: nat): (r: Option<nat>)
    requires i >= 1
    ensures r.Some? ==> i <= r.value < |blockStarts|
    decreases |blockStarts| - i
  {
    if i >= |blockStarts| then None
    else if blockStarts[i - 1] < index <= blockStarts[i] then Some(i)
    else SnapFrom(index, blockStarts, i + 1)
  }

  function Snap(index: int, blockStarts: seq<int32>): (r: Option<nat>)
    ensures r.Some? ==> 1 <= r.value < |blockStarts|
  {
    SnapFrom(index, blockStarts, 1)
  }

  lemma {:induction false} SnapFromIsFirstBlock(index: int, blockStarts: seq<int32>, i: nat)
    requires i >= 1
    ensures SnapFrom(index, blockStarts, i).Some? ==>
              i <= SnapFrom(index, blockStarts, i).value
              && SnapsTo(index, blockStarts, SnapFrom(index, blockStarts, i).value)
              && forall j :: i <= j < SnapFrom(index, blockStarts, i).value ==> !SnapsTo(index, blockStarts, j)
    ensures SnapFrom(index, blockStarts, i).None? ==>
              forall j :: i <= j < |blockStarts| ==> !SnapsTo(index, blockStarts, j)
    decreases |blockStarts| - i
  {
    if i < |blockStarts| && !(blockStarts[i - 1] < index <= blockStarts[i]) {
      SnapFromIsFirstBlock(index, blockStarts, i + 1);
    }
  }

  /**
   * snapToNextBlock returns the smallest i >= 1 with blockStarts[i - 1] < index <= blockStarts[i],
   * and fails exactly when there is none.
   */
  lemma SnapIsFirstBlock(index: int, blockStarts: seq<int32>)
    ensures Snap(index, blockStarts).Some? ==>
              SnapsTo(index, blockStarts, Snap(index, blockStarts).value)
              && forall j :: 1 <= j < Snap(index, blockStarts).value ==> !SnapsTo(index, blockStarts, j)
    ensures Snap(index, blockStarts).None? <==> forall j :: 1 <= j < |blockStarts| ==> !SnapsTo(index, blockStarts, j)
  {
    SnapFromIsFirstBlock(index, blockStarts, 1);
  }

  /** Over strictly increasing block starts, the block an index snaps to is unique. */
  lemma SnapFindsBlock(index: int, blockStarts: seq<int32>, i: int)
    requires StrictlyIncreasing(blockStarts)
    requires SnapsTo(index, blockStarts, i)
    ensures Snap(index, blockStarts) == Some(i)
  {
    SnapIsFirstBlock(index, blockStarts);
  }

  lemma BlocksStrictlyIncreasing()
    ensures StrictlyIncreasing(Blocks)
  {
  }

  /** snapToNextBlock: the scanning loop with its early return. */
  method SnapToNextBlock(index: int32, blockStarts: array<int32>) returns (r: Option<nat>)
    ensures r == Snap(index, blockStarts[..])
  {
    var i := 1;
    while i < blockStarts.Length
      invariant 1 <= i
      invariant SnapFrom(index, blockStarts[..], i) == Snap(index, blockStarts[..])
    {
      if index > blockStarts[i - 1] && index <= blockStarts[i] {
        return Some(i);
      }
      i := i + 1;
    }
    return None;
  }

  /** getInitialRange: [0, MAX_INDEX) whatever the element. */
  function GetInitialRange(element: string): (r: OffsetRange)
    ensures Indices(r.from, r.to) == Indices(0, MaxIndex)
  {
    OffsetRange(0, MaxIndex)
  }

  /**
   * The inner loop of processElement for one claimed block [blockStart, blockEnd): outputs
   * each of its positions. The outputs so far run from base, and the runner checkpoints the
   * tracker once they reach its bound, leaving the rest of the block to be output anyway.
   */
  method OutputBlock(c: ProcessContext<int32>, tracker: OffsetRangeTracker, blockStart: int32, blockEnd: int32,
                     ghost base: int32, ghost range: OffsetRange)
    requires c.tracker == tracker && tracker.Valid()
    requires base <= blockStart < blockEnd
    requires c.outputs == Indices(base, blockStart)
    requires tracker.lastClaimedIndex == Some(blockStart)
    requires c.checkpoint == None && tracker.range == range
    requires (blockStart as int) - (base as int) < c.maxOutputs
    modifies c, tracker
    ensures tracker.Valid()
    ensures c.outputs == Indices(base, blockEnd)
    ensures tracker.lastClaimedIndex == Some(blockStart)
    ensures c.checkpoint.None? ==> tracker.range == range && (blockEnd as int) - (base as int) < c.maxOutputs
    ensures c.checkpoint.Some? ==>
              c.checkpoint == Some(OffsetRange(blockStart + 1, range.to))
              && tracker.range == OffsetRange(range.from, blockStart + 1)
              && c.maxOutputs <= (blockEnd as int) - (base as int)
  {
    var index := blockStart;
    while index < blockEnd
      invariant tracker.Valid()
      invariant blockStart <= index <= blockEnd
      invariant c.outputs == Indices(base, index)
      invariant tracker.lastClaimedIndex == Some(blockStart)
      invariant c.checkpoint.None? ==> tracker.range == range && (index as int) - (base as int) < c.maxOutputs
      invariant c.checkpoint.Some? ==>
                  c.checkpoint == Some(OffsetRange(blockStart + 1, range.to))
                  && tracker.range == OffsetRange(range.from, blockStart + 1)
                  && c.maxOutputs <= (index as int) - (base as int)
    {
      c.Output(index);
      IndicesAppend(base, index, index + 1);
      assert Indices(index, index + 1) == [index];
      index := index + 1;
    }
  }

  /**
   * The claiming loop of processElement over blocks start .. end - 1 of blockStarts: claims
   * each block's first position, stops with resume() at the first refused claim, and outputs
   * every position of each claimed block. The ghost result last is the last block claimed.
   */
  method ClaimBlocks(c: ProcessContext<int32>, tracker: OffsetRangeTracker, blockStarts: array<int32>,
                     start: nat, end: nat)
    returns (cont: ProcessContinuation, ghost last: int)
    requires c.tracker == tracker && tracker.Valid()
    requires c.outputs == [] && c.checkpoint == None
    requires StrictlyIncreasing(blockStarts[..])
    requires 1 <= start < end < blockStarts.Length
    requires tracker.range.from <= blockStarts[start] && blockStarts[end - 1] < tracker.range.to
    requires tracker.lastClaimedIndex.None? || tracker.range.from > tracker.lastClaimedIndex.value
    modifies c, tracker
    ensures tracker.Valid()
    ensures var bs, from, to := blockStarts[..], old(tracker.range.from), old(tracker.range.to);
            && start <= last < end
            && c.outputs == Indices(bs[start], bs[last + 1])
            && tracker.lastClaimedIndex == Some(bs[last])
            && (bs[last] as int) - (bs[start] as int) < c.maxOutputs
            && (c.checkpoint.None? ==>
                  last == end - 1 && cont == Stop && tracker.range == old(tracker.range))
            && (c.checkpoint.Some? ==>
                  c.checkpoint == Some(OffsetRange(bs[last] + 1, to))
                  && tracker.range == OffsetRange(from, bs[last] + 1)
                  && c.maxOutputs <= (bs[last + 1] as int) - (bs[start] as int)
                  && cont == (if last < end - 1 then Resume else Stop))
  {
    ghost var bs := blockStarts[..];
    ghost var range := tracker.range;
    var i := start;
    while i < end
      invariant tracker.Valid()
      invariant start <= i <= end
      invariant c.outputs == Indices(bs[start], bs[i])
      invariant i == start ==>
                  tracker.lastClaimedIndex == old(tracker.lastClaimedIndex) && c.checkpoint == None
      invariant i > start ==>
                  tracker.lastClaimedIndex == Some(bs[i - 1]) && (bs[i - 1] as int) - (bs[start] as int) < c.maxOutputs
      invariant c.checkpoint.None? ==> tracker.range == range && (bs[i] as int) - (bs[start] as int) < c.maxOutputs
      invariant c.checkpoint.Some? ==>
                  i > start
                  && c.checkpoint == Some(OffsetRange(bs[i - 1] + 1, range.to))
                  && tracker.range == OffsetRange(range.from, bs[i - 1] + 1)
                  && c.maxOutputs <= (bs[i] as int) - (bs[start] as int)
    {
      var ok := tracker.TryClaim(blockStarts[i]);
      if !ok {
        last := i - 1;
        return Resume, last;
      }
      OutputBlock(c, tracker, blockStarts[i], blockStarts[i + 1], bs[start], range);
      i := i + 1;
    }
    last := end - 1;
    return Stop, last;
  }

  /**
   * The body of processElement over any strictly increasing block starts: snaps both ends of
   * the current restriction to blocks (throwing when an end does not snap), then runs the
   * claiming loop over the blocks in between. Stated: the exception exactly when an end does
   * not snap; otherwise the outputs are the positions of the claimed blocks, and a checkpoint
   * the runner took falls in the last of them.
   */
  method SnapAndClaim(c: ProcessContext<int32>, tracker: OffsetRangeTracker, blockStarts: array<int32>)
    returns (result: ProcessResult, ghost last: int)
    requires StrictlyIncreasing(blockStarts[..])
    requires c.tracker == tracker && tracker.Valid()
    requires c.outputs == [] && c.checkpoint == None
    requires tracker.lastClaimedIndex.None? || tracker.range.from > tracker.lastClaimedIndex.value
    modifies c, tracker
    ensures tracker.Valid()
    ensures result.IllegalStateException? <==>
              (Snap(old(tracker.range.from), blockStarts[..]).None? || Snap(old(tracker.range.to), blockStarts[..]).None?)
    ensures result.IllegalStateException? ==>
              c.outputs == [] && c.checkpoint == None
              && tracker.range == old(tracker.range) && tracker.lastClaimedIndex == old(tracker.lastClaimedIndex)
    ensures result.Returned? ==>
              var from, to := old(tracker.range.from), old(tracker.range.to);
              var start, end := Snap(from, blockStarts[..]).value, Snap(to, blockStarts[..]).value;
              if end <= start then
                result.continuation == Stop && c.outputs == [] && c.checkpoint == None
                && tracker.range == old(tracker.range) && tracker.lastClaimedIndex == old(tracker.lastClaimedIndex)
              else
                && start <= last < end
                && c.outputs == Indices(blockStarts[start], blockStarts[last + 1])
                && tracker.lastClaimedIndex == Some(blockStarts[last])
                && (blockStarts[last] as int) - (blockStarts[start] as int) < c.maxOutputs
                && (c.checkpoint.None? ==>
                      last == end - 1 && result.continuation == Stop && tracker.range == old(tracker.range))
                && (c.checkpoint.Some? ==>
                      c.checkpoint == Some(OffsetRange(blockStarts[last] + 1, to))
                      && tracker.range == OffsetRange(from, blockStarts[last] + 1)
                      && c.maxOutputs <= (blockStarts[last + 1] as int) - (blockStarts[start] as int)
                      && result.continuation == (if last < end - 1 then Resume else Stop))
  {
    last := 0;
    var range := tracker.CurrentRestriction();
    var trueStart := SnapToNextBlock(range.from, blockStarts);
    if trueStart.None? {
      return IllegalStateException, last;
    }
    range := tracker.CurrentRestriction();
    var trueEnd := SnapToNextBlock(range.to, blockStarts);
    if trueEnd.None? {
      return IllegalStateException, last;
    }
    var start, end := trueStart.value, trueEnd.value;
    if end <= start {
      return Returned(Stop), last;
    }
    assert SnapsTo(range.from, blockStarts[..], start) by { SnapIsFirstBlock(range.from, blockStarts[..]); }
    assert SnapsTo(range.to, blockStarts[..], end) by { SnapIsFirstBlock(range.to, blockStarts[..]); }
    var cont;
    cont, last := ClaimBlocks(c, tracker, blockStarts, start, end);
    return Returned(cont), last;
  }

  /** processElement: the block starts it allocates, then the snapping and claiming above. */
  method ProcessElement(c: ProcessContext<int32>, tracker: OffsetRangeTracker)
    returns (result: ProcessResult, ghost last: int)
    requires c.tracker == tracker && tracker.Valid()
    requires c.outputs == [] && c.checkpoint == None
    requires tracker.lastClaimedIndex.None? || tracker.range.from > tracker.lastClaimedIndex.value
    modifies c, tracker
    ensures tracker.Valid()
    ensures result.IllegalStateException? <==>
              (Snap(old(tracker.range.from), Blocks).None? || Snap(old(tracker.range.to), Blocks).None?)
    ensures result.IllegalStateException? ==>
              c.outputs == [] && c.checkpoint == None
              && tracker.range == old(tracker.range) && tracker.lastClaimedIndex == old(tracker.lastClaimedIndex)
    ensures result.Returned? ==>
              var from, to := old(tracker.range.from), old(tracker.range.to);
              var start, end := Snap(from, Blocks).value, Snap(to, Blocks).value;
              if end <= start then
                result.continuation == Stop && c.outputs == [] && c.checkpoint == None
                && tracker.range == old(tracker.range) && tracker.lastClaimedIndex == old(tracker.lastClaimedIndex)
              else
                && start <= last < end
                && c.outputs == Indices(Blocks[start], Blocks[last + 1])
                && tracker.lastClaimedIndex == Some(Blocks[last])
                && Blocks[last] - Blocks[start] < c.maxOutputs
                && (c.checkpoint.None? ==>
                      last == end - 1 && result.continuation == Stop && tracker.range == old(tracker.range))
                && (c.checkpoint.Some? ==>
                      c.checkpoint == Some(OffsetRange(Blocks[last] + 1, to))
                      && tracker.range == OffsetRange(from, Blocks[last] + 1)
                      && c.maxOutputs <= Blocks[last + 1] - Blocks[start]
                      && result.continuation == (if last < end - 1 then Resume else Stop))
  {
    var blockStarts := new int32[8] [-1, 0, 12, 123, 1234, 12345, 34567, MaxIndex];
    assert blockStarts[..] == Blocks;
    BlocksStrictlyIncreasing();
    result, last := SnapAndClaim(c, tracker, blockStarts);
  }

  /**
   * The runner's loop for testOutputAfterCheckpoint: whatever the runner's output bound,
   * every position of [0, MAX_INDEX) is output exactly once, so the count is MAX_INDEX.
   */
  method RunBlocks(element: string, maxOutputs: OutputLimit) returns (emitted: seq<int32>)
    ensures |emitted| == MaxIndex
    ensures forall x :: multiset(emitted)[x] == (if 0 <= x < MaxIndex then 1 else 0)
  {
    emitted := RunBlockInvocations(element, maxOutputs);
    EachIndexOnce(emitted, 0, MaxIndex);
  }

  /** The invocations of RunBlocks, one per residual, in the order the runner makes them. */
  method RunBlockInvocations(element: string, maxOutputs: OutputLimit) returns (emitted: seq<int32>)
    ensures emitted == Indices(0, MaxIndex)
  {
    BlocksStrictlyIncreasing();
    var r := GetInitialRange(element);
    emitted := [];
    ghost var j := 0;
    while r.from < r.to
      invariant 0 <= j < |Blocks| - 1
      invariant r == OffsetRange(Blocks[j] + 1, MaxIndex)
      invariant emitted == Indices(0, Blocks[j + 1])
      decreases (r.to as int) - (r.from as int)
    {
      var tracker := new OffsetRangeTracker(r);
      var c := new ProcessContext<int32>(tracker, maxOutputs);
      SnapFindsBlock(r.from, Blocks, j + 1);
      SnapFindsBlock(r.to, Blocks, |Blocks| - 1);
      var result, last := ProcessElement(c, tracker);
      assert result.Returned?;
      if j + 1 < |Blocks| - 1 {
        assert c.outputs == Indices(Blocks[j + 1], Blocks[last + 1]);
        IndicesAppend(0, Blocks[j + 1], Blocks[last + 1]);
        assert c.checkpoint.Some? ==> c.checkpoint.value == OffsetRange(Blocks[last] + 1, MaxIndex);
      } else {
        assert c.outputs == [] && c.checkpoint == None && result.continuation == Stop;
      }
      emitted := emitted + c.outputs;
      var residual := FinishInvocation(c, result.continuation);
      if residual.None? {
        break;
      }
      r := residual.value;
      j := last;
    }
  }
}
