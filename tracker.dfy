/**
 * The claim authority over one `OffsetRange`: strictly increasing claims below the
 * range's end, and a checkpoint that splits the range into the claimed primary and
 * the unclaimed residual.
 */
module Trackers {
  import opened Wrappers
  import opened OffsetRanges

  /** The restriction a tracker keeps after a checkpoint: everything through the last claim. */
  function Primary(range: OffsetRange, lastClaimed: Option<int32>): (primary: OffsetRange)
    requires lastClaimed.Some? ==> lastClaimed.value < range.to
    ensures primary.from == range.from
    ensures lastClaimed.None? ==> primary.IsEmpty()
    ensures lastClaimed.Some? ==> primary.to - 1 == lastClaimed.value && primary.to <= range.to
  {
    match lastClaimed
    case None => OffsetRange(range.from, range.from)
    case Some(k) => OffsetRange(range.from, k + 1)
  }

  /** The restriction a checkpoint hands back for rescheduling: everything after the last claim. */
  function Residual(range: OffsetRange, lastClaimed: Option<int32>): (residual: OffsetRange)
    requires lastClaimed.Some? ==> lastClaimed.value < range.to
    ensures residual.to == range.to
    ensures residual.from == Primary(range, lastClaimed).to || lastClaimed.None?
    ensures lastClaimed.None? ==> residual == range
  {
    match lastClaimed
    case None => range
    case Some(k) => OffsetRange(k + 1, range.to)
  }

  /**
   * A checkpoint partitions the range: the primary is the claimed prefix, the residual the
   * rest; they are adjacent, and their positions, in order, are exactly the range's positions.
   * With nothing claimed the primary is empty and the residual is the whole range.
   */
  lemma CheckpointPartitions(range: OffsetRange, lastClaimed: Option<int32>)
    requires lastClaimed.Some? ==> range.from <= lastClaimed.value + 1 && lastClaimed.value < range.to
    ensures Primary(range, lastClaimed).from == range.from
    ensures Residual(range, lastClaimed).to == range.to
    ensures Primary(range, lastClaimed).to == Residual(range, lastClaimed).from
    ensures Indices(Primary(range, lastClaimed).from, Primary(range, lastClaimed).to)
              + Indices(Residual(range, lastClaimed).from, Residual(range, lastClaimed).to)
            == Indices(range.from, range.to)
    ensures lastClaimed.None? ==> Primary(range, lastClaimed).IsEmpty() && Residual(range, lastClaimed) == range
    ensures lastClaimed.Some? ==> Primary(range, lastClaimed).to == lastClaimed.value + 1
  {
  }

  /**
   * After a checkpoint the tracker is retired: no claim that the claim order still allows
   * succeeds at or above the start of the original range.
   */
  lemma ClaimAfterCheckpointFails(range: OffsetRange, lastClaimed: Option<int32>, i: int32)
    requires lastClaimed.Some? ==> lastClaimed.value < range.to
    requires lastClaimed.None? || i > lastClaimed.value
    requires i >= range.from
    ensures i >= Primary(range, lastClaimed).to
  {
  }

  /** OffsetRangeTracker: the current range and the last claimed position (absent until a claim). */
  class OffsetRangeTracker {
    var range: OffsetRange
    var lastClaimedIndex: Option<int32>

    /** A claimed position always lies below the end of the tracker's range. */
    ghost predicate Valid()
      reads this
    {
      lastClaimedIndex.Some? ==> lastClaimedIndex.value < range.to
    }

    constructor (range: OffsetRange)
      ensures Valid()
      ensures this.range == range && lastClaimedIndex == None
    {
      this.range := range;
      lastClaimedIndex := None;
    }

    method CurrentRestriction() returns (r: OffsetRange)
      ensures r == range
    {
      r := range;
    }

    /** Shrinks the range to the primary and returns the residual. */
    method Checkpoint() returns (residual: OffsetRange)
      requires Valid()
      modifies this
      ensures Valid()
      ensures residual == Residual(old(range), old(lastClaimedIndex))
      ensures range == Primary(old(range), old(lastClaimedIndex))
      ensures lastClaimedIndex == old(lastClaimedIndex)
    {
      if lastClaimedIndex.None? {
        residual := range;
        range := OffsetRange(range.from, range.from);
        return;
      }
      residual := OffsetRange(lastClaimedIndex.value + 1, range.to);
      range := OffsetRange(range.from, lastClaimedIndex.value + 1);
    }

    /**
     * Claims position i. Claiming out of order is a fatal usage error (a precondition);
     * a position at or beyond the end is refused and changes nothing.
     */
    method TryClaim(i: int32) returns (ok: bool)
      requires Valid()
      requires lastClaimedIndex.None? || i > lastClaimedIndex.value
      modifies this
      ensures Valid()
      ensures ok <==> i < range.to
      ensures range == old(range)
      ensures lastClaimedIndex == if ok then Some(i) else old(lastClaimedIndex)
    {
      if i >= range.to {
        return false;
      }
      lastClaimedIndex := Some(i);
      return true;
    }
  }

  /**
   * A refused claim leaves no mark: after a claim at or beyond the end is refused, a claim
   * of a smaller position inside the range still succeeds.
   */
  method ClaimAfterRefusal() returns (refused: bool, accepted: bool)
    ensures !refused && accepted
  {
    var tracker := new OffsetRangeTracker(OffsetRange(0, 10));
    refused := tracker.TryClaim(12);
    accepted := tracker.TryClaim(5);
  }

  /**
   * The claim check looks at the end of the range only: after a checkpoint with nothing
   * claimed, whose primary is the empty [5, 5), a claim of a position below 5 succeeds. A
   * second checkpoint then hands back [3, 5), positions the tracker's range never held, and
   * leaves the inverted primary [5, 3).
   */
  method ClaimBelowRangeAfterCheckpoint() returns (residual: OffsetRange, accepted: bool,
                                                   secondResidual: OffsetRange, primary: OffsetRange)
    ensures residual == OffsetRange(5, 10) && accepted
    ensures secondResidual == OffsetRange(3, 5) && primary == OffsetRange(5, 3)
  {
    var tracker := new OffsetRangeTracker(OffsetRange(5, 10));
    residual := tracker.Checkpoint();
    accepted := tracker.TryClaim(2);
    secondResidual := tracker.Checkpoint();
    primary := tracker.CurrentRestriction();
  }
}
