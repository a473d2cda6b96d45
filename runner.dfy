/**
 * The part of the runner that the claim protocol relies on. The runner itself is not part
 * of this model; this module states what it does around one invocation of a process method:
 * it collects the outputs, may take a checkpoint of the tracker once an invocation has
 * produced a bounded number of outputs, and after the invocation decides the residual to
 * reschedule.
 */
module Runner {
  import opened Wrappers
  import opened OffsetRanges
  import opened Trackers

  /** DoFn.ProcessContinuation without its scheduling delay: done, or resume on the residual. */
  datatype ProcessContinuation = Stop | Resume

  /** A positive bound on the outputs of one invocation. */
  type OutputLimit = n: int | n >= 1 witness 1

  /**
   * The ProcessContext a process method writes its outputs to. Once the invocation has
   * emitted maxOutputs outputs, the runner checkpoints the tracker and keeps the residual.
   */
  class ProcessContext<T> {
    const tracker: OffsetRangeTracker
    const maxOutputs: OutputLimit
    var outputs: seq<T>
    var checkpoint: Option<OffsetRange>

    constructor (tracker: OffsetRangeTracker, maxOutputs: OutputLimit)
      ensures this.tracker == tracker && this.maxOutputs == maxOutputs
      ensures outputs == [] && checkpoint == None
    {
      this.tracker := tracker;
      this.maxOutputs := maxOutputs;
      outputs := [];
      checkpoint := None;
    }

    /** c.output(x): records x and, the first time the limit is reached, checkpoints the tracker. */
    method Output(x: T)
      requires tracker.Valid()
      modifies this, tracker
      ensures tracker.Valid()
      ensures outputs == old(outputs) + [x]
      ensures tracker.lastClaimedIndex == old(tracker.lastClaimedIndex)
      ensures if old(checkpoint).None? && |outputs| >= maxOutputs then
                checkpoint == Some(Residual(old(tracker.range), old(tracker.lastClaimedIndex)))
                && tracker.range == Primary(old(tracker.range), old(tracker.lastClaimedIndex))
              else
                checkpoint == old(checkpoint) && tracker.range == old(tracker.range)
    {
      outputs := outputs + [x];
      if checkpoint.None? && |outputs| >= maxOutputs {
        var residual := tracker.Checkpoint();
        checkpoint := Some(residual);
      }
    }
  }

  /**
   * After an invocation: a checkpoint the runner already took gives the residual; otherwise
   * a resume checkpoints the tracker now; a stop with no checkpoint leaves nothing to do.
   */
  method FinishInvocation<T>(c: ProcessContext<T>, cont: ProcessContinuation)
    returns (residual: Option<OffsetRange>)
    requires c.tracker.Valid()
    modifies c.tracker
    ensures c.tracker.Valid()
    ensures c.tracker.lastClaimedIndex == old(c.tracker.lastClaimedIndex)
    ensures c.checkpoint.Some? ==> residual == c.checkpoint && c.tracker.range == old(c.tracker.range)
    ensures c.checkpoint.None? && cont == Resume ==>
              residual == Some(Residual(old(c.tracker.range), old(c.tracker.lastClaimedIndex)))
              && c.tracker.range == Primary(old(c.tracker.range), old(c.tracker.lastClaimedIndex))
    ensures c.checkpoint.None? && cont == Stop ==>
              residual == None && c.tracker.range == old(c.tracker.range)
  {
    if c.checkpoint.Some? {
      residual := c.checkpoint;
    } else if cont == Resume {
      var r := c.tracker.Checkpoint();
      residual := Some(r);
    } else {
      residual := None;
    }
  }
}
