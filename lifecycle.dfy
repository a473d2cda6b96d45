/**
 * SDFWithLifecycle: a splittable DoFn that tracks which lifecycle hook the runner may call
 * next (setup, start bundle, process element, finish bundle, teardown) and fails on any
 * call made in the wrong state.
 */
module Lifecycle {
  import opened Wrappers
  import opened OffsetRanges
  import opened Trackers
  import opened Runner

  datatype State = BeforeSetup | OutsideBundle | InsideBundle | TornDown

  /** The runner's calls into the DoFn, in the order it makes them. */
  datatype Hook = SetUp | StartBundle | ProcessElement | FinishBundle | TearDown

  /** The transition each hook makes; None when the hook's state assertion fails. */
  function Next(s: State, h: Hook): (next: Option<State>)
    ensures s == TornDown ==> next.None?
    ensures next.Some? ==> next.value != BeforeSetup
    ensures s == BeforeSetup ==> (next.Some? <==> h == SetUp)
    ensures h == ProcessElement ==> (next.Some? <==> s == InsideBundle) && (next.Some? ==> next.value == s)
    ensures next == Some(InsideBundle) ==> h == StartBundle || h == ProcessElement
  {
    match h
    case SetUp => if s == BeforeSetup then Some(OutsideBundle) else None
    case StartBundle => if s == OutsideBundle then Some(InsideBundle) else None
    case ProcessElement => if s == InsideBundle then Some(InsideBundle) else None
    case FinishBundle => if s == InsideBundle then Some(OutsideBundle) else None
    case TearDown => if s == OutsideBundle then Some(TornDown) else None
  }

  /** The state after the hooks are called in order starting from s; None once one fails. */
  function Run(s: State, hooks: seq<Hook>): (end: Option<State>)
    ensures hooks == [] ==> end == Some(s)
    ensures hooks != [] && end.Some? ==> end.value != BeforeSetup
    ensures hooks != [] && s == TornDown ==> end.None?
  {
    if hooks == [] then Some(s)
    else match Run(s, hooks[..|hooks| - 1])
      case None => None
      case Some(t) => Next(t, hooks[|hooks| - 1])
  }

  /** The state of a fresh DoFn after the hooks; None if the sequence fails an assertion. */
  function Replay(hooks: seq<Hook>): (end: Option<State>)
    ensures end == Some(BeforeSetup) <==> hooks == []
  {
    Run(BeforeSetup, hooks)
  }

  lemma RunSnoc(s: State, hooks: seq<Hook>, h: Hook)
    ensures Run(s, hooks + [h]) == if Run(s, hooks).Some? then Next(Run(s, hooks).value, h) else None
  {
  }

  /** Running a concatenation runs the first part, then the second from where it ended. */
  lemma {:induction false} RunAppend(s: State, a: seq<Hook>, b: seq<Hook>)
    ensures Run(s, a + b) == if Run(s, a).Some? then Run(Run(s, a).value, b) else None
    decreases |b|
  {
    if b == [] {
      assert a + b == a;
    } else {
      var b' := b[..|b| - 1];
      var h := b[|b| - 1];
      assert b == b' + [h];
      assert a + b == (a + b') + [h];
      RunAppend(s, a, b');
      RunSnoc(s, a + b', h);
      if Run(s, a).Some? {
        RunSnoc(Run(s, a).value, b', h);
      }
    }
  }

  /** Every prefix of a sequence that succeeds also succeeds. */
  lemma {:induction false} PrefixSucceeds(hooks: seq<Hook>, i: nat)
    requires Replay(hooks).Some?
    requires i <= |hooks|
    ensures Replay(hooks[..i]).Some?
    decreases |hooks| - i
  {
    if i < |hooks| {
      PrefixSucceeds(hooks, i + 1);
      assert hooks[..i + 1] == hooks[..i] + [hooks[i]];
      RunSnoc(BeforeSetup, hooks[..i], hooks[i]);
    } else {
      assert hooks[..i] == hooks;
    }
  }

  /** In a sequence that succeeds, each hook is called in a state that allows it. */
  lemma StepAllowed(hooks: seq<Hook>, i: nat)
    requires Replay(hooks).Some?
    requires i < |hooks|
    ensures Replay(hooks[..i]).Some?
    ensures Next(Replay(hooks[..i]).value, hooks[i]) == Replay(hooks[..i + 1])
    ensures Replay(hooks[..i + 1]).Some?
  {
    PrefixSucceeds(hooks, i + 1);
    PrefixSucceeds(hooks, i);
    assert hooks[..i + 1] == hooks[..i] + [hooks[i]];
    RunSnoc(BeforeSetup, hooks[..i], hooks[i]);
  }

  /**
   * What the state records about the hooks that led to it: setup was called once unless
   * nothing was called, teardown once exactly when torn down, and start bundle once more
   * than finish bundle exactly inside a bundle.
   */
  lemma {:induction false} ReplayCounts(hooks: seq<Hook>)
    requires Replay(hooks).Some?
    ensures Replay(hooks).value == BeforeSetup <==> hooks == []
    ensures multiset(hooks)[SetUp] == (if hooks == [] then 0 else 1)
    ensures multiset(hooks)[TearDown] == (if Replay(hooks).value == TornDown then 1 else 0)
    ensures multiset(hooks)[StartBundle]
              == multiset(hooks)[FinishBundle] + (if Replay(hooks).value == InsideBundle then 1 else 0)
  {
    if hooks != [] {
      var prefix := hooks[..|hooks| - 1];
      var h := hooks[|hooks| - 1];
      assert hooks == prefix + [h];
      RunSnoc(BeforeSetup, prefix, h);
      ReplayCounts(prefix);
      assert multiset(hooks) == multiset(prefix) + multiset{h};
    }
  }

  /** Setup comes first. */
  lemma SetUpFirst(hooks: seq<Hook>)
    requires Replay(hooks).Some?
    requires hooks != []
    ensures hooks[0] == SetUp
  {
    StepAllowed(hooks, 0);
    assert hooks[..0] == [];
  }

  /** Nothing follows teardown. */
  lemma TearDownLast(hooks: seq<Hook>, i: nat)
    requires Replay(hooks).Some?
    requires i < |hooks| && hooks[i] == TearDown
    ensures i == |hooks| - 1
  {
    StepAllowed(hooks, i);
    if i + 1 < |hooks| {
      StepAllowed(hooks, i + 1);
      assert false;
    }
  }

  /**
   * Elements are processed only inside a bundle: after setup, before teardown, and with
   * exactly one more start bundle than finish bundle before them.
   */
  lemma ProcessOnlyInsideBundle(hooks: seq<Hook>, i: nat)
    requires Replay(hooks).Some?
    requires i < |hooks| && hooks[i] == ProcessElement
    ensures Replay(hooks[..i]) == Some(InsideBundle)
    ensures multiset(hooks[..i])[SetUp] == 1 && multiset(hooks[..i])[TearDown] == 0
    ensures multiset(hooks[..i])[StartBundle] == multiset(hooks[..i])[FinishBundle] + 1
  {
    StepAllowed(hooks, i);
    ReplayCounts(hooks[..i]);
  }

  /** n calls of a hook in a row. */
  function Repeat(h: Hook, n: nat): (hooks: seq<Hook>)
    ensures |hooks| == n
    ensures forall k :: 0 <= k < n ==> hooks[k] == h
  {
    if n == 0 then [] else Repeat(h, n - 1) + [h]
  }

  /** One bundle: start, any number of elements, finish. */
  function Bundle(n: nat): (hooks: seq<Hook>)
    ensures |hooks| == n + 2 && hooks[0] == StartBundle && hooks[n + 1] == FinishBundle
    ensures forall k :: 1 <= k <= n ==> hooks[k] == ProcessElement
  {
    [StartBundle] + Repeat(ProcessElement, n) + [FinishBundle]
  }

  lemma {:induction false} ProcessKeepsInside(n: nat)
    ensures Run(InsideBundle, Repeat(ProcessElement, n)) == Some(InsideBundle)
  {
    if n > 0 {
      ProcessKeepsInside(n - 1);
      RunSnoc(InsideBundle, Repeat(ProcessElement, n - 1), ProcessElement);
    }
  }

  /** A bundle of any size is allowed outside a bundle and ends outside one. */
  lemma BundleAllowed(n: nat)
    ensures Run(OutsideBundle, Bundle(n)) == Some(OutsideBundle)
  {
    RunAppend(OutsideBundle, [StartBundle], Repeat(ProcessElement, n));
    RunSnoc(OutsideBundle, [], StartBundle);
    ProcessKeepsInside(n);
    RunSnoc(OutsideBundle, [StartBundle] + Repeat(ProcessElement, n), FinishBundle);
  }

  /** getInitialRestriction: every element is a single position, 0. */
  function GetInitialRestriction(value: string): (r: OffsetRange)
    ensures Indices(r.from, r.to) == [0]
  {
    OffsetRange(0, 1)
  }

  /**
   * The DoFn object with its state, and (as ghost history) the hooks called on it so far;
   * the state is always the one those hooks lead to.
   */
  class SDFWithLifecycle {
    var state: State
    ghost var history: seq<Hook>

    ghost predicate Valid()
      reads this
    {
      Replay(history) == Some(state)
    }

    constructor ()
      ensures Valid()
      ensures state == BeforeSetup && history == []
    {
      state := BeforeSetup;
      history := [];
    }

    /** Appends h to the history, once the state has made the transition h allows. */
    ghost method Record(h: Hook)
      requires Replay(history).Some? && Next(Replay(history).value, h) == Some(state)
      modifies this
      ensures Valid()
      ensures history == old(history) + [h] && state == old(state)
    {
      RunSnoc(BeforeSetup, history, h);
      history := history + [h];
    }

    method SetUp()
      requires Valid() && state == BeforeSetup
      modifies this
      ensures Valid()
      ensures state == OutsideBundle && history == old(history) + [Hook.SetUp]
    {
      state := OutsideBundle;
      Record(Hook.SetUp);
    }

    method StartBundle()
      requires Valid() && state == OutsideBundle
      modifies this
      ensures Valid()
      ensures state == InsideBundle && history == old(history) + [Hook.StartBundle]
    {
      state := InsideBundle;
      Record(Hook.StartBundle);
    }

    /** Claims position 0, which must succeed, and outputs the element. */
    method ProcessElement(c: ProcessContext<string>, tracker: OffsetRangeTracker, element: string)
      requires Valid() && state == InsideBundle
      requires c.tracker == tracker && tracker.Valid()
      requires tracker.lastClaimedIndex.None? || tracker.lastClaimedIndex.value < 0
      requires 0 < tracker.range.to
      modifies this, c, tracker
      ensures Valid()
      ensures state == InsideBundle && history == old(history) + [Hook.ProcessElement]
      ensures tracker.Valid()
      ensures c.outputs == old(c.outputs) + [element]
      ensures tracker.lastClaimedIndex == Some(0)
      ensures if old(c.checkpoint).None? && |c.outputs| >= c.maxOutputs then
                c.checkpoint == Some(OffsetRange(1, old(tracker.range).to))
                && tracker.range == OffsetRange(old(tracker.range).from, 1)
              else
                c.checkpoint == old(c.checkpoint) && tracker.range == old(tracker.range)
    {
      var ok := tracker.TryClaim(0);
      assert ok;
      c.Output(element);
      Record(Hook.ProcessElement);
    }

    method FinishBundle()
      requires Valid() && state == InsideBundle
      modifies this
      ensures Valid()
      ensures state == OutsideBundle && history == old(history) + [Hook.FinishBundle]
    {
      state := OutsideBundle;
      Record(Hook.FinishBundle);
    }

    method TearDown()
      requires Valid() && state == OutsideBundle
      modifies this
      ensures Valid()
      ensures state == TornDown && history == old(history) + [Hook.TearDown]
    {
      state := TornDown;
      Record(Hook.TearDown);
    }
  }

  /**
   * The runner's invocation of processElement on one element, on its initial restriction
   * with a fresh tracker: the element comes out once, and the residual, if any, is empty.
   */
  method InvokeOnElement(fn: SDFWithLifecycle, element: string, maxOutputs: OutputLimit)
    returns (outputs: seq<string>)
    requires fn.Valid() && fn.state == InsideBundle
    modifies fn
    ensures fn.Valid() && fn.state == InsideBundle
    ensures fn.history == old(fn.history) + [ProcessElement]
    ensures outputs == [element]
  {
    var tracker := new OffsetRangeTracker(GetInitialRestriction(element));
    var c := new ProcessContext<string>(tracker, maxOutputs);
    fn.ProcessElement(c, tracker, element);
    var residual := FinishInvocation(c, Stop);
    // A residual after claiming the single position is empty: nothing is rescheduled.
    assert residual.None? || residual.value.IsEmpty();
    outputs := c.outputs;
  }

  /**
   * The runner's calls for testLifecycleMethods: set up, one bundle with every element,
   * tear down. Every element is output once, in order, and the calls made form a sequence
   * the DoFn accepts, ending torn down.
   */
  method RunLifecycle(elements: seq<string>, maxOutputs: OutputLimit)
    returns (outputs: seq<string>, ghost hooks: seq<Hook>)
    ensures outputs == elements
    ensures hooks == [Hook.SetUp] + Bundle(|elements|) + [Hook.TearDown]
    ensures Replay(hooks) == Some(TornDown)
  {
    var fn := new SDFWithLifecycle();
    fn.SetUp();
    fn.StartBundle();
    outputs := [];
    for k := 0 to |elements|
      invariant fn.Valid() && fn.state == InsideBundle
      invariant fn.history == [Hook.SetUp, Hook.StartBundle] + Repeat(ProcessElement, k)
      invariant outputs == elements[..k]
    {
      var out := InvokeOnElement(fn, elements[k], maxOutputs);
      outputs := outputs + out;
      assert elements[..k + 1] == elements[..k] + [elements[k]];
    }
    fn.FinishBundle();
    fn.TearDown();
    assert elements[..|elements|] == elements;
    hooks := fn.history;
  }

  /** testLifecycleMethods: "a", "b", "c" come out, each once. */
  method TestLifecycleMethods(maxOutputs: OutputLimit) returns (outputs: seq<string>)
    ensures outputs == ["a", "b", "c"]
  {
    ghost var hooks;
    outputs, hooks := RunLifecycle(["a", "b", "c"], maxOutputs);
  }
}
