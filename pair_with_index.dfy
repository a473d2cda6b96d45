/**
 * PairStringWithIndexToLength: a splittable DoFn that pairs a string with each index of
 * [0, length), asking to be resumed after every index divisible by 3, with a static
 * splitter that halves the initial range.
 */
module PairWithIndex {
  import opened Wrappers
  import opened OffsetRanges
  import opened Trackers
  import opened Runner

  /** KV<String, Integer>: an element paired with one of its indices. */
  datatype KV = KV(key: string, value: int32)

  /** Pairs key with each position of positions, in order. */
  function KeyedWith(key: string, positions: seq<int32>): (pairs: seq<KV>)
    ensures |pairs| == |positions|
  {
    if positions == [] then [] else [KV(key, positions[0])] + KeyedWith(key, positions[1..])
  }

  /** The outputs for positions [from, to) of element key, in claim order. */
  function Pairs(key: string, from: int32, to: int32): (pairs: seq<KV>)
    ensures |pairs| == (if from < to then to - from else 0)
  {
    KeyedWith(key, Indices(from, to))
  }

  lemma {:induction false} KeyedWithAppend(key: string, a: seq<int32>, b: seq<int32>)
    ensures KeyedWith(key, a + b) == KeyedWith(key, a) + KeyedWith(key, b)
    decreases |a|
  {
    if a == [] {
      assert a + b == b;
    } else {
      assert (a + b)[1..] == a[1..] + b;
      KeyedWithAppend(key, a[1..], b);
    }
  }

  /** Every pair carries the key, and each position occurs as often as in positions. */
  lemma {:induction false} KeyedWithCount(key: string, positions: seq<int32>, kv: KV)
    ensures multiset(KeyedWith(key, positions))[kv]
              == (if kv.key == key then multiset(positions)[kv.value] else 0)
    decreases |positions|
  {
    if positions != [] {
      KeyedWithCount(key, positions[1..], kv);
      assert positions == [positions[0]] + positions[1..];
    }
  }

  /** The outputs of [a, b) followed by those of [b, c) are the outputs of [a, c). */
  lemma PairsAppend(key: string, a: int32, b: int32, c: int32)
    requires a <= b <= c
    ensures Pairs(key, a, b) + Pairs(key, b, c) == Pairs(key, a, c)
  {
    IndicesAppend(a, b, c);
    KeyedWithAppend(key, Indices(a, b), Indices(b, c));
  }

  /** Extending the range by one position appends that position's pair. */
  lemma PairsSnoc(key: string, a: int32, b: int32)
    requires a <= b < MaxInt32
    ensures Pairs(key, a, b) + [KV(key, b)] == Pairs(key, a, b + 1)
  {
    PairsAppend(key, a, b, b + 1);
    assert Indices(b, b + 1) == [b];
  }

  /** Pairs(key, from, to) holds each index of [from, to) paired with key exactly once. */
  lemma PairsExactlyOnce(key: string, from: int32, to: int32, kv: KV)
    ensures multiset(Pairs(key, from, to))[kv]
              == (if kv.key == key && from <= kv.value < to then 1 else 0)
  {
    KeyedWithCount(key, Indices(from, to), kv);
    IndicesExactlyOnce(from, to, kv.value);
  }

  /**
   * The first index at or after i that is divisible by 3: where process returns resume().
   * Java's remainder truncates, Dafny's is Euclidean; both are 0 exactly on multiples of 3.
   */
  function NextMultipleOfThree(i: int): (k: int)
    ensures i <= k < i + 3 && k % 3 == 0
  {
    i + (3 - i % 3) % 3
  }

  function Min(a: int, b: int): (m: int)
    ensures m <= a && m <= b && (m == a || m == b)
  {
    if a <= b then a else b
  }

  /**
   * The exclusive end of the prefix of [from, to) that one invocation of process claims
   * when the runner checkpoints after maxOutputs outputs.
   */
  function ClaimedEnd(from: int32, to: int32, maxOutputs: OutputLimit): (end: int32)
    ensures from < to ==> from < end <= to && end <= from + maxOutputs && end <= NextMultipleOfThree(from) + 1
    ensures from < to ==> end == to || end == from + maxOutputs || end == NextMultipleOfThree(from) + 1
    ensures from >= to ==> end == from
  {
    if from < to then Min(Min(to, NextMultipleOfThree(from) + 1), from + maxOutputs) else from
  }

  /**
   * Java's String.length(): the number of UTF-16 code units, one for a character of the Basic
   * Multilingual Plane and two (a surrogate pair) for any other character.
   */
  function Utf16Length(s: string): (n: nat)
    ensures |s| <= n <= 2 * |s|
  {
    if s == [] then 0 else Utf16Length(s[..|s| - 1]) + (if s[|s| - 1] as int < 0x1_0000 then 1 else 2)
  }

  /** For a string of Basic Multilingual Plane characters, the length is the number of characters. */
  lemma {:induction false} Utf16LengthBmp(s: string)
    requires forall k :: 0 <= k < |s| ==> s[k] as int < 0x1_0000
    ensures Utf16Length(s) == |s|
  {
    if s != [] {
      Utf16LengthBmp(s[..|s| - 1]);
    }
  }

  /** getInitialRange: [0, element.length()), the length counted in UTF-16 code units. */
  function GetInitialRange(element: string): (r: OffsetRange)
    requires Utf16Length(element) <= MaxInt32
    ensures Indices(r.from, r.to) == Indices(0, Utf16Length(element))
    ensures r.from == 0 && r.to == Utf16Length(element)
  {
    OffsetRange(0, Utf16Length(element))
  }

  /** splitRange: the two halves at (from + to) / 2, computed with Java int arithmetic. */
  function SplitRange(element: string, range: OffsetRange): (parts: seq<OffsetRange>)
    ensures |parts| == 2
    ensures parts[0].from == range.from && parts[1].to == range.to
    ensures parts[0].to == parts[1].from
  {
    var mid := HalfInt32(AddInt32(range.from, range.to));
    [OffsetRange(range.from, mid), OffsetRange(mid, range.to)]
  }

  /**
   * When from + to fits in an int, the halves tile the range: the first half's positions
   * followed by the second's are exactly the range's positions, and the two halves differ in
   * size by at most one position: for a non-negative sum the second half is not the smaller,
   * for a negative sum the first half is not the smaller, as Java's truncating division puts it.
   */
  lemma SplitRangeTiles(element: string, range: OffsetRange)
    requires range.from <= range.to
    requires MinInt32 <= range.from + range.to <= MaxInt32
    ensures range.from <= SplitRange(element, range)[0].to <= range.to
    ensures var mid := SplitRange(element, range)[0].to;
            -1 <= (range.to - mid) - (mid - range.from) <= 1
            && (range.from + range.to >= 0 ==> mid - range.from <= range.to - mid)
            && (range.from + range.to < 0 ==> range.to - mid <= mid - range.from)
    ensures Indices(SplitRange(element, range)[0].from, SplitRange(element, range)[0].to)
              + Indices(SplitRange(element, range)[1].from, SplitRange(element, range)[1].to)
            == Indices(range.from, range.to)
  {
  }

  /** When from + to overflows an int, the first half is inverted: the halves do not tile. */
  lemma SplitRangeOverflow(element: string)
    ensures var parts := SplitRange(element, OffsetRange(0x4000_0000, 0x4000_0002));
            parts[0].to < parts[0].from && parts[1].from < 0
  {
  }

  /**
   * process: claims from the start of the current restriction upwards, outputs (element, i)
   * for each claimed i and returns resume() right after an i divisible by 3; stop() when a
   * claim is refused. Stated against ClaimedEnd: the claimed prefix, the outputs, the
   * continuation and the checkpoint the runner took, if any.
   */
  method Process(element: string, c: ProcessContext<KV>, tracker: OffsetRangeTracker)
    returns (cont: ProcessContinuation)
    requires c.tracker == tracker && tracker.Valid()
    requires c.outputs == [] && c.checkpoint == None
    requires tracker.lastClaimedIndex.None? || tracker.range.from > tracker.lastClaimedIndex.value
    modifies c, tracker
    ensures tracker.Valid()
    ensures var from, to := old(tracker.range.from), old(tracker.range.to);
            var end := ClaimedEnd(from, to, c.maxOutputs);
            && c.outputs == Pairs(element, from, end)
            && cont == (if from < to && end == NextMultipleOfThree(from) + 1 then Resume else Stop)
            && tracker.lastClaimedIndex == (if from < to then Some(end - 1) else old(tracker.lastClaimedIndex))
            && c.checkpoint == (if from < to && end == from + c.maxOutputs then Some(OffsetRange(end, to)) else None)
            && tracker.range == (if c.checkpoint.Some? then OffsetRange(from, end) else old(tracker.range))
  {
    var r := tracker.CurrentRestriction();
    var i: int32 := r.from;
    while true
      invariant tracker.Valid()
      invariant r.from <= i <= NextMultipleOfThree(r.from)
      invariant i - r.from <= c.maxOutputs
      invariant r.from < i ==> i <= r.to
      invariant c.outputs == Pairs(element, r.from, i)
      invariant tracker.lastClaimedIndex == (if i == r.from then old(tracker.lastClaimedIndex) else Some(i - 1))
      invariant c.checkpoint == (if i - r.from == c.maxOutputs then Some(OffsetRange(i, r.to)) else None)
      invariant tracker.range == (if c.checkpoint.Some? then OffsetRange(r.from, i) else r)
      decreases (r.to as int) - (i as int)
    {
      var ok := tracker.TryClaim(i);
      if !ok {
        return Stop;
      }
      c.Output(KV(element, i));
      PairsSnoc(element, r.from, i);
      if i % 3 == 0 {
        assert i == NextMultipleOfThree(r.from);
        return Resume;
      }
      i := i + 1;
    }
  }

  /**
   * One invocation of process on a non-empty restriction with a fresh tracker, and the
   * residual the runner keeps: the outputs are the pairs of the claimed prefix. The residual
   * is absent only when nothing is left; a present residual is [ClaimedEnd, to), which is
   * empty when the invocation claimed up to the end, whether it stopped by resume() or by
   * the runner's checkpoint.
   */
  method Invoke(element: string, r: OffsetRange, maxOutputs: OutputLimit)
    returns (outputs: seq<KV>, residual: Option<OffsetRange>)
    requires r.from < r.to
    ensures var end := ClaimedEnd(r.from, r.to, maxOutputs);
            && outputs == Pairs(element, r.from, end)
            && (residual.None? ==> end == r.to)
            && (residual.Some? ==> residual.value == OffsetRange(end, r.to))
  {
    var tracker := new OffsetRangeTracker(r);
    var c := new ProcessContext<KV>(tracker, maxOutputs);
    var cont := Process(element, c, tracker);
    outputs := c.outputs;
    residual := FinishInvocation(c, cont);
  }

  /**
   * The runner's loop over one restriction: after a resume (or a checkpoint the runner
   * took) the residual is processed next. Every index of the restriction is output exactly
   * once, in order.
   */
  method RunRestriction(element: string, restriction: OffsetRange, maxOutputs: OutputLimit)
    returns (emitted: seq<KV>)
    ensures emitted == Pairs(element, restriction.from, restriction.to)
  {
    var r := restriction;
    emitted := [];
    while r.from < r.to
      invariant r.to == restriction.to
      invariant emitted + Pairs(element, r.from, r.to) == Pairs(element, restriction.from, restriction.to)
      decreases (r.to as int) - (r.from as int)
    {
      var outputs, residual := Invoke(element, r, maxOutputs);
      ghost var end := ClaimedEnd(r.from, r.to, maxOutputs);
      PairsAppend(element, r.from, end, r.to);
      emitted := emitted + outputs;
      if residual.None? {
        break;
      }
      r := residual.value;
    }
  }

  /**
   * One element end to end: the initial range, split in two, each half run to completion.
   * Every index of the element is output exactly once, paired with the element.
   */
  method RunElement(element: string, maxOutputs: OutputLimit) returns (emitted: seq<KV>)
    requires Utf16Length(element) <= MaxInt32
    ensures emitted == Pairs(element, 0, Utf16Length(element))
    ensures forall kv :: multiset(emitted)[kv]
                         == (if kv.key == element && 0 <= kv.value < Utf16Length(element) then 1 else 0)
  {
    ghost var length := Utf16Length(element);
    var initial := GetInitialRange(element);
    var parts := SplitRange(element, initial);
    SplitRangeTiles(element, initial);
    emitted := [];
    for k := 0 to |parts|
      invariant emitted == Pairs(element, 0, if k == 0 then 0 else parts[k - 1].to)
    {
      var out := RunRestriction(element, parts[k], maxOutputs);
      PairsAppend(element, 0, parts[k].from, parts[k].to);
      emitted := emitted + out;
    }
    forall kv ensures multiset(emitted)[kv] == (if kv.key == element && 0 <= kv.value < length then 1 else 0) {
      PairsExactlyOnce(element, 0, length as int32, kv);
    }
  }
}

/** The expected outputs of testPairWithIndexBasic, driven through the runner model. */
module PairWithIndexExamples {
  import opened OffsetRanges
  import opened Runner
  import opened PairWithIndex

  /**
   * With no runner checkpoint within the first five outputs, "ccccc" takes three invocations:
   * [0, 5) claims 0 and resumes, [1, 5) claims 1, 2, 3 and resumes, [4, 5) claims 4 and stops.
   */
  lemma CcccccInvocations(maxOutputs: OutputLimit)
    requires maxOutputs >= 5
    ensures ClaimedEnd(0, 5, maxOutputs) == 1 && NextMultipleOfThree(0) + 1 == 1
    ensures ClaimedEnd(1, 5, maxOutputs) == 4 && NextMultipleOfThree(1) + 1 == 4
    ensures ClaimedEnd(4, 5, maxOutputs) == 5 && NextMultipleOfThree(4) + 1 != 5
  {
  }

  /** The Java lengths of the three test elements. */
  lemma SmallLengths()
    ensures Utf16Length("a") == 1 && Utf16Length("bb") == 2 && Utf16Length("ccccc") == 5
  {
    Utf16LengthBmp("a");
    Utf16LengthBmp("bb");
    Utf16LengthBmp("ccccc");
  }

  /** The outputs of the three test elements, computed from the definitions. */
  lemma SmallPairs()
    ensures Pairs("a", 0, 1) == [KV("a", 0)]
    ensures Pairs("bb", 0, 2) == [KV("bb", 0), KV("bb", 1)]
    ensures Pairs("ccccc", 0, 5)
            == [KV("ccccc", 0), KV("ccccc", 1), KV("ccccc", 2), KV("ccccc", 3), KV("ccccc", 4)]
  {
    assert Indices(0, 5) == [0, 1, 2, 3, 4];
  }

  /**
   * A character outside the Basic Multilingual Plane counts twice in Java's length: the
   * one-character element U+1F600 has the restriction [0, 2) and is paired with 0 and 1.
   */
  lemma SupplementaryCharacterPairs()
    ensures |"\U{1F600}"| == 1 && Utf16Length("\U{1F600}") == 2
    ensures Pairs("\U{1F600}", 0, Utf16Length("\U{1F600}")) == [KV("\U{1F600}", 0), KV("\U{1F600}", 1)]
  {
    assert "\U{1F600}"[..0] == [];
    assert Indices(0, 2) == [0, 1];
  }

  /**
   * testPairWithIndexBasic: "a", "bb" and "ccccc" each paired with every one of their indices
   * (the test compares in any order; the sequential runner model fixes the order).
   */
  method PairWithIndexBasic(maxOutputs: OutputLimit) returns (out: seq<KV>)
    ensures out == [KV("a", 0), KV("bb", 0), KV("bb", 1),
                    KV("ccccc", 0), KV("ccccc", 1), KV("ccccc", 2), KV("ccccc", 3), KV("ccccc", 4)]
  {
    SmallLengths();
    SmallPairs();
    var a := RunElementOfLength("a", 1, maxOutputs);
    var bb := RunElementOfLength("bb", 2, maxOutputs);
    var ccccc := RunElementOfLength("ccccc", 5, maxOutputs);
    out := a + bb + ccccc;
  }

  /** RunElement on an element whose Java length is known to be length. */
  method RunElementOfLength(element: string, length: int32, maxOutputs: OutputLimit) returns (emitted: seq<KV>)
    requires Utf16Length(element) == length as int
    ensures emitted == Pairs(element, 0, length)
  {
    emitted := RunElement(element, maxOutputs);
  }
}
