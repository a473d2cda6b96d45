/**
 * SDFWithSideInputsAndOutputs: a splittable DoFn over integers that claims the single
 * position of its restriction and writes one string to the main output and one to a side
 * output, each built from the side input's value and the element.
 */
module SideInputsAndOutputs {
  import opened Wrappers
  import opened OffsetRanges
  import opened Trackers
  import opened Runner

  predicate IsDigit(ch: char)
  {
    '0' <= ch <= '9'
  }

  predicate AllDigits(s: string)
  {
    forall k :: 0 <= k < |s| ==> IsDigit(s[k])
  }

  function DigitChar(d: int): (ch: char)
    requires 0 <= d < 10
    ensures IsDigit(ch) && ch as int - '0' as int == d
  {
    ('0' as int + d) as char
  }

  /** The decimal digits of n, most significant first, without leading zeros. */
  function NatDigits(n: nat): (s: string)
    ensures |s| >= 1 && AllDigits(s)
    ensures |s| > 1 ==> s[0] != '0'
  {
    if n < 10 then [DigitChar(n)] else NatDigits(n / 10) + [DigitChar(n % 10)]
  }

  /** The value of a string of decimal digits. */
  function ParseNat(s: string): (v: nat)
    requires AllDigits(s)
  {
    if s == [] then 0 else 10 * ParseNat(s[..|s| - 1]) + (s[|s| - 1] as int - '0' as int)
  }

  /** The decimal text of an integer as Java's string concatenation writes it. */
  function DecimalString(n: int): (text: string)
  {
    if n < 0 then "-" + NatDigits(-n) else NatDigits(n)
  }

  /** The decimal text is a minus sign exactly for negative n, followed by digits only. */
  lemma DecimalStringForm(n: int)
    ensures var text := DecimalString(n);
            && |text| >= 1
            && (text[0] == '-' <==> n < 0)
            && AllDigits(text[if n < 0 then 1 else 0..])
  {
    if n < 0 {
      assert DecimalString(n)[1..] == NatDigits(-n);
    }
  }

  /** Reads back a decimal text; None if it is not one. */
  function ParseDecimal(s: string): (value: Option<int>)
  {
    if s == [] then None
    else if s[0] == '-' then (if |s| > 1 && AllDigits(s[1..]) then Some(-(ParseNat(s[1..]) as int)) else None)
    else if AllDigits(s) then Some(ParseNat(s))
    else None
  }

  lemma {:induction false} NatDigitsRoundTrip(n: nat)
    ensures ParseNat(NatDigits(n)) == n
  {
    if n >= 10 {
      var s := NatDigits(n);
      assert s[..|s| - 1] == NatDigits(n / 10);
      NatDigitsRoundTrip(n / 10);
    }
  }

  /** Reading back the decimal text of n gives n. */
  lemma DecimalRoundTrip(n: int)
    ensures ParseDecimal(DecimalString(n)) == Some(n)
  {
    var s := DecimalString(n);
    if n < 0 {
      var d := NatDigits(-n);
      assert s == "-" + d;
      assert s[1..] == d;
      NatDigitsRoundTrip(-n);
      assert ParseDecimal(s) == Some(-(ParseNat(d) as int));
    } else {
      assert s == NatDigits(n);
      assert IsDigit(s[0]);
      NatDigitsRoundTrip(n);
      assert ParseDecimal(s) == Some(ParseNat(s));
    }
  }

  /** The text written to the main output for element n with side input value side. */
  function MainText(side: string, n: int): (text: string)
  {
    "main:" + side + ":" + DecimalString(n)
  }

  /** The text written to the side output for element n with side input value side. */
  function SideText(side: string, n: int): (text: string)
  {
    "side:" + side + ":" + DecimalString(n)
  }

  /**
   * The main text is "main:", the side input value, ":" and then the element's decimal text,
   * which reads back as the element.
   */
  lemma MainTextFormat(side: string, n: int)
    ensures var text := MainText(side, n);
            && |text| > |side| + 6 && text[..5] == "main:" && text[5..|side| + 5] == side && text[|side| + 5] == ':'
            && ParseDecimal(text[|side| + 6..]) == Some(n)
  {
    assert MainText(side, n)[|side| + 6..] == DecimalString(n);
    DecimalRoundTrip(n);
  }

  /** The side text has the same form with "side:" in front. */
  lemma SideTextFormat(side: string, n: int)
    ensures var text := SideText(side, n);
            && |text| > |side| + 6 && text[..5] == "side:" && text[5..|side| + 5] == side && text[|side| + 5] == ':'
            && ParseDecimal(text[|side| + 6..]) == Some(n)
  {
    assert SideText(side, n)[|side| + 6..] == DecimalString(n);
    DecimalRoundTrip(n);
  }

  lemma SuffixAfterCommonPrefix(p: string, a: string, b: string)
    requires p + a == p + b
    ensures a == b
  {
    assert a == (p + a)[|p|..];
    assert b == (p + b)[|p|..];
  }

  /**
   * For one side input value, each output text names its element: distinct elements give
   * distinct texts on each output, and no main text is a side text.
   */
  lemma OutputsIdentifyElement(side: string, a: int, b: int)
    ensures MainText(side, a) == MainText(side, b) <==> a == b
    ensures SideText(side, a) == SideText(side, b) <==> a == b
    ensures MainText(side, a) != SideText(side, b)
  {
    if MainText(side, a) == MainText(side, b) {
      SuffixAfterCommonPrefix("main:" + side + ":", DecimalString(a), DecimalString(b));
      DecimalRoundTrip(a);
      DecimalRoundTrip(b);
    }
    if SideText(side, a) == SideText(side, b) {
      SuffixAfterCommonPrefix("side:" + side + ":", DecimalString(a), DecimalString(b));
      DecimalRoundTrip(a);
      DecimalRoundTrip(b);
    }
    assert MainText(side, a)[0] == 'm' && SideText(side, b)[0] == 's';
  }

  /** An output together with the tag of the collection it goes to. */
  datatype TaggedOutput = Main(text: string) | Side(text: string)

  /** getInitialRestriction: every element is a single position, 0. */
  function GetInitialRestriction(value: int32): (r: OffsetRange)
    ensures Indices(r.from, r.to) == [0]
  {
    OffsetRange(0, 1)
  }

  /**
   * The process method: claiming the first position of the restriction must succeed; then
   * the main text and the side text for the element go out, in that order.
   */
  method Process(c: ProcessContext<TaggedOutput>, tracker: OffsetRangeTracker, element: int32, side: string)
    requires c.tracker == tracker && tracker.Valid()
    requires tracker.lastClaimedIndex.None? || tracker.range.from > tracker.lastClaimedIndex.value
    requires tracker.range.from < tracker.range.to
    modifies c, tracker
    ensures tracker.Valid()
    ensures c.outputs == old(c.outputs) + [Main(MainText(side, element)), Side(SideText(side, element))]
    ensures tracker.lastClaimedIndex == Some(old(tracker.range).from)
    ensures if old(c.checkpoint).None? && |c.outputs| >= c.maxOutputs then
              c.checkpoint == Some(OffsetRange(old(tracker.range).from + 1, old(tracker.range).to))
              && tracker.range == OffsetRange(old(tracker.range).from, old(tracker.range).from + 1)
            else
              c.checkpoint == old(c.checkpoint) && tracker.range == old(tracker.range)
  {
    var r := tracker.CurrentRestriction();
    var ok := tracker.TryClaim(r.from);
    assert ok;
    c.Output(Main("main:" + side + ":" + DecimalString(element as int)));
    c.Output(Side("side:" + side + ":" + DecimalString(element as int)));
  }

  /** The main-output texts among outputs, in order. */
  function MainTexts(outputs: seq<TaggedOutput>): (texts: seq<string>)
  {
    if outputs == [] then []
    else MainTexts(outputs[..|outputs| - 1])
         + (if outputs[|outputs| - 1].Main? then [outputs[|outputs| - 1].text] else [])
  }

  /** The side-output texts among outputs, in order. */
  function SideTexts(outputs: seq<TaggedOutput>): (texts: seq<string>)
  {
    if outputs == [] then []
    else SideTexts(outputs[..|outputs| - 1])
         + (if outputs[|outputs| - 1].Side? then [outputs[|outputs| - 1].text] else [])
  }

  lemma RouteMainThenSide(m: string, s: string)
    ensures MainTexts([Main(m), Side(s)]) == [m]
    ensures SideTexts([Main(m), Side(s)]) == [s]
  {
    assert [Main(m), Side(s)][..1] == [Main(m)];
    assert [Main(m)][..0] == [];
    assert MainTexts([Main(m)]) == [m] && SideTexts([Main(m)]) == [];
  }

  /**
   * One invocation on an element's initial restriction, its outputs routed by tag: the
   * element's main text and side text, each once. The residual, if any, is empty.
   */
  method InvokeOnElement(element: int32, side: string, maxOutputs: OutputLimit)
    returns (mainOutput: seq<string>, sideOutput: seq<string>)
    ensures mainOutput == [MainText(side, element)]
    ensures sideOutput == [SideText(side, element)]
  {
    var tracker := new OffsetRangeTracker(GetInitialRestriction(element));
    var c := new ProcessContext<TaggedOutput>(tracker, maxOutputs);
    Process(c, tracker, element, side);
    var residual := FinishInvocation(c, Stop);
    // A residual after claiming the single position is empty: nothing is rescheduled.
    assert residual.None? || residual.value.IsEmpty();
    RouteMainThenSide(MainText(side, element), SideText(side, element));
    assert c.outputs == [Main(MainText(side, element)), Side(SideText(side, element))];
    mainOutput := MainTexts(c.outputs);
    sideOutput := SideTexts(c.outputs);
  }

  /**
   * The runner's calls for testSideInputsAndOutputs: one invocation per element. Each
   * element yields exactly its main text on the main output and its side text on the side
   * output, in element order.
   */
  method RunSideInputsAndOutputs(elements: seq<int32>, side: string, maxOutputs: OutputLimit)
    returns (mainOutput: seq<string>, sideOutput: seq<string>)
    ensures |mainOutput| == |elements| && |sideOutput| == |elements|
    ensures forall k :: 0 <= k < |elements| ==> mainOutput[k] == MainText(side, elements[k])
    ensures forall k :: 0 <= k < |elements| ==> sideOutput[k] == SideText(side, elements[k])
  {
    mainOutput, sideOutput := [], [];
    for k := 0 to |elements|
      invariant |mainOutput| == k && |sideOutput| == k
      invariant forall j :: 0 <= j < k ==> mainOutput[j] == MainText(side, elements[j])
      invariant forall j :: 0 <= j < k ==> sideOutput[j] == SideText(side, elements[j])
    {
      var m, s := InvokeOnElement(elements[k], side, maxOutputs);
      mainOutput := mainOutput + m;
      sideOutput := sideOutput + s;
      assert mainOutput[k] == MainText(side, elements[k]) && sideOutput[k] == SideText(side, elements[k]);
    }
  }

  /** testSideInputsAndOutputs: elements 0, 1, 2 with side input "foo". */
  method TestSideInputsAndOutputs(maxOutputs: OutputLimit) returns (mainOutput: seq<string>, sideOutput: seq<string>)
    ensures mainOutput == ["main:foo:0", "main:foo:1", "main:foo:2"]
    ensures sideOutput == ["side:foo:0", "side:foo:1", "side:foo:2"]
  {
    var elements: seq<int32> := [0, 1, 2];
    mainOutput, sideOutput := RunSideInputsAndOutputs(elements, "foo", maxOutputs);
    assert DecimalString(0) == "0" && DecimalString(1) == "1" && DecimalString(2) == "2";
    assert MainText("foo", 0) == "main:foo:0" && MainText("foo", 1) == "main:foo:1"
      && MainText("foo", 2) == "main:foo:2";
    assert SideText("foo", 0) == "side:foo:0" && SideText("foo", 1) == "side:foo:1"
      && SideText("foo", 2) == "side:foo:2";
    assert mainOutput[0] == MainText("foo", elements[0]) && mainOutput[1] == MainText("foo", elements[1])
      && mainOutput[2] == MainText("foo", elements[2]);
    assert sideOutput[0] == SideText("foo", elements[0]) && sideOutput[1] == SideText("foo", elements[1])
      && sideOutput[2] == SideText("foo", elements[2]);
  }
}
