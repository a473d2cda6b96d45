/**
 * Java `int` arithmetic and the immutable `OffsetRange` restriction: a half-open
 * range of positions [from, to).
 */
module OffsetRanges {

  const MinInt32: int := -0x8000_0000
  const MaxInt32: int := 0x7fff_ffff

  /** Java's 32-bit `int`. Every value the model stores in an `int` field has this type. */
  type int32 = x: int | -0x8000_0000 <= x <= 0x7fff_ffff

  /**
   * Java `int` addition: the mathematical sum wrapped to 32 bits (two's complement), that
   * is, the one `int` congruent to the sum modulo 2^32.
   */
  function AddInt32(a: int32, b: int32): (r: int32)
    ensures (r - (a + b)) % 0x1_0000_0000 == 0
    ensures MinInt32 <= a + b <= MaxInt32 ==> r == a + b
  {
    if a + b > MaxInt32 then a + b - 0x1_0000_0000
    else if a + b < MinInt32 then a + b + 0x1_0000_0000
    else a + b
  }

  /** Java `x / 2` on `int`: division that truncates toward zero (Dafny's `/` rounds down). */
  function HalfInt32(x: int32): (r: int32)
    ensures x >= 0 ==> 0 <= r && 2 * r <= x < 2 * r + 2
    ensures x < 0 ==> r <= 0 && 2 * r - 2 < x <= 2 * r
  {
    if x >= 0 then x / 2 else -((-(x as int)) / 2)
  }

  /** A restriction over the positions from (inclusive) to to (exclusive); it may be empty. */
  datatype OffsetRange = OffsetRange(from: int32, to: int32)
  {
    predicate IsEmpty() { to <= from }
  }

  /** The positions of [from, to) in increasing order. */
  function Indices(from: int32, to: int32): (s: seq<int32>)
    ensures |s| == (if from < to then to - from else 0)
    ensures forall k :: 0 <= k < |s| ==> s[k] == from as int + k
    decreases (to as int) - (from as int)
  {
    if from < to then [from] + Indices(from + 1, to) else []
  }

  /** Splitting [a, c) at any b between the ends gives [a, b) followed by [b, c). */
  lemma IndicesAppend(a: int32, b: int32, c: int32)
    requires a <= b <= c
    ensures Indices(a, b) + Indices(b, c) == Indices(a, c)
  {
  }

  /** Each position of [from, to) occurs exactly once, and nothing else occurs. */
  lemma {:induction false} IndicesExactlyOnce(from: int32, to: int32, x: int)
    ensures multiset(Indices(from, to))[x] == (if from <= x < to then 1 else 0)
    decreases (to as int) - (from as int)
  {
    if from < to {
      IndicesExactlyOnce(from + 1, to, x);
      assert Indices(from, to) == [from] + Indices(from + 1, to);
      assert multiset(Indices(from, to)) == multiset{from} + multiset(Indices(from + 1, to));
    }
  }

  /** A sequence of the positions of [from, to) holds each of them exactly once. */
  lemma EachIndexOnce(s: seq<int32>, from: int32, to: int32)
    requires s == Indices(from, to)
    ensures forall x :: multiset(s)[x] == (if from <= x < to then 1 else 0)
  {
    forall x ensures multiset(s)[x] == (if from <= x < to then 1 else 0) {
      IndicesExactlyOnce(from, to, x);
    }
  }
}
