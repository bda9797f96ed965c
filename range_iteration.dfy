/** Iterating over a range with a cursor, and materialising it into an `int[]`. */
module RangeIteration {
  import opened JavaInt
  import opened Ranges

  /** The values emitted by a cursor that starts at `lo` and stops once it is no longer below `hi`. */
  function Span(lo: int32, hi: int32): (s: seq<int32>)
    ensures |s| == if lo < hi then hi - lo else 0
    ensures forall i :: 0 <= i < |s| ==> s[i] == lo + i
    decreases hi - lo
  {
    if lo < hi then [lo] + Span(lo + 1, hi) else []
  }

  lemma SpanMembers(lo: int32, hi: int32, x: int)
    ensures x in Span(lo, hi) <==> lo <= x < hi
  {
    if lo <= x < hi {
      assert Span(lo, hi)[x - lo] == x;
    }
  }

  /** The cursor's first value, `start + (startInclusive ? 0 : 1)` in `int` arithmetic. */
  function First(r: Range, startInclusive: bool): (f: int32)
    ensures r.start + (if startInclusive then 0 else 1) <= MAX_VALUE
            ==> f == r.start + (if startInclusive then 0 else 1)
    ensures r.start == MAX_VALUE && !startInclusive ==> f == MIN_VALUE
  {
    Wrap(r.start + (if startInclusive then 0 else 1))
  }

  /** The bound `hasNext` compares with: the STORED end (-1 when infinite) plus one when inclusive,
      in `int` arithmetic. */
  function Limit(r: Range, endInclusive: bool): (l: int32)
    ensures r.end + (if endInclusive then 1 else 0) <= MAX_VALUE
            ==> l == r.end + (if endInclusive then 1 else 0)
    ensures r.end == MAX_VALUE && endInclusive ==> l == MIN_VALUE
    ensures r.Valid() && r.IsInfinite() ==> l <= 0
  {
    Wrap(r.end + (if endInclusive then 1 else 0))
  }

  /** Everything `iterator(startInclusive, endInclusive)` yields when driven by `hasNext`/`next`. */
  function Iterated(r: Range, startInclusive: bool, endInclusive: bool): (s: seq<int32>)
    ensures var lo, hi := First(r, startInclusive), Limit(r, endInclusive);
            |s| == (if lo < hi then hi - lo else 0)
            && forall i :: 0 <= i < |s| ==> s[i] == lo + i
  {
    Span(First(r, startInclusive), Limit(r, endInclusive))
  }

  /** The anonymous iterator of `Range.iterator`: a cursor over the range it was made from. */
  class RangeIterator {
    const range: Range
    const endInclusive: bool
    var index: int32

    /** What the iterator has still to yield. */
    ghost function Remaining(): seq<int32>
      reads this
    {
      Span(index, Limit(range, endInclusive))
    }

    constructor (range: Range, startInclusive: bool, endInclusive: bool)
      ensures this.range == range && this.endInclusive == endInclusive
      ensures index == First(range, startInclusive)
      ensures Remaining() == Iterated(range, startInclusive, endInclusive)
    {
      this.range := range;
      this.endInclusive := endInclusive;
      index := First(range, startInclusive);
    }

    function HasNext(): (b: bool)
      reads this
      ensures b <==> Remaining() != []
    {
      index < Limit(range, endInclusive)
    }

    /** Returns the cursor and moves it on by one; Java does not check `hasNext` here. */
    method Next() returns (v: int32)
      modifies this
      ensures v == old(index) && index == Wrap(old(index) + 1)
      ensures old(HasNext()) ==> old(Remaining()) == [v] + Remaining()
    {
      v := index;
      index := Wrap(index + 1);
    }
  }

  /** `Range.iterator(startInclusive, endInclusive)`. */
  method Iterator(r: Range, startInclusive: bool, endInclusive: bool) returns (it: RangeIterator)
    ensures fresh(it) && it.range == r && it.endInclusive == endInclusive
    ensures it.index == First(r, startInclusive)
    ensures it.Remaining() == Iterated(r, startInclusive, endInclusive)
  {
    it := new RangeIterator(r, startInclusive, endInclusive);
  }

  /** `Range.iterator()`: both ends inclusive. */
  method IteratorDefault(r: Range) returns (it: RangeIterator)
    ensures fresh(it) && it.range == r && it.endInclusive
    ensures it.index == r.start
    ensures it.Remaining() == Iterated(r, true, true)
  {
    it := Iterator(r, true, true);
  }

  /** On a finite range whose bounds stay clear of Integer.MAX_VALUE, iteration yields the
      consecutive integers between the bounds, each bound included as its flag says. */
  lemma IteratedFinite(r: Range, startInclusive: bool, endInclusive: bool)
    requires r.Valid() && !r.IsInfinite()
    requires !startInclusive ==> r.start < MAX_VALUE
    requires endInclusive ==> r.end < MAX_VALUE
    ensures var s := Iterated(r, startInclusive, endInclusive);
            var lo := r.start + (if startInclusive then 0 else 1);
            var hi := r.end + (if endInclusive then 1 else 0);
            |s| == (if lo < hi then hi - lo else 0)
            && (forall i :: 0 <= i < |s| ==> s[i] == lo + i)
            && (forall x :: x in s <==> lo <= x < hi)
  {
    var s := Iterated(r, startInclusive, endInclusive);
    assert First(r, startInclusive) == r.start + (if startInclusive then 0 else 1);
    assert Limit(r, endInclusive) == r.end + (if endInclusive then 1 else 0);
    forall x ensures x in s <==> First(r, startInclusive) <= x < Limit(r, endInclusive) {
      SpanMembers(First(r, startInclusive), Limit(r, endInclusive), x);
    }
  }

  /** On a finite range that is not simple, and without an inclusive end at Integer.MAX_VALUE (where
      `end + 1` wraps and nothing is yielded), iteration yields exactly the members `contains`
      accepts with the same flags. */
  lemma IteratedMatchesContains(r: Range, startInclusive: bool, endInclusive: bool, x: int32)
    requires r.Valid() && !r.IsInfinite() && !r.IsSimple()
    requires endInclusive ==> r.end < MAX_VALUE
    ensures x in Iterated(r, startInclusive, endInclusive) <==> r.Contains(x, startInclusive, endInclusive)
  {
    IteratedFinite(r, startInclusive, endInclusive);
  }

  /** A simple range yields its value only when both ends are inclusive. */
  lemma IteratedSimple(r: Range, startInclusive: bool, endInclusive: bool)
    requires r.Valid() && r.IsSimple() && r.start < MAX_VALUE
    ensures Iterated(r, startInclusive, endInclusive)
            == if startInclusive && endInclusive then [r.start] else []
  {
    var s := Iterated(r, startInclusive, endInclusive);
    if startInclusive && endInclusive {
      assert |s| == 1 && s[0] == r.start;
    }
  }

  /** Because `hasNext` reads the stored end (-1), an infinite range yields nothing, unless the
      first value `start + 1` wraps around. */
  lemma IteratedInfinite(r: Range, startInclusive: bool, endInclusive: bool)
    requires r.Valid() && r.IsInfinite()
    requires !startInclusive ==> r.start < MAX_VALUE
    ensures Iterated(r, startInclusive, endInclusive) == []
  {
  }

  /** `end + 1` wraps to Integer.MIN_VALUE: a range ending at Integer.MAX_VALUE yields nothing
      when its end is inclusive. */
  lemma IteratedAtMaxValue(r: Range, startInclusive: bool)
    requires r.Valid() && !r.IsInfinite() && r.end == MAX_VALUE
    ensures Limit(r, true) == MIN_VALUE
    ensures Iterated(r, startInclusive, true) == []
  {
  }

  /** `of(Integer.MAX_VALUE)`: with an inclusive end the bound `end + 1` wraps and nothing is
      yielded; with an exclusive start and end the first value wraps to Integer.MIN_VALUE and the
      iterator yields every `int` below Integer.MAX_VALUE. */
  lemma IteratedSimpleAtMaxValue(r: Range)
    requires r.Valid() && r.IsSimple() && r.start == MAX_VALUE
    ensures Iterated(r, true, true) == [] && Iterated(r, false, true) == [] && Iterated(r, true, false) == []
    ensures var s := Iterated(r, false, false);
            |s| == TWO_32 - 1 && s[0] == MIN_VALUE && s[|s| - 1] == MAX_VALUE - 1
  {
  }

  /** `start + 1` wraps to Integer.MIN_VALUE: an infinite range starting at Integer.MAX_VALUE,
      iterated with an exclusive start, yields the negative integers from Integer.MIN_VALUE on. */
  lemma IteratedInfiniteFromMaxValue(r: Range, endInclusive: bool)
    requires r.Valid() && r.IsInfinite() && r.start == MAX_VALUE
    ensures var s := Iterated(r, false, endInclusive);
            |s| == MAX_VALUE + (if endInclusive then 1 else 0) && s[0] == MIN_VALUE
  {
  }

  /** The iterator checks of the range test: [10, 25] yields 10, ..., 25 and `of(5)` yields 5. */
  lemma IteratedExamples()
    ensures FromTo(10, 25).Ok? && Of(5).Ok?
    ensures var s := Iterated(FromTo(10, 25).value, true, true);
            |s| == 16 && forall i :: 0 <= i < 16 ==> s[i] == 10 + i
    ensures Iterated(Of(5).value, true, true) == [5]
  {
    IteratedSimple(Of(5).value, true, true);
  }

  /** The length `toArray` computes, `end - start - (si ? 0 : 1) - (ei ? 0 : 1) + 1`, in `int` arithmetic. */
  function ArrayLength(r: Range, startInclusive: bool, endInclusive: bool): (n: int32)
    ensures r.Valid() && !r.IsInfinite() && !r.IsSimple() ==>
              (n < 0 <==> r.start == 0 && r.end == MAX_VALUE && startInclusive && endInclusive)
    ensures r.Valid() && !r.IsInfinite() && !r.IsSimple() && n >= 0 ==>
              n == r.end - r.start - (if startInclusive then 0 else 1) - (if endInclusive then 0 else 1) + 1
  {
    Wrap(r.end - r.start - (if startInclusive then 0 else 1) - (if endInclusive then 0 else 1) + 1)
  }

  /** When the length does not overflow, the values the array is filled with do not either. */
  lemma ArrayLengthFits(r: Range, startInclusive: bool, endInclusive: bool)
    requires r.Valid() && !r.IsInfinite() && !r.IsSimple()
    requires ArrayLength(r, startInclusive, endInclusive) >= 0
    ensures First(r, startInclusive) + ArrayLength(r, startInclusive, endInclusive) <= MAX_VALUE + 1
  {
    var a := if startInclusive then 0 else 1;
    var b := if endInclusive then 0 else 1;
    assert First(r, startInclusive) == r.start + a;
    assert ArrayLength(r, startInclusive, endInclusive) == r.end - r.start - a - b + 1;
  }

  /** The outcome of `toArray(startInclusive, endInclusive)`: the exception it throws, or the contents
      of the array it returns, filled by calling `next` on a fresh iterator once per slot. */
  function ToArraySpec(r: Range, startInclusive: bool, endInclusive: bool): (s: Result<seq<int32>>)
    requires r.Valid()
    ensures s.Err? <==> r.IsInfinite()
                        || (!r.IsSimple() && r.start == 0 && r.end == MAX_VALUE && startInclusive && endInclusive)
    ensures s.Ok? ==> forall k :: 0 <= k < |s.value| ==> s.value[k] == s.value[0] + k
  {
    if r.isInfinite then Err(InfiniteToArray)
    else if r.IsSimple() then Ok([r.start])
    else
      var n := ArrayLength(r, startInclusive, endInclusive);
      if n < 0 then Err(NegativeArraySize(n))
      else
        ArrayLengthFits(r, startInclusive, endInclusive);
        var filled := seq<int32>(n, i requires 0 <= i < n => Wrap(First(r, startInclusive) + i));
        assert First(r, startInclusive) + n <= MAX_VALUE + 1;
        assert forall k :: 0 <= k < n ==> filled[k] == Wrap(First(r, startInclusive) + k);
        assert forall k :: 0 <= k < n ==> filled[k] == First(r, startInclusive) + k;
        Ok(filled)
  }

  lemma ToArraySpecFilled(r: Range, startInclusive: bool, endInclusive: bool)
    requires r.Valid() && !r.IsInfinite() && !r.IsSimple()
    requires ArrayLength(r, startInclusive, endInclusive) >= 0
    ensures var n := ArrayLength(r, startInclusive, endInclusive);
            var s := ToArraySpec(r, startInclusive, endInclusive);
            s.Ok? && |s.value| == n
            && forall k :: 0 <= k < n ==> s.value[k] == First(r, startInclusive) + k
  {
    ArrayLengthFits(r, startInclusive, endInclusive);
    var n := ArrayLength(r, startInclusive, endInclusive);
    var s := ToArraySpec(r, startInclusive, endInclusive);
    forall k | 0 <= k < n ensures s.value[k] == First(r, startInclusive) + k {
      assert s.value[k] == Wrap(First(r, startInclusive) + k);
    }
  }

  /** `toArray(startInclusive, endInclusive)`. */
  method ToArray(r: Range, startInclusive: bool, endInclusive: bool) returns (res: Result<array<int32>>)
    requires r.Valid()
    ensures res.Err? ==> ToArraySpec(r, startInclusive, endInclusive) == Err(res.error)
    ensures res.Ok? ==> ToArraySpec(r, startInclusive, endInclusive) == Ok(res.value[..])
    ensures res.Ok? ==> fresh(res.value)
  {
    if r.isInfinite {
      return Err(InfiniteToArray);
    }
    if r.IsSimple() {
      var single := new int32[1];
      single[0] := r.start;
      ToArraySimple(r, startInclusive, endInclusive);
      assert single[..] == [r.start];
      return Ok(single);
    }
    var n := ArrayLength(r, startInclusive, endInclusive);
    if n < 0 {
      return Err(NegativeArraySize(n));
    }
    var arr := new int32[n];
    var cursor := Iterator(r, startInclusive, endInclusive);
    ghost var first := First(r, startInclusive);
    ArrayLengthFits(r, startInclusive, endInclusive);
    for i := 0 to arr.Length
      invariant i < arr.Length ==> cursor.index == first + i
      invariant forall k :: 0 <= k < i ==> arr[k] == first + k
    {
      arr[i] := cursor.Next();
    }
    ToArraySpecFilled(r, startInclusive, endInclusive);
    assert arr[..] == ToArraySpec(r, startInclusive, endInclusive).value;
    return Ok(arr);
  }

  /** `toArray()`: both ends inclusive. */
  method ToArrayDefault(r: Range) returns (res: Result<array<int32>>)
    requires r.Valid()
    ensures res.Err? ==> ToArraySpec(r, true, true) == Err(res.error)
    ensures res.Ok? ==> ToArraySpec(r, true, true) == Ok(res.value[..])
    ensures res.Ok? ==> fresh(res.value)
  {
    res := ToArray(r, true, true);
  }

  /** On a finite range that is not simple, the array holds the consecutive integers from the
      iterator's first value; its length is `end - start - (si ? 0 : 1) - (ei ? 0 : 1) + 1`, which
      overflows only for [0, Integer.MAX_VALUE] with both ends inclusive. */
  lemma ToArrayFinite(r: Range, startInclusive: bool, endInclusive: bool)
    requires r.Valid() && !r.IsInfinite() && !r.IsSimple()
    requires !(r.start == 0 && r.end == MAX_VALUE && startInclusive && endInclusive)
    ensures var res := ToArraySpec(r, startInclusive, endInclusive);
            var a := if startInclusive then 0 else 1;
            var b := if endInclusive then 0 else 1;
            res.Ok? && |res.value| == r.end - r.start - a - b + 1 >= 0
            && forall i :: 0 <= i < |res.value| ==> res.value[i] == r.start + a + i
  {
    var a := if startInclusive then 0 else 1;
    var b := if endInclusive then 0 else 1;
    assert ArrayLength(r, startInclusive, endInclusive) == r.end - r.start - a - b + 1;
    assert First(r, startInclusive) == r.start + a;
    ToArraySpecFilled(r, startInclusive, endInclusive);
  }

  lemma ToArraySimple(r: Range, startInclusive: bool, endInclusive: bool)
    requires r.Valid() && r.IsSimple()
    ensures ToArraySpec(r, startInclusive, endInclusive) == Ok([r.start])
  {
  }

  lemma ToArrayInfinite(r: Range, startInclusive: bool, endInclusive: bool)
    requires r.Valid() && r.IsInfinite()
    ensures ToArraySpec(r, startInclusive, endInclusive) == Err(InfiniteToArray)
  {
  }

  /** The one finite range whose length computation overflows. */
  lemma ToArrayOverflow(r: Range)
    requires r.Valid() && r.start == 0 && r.end == MAX_VALUE
    ensures ToArraySpec(r, true, true) == Err(NegativeArraySize(MIN_VALUE))
  {
  }

  /** Whenever `toArray` succeeds, its elements are exactly the values `contains` accepts with the
      same flags (for a simple range: its one value, whatever the flags). */
  lemma ToArrayMatchesContains(r: Range, startInclusive: bool, endInclusive: bool, x: int32)
    requires r.Valid() && ToArraySpec(r, startInclusive, endInclusive).Ok?
    ensures x in ToArraySpec(r, startInclusive, endInclusive).value <==> r.Contains(x, startInclusive, endInclusive)
  {
    if !r.IsSimple() {
      ToArrayFinite(r, startInclusive, endInclusive);
      var a := if startInclusive then 0 else 1;
      var s := ToArraySpec(r, startInclusive, endInclusive).value;
      if r.Contains(x, startInclusive, endInclusive) {
        assert s[x - r.start - a] == x;
      }
    }
  }

  /** On a finite range that is not simple, the array holds what the iterator yields. */
  lemma ToArrayMatchesIterated(r: Range, startInclusive: bool, endInclusive: bool)
    requires r.Valid() && !r.IsInfinite() && !r.IsSimple()
    requires endInclusive ==> r.end < MAX_VALUE
    ensures ToArraySpec(r, startInclusive, endInclusive) == Ok(Iterated(r, startInclusive, endInclusive))
  {
    ToArrayFinite(r, startInclusive, endInclusive);
    IteratedFinite(r, startInclusive, endInclusive);
    var a := if startInclusive then 0 else 1;
    var s, t := ToArraySpec(r, startInclusive, endInclusive).value, Iterated(r, startInclusive, endInclusive);
    assert |s| == |t|;
    forall i | 0 <= i < |s| ensures s[i] == t[i] {
      assert s[i] == r.start + a + i;
      assert t[i] == r.start + a + i;
    }
    assert s == t;
  }

  /** The array checks of the range test, and the range whose array is empty. */
  lemma ToArrayExamples()
    ensures FromTo(10, 25).Ok? && Of(5).Ok?
    ensures var s := ToArraySpec(FromTo(10, 25).value, true, true);
            s.Ok? && |s.value| == 16 && forall i :: 0 <= i < 16 ==> s.value[i] == 10 + i
    ensures var s := ToArraySpec(FromTo(10, 25).value, false, false);
            s.Ok? && |s.value| == 14 && forall i :: 0 <= i < 14 ==> s.value[i] == 11 + i
    ensures ToArraySpec(Of(5).value, true, true) == Ok([5])
    ensures ToArraySpec(Of(5).value, false, false) == Ok([5])
    ensures ToArraySpec(ANY, true, true) == Err(InfiniteToArray)
    ensures ToArraySpec(NONE_OR_ONE, false, false) == Ok([])
  {
    ToArrayFinite(FromTo(10, 25).value, true, true);
    ToArrayFinite(FromTo(10, 25).value, false, false);
    ToArrayFinite(NONE_OR_ONE, false, false);
  }
}
