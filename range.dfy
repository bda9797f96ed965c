/** The `Range` value: one non-negative integer, or an interval of non-negative integers that is
    bounded or unbounded above. Its fields are Java `int`s and never change once constructed. */
module Ranges {
  import opened JavaInt
  import opened Decimal

  /** Why an operation on ranges throws. */
  datatype Error =
    | StartNegative               // IllegalArgumentException from the constructor
    | StartAboveEnd               // IllegalArgumentException from the constructor
    | EndNegative                 // IllegalArgumentException from RangeBuilder.to
    | InfiniteToArray             // UnsupportedOperationException from toArray
    | NegativeArraySize(n: int32) // NegativeArraySizeException from `new int[n]` in toArray
  {
    function Message(): (m: string)
      ensures |m| > 0
    {
      match this
      case StartNegative => "start value cannot be negative"
      case StartAboveEnd => "start value cannot be higher than end value"
      case EndNegative => "end value cannot be negative"
      case InfiniteToArray => "cannot convert infinite range to list"
      case NegativeArraySize(n) => IntToString(n)
    }
  }

  datatype Result<T> = Ok(value: T) | Err(error: Error)

  datatype Option<T> = None | Some(value: T)

  /** The stored state: `end` is -1 exactly when the range is infinite. */
  datatype Range = Range(start: int32, end: int32, isInfinite: bool) {

    /** What every constructed range satisfies. */
    predicate Valid() {
      0 <= start && isInfinite == (end == -1) && (!isInfinite ==> start <= end)
    }

    /** A single value: compares the stored fields. */
    function IsSimple(): (b: bool)
      ensures Valid() ==> (b <==> !isInfinite && Start() == End())
    {
      start == end
    }

    /** Compares the stored end with 0. */
    function IsZero(): (b: bool)
      ensures Valid() && b ==> IsSimple() && start == 0 && !isInfinite
    {
      end == 0
    }

    function IsInfinite(): (b: bool)
      ensures Valid() ==> (b <==> end == -1)
      ensures Valid() && b ==> End() == MAX_VALUE
    {
      isInfinite
    }

    function Start(): (s: int32)
      ensures Valid() ==> 0 <= s
    {
      start
    }

    /** The end value, or Integer.MAX_VALUE for an infinite range. */
    function End(): (e: int32)
      ensures !isInfinite ==> e == end
      ensures Valid() ==> start <= e
    {
      if isInfinite then MAX_VALUE else end
    }

    /** Membership with the given inclusivity of each bound; a simple range holds only its value. */
    function Contains(value: int32, startInclusive: bool, endInclusive: bool): (b: bool)
      ensures IsSimple() ==> (b <==> value == start)
      ensures Valid() && b ==> start <= value <= End()
    {
      if IsSimple() then
        value == start
      else
        var isInStart := if startInclusive then value >= start else value > start;
        var isInEnd := isInfinite || (if endInclusive then value <= end else value < end);
        isInStart && isInEnd
    }

    function ContainsInclusive(value: int32): (b: bool)
      ensures Valid() ==> (b <==> start <= value <= End())
    {
      Contains(value, true, true)
    }

    function ContainsExclusive(value: int32): (b: bool)
      ensures b ==> ContainsInclusive(value)
      ensures Valid() && isInfinite ==> (b <==> start < value)
      ensures Valid() && !isInfinite && !IsSimple() ==> (b <==> start < value < End())
    {
      Contains(value, false, false)
    }

    /** Both bounds shifted by `offset` in Java `int` arithmetic, re-validated by the constructor;
        an offset of 0 gives the range itself. */
    function Offset(offset: int32): (r: Result<Range>)
      ensures offset == 0 ==> r == Ok(Range(start, end, isInfinite))
      ensures Valid() ==> (r.Ok? <==> 0 <= start + offset <= MAX_VALUE
                                        && (isInfinite || end + offset <= MAX_VALUE))
      ensures Valid() && r.Ok? ==>
                (r.value.Valid() && r.value.Start() == start + offset && r.value.IsInfinite() == isInfinite
                 && (!isInfinite ==> r.value.End() == end + offset))
    {
      if offset == 0 then
        Ok(this)
      else
        Make(Wrap(start + offset), if isInfinite then -1 else Wrap(end + offset))
    }

    /** The brace form: `{s}`, `{s..e}`, or `{s..}` for an infinite range. */
    function Representation(): (s: string)
      ensures |s| >= 3 && s[0] == '{' && s[|s| - 1] == '}'
      ensures Valid() ==> (s[|s| - 2] == '.' <==> isInfinite)
    {
      if !IsSimple() then
        "{" + IntToString(start) + ".." + (if isInfinite then "" else IntToString(end)) + "}"
      else
        "{" + IntToString(start) + "}"
    }

    function ToString(): (s: string)
      ensures s == Representation()
    {
      Representation()
    }
  }

  /** The private constructor: `end == -1` means infinity; the start is checked first. */
  function Make(start: int32, end: int32): (r: Result<Range>)
    ensures start < 0 ==> r == Err(StartNegative)
    ensures 0 <= start && end != -1 && start > end ==> r == Err(StartAboveEnd)
    ensures r.Ok? <==> 0 <= start && (end == -1 || start <= end)
    ensures r.Ok? ==> r.value.Valid() && r.value.start == start && r.value.end == end
  {
    var isInfinite := end == -1;
    if start < 0 then Err(StartNegative)
    else if !isInfinite && start > end then Err(StartAboveEnd)
    else Ok(Range(start, end, isInfinite))
  }

  /** `Range.of(value)`. */
  function Of(value: int32): (r: Result<Range>)
    ensures r.Ok? <==> value >= 0
    ensures value < 0 ==> r == Err(StartNegative)
    ensures r.Ok? ==> r.value.Valid() && r.value.IsSimple() && !r.value.IsInfinite()
                      && r.value.Start() == value && r.value.End() == value
  {
    Make(value, value)
  }

  /** `Range.from(start).to(end)`: the end is checked before the constructor runs. */
  function FromTo(start: int32, end: int32): (r: Result<Range>)
    ensures end < 0 ==> r == Err(EndNegative)
    ensures 0 <= end && start < 0 ==> r == Err(StartNegative)
    ensures 0 <= start && start > end >= 0 ==> r == Err(StartAboveEnd)
    ensures r.Ok? <==> 0 <= start <= end
    ensures r.Ok? ==> r.value.Valid() && !r.value.IsInfinite()
                      && r.value.Start() == start && r.value.End() == end
  {
    if end < 0 then Err(EndNegative) else Make(start, end)
  }

  /** `Range.from(start).toInfinity()`. */
  function FromToInfinity(start: int32): (r: Result<Range>)
    ensures r.Ok? <==> start >= 0
    ensures start < 0 ==> r == Err(StartNegative)
    ensures r.Ok? ==> r.value.Valid() && r.value.IsInfinite() && !r.value.IsSimple()
                      && r.value.Start() == start && r.value.End() == MAX_VALUE
  {
    Make(start, -1)
  }

  // The five constants, built through the same entry points as any other range.
  const ANY: Range := FromToInfinity(0).value
  const AT_LEAST_ONE: Range := FromToInfinity(1).value
  const NONE: Range := Of(0).value
  const ONE: Range := Of(1).value
  const NONE_OR_ONE: Range := FromTo(0, 1).value

  lemma Constants()
    ensures ANY.Valid() && ANY.IsInfinite() && ANY.Start() == 0
    ensures AT_LEAST_ONE.Valid() && AT_LEAST_ONE.IsInfinite() && AT_LEAST_ONE.Start() == 1
    ensures NONE.Valid() && NONE.IsSimple() && NONE.IsZero() && NONE.Start() == 0
    ensures ONE.Valid() && ONE.IsSimple() && !ONE.IsZero() && ONE.Start() == 1
    ensures NONE_OR_ONE.Valid() && !NONE_OR_ONE.IsSimple() && !NONE_OR_ONE.IsInfinite()
    ensures NONE_OR_ONE.Start() == 0 && NONE_OR_ONE.End() == 1
  {
  }

  /** With the stored end at -1, an infinite range is neither simple nor zero. */
  lemma InfiniteNotSimpleNorZero(r: Range)
    requires r.Valid() && r.IsInfinite()
    ensures !r.IsSimple() && !r.IsZero()
  {
  }

  /** The ranges that are zero are exactly those whose stored fields are those of NONE. */
  lemma ZeroIsNone(r: Range)
    requires r.Valid()
    ensures r.IsZero() <==> r == NONE
  {
  }

  /** On an infinite range only the lower bound matters. */
  lemma ContainsInfinite(r: Range, value: int32, startInclusive: bool, endInclusive: bool)
    requires r.Valid() && r.IsInfinite()
    ensures r.Contains(value, startInclusive, endInclusive)
            <==> (if startInclusive then value >= r.start else value > r.start)
  {
  }

  /** The membership checks of the range test: [10, 25] at 10, 15 and 25. */
  lemma ContainsExamples()
    ensures FromTo(10, 25).Ok?
    ensures var r := FromTo(10, 25).value;
            r.ContainsInclusive(10) && !r.ContainsExclusive(10)
            && r.ContainsInclusive(25) && !r.ContainsExclusive(25) && r.ContainsInclusive(15)
  {
  }

  /** The invalid constructions of the range test each throw. */
  lemma InvalidExamples()
    ensures FromTo(10, -1) == Err(EndNegative)
    ensures FromTo(10, 5) == Err(StartAboveEnd)
    ensures FromTo(-4, 5) == Err(StartNegative)
  {
  }

  /** `offset` succeeds exactly when both shifted bounds fit in an `int` and the start stays
      non-negative; it then moves both bounds by `d` and keeps infinity. */
  lemma OffsetSpec(r: Range, d: int32)
    requires r.Valid()
    ensures d == 0 ==> r.Offset(d) == Ok(r)
    ensures r.Offset(d).Ok? <==> 0 <= r.start + d <= MAX_VALUE && (r.isInfinite || r.end + d <= MAX_VALUE)
    ensures r.start + d < 0 || r.start + d > MAX_VALUE ==> r.Offset(d) == Err(StartNegative)
    ensures 0 <= r.start + d <= MAX_VALUE && !r.isInfinite && r.end + d > MAX_VALUE
            ==> r.Offset(d) == Err(StartAboveEnd)
    ensures r.Offset(d).Ok? ==>
              var q := r.Offset(d).value;
              q.Valid() && q.Start() == r.Start() + d && q.IsInfinite() == r.IsInfinite()
              && (!r.IsInfinite() ==> q.End() == r.End() + d)
  {
    if d != 0 && !r.isInfinite && 0 <= r.start + d {
      // Once the start is non-negative, a wrapped end cannot land on -1, the stored form of infinity.
      assert Wrap(r.end + d) != -1;
    }
  }

  /** Shifting a range shifts its members. */
  lemma OffsetContains(r: Range, d: int32, value: int32, startInclusive: bool, endInclusive: bool)
    requires r.Valid() && r.Offset(d).Ok?
    requires MIN_VALUE <= value - d <= MAX_VALUE
    ensures r.Offset(d).value.Contains(value, startInclusive, endInclusive)
            <==> r.Contains(value - d, startInclusive, endInclusive)
  {
    OffsetSpec(r, d);
  }

  /** Offsetting back undoes an offset. */
  lemma OffsetInverse(r: Range, d: int32)
    requires r.Valid() && r.Offset(d).Ok? && d != MIN_VALUE
    ensures r.Offset(d).value.Offset(-d) == Ok(r)
  {
    OffsetSpec(r, d);
    OffsetSpec(r.Offset(d).value, -d);
  }

  /** Reads a brace form back into the stored state; the inverse of `Representation`. */
  function ParseRepresentation(s: string): (r: Option<Range>)
    ensures r.Some? ==> r.value.Valid()
  {
    if |s| < 2 || s[0] != '{' || s[|s| - 1] != '}' then None else ParseBody(s[1..|s| - 1])
  }

  /** Reads what stands between the braces: `s`, `s..` or `s..e`. */
  function ParseBody(body: string): (r: Option<Range>)
    ensures r.Some? ==> r.value.Valid()
  {
    var k := DigitPrefix(body);
    if k == 0 then None
    else
      var lo := DigitsValue(body[..k]);
      if lo > MAX_VALUE then None
      else if k == |body| then Some(Range(lo, lo, false))
      else if body[k..] == ".." then Some(Range(lo, -1, true))
      else if k + 2 < |body| && body[k..k + 2] == ".." && AllDigits(body[k + 2..]) then
        var hi := DigitsValue(body[k + 2..]);
        if lo < hi <= MAX_VALUE then Some(Range(lo, hi, false)) else None
      else None
  }

  lemma ParseBraces(body: string)
    ensures ParseRepresentation("{" + body + "}") == ParseBody(body)
  {
    var s := "{" + body + "}";
    assert s[1..|s| - 1] == body;
  }

  lemma ParseSimpleForm(n: int32)
    requires 0 <= n
    ensures ParseRepresentation("{" + NatToString(n) + "}") == Some(Range(n, n, false))
  {
    var d := NatToString(n);
    ParseBraces(d);
    DigitsValueOfNatToString(n);
    DigitPrefixOfDigits(d, []);
    assert d + [] == d;
    assert d[..|d|] == d;
  }

  lemma ParseInfiniteForm(n: int32)
    requires 0 <= n
    ensures ParseRepresentation("{" + NatToString(n) + "..}") == Some(Range(n, -1, true))
  {
    var d := NatToString(n);
    ParseBraces(d + "..");
    assert "{" + (d + "..") + "}" == "{" + d + "..}";
    DigitsValueOfNatToString(n);
    DigitPrefixOfDigits(d, "..");
    assert (d + "..")[..|d|] == d;
    assert (d + "..")[|d|..] == "..";
  }

  lemma ParseFiniteForm(lo: int32, hi: int32)
    requires 0 <= lo < hi
    ensures ParseRepresentation("{" + NatToString(lo) + ".." + NatToString(hi) + "}")
            == Some(Range(lo, hi, false))
  {
    var d, e := NatToString(lo), NatToString(hi);
    var body := d + ".." + e;
    assert "{" + d + ".." + e + "}" == "{" + body + "}";
    ParseBraces(body);
    ParseFiniteBody(lo, hi);
  }

  lemma ParseFiniteBody(lo: int32, hi: int32)
    requires 0 <= lo < hi
    ensures ParseBody(NatToString(lo) + ".." + NatToString(hi)) == Some(Range(lo, hi, false))
  {
    var d, e := NatToString(lo), NatToString(hi);
    var body := d + ".." + e;
    DigitsValueOfNatToString(lo);
    DigitsValueOfNatToString(hi);
    assert body == d + (".." + e);
    DigitPrefixOfDigits(d, ".." + e);
    var k := |d|;
    assert DigitPrefix(body) == k;
    assert body[..k] == d;
    assert k + 2 < |body|;
    assert body[k..] != "..";
    assert body[k..k + 2] == "..";
    assert body[k + 2..] == e;
  }

  /** The brace form loses nothing: it can be read back. */
  lemma RepresentationRoundTrip(r: Range)
    requires r.Valid()
    ensures ParseRepresentation(r.Representation()) == Some(r)
  {
    if r.IsSimple() {
      ParseSimpleForm(r.start);
    } else if r.isInfinite {
      assert r.Representation() == "{" + NatToString(r.start) + "..}";
      ParseInfiniteForm(r.start);
    } else {
      ParseFiniteForm(r.start, r.end);
    }
  }

  /** Two valid ranges with the same brace form have the same stored fields. */
  lemma RepresentationInjective(r1: Range, r2: Range)
    requires r1.Valid() && r2.Valid()
    requires r1.Representation() == r2.Representation()
    ensures r1 == r2
  {
    RepresentationRoundTrip(r1);
    RepresentationRoundTrip(r2);
  }

  /** The three shapes of the brace form, on concrete ranges. */
  lemma RepresentationExamples()
    ensures Of(5).Ok? && Of(5).value.ToString() == "{5}"
    ensures FromTo(10, 25).Ok? && FromTo(10, 25).value.ToString() == "{10..25}"
    ensures FromToInfinity(3).Ok? && FromToInfinity(3).value.ToString() == "{3..}"
  {
    assert NatToString(10) == "10";
    assert NatToString(25) == "25";
  }
}
