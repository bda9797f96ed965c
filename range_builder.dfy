/** The two-step construction `Range.from(start)` then `.to(end)` or `.toInfinity()`. */
module RangeBuilding {
  import opened JavaInt
  import opened Ranges

  class RangeBuilder {
    const start: int32
    /** Assigned by `to` and `toInfinity` just before the range is built; -1 means infinity. */
    var end: int32

    /** `Range.from(start)`: nothing is checked yet, and `end` holds Java's default 0. */
    constructor From(start: int32)
      ensures this.start == start && end == 0
    {
      this.start := start;
      end := 0;
    }

    /** Runs the private constructor on the builder's fields. */
    function Build(): (r: Result<Range>)
      reads this
      ensures r.Ok? <==> 0 <= start && (end == -1 || start <= end)
      ensures r.Ok? ==> r.value.Valid() && r.value.Start() == start && r.value.IsInfinite() == (end == -1)
                        && r.value.end == end
    {
      Make(start, end)
    }

    /** Throws on a negative end before touching the builder; otherwise stores it and builds. */
    method To(end: int32) returns (r: Result<Range>)
      modifies this
      ensures this.end == if end < 0 then old(this.end) else end
      ensures r == FromTo(start, end)
    {
      if end < 0 {
        return Err(EndNegative);
      }
      this.end := end;
      r := Build();
    }

    /** Stores -1, the constructor's mark for infinity, and builds. */
    method ToInfinity() returns (r: Result<Range>)
      modifies this
      ensures this.end == -1
      ensures r == FromToInfinity(start)
    {
      end := -1;
      r := Build();
    }
  }

  /** The range test's constructions, made through the builder. */
  method BuilderExamples() returns (finite: Result<Range>, infinite: Result<Range>, bad: Result<Range>)
    ensures finite.Ok? && finite.value.Start() == 10 && finite.value.End() == 25 && !finite.value.IsInfinite()
    ensures infinite.Ok? && infinite.value.Start() == 10 && infinite.value.End() == MAX_VALUE
    ensures infinite.value.IsInfinite()
    ensures bad == Err(StartAboveEnd)
  {
    var b := new RangeBuilder.From(10);
    finite := b.To(25);
    b := new RangeBuilder.From(10);
    infinite := b.ToInfinity();
    b := new RangeBuilder.From(10);
    bad := b.To(5);
  }
}
