# Range: a verified model

This project models the `Range` class of the java-utils library (`io.github.darvil.utils.Range`).
A range holds one non-negative integer, or an interval of non-negative integers that is bounded or
unbounded ("infinite") above. It is built through `Range.of(v)` or through the two-step builder
`Range.from(s).to(e)` / `Range.from(s).toInfinity()`. All of these go through one private
constructor, which stores `end == -1` for infinity. The class answers queries (`isSimple`,
`isZero`, `isInfinite`, `start`, `end`), tests membership with inclusive or exclusive bounds
(`contains*`), shifts a range (`offset`), walks it with a cursor iterator (`iterator`), copies it into
an `int[]` (`toArray`), and prints it in brace form (`getRepresentation` / `toString`).

Modules:

- `JavaInt` (`java_int.dfy`): Java's 32-bit `int` as `int32`, and `Wrap`, the two's-complement
  result of an `int` addition. Every addition in the source goes through `Wrap`: the offset, the
  iterator's first value `start + 1`, the bound `end + 1` that `hasNext` uses, `index++`, and the
  array length in `toArray`.
- `Decimal` (`decimal.dfy`): the ASCII decimal text of an integer, as `Integer.toString` and `%d`
  in a locale with ASCII digits produce it, and a digit reader that undoes it.
- `Ranges` (`range.dfy`): the immutable `Range` value as a datatype over the stored fields
  `start`, `end` and `isInfinite`, with the invariant `Valid()`. It holds the private constructor
  `Make`, the entry points `Of`, `FromTo` and `FromToInfinity`, the five constants, the queries,
  `Offset`, `Representation` and `ToString`. `ParseRepresentation` is the inverse of the brace form
  and exists only to state that the brace form loses nothing.
- `RangeBuilding` (`range_builder.dfy`): `RangeBuilder` as a class. Its `end` field is assigned by
  `To` and `ToInfinity` before the range is built.
- `RangeIteration` (`range_iteration.dfy`): the anonymous iterator as the class `RangeIterator`,
  which has a mutable `index`. `Iterated` is the sequence that iterator yields. `ToArray` is a
  method that allocates an `array<int32>` and fills it in a loop by calling `Next`, as the source
  does. `ToArraySpec` is the function it is proved against.

Errors are values of `Result<T>`. `Error` names the thrown exception: `StartNegative`,
`StartAboveEnd` and `EndNegative` are `IllegalArgumentException`s; `InfiniteToArray` is the
`UnsupportedOperationException`; `NegativeArraySize` is the exception `new int[n]` throws.

Where the code and its documentation disagree, the model follows the code:

- `hasNext` compares against the stored end field, which is -1 for an infinite range, not against
  `end()`. So an infinite range yields nothing when iterated (`IteratedInfinite`). It does not yield
  an endless sequence.
- The `toArray` comment promises at least one element. `from(0).to(1).toArray(false, false)` is empty
  (`ToArrayExamples`).
- The `getRepresentation` comment mentions `Short.MAX_VALUE` and `"..."`. The code prints `{s..}` for
  an infinite range and no placeholder.
- A negative start is rejected by the constructor when the range is built, not by `from`. A negative
  end given to `to` is rejected before the start is examined (`InvalidExamples`, `FromTo`).

Java `int` overflow is modelled, not assumed away. It has these consequences, each proved:

- Iterating a range that ends at `Integer.MAX_VALUE` with an inclusive end yields nothing, because
  `end + 1` wraps (`IteratedAtMaxValue`).
- An infinite range starting at `Integer.MAX_VALUE`, iterated with an exclusive start, yields negative
  numbers (`IteratedInfiniteFromMaxValue`).
- `of(Integer.MAX_VALUE)` yields nothing from `iterator()`, because `end + 1` wraps. With both ends
  exclusive, its first value `start + 1` wraps to `Integer.MIN_VALUE`, and it yields the 2^32 - 1
  values `Integer.MIN_VALUE` to `Integer.MAX_VALUE - 1` (`IteratedSimpleAtMaxValue`).
- `from(0).to(Integer.MAX_VALUE).toArray()` throws `NegativeArraySizeException` (`ToArrayOverflow`).
- `offset` fails, rather than wrapping, when a shifted bound leaves the `int` range (`OffsetSpec`).

## Model

| member | source | states |
|---|---|---|
| `Ranges.Make` | src/main/java/io/github/darvil/utils/Range.java:30-39 | A negative start fails first with the start error. Then a finite end below the start fails. It succeeds exactly when `start >= 0` and (`end == -1` or `start <= end`), giving a valid range that stores exactly those fields. |
| `Ranges.Of` | src/main/java/io/github/darvil/utils/Range.java:76-78 | `of(v)` succeeds iff `v >= 0`. It then gives a valid, simple, finite range with `start() == end() == v`. Otherwise it fails with the negative-start error. |
| `Ranges.FromTo` | src/main/java/io/github/darvil/utils/Range.java:50-56 | `from(s).to(e)` fails on `e < 0`, then on `s < 0`, then on `s > e`. It succeeds iff `0 <= s <= e`, giving a valid finite range with `start() == s` and `end() == e`. |
| `Ranges.FromToInfinity` | src/main/java/io/github/darvil/utils/Range.java:58-62 | `from(s).toInfinity()` succeeds iff `s >= 0`. It gives a valid infinite, non-simple range with `start() == s` and `end() == Integer.MAX_VALUE`. |
| `RangeBuilding.RangeBuilder.From` | src/main/java/io/github/darvil/utils/Range.java:45-47 | The builder records the start and checks nothing. Its end is Java's default 0. |
| `RangeBuilding.RangeBuilder.To` | src/main/java/io/github/darvil/utils/Range.java:50-56 | The result is the outcome of `from(start).to(end)`. The builder's end field is updated only when `end >= 0`. |
| `RangeBuilding.RangeBuilder.ToInfinity` | src/main/java/io/github/darvil/utils/Range.java:59-62 | The builder stores -1 and gives the outcome of `from(start).toInfinity()`. |
| `RangeBuilding.BuilderExamples` | src/test/java/RangeTest.java:17-40 | Through the builder, `[10,25]` has start 10, end 25 and is finite. `from(10).toInfinity()` has start 10 and end `Integer.MAX_VALUE`. `from(10).to(5)` fails. |
| `Ranges.Constants` | src/main/java/io/github/darvil/utils/Range.java:9-18 | The five constants are valid. `ANY` and `AT_LEAST_ONE` are infinite from 0 and 1. `NONE` is simple and zero. `ONE` is simple and not zero. `NONE_OR_ONE` is the non-simple finite range [0,1]. |
| `Ranges.InfiniteNotSimpleNorZero` | src/main/java/io/github/darvil/utils/Range.java:80-88 | Because an infinite range stores end -1 and its start is non-negative, it is neither simple nor zero. |
| `Ranges.ZeroIsNone` | src/main/java/io/github/darvil/utils/Range.java:85-88 | A valid range is zero exactly when its stored fields are those of `NONE`. |
| `Ranges.Range.End` | src/main/java/io/github/darvil/utils/Range.java:100-103 | A finite range reports its stored end. The result is never below the start of a valid range. |
| `Ranges.ContainsInfinite` | src/main/java/io/github/darvil/utils/Range.java:136-152 | On an infinite range, membership is decided by the lower bound alone, with the start-inclusive flag. |
| `Ranges.ContainsExamples` | src/test/java/RangeTest.java:50-59 | On `[10,25]`: inclusive and exclusive membership at 10 and 25 give true and false respectively, and 15 is an inclusive member. |
| `Ranges.InvalidExamples` | src/test/java/RangeTest.java:35-40 | `from(10).to(-1)`, `from(10).to(5)` and `from(-4).to(5)` fail with the negative-end, start-above-end and negative-start errors. |
| `Ranges.OffsetSpec` | src/main/java/io/github/darvil/utils/Range.java:177-182 | `offset(0)` is the range itself. `offset(d)` succeeds iff `0 <= start + d` and both shifted bounds fit in an `int`. It then moves start and end by `d` and keeps infinity. A start shifted below 0 or above `MAX_VALUE` fails with the negative-start error. An end that overflows fails with start-above-end. |
| `Ranges.OffsetContains` | src/main/java/io/github/darvil/utils/Range.java:177-182 | `x` is a member of `offset(d)` exactly when `x - d` is a member of the original range, whatever the flags. |
| `Ranges.OffsetInverse` | src/main/java/io/github/darvil/utils/Range.java:177-182 | Offsetting by `-d` undoes a successful offset by `d`. |
| `Ranges.Range.ToString` | src/main/java/io/github/darvil/utils/Range.java:256-259 | `toString` is the brace representation. |
| `Ranges.RepresentationRoundTrip` | src/main/java/io/github/darvil/utils/Range.java:123-127 | The brace form (`{s}`, `{s..e}`, or `{s..}` when infinite) of every valid range reads back to that range. |
| `Ranges.RepresentationInjective` | src/main/java/io/github/darvil/utils/Range.java:123-127 | Two valid ranges with the same brace form have the same stored fields. |
| `Ranges.RepresentationExamples` | src/main/java/io/github/darvil/utils/Range.java:123-127 | `of(5)` prints `{5}`, `[10,25]` prints `{10..25}` and `from(3).toInfinity()` prints `{3..}`. |
| `RangeIteration.Span` | src/main/java/io/github/darvil/utils/Range.java:205-212 | A cursor from `lo` that emits and steps by one while below `hi` yields `hi - lo` values (none if `lo >= hi`), namely `lo, lo+1, ...`. |
| `RangeIteration.RangeIterator.constructor` | src/main/java/io/github/darvil/utils/Range.java:200-203 | The cursor starts at `start + (startInclusive ? 0 : 1)` in `int` arithmetic. What remains to yield is `Iterated`. |
| `RangeIteration.RangeIterator.HasNext` | src/main/java/io/github/darvil/utils/Range.java:204-207 | True exactly when something remains to be yielded. |
| `RangeIteration.RangeIterator.Next` | src/main/java/io/github/darvil/utils/Range.java:209-212 | Returns the cursor and post-increments it in `int` arithmetic. After a true `hasNext`, the value returned is the head of what remained, and the rest remains. |
| `RangeIteration.Iterator` | src/main/java/io/github/darvil/utils/Range.java:200-214 | A fresh iterator over the range that will yield `Iterated(r, startInclusive, endInclusive)`. |
| `RangeIteration.IteratorDefault` | src/main/java/io/github/darvil/utils/Range.java:189-192 | The default iterator is inclusive at both ends and starts at `start`. |
| `RangeIteration.IteratedFinite` | src/main/java/io/github/darvil/utils/Range.java:200-214 | On a finite range clear of `Integer.MAX_VALUE`, iteration yields exactly the consecutive integers from `start (+1 if exclusive)` up to the end, inclusive or exclusive as the flag says, in ascending order. |
| `RangeIteration.IteratedMatchesContains` | src/main/java/io/github/darvil/utils/Range.java:136-152 | On a finite non-simple range without an inclusive end at `Integer.MAX_VALUE` (where iteration yields nothing, `IteratedAtMaxValue`), the values iteration yields are exactly those `contains` accepts with the same flags. |
| `RangeIteration.IteratedSimple` | src/main/java/io/github/darvil/utils/Range.java:200-214 | A simple range below `Integer.MAX_VALUE` yields its value only when both flags are inclusive, and nothing otherwise. |
| `RangeIteration.IteratedSimpleAtMaxValue` | src/main/java/io/github/darvil/utils/Range.java:200-214 | `of(Integer.MAX_VALUE)` yields nothing unless both flags are exclusive. In that case the first value wraps to `Integer.MIN_VALUE`, and it yields the 2^32 - 1 values from `Integer.MIN_VALUE` to `Integer.MAX_VALUE - 1`. |
| `RangeIteration.IteratedInfinite` | src/main/java/io/github/darvil/utils/Range.java:205-207 | An infinite range yields nothing, because `hasNext` compares with the stored end -1. The exception is a wrapped `start + 1`. |
| `RangeIteration.IteratedAtMaxValue` | src/main/java/io/github/darvil/utils/Range.java:205-207 | For a finite range ending at `Integer.MAX_VALUE`, the inclusive bound wraps to `Integer.MIN_VALUE` and iteration yields nothing. |
| `RangeIteration.IteratedInfiniteFromMaxValue` | src/main/java/io/github/darvil/utils/Range.java:202 | An infinite range from `Integer.MAX_VALUE`, iterated with an exclusive start, begins at `Integer.MIN_VALUE` and yields about 2^31 values. |
| `RangeIteration.IteratedExamples` | src/test/java/RangeTest.java:80-102 | `[10,25]` yields 10, ..., 25 (16 values). `of(5)` yields exactly 5. |
| `Ranges.Error.Message` | src/main/java/io/github/darvil/utils/Range.java:32-35 | The message is never empty. The body returns the literal texts of Range.java:33, 35, 52 and 242. |
| `Ranges.Range.IsSimple` | src/main/java/io/github/darvil/utils/Range.java:81-83 | Compares the stored start and end. On a valid range it is true exactly when the range is finite and `start() == end()`. |
| `Ranges.Range.IsZero` | src/main/java/io/github/darvil/utils/Range.java:86-88 | A valid range that is zero is the finite simple range at 0 (see also `ZeroIsNone`). |
| `Ranges.Range.IsInfinite` | src/main/java/io/github/darvil/utils/Range.java:91-93 | On a valid range it is true exactly when the stored end is -1. Then `end()` is `Integer.MAX_VALUE`. |
| `Ranges.Range.Start` | src/main/java/io/github/darvil/utils/Range.java:96-98 | The start of a valid range is non-negative. |
| `Ranges.Range.Contains` | src/main/java/io/github/darvil/utils/Range.java:136-152 | For a simple range it is `value == start`, whatever the flags. On a valid range every member lies between `start()` and `end()`. Finer properties: `ContainsInfinite`, `IteratedMatchesContains`, `ToArrayMatchesContains`, `OffsetContains`. |
| `Ranges.Range.ContainsInclusive` | src/main/java/io/github/darvil/utils/Range.java:159-161 | On a valid range it is true exactly when `start() <= value <= end()`. This covers simple and infinite ranges alike. |
| `Ranges.Range.ContainsExclusive` | src/main/java/io/github/darvil/utils/Range.java:168-170 | It implies inclusive membership. On an infinite range it is `value > start`. On a finite non-simple range it is `start < value < end`. |
| `Ranges.Range.Offset` | src/main/java/io/github/darvil/utils/Range.java:177-182 | An offset of 0 gives the range itself. On a valid range it succeeds exactly when both shifted bounds fit in an `int` and the start stays non-negative. It then gives a valid range shifted by the offset, as infinite as before. Error kinds: `OffsetSpec`. Partners: `OffsetContains`, `OffsetInverse`. |
| `Ranges.Range.Representation` | src/main/java/io/github/darvil/utils/Range.java:123-127 | The text is wrapped in braces. On a valid range it ends in `..}` exactly when the range is infinite. Partners: `RepresentationRoundTrip`, `RepresentationInjective`. |
| `RangeBuilding.RangeBuilder.Build` | src/main/java/io/github/darvil/utils/Range.java:65-67 | Runs the constructor on the builder's fields. It succeeds exactly when the start is non-negative and the end is -1 or at least the start, giving a valid range that stores the builder's start and end and is infinite exactly when the end is -1. |
| `RangeIteration.First` | src/main/java/io/github/darvil/utils/Range.java:202 | The cursor starts at `start + (si ? 0 : 1)` when that fits in an `int`. For an exclusive start at `Integer.MAX_VALUE` it wraps to `Integer.MIN_VALUE`. |
| `RangeIteration.Limit` | src/main/java/io/github/darvil/utils/Range.java:206 | The bound is the stored end plus one when inclusive, when that fits in an `int`. For an inclusive end at `Integer.MAX_VALUE` it wraps to `Integer.MIN_VALUE`. For an infinite range it is at most 0. |
| `RangeIteration.Iterated` | src/main/java/io/github/darvil/utils/Range.java:200-214 | Iteration yields the consecutive integers from the cursor's first value up to, not including, the bound, or nothing when the first value is not below the bound. |
| `RangeIteration.ArrayLength` | src/main/java/io/github/darvil/utils/Range.java:247 | On a finite non-simple range the length is negative only for `[0, Integer.MAX_VALUE]` with both ends inclusive. Otherwise it is exactly `end - start - (si?0:1) - (ei?0:1) + 1`. |
| `RangeIteration.ToArraySpec` | src/main/java/io/github/darvil/utils/Range.java:240-254 | `toArray` throws exactly on an infinite range, or on `[0, Integer.MAX_VALUE]` inclusive. Otherwise its elements are consecutive ascending integers. Finer properties: `ToArrayFinite`, `ToArraySimple`, `ToArrayMatchesContains`, `ToArrayMatchesIterated`. |
| `RangeIteration.ToArray` | src/main/java/io/github/darvil/utils/Range.java:240-254 | Throws exactly when `ToArraySpec` fails, with the same error. Otherwise it returns a newly allocated array whose contents are `ToArraySpec`'s sequence. |
| `RangeIteration.ToArrayDefault` | src/main/java/io/github/darvil/utils/Range.java:225-227 | Equal to `toArray(true, true)`. It returns a newly allocated array. |
| `RangeIteration.ToArrayFinite` | src/main/java/io/github/darvil/utils/Range.java:246-253 | For a finite non-simple range, apart from the one overflowing case, the array has `end - start - (si?0:1) - (ei?0:1) + 1 >= 0` elements, and element `i` is `start + (si?0:1) + i`. |
| `RangeIteration.ToArraySimple` | src/main/java/io/github/darvil/utils/Range.java:244-245 | A simple range gives `[start]` for all flags. |
| `RangeIteration.ToArrayInfinite` | src/main/java/io/github/darvil/utils/Range.java:241-242 | An infinite range throws `UnsupportedOperationException` for all flags. |
| `RangeIteration.ToArrayOverflow` | src/main/java/io/github/darvil/utils/Range.java:247 | `[0, Integer.MAX_VALUE]` inclusive computes length `Integer.MIN_VALUE` and throws `NegativeArraySizeException`. |
| `RangeIteration.ToArrayMatchesContains` | src/main/java/io/github/darvil/utils/Range.java:240-254 | Whenever `toArray` succeeds, its elements are exactly the values `contains` accepts with the same flags. This includes simple ranges, where both ignore the flags. |
| `RangeIteration.ToArrayMatchesIterated` | src/main/java/io/github/darvil/utils/Range.java:247-251 | On a finite non-simple range clear of the inclusive-end overflow, the array holds exactly what the iterator yields. |
| `RangeIteration.ToArrayExamples` | src/test/java/RangeTest.java:61-78 | `[10,25]` gives 10..25 (16 elements) inclusive and 11..24 (14 elements) exclusive. `of(5)` gives `[5]` for both. `ANY` throws. `from(0).to(1).toArray(false, false)` is empty. |

## Left out

- `getMessage` (Range.java:111-115): its simple-range branch calls `UtlString.plural`, and `UtlString` is not part of this model.
- `implements Iterable<Integer>`: the `Iterable` wiring, boxing to `Integer`, and default iterator methods such as `remove` and `forEachRemaining` are not modelled. The iterator offers only `hasNext` and `next`.
- Object identity: ranges are datatype values here, and `==` on them compares the three stored fields. Java's `Range` overrides neither `equals` nor `hashCode`, so two Java ranges with the same fields are distinct objects. For example, `Range.of(0)` is neither `==` to nor `.equals` to `Range.NONE`, although `ZeroIsNone` and `RepresentationInjective` equate their fields.
- `Ranges.Range.Offset`: `offset(0)` returns the very same object (`this`). The model returns an equal value. Every other call builds a new value, which matches allocating a new object.
- `RangeIteration.ToArray`: allocation failure (`OutOfMemoryError` for very long arrays) is not modelled.
- `Ranges.Range.Representation`: the model assumes a locale whose zero digit is `'0'`. Range.java:125-126 formats the start with `String.formatted`, so `%d` follows the default format locale and can use non-ASCII digits. The end, concatenated with `"" +`, is always ASCII. `Decimal` produces ASCII digits only.
- Java's `@NotNull` annotations are not modelled; they have no runtime effect here.
- Exception objects are `Error` values carrying their message text (`Error.Message`). Stack traces and exception class hierarchies are not modelled.
