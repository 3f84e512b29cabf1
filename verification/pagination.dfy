/**
 * The arithmetic of `GetUsers`: query parameters parsed by `strconv.Atoi`
 * into Go's 64-bit `int`, their defaults, the start index, and the
 * `$slice` window the aggregation returns.
 */
module Pagination {
  import opened Wrappers

  const MinInt64: int := -0x8000_0000_0000_0000
  const MaxInt64: int := 0x7fff_ffff_ffff_ffff
  const TwoTo64: int := 0x1_0000_0000_0000_0000

  /** Go's `int` on a 64-bit platform; `strconv.Atoi` fails on anything outside it. */
  type int64 = x: int | MinInt64 <= x <= MaxInt64

  const DefaultRecordPerPage: int64 := 10
  const DefaultPage: int64 := 1

  /** Two's-complement wrap-around of a mathematical integer into `int64`. */
  function Wrap64(x: int): (r: int64)
    ensures MinInt64 <= x <= MaxInt64 ==> r == x
    ensures (x - r) % TwoTo64 == 0
  {
    (x - MinInt64) % TwoTo64 + MinInt64
  }

  /** A parsed parameter, falling back to `default` when it did not parse or is below 1. */
  function Normalise(parsed: Option<int64>, default: int64): (n: int64)
    requires default >= 1
    ensures n >= 1
    ensures parsed.Some? && parsed.value >= 1 ==> n == parsed.value
    ensures parsed.None? || parsed.value < 1 ==> n == default
  {
    match parsed
    case Some(v) => if v < 1 then default else v
    case None => default
  }

  /** `(page - 1) * recordPerPage` as the source computes it, in 64-bit arithmetic. */
  function StartIndexAsWritten(page: int64, recordPerPage: int64): (r: int64)
    ensures MinInt64 <= (page - 1) * recordPerPage <= MaxInt64 ==> r == (page - 1) * recordPerPage
    ensures (r - (page - 1) * recordPerPage) % TwoTo64 == 0
  {
    Wrap64((page - 1) * recordPerPage)
  }

  /** The offset of the first record of a page: the records of all earlier pages. */
  function StartIndex(page: int, recordPerPage: int): (r: nat)
    requires page >= 1 && recordPerPage >= 1
    ensures page == 1 <==> r == 0
    ensures r + recordPerPage == page * recordPerPage
  {
    (page - 1) * recordPerPage
  }

  /** Without overflow the 64-bit start index is the true one, and never negative. */
  lemma StartIndexExactWithoutOverflow(page: int64, recordPerPage: int64)
    requires page >= 1 && recordPerPage >= 1
    requires (page - 1) * recordPerPage <= MaxInt64
    ensures StartIndexAsWritten(page, recordPerPage) == StartIndex(page, recordPerPage) >= 0
  {
  }

  /** Page 2^62 + 1 of size 4 starts, after wrapping, at 0 rather than at 2^64. */
  lemma StartIndexWraps()
    ensures StartIndexAsWritten(0x4000_0000_0000_0001, 4) == 0
    ensures StartIndex(0x4000_0000_0000_0001, 4) == TwoTo64
  {
  }

  function Min(a: int, b: int): int
  {
    if a < b then a else b
  }

  /** Up to `n` consecutive elements of `data` from index `start`; empty past the end. */
  function Window<T>(data: seq<T>, start: nat, n: nat): (w: seq<T>)
    ensures |w| == if start >= |data| then 0 else Min(n, |data| - start)
    ensures forall i :: 0 <= i < |w| ==> w[i] == data[start + i]
  {
    if start >= |data| then [] else data[start .. Min(start + n, |data|)]
  }

  /**
   * MongoDB's `$slice: [array, position, n]`: a negative position counts from
   * the end of the array, and one reaching past the front starts at 0.
   */
  function MongoSlice<T>(data: seq<T>, position: int, n: nat): (w: seq<T>)
    ensures position >= 0 ==>
              && |w| == (if position >= |data| then 0 else Min(n, |data| - position))
              && forall i :: 0 <= i < |w| ==> w[i] == data[position + i]
    ensures position < 0 ==>
              && |w| == Min(n, Min(-position, |data|))
              && forall i :: 0 <= i < |w| ==> w[i] == data[|data| - Min(-position, |data|) + i]
  {
    var start := if position >= 0 then position
                 else if -position > |data| then 0
                 else |data| + position;
    Window(data, start, n)
  }

  /**
   * Paging covers every record exactly where expected: record `i` is item
   * `i % n` of page `i / n + 1`.
   */
  lemma PageOfIndex<T>(data: seq<T>, n: int, i: int)
    requires n >= 1 && 0 <= i < |data|
    ensures var w := Window(data, StartIndex(i / n + 1, n), n);
            i % n < |w| && w[i % n] == data[i]
  {
  }
}
