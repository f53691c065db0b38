/** Go's fixed-width integers as ranges of unbounded ones; every wrap-around is written out. */
module Machine {
  const TWO64: int := 0x1_0000_0000_0000_0000
  const MAX_UINT64: int := 0xFFFF_FFFF_FFFF_FFFF
  const MAX_INT64: int := 0x7FFF_FFFF_FFFF_FFFF
  const MIN_INT64: int := -0x8000_0000_0000_0000

  /** `math.MaxInt64/2`: above it a limit counts as "no limit". */
  const HALF_MAX_INT64: int := 0x3FFF_FFFF_FFFF_FFFF

  type uint64 = x: int | 0 <= x < 0x1_0000_0000_0000_0000
  type int64 = x: int | -0x8000_0000_0000_0000 <= x < 0x8000_0000_0000_0000

  /** The `uint64` an integer result wraps around to. */
  function Uint64(x: int): uint64 {
    if 0 <= x < 0x1_0000_0000_0000_0000 then x else x % 0x1_0000_0000_0000_0000
  }

  /** The `int64` an integer result wraps around to; also the conversion from `uint64`. */
  function Int64(x: int): int64 {
    var u := Uint64(x);
    if u < 0x8000_0000_0000_0000 then u else u - 0x1_0000_0000_0000_0000
  }

  /** `time.Time.Sub`: the difference of two times, saturated to an `int64` number of nanoseconds. */
  function SaturatedSub(t: int, u: int): int64 {
    var d := t - u;
    if d > MAX_INT64 then MAX_INT64 else if d < MIN_INT64 then MIN_INT64 else d
  }

  /** The difference where it fits, and else the end of the range on its side. */
  lemma SaturatedSubMeans(t: int, u: int)
    ensures MIN_INT64 <= t - u <= MAX_INT64 ==> SaturatedSub(t, u) == t - u
    ensures t - u > MAX_INT64 ==> SaturatedSub(t, u) == MAX_INT64
    ensures t - u < MIN_INT64 ==> SaturatedSub(t, u) == MIN_INT64
  {
  }

  lemma Fits(x: int)
    ensures 0 <= x <= MAX_UINT64 ==> Uint64(x) == x
    ensures MIN_INT64 <= x <= MAX_INT64 ==> Int64(x) == x
  {
  }

  /** Remainders are unique: a range value that differs by a multiple of 2^64 is the wrapped one. */
  lemma Unique(x: int, k: int, u: int)
    requires 0 <= u <= MAX_UINT64 && x == u + k * 0x1_0000_0000_0000_0000
    ensures Uint64(x) == u
  {
  }

  lemma Quotient(x: int) returns (k: int)
    ensures x == Uint64(x) + k * 0x1_0000_0000_0000_0000
  {
    k := (x - Uint64(x)) / 0x1_0000_0000_0000_0000;
  }

  /** A multiple of 2^64 disappears. */
  lemma Wrap(x: int, k: int)
    ensures Uint64(x + k * 0x1_0000_0000_0000_0000) == Uint64(x)
    ensures Int64(x + k * 0x1_0000_0000_0000_0000) == Int64(x)
  {
    var q := Quotient(x);
    Unique(x + k * 0x1_0000_0000_0000_0000, q + k, Uint64(x));
  }

  /** Wrapping on the way to a `uint64` sum changes nothing. */
  lemma WrapSum(x: int, y: int)
    ensures Uint64(Uint64(x) + y) == Uint64(x + y)
  {
    var k := Quotient(x);
    Wrap(x + y, -k);
  }

  /** The conversions between the two ranges lose nothing. */
  lemma Convert(x: int)
    ensures Int64(Uint64(x)) == Int64(x)
    ensures Uint64(Int64(x)) == Uint64(x)
  {
  }

  /** Converting each summand and wrapping as `int64` is converting the `uint64` sum. */
  lemma WrapSumInt64(x: int, y: int)
    ensures Int64(Int64(x) + Int64(y)) == Int64(x + y)
  {
    Convert(x);
    Convert(y);
    WrapSum(Int64(x), Int64(y));
    WrapSum(Int64(y), Uint64(x));
    WrapSum(y, Uint64(x));
    WrapSum(x, y);
  }
}

/** Results of calls that may fail. */
module Outcomes {
  datatype Option<+T> = None | Some(value: T)
  datatype Result<+T, +E> = Ok(value: T) | Err(error: E)
}
