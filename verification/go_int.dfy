/**
 Go's fixed-width signed integers, modelled on unbounded `int`: the ranges of
 `int32` and `int64`, two's-complement wrap-around of a conversion or an
 overflowing operation, and the saturation `strconv.ParseInt` applies.
 */
module GoInt {

  const TwoTo32: int := 0x1_0000_0000
  const TwoTo64: int := 0x1_0000_0000_0000_0000
  const MinInt32: int := -0x8000_0000
  const MaxInt32: int := 0x7fff_ffff
  const MinInt64: int := -0x8000_0000_0000_0000
  const MaxInt64: int := 0x7fff_ffff_ffff_ffff
  const MaxUint64: int := 0xffff_ffff_ffff_ffff

  predicate InInt32(x: int) { MinInt32 <= x <= MaxInt32 }

  predicate InInt64(x: int) { MinInt64 <= x <= MaxInt64 }

  /** The value Go's `int32(x)` conversion gives: x reduced into the int32 range modulo 2^32. */
  function Wrap32(x: int): (r: int)
    ensures InInt32(r)
    ensures (x - r) % TwoTo32 == 0
    ensures InInt32(x) ==> r == x
  {
    (x - MinInt32) % TwoTo32 + MinInt32
  }

  /** The value of an int64 operation whose exact result is x: x reduced into the int64 range modulo 2^64. */
  function Wrap64(x: int): (r: int)
    ensures InInt64(r)
    ensures (x - r) % TwoTo64 == 0
    ensures InInt64(x) ==> r == x
  {
    (x - MinInt64) % TwoTo64 + MinInt64
  }

  /** Saturation into the int64 range, as `strconv.ParseInt` reports an out-of-range value. */
  function Clamp64(x: int): (r: int)
    ensures InInt64(r)
    ensures InInt64(x) ==> r == x
    ensures x > MaxInt64 ==> r == MaxInt64
    ensures x < MinInt64 ==> r == MinInt64
  {
    if x > MaxInt64 then MaxInt64 else if x < MinInt64 then MinInt64 else x
  }

  /** Two values congruent modulo 2^32 wrap to the same int32. */
  lemma Wrap32Congruent(x: int, y: int)
    requires (x - y) % TwoTo32 == 0
    ensures Wrap32(x) == Wrap32(y)
  {
    var q := (x - y) / TwoTo32;
    assert x - y == q * TwoTo32;
    var a := x - MinInt32;
    var b := y - MinInt32;
    assert a == b + q * TwoTo32;
    ModShift(b, q, TwoTo32);
  }

  lemma ModShift(b: int, q: int, m: int)
    requires m > 0
    ensures (b + q * m) % m == b % m
  {
    var r := b % m;
    var d := b / m;
    assert b == d * m + r;
    assert b + q * m == (d + q) * m + r;
    ModUnique(b + q * m, d + q, r, m);
  }

  lemma ModUnique(a: int, d: int, r: int, m: int)
    requires m > 0 && 0 <= r < m && a == d * m + r
    ensures a % m == r
  {
    var d' := a / m;
    var r' := a % m;
    assert a == d' * m + r';
    assert (d - d') * m == r' - r by {
      MulDistrib(d, d', m);
    }
    if d' < d {
      MulAtLeast(d - d', m);
    } else if d' > d {
      MulDistrib(d', d, m);
      MulAtLeast(d' - d, m);
    }
  }

  lemma MulDistrib(a: int, b: int, m: int)
    ensures (a - b) * m == a * m - b * m
  {
  }

  lemma MulAtLeast(k: int, m: int)
    requires k >= 1 && m > 0
    ensures k * m >= m
  {
  }

  /** Truncating an int64 result to int32 gives what truncating the exact result would. */
  lemma Wrap32OfWrap64(x: int)
    ensures Wrap32(Wrap64(x)) == Wrap32(x)
  {
    var y := Wrap64(x);
    var q := (x - y) / TwoTo64;
    assert x - y == q * TwoTo64;
    assert x - y == (q * TwoTo32) * TwoTo32;
    ModShift(0, q * TwoTo32, TwoTo32);
    assert (x - y) % TwoTo32 == 0;
    Wrap32Congruent(x, y);
  }
}
