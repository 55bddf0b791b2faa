/**
 * Java's `long`: a 64-bit two's-complement integer whose arithmetic wraps around.
 * The board subtracts two such values to measure elapsed milliseconds.
 */
module JavaLong {

  const TWO_63: int := 0x8000_0000_0000_0000
  const TWO_64: int := 0x1_0000_0000_0000_0000

  newtype int64 = x: int | -0x8000_0000_0000_0000 <= x < 0x8000_0000_0000_0000

  /** True when `v` fits in a `long` without wrapping. */
  predicate InRange(v: int) {
    -TWO_63 <= v < TWO_63
  }

  /** The `long` that Java's arithmetic yields for the mathematical value `v`. */
  function Wrap(v: int): (r: int64)
    ensures (r as int - v) % TWO_64 == 0
    ensures InRange(v) ==> r as int == v
  {
    var m := v % TWO_64;
    if m < TWO_63 then m as int64 else (m - TWO_64) as int64
  }

  /** `a - b` on two `long`s, wrapping like the JVM. */
  function Sub(a: int64, b: int64): (r: int64)
    ensures (r as int - (a as int - b as int)) % TWO_64 == 0
    ensures InRange(a as int - b as int) ==> r as int == a as int - b as int
  {
    Wrap(a as int - b as int)
  }

  /** Two clock readings (milliseconds since the epoch, never negative) never wrap when subtracted. */
  lemma SubExactOnClockReadings(a: int64, b: int64)
    requires a >= 0 && b >= 0
    ensures Sub(a, b) as int == a as int - b as int
  {
  }
}
