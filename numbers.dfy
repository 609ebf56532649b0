/** Machine numbers that the binding touches: 64-bit signed integers (node and
    relationship ids, wire integers), IEEE doubles (JavaScript Number, wire Float)
    and the ECMAScript conversions ToUint32 / ToInt32 that `Uint32Value()` and
    `Int32Value()` perform. Doubles are carried as opaque payloads; only their
    integer conversions and truthiness are defined. */
module Numbers {

  const MinInt64: int := -0x8000_0000_0000_0000
  const MaxInt64: int := 0x7fff_ffff_ffff_ffff
  const TwoTo31: int := 0x8000_0000
  const TwoTo32: int := 0x1_0000_0000
  const MaxUint16: int := 0xffff

  /** A signed 64-bit integer (`int64_t`). */
  type Int64 = x: int | MinInt64 <= x <= MaxInt64

  /** A TCP port as `uint16_t` stores it. */
  type Port = x: int | 0 <= x <= MaxUint16

  predicate InInt64(x: int) {
    MinInt64 <= x <= MaxInt64
  }

  /** An IEEE double. A finite value is kept as the exact real it denotes; the
      model never performs double arithmetic, so rounding does not arise. */
  datatype Double = Finite(value: real) | NaN | Infinite(negative: bool)

  /** Rounding toward zero, the first step of ToUint32 and ToInt32. */
  function Truncate(r: real): (t: int)
    ensures 0.0 <= r ==> t as real <= r < t as real + 1.0
    ensures r < 0.0 ==> t as real - 1.0 < r <= t as real
  {
    if 0.0 <= r then r.Floor else -((-r).Floor)
  }

  /** ECMAScript ToUint32 (section 7.1.7 of ECMA-262): NaN and the infinities
      give 0, every other value is truncated and reduced modulo 2^32. */
  function ToUint32(d: Double): (u: int)
    ensures 0 <= u < TwoTo32
    ensures d.Finite? ==> (Truncate(d.value) - u) % TwoTo32 == 0
    ensures !d.Finite? ==> u == 0
  {
    match d
    case Finite(r) => Truncate(r) % TwoTo32
    case _ => 0
  }

  /** ECMAScript ToInt32 (section 7.1.6 of ECMA-262): ToUint32 reinterpreted as
      a two's complement 32-bit value. */
  function ToInt32(d: Double): (i: int)
    ensures -TwoTo31 <= i < TwoTo31
    ensures (i - ToUint32(d)) % TwoTo32 == 0
  {
    var u := ToUint32(d);
    if u >= TwoTo31 then u - TwoTo32 else u
  }

  /** A whole number in [0, 2^32) survives ToUint32 unchanged. */
  lemma ToUint32OfWhole(n: int)
    requires 0 <= n < TwoTo32
    ensures ToUint32(Finite(n as real)) == n
  {
    assert Truncate(n as real) == n;
  }

  /** A whole number in the int32 range survives ToInt32 unchanged. */
  lemma ToInt32OfWhole(n: int)
    requires -TwoTo31 <= n < TwoTo31
    ensures ToInt32(Finite(n as real)) == n
  {
    assert Truncate(n as real) == n;
  }
}
