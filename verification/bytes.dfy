/**
 * Fixed-width integers of the firmware (uint8_t, int8_t, uint16_t and a
 * 32-bit unsigned long) as bounded mathematical integers, with the wrap-around
 * and reinterpretation the C code relies on written out explicitly.
 */
module Bytes {

  type Byte = x: int | 0 <= x < 0x100
  type Int8 = x: int | -0x80 <= x < 0x80
  type U16 = x: int | 0 <= x < 0x1_0000
  type U32 = x: int | 0 <= x < 0x1_0000_0000

  const TWO16: int := 0x1_0000
  const TWO32: int := 0x1_0000_0000

  /** The plain (unbounded) sum of the byte values of `s`. */
  function Sum(s: seq<Byte>): nat
  {
    if |s| == 0 then 0 else Sum(s[..|s| - 1]) + s[|s| - 1]
  }

  lemma {:induction false} SumAppend(a: seq<Byte>, b: seq<Byte>)
    ensures Sum(a + b) == Sum(a) + Sum(b)
    decreases |b|
  {
    if |b| == 0 {
      assert a + b == a;
    } else {
      assert (a + b)[..|a + b| - 1] == a + b[..|b| - 1];
      SumAppend(a, b[..|b| - 1]);
    }
  }

  /** Replacing one byte changes the sum by exactly the difference of the two values. */
  lemma SumUpdate(s: seq<Byte>, i: nat, v: Byte)
    requires i < |s|
    ensures Sum(s[i := v]) == Sum(s) - s[i] + v
  {
    assert s == (s[..i] + [s[i]]) + s[i + 1..];
    assert s[i := v] == (s[..i] + [v]) + s[i + 1..];
    SumAppend(s[..i] + [s[i]], s[i + 1..]);
    SumAppend(s[..i], [s[i]]);
    SumAppend(s[..i] + [v], s[i + 1..]);
    SumAppend(s[..i], [v]);
    assert [s[i]][..0] == [] && [v][..0] == [];
  }

  lemma {:induction false} SumOfZeros(z: seq<Byte>)
    requires forall i :: 0 <= i < |z| ==> z[i] == 0
    ensures Sum(z) == 0
    decreases |z|
  {
    if |z| > 0 {
      SumOfZeros(z[..|z| - 1]);
    }
  }

  /** `(int8_t)b`: the two's-complement reading of a byte. */
  function ToInt8(b: Byte): (x: Int8)
    ensures x % 0x100 == b
    ensures x < 0 <==> b >= 0x80
  {
    if b < 0x80 then b else b - 0x100
  }

  /** The byte that stores `x` in two's complement. */
  function FromInt8(x: Int8): (b: Byte)
    ensures ToInt8(b) == x
  {
    if x < 0 then x + 0x100 else x
  }

  lemma Int8RoundTrip(b: Byte)
    ensures FromInt8(ToInt8(b)) == b
  {
  }

  /**
   * `(hi << 8) | lo` for two bytes: since `lo` fits in the low eight bits, the
   * bitwise or is the sum.
   */
  function BigEndian16(hi: Byte, lo: Byte): (v: U16)
    ensures v / 0x100 == hi && v % 0x100 == lo
  {
    hi * 0x100 + lo
  }

  function HighByte(v: U16): Byte
  {
    v / 0x100
  }

  function LowByte(v: U16): Byte
  {
    v % 0x100
  }

  lemma BigEndianRoundTrip(v: U16)
    ensures BigEndian16(HighByte(v), LowByte(v)) == v
  {
  }

  lemma BigEndianInjective(hi: Byte, lo: Byte, v: U16)
    requires BigEndian16(hi, lo) == v
    ensures hi == HighByte(v) && lo == LowByte(v)
  {
  }

  /** `a - b` on a 32-bit unsigned long: the difference modulo 2^32. */
  function WrapSub32(a: U32, b: U32): (d: U32)
    ensures a >= b ==> d == a - b
    ensures a < b ==> d == a - b + TWO32
    ensures (b + d) % TWO32 == a
  {
    (a - b) % TWO32
  }

  /**
   * A 32-bit millisecond clock read at two true instants less than 2^32 ms
   * apart: the wrapped difference of the readings is the true elapsed time,
   * even when the counter rolled over between them.
   */
  lemma ElapsedAcrossWrap(earlier: nat, later: nat)
    requires earlier <= later < earlier + TWO32
    ensures WrapSub32(later % TWO32, earlier % TWO32) == later - earlier
  {
  }
}
