/**
 * The additive checksum of "FE FE" frames (calculateChecksum): every byte is
 * added into a 32-bit unsigned accumulator and the low 16 bits are kept.
 */
module Checksum {
  import opened Bytes

  /** The 32-bit accumulator after adding every byte of `s` in order, wrapping at 2^32. */
  function Accumulate(s: seq<Byte>): (acc: U32)
    ensures acc == Sum(s) % TWO32
    decreases |s|
  {
    if |s| == 0 then 0
    else
      var prev := Accumulate(s[..|s| - 1]);
      ModAddRight(Sum(s[..|s| - 1]), s[|s| - 1]);
      (prev + s[|s| - 1]) % TWO32
  }

  /** The frame checksum of `s`: the accumulator masked with 0xFFFF. */
  function FrameChecksum(s: seq<Byte>): (c: U16)
    ensures c == Sum(s) % TWO16
    ensures |s| == 0 ==> c == 0
  {
    ModOfMod(Sum(s));
    Accumulate(s) % TWO16
  }

  /** The loop of calculateChecksum over the first `len` bytes of `buf`. */
  method CalculateChecksum(buf: seq<Byte>, len: nat) returns (c: U16)
    requires len <= |buf|
    ensures c == Sum(buf[..len]) % TWO16
    ensures c == FrameChecksum(buf[..len])
  {
    var sum: U32 := 0;
    var i := 0;
    while i < len
      invariant i <= len
      invariant sum == Accumulate(buf[..i])
    {
      assert buf[..i + 1][..i] == buf[..i];
      assert Accumulate(buf[..i + 1]) == (Accumulate(buf[..i]) + buf[i]) % TWO32;
      sum := (sum + buf[i]) % TWO32;
      i := i + 1;
    }
    assert buf[..len] == buf[..i];
    c := sum % TWO16;
    assert c == FrameChecksum(buf[..len]);
  }

  /**
   * Changing any single byte of a checksummed range always changes its
   * checksum: a byte moves the sum by less than 2^16, so the low 16 bits differ.
   */
  lemma SingleByteChangeDetected(s: seq<Byte>, i: nat, v: Byte)
    requires i < |s|
    requires v != s[i]
    ensures FrameChecksum(s[i := v]) != FrameChecksum(s)
  {
    SumUpdate(s, i, v);
    ShiftChangesResidue(Sum(s), v - s[i]);
  }

  lemma ModAddRight(a: int, b: int)
    ensures (a % TWO32 + b) % TWO32 == (a + b) % TWO32
  {
  }

  lemma ModOfMod(x: nat)
    ensures (x % TWO32) % TWO16 == x % TWO16
  {
  }

  lemma ShiftChangesResidue(x: int, d: int)
    requires d != 0 && -TWO16 < d < TWO16
    ensures (x + d) % TWO16 != x % TWO16
  {
  }
}
