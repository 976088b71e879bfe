/** Little-endian byte strings and the wrap-around of machine integers. */
module Bytes {
  type Byte = x: int | 0 <= x < 256

  /** The n low bytes of x, in two's complement. */
  function LittleEndian(x: int, n: nat): (bs: seq<Byte>)
    ensures |bs| == n
    decreases n
  {
    if n == 0 then [] else [x % 256] + LittleEndian(x / 256, n - 1)
  }

  function Value(bs: seq<Byte>): nat {
    if bs == [] then 0 else bs[0] + 256 * Value(bs[1..])
  }

  function Pow256(n: nat): (p: nat)
    ensures p >= 1
  {
    if n == 0 then 1 else 256 * Pow256(n - 1)
  }

  lemma {:induction false} ValueOfLittleEndian(x: int, n: nat)
    requires 0 <= x < Pow256(n)
    ensures Value(LittleEndian(x, n)) == x
  {
    if n > 0 { ValueOfLittleEndian(x / 256, n - 1); }
  }

  lemma {:induction false} LittleEndianOfValue(bs: seq<Byte>)
    ensures LittleEndian(Value(bs), |bs|) == bs
    ensures Value(bs) < Pow256(|bs|)
  {
    if bs != [] { LittleEndianOfValue(bs[1..]); }
  }

  /** Values that agree modulo the width have the same bytes. */
  lemma {:induction false} LittleEndianWraps(x: int, y: int, n: nat)
    requires exists k: int :: x == y + k * Pow256(n)
    ensures LittleEndian(x, n) == LittleEndian(y, n)
    decreases n
  {
    var k: int :| x == y + k * Pow256(n);
    if n > 0 {
      assert x == y + 256 * (k * Pow256(n - 1)) by {
        assert k * Pow256(n) == 256 * (k * Pow256(n - 1));
      }
      assert x / 256 == y / 256 + k * Pow256(n - 1);
      LittleEndianWraps(x / 256, y / 256, n - 1);
    }
  }

  /** The value of a wrapped integer, modulo the width. */
  lemma {:induction false} ValueIsCongruent(x: int, n: nat)
    ensures exists k: int :: Value(LittleEndian(x, n)) == x + k * Pow256(n)
    decreases n
  {
    if n == 0 {
      assert Value(LittleEndian(x, 0)) == x + (-x) * Pow256(0);
    } else {
      ValueIsCongruent(x / 256, n - 1);
      var k: int :| Value(LittleEndian(x / 256, n - 1)) == x / 256 + k * Pow256(n - 1);
      assert LittleEndian(x, n)[1..] == LittleEndian(x / 256, n - 1);
      assert k * Pow256(n) == 256 * (k * Pow256(n - 1));
      assert Value(LittleEndian(x, n)) == x + k * Pow256(n);
    }
  }

  const TWO31: int := 0x8000_0000
  const TWO32: int := 0x1_0000_0000

  /** Conversion to a signed 32-bit integer. */
  function Int32(x: int): (r: int)
    ensures -TWO31 <= r < TWO31 && (r - x) % TWO32 == 0
  {
    (x + TWO31) % TWO32 - TWO31
  }

  /** Conversion to an unsigned 32-bit integer. */
  function Uint32(x: int): (r: int)
    ensures 0 <= r < TWO32 && (r - x) % TWO32 == 0
  {
    x % TWO32
  }
}
