/**
 * Rust's fixed-width unsigned integers and the native byte packing of a
 * `u32` (`u32::to_ne_bytes`). The target's byte order is a parameter.
 */
module Bytes {

  newtype u8 = x: int | 0 <= x < 0x100
  newtype u16 = x: int | 0 <= x < 0x1_0000
  newtype u32 = x: int | 0 <= x < 0x1_0000_0000

  datatype ByteOrder = LittleEndian | BigEndian

  /** The four bytes, least significant first. */
  function LittleEndianBytes(c: u32): (b: seq<u8>)
    ensures |b| == 4
  {
    var n0 := c as int;
    var n1 := n0 / 0x100;
    var n2 := n1 / 0x100;
    var n3 := n2 / 0x100;
    [(n0 % 0x100) as u8, (n1 % 0x100) as u8, (n2 % 0x100) as u8, n3 as u8]
  }

  /** `u32::to_ne_bytes` on a target whose native order is `order`. */
  function ToNeBytes(order: ByteOrder, c: u32): (b: seq<u8>)
    ensures |b| == 4
  {
    var le := LittleEndianBytes(c);
    match order
    case LittleEndian => le
    case BigEndian => [le[3], le[2], le[1], le[0]]
  }

  /** `u32::from_ne_bytes`: the inverse of `ToNeBytes`. */
  function FromNeBytes(order: ByteOrder, b: seq<u8>): (c: u32)
    requires |b| == 4
  {
    var le := if order == LittleEndian then b else [b[3], b[2], b[1], b[0]];
    (le[0] as int + 0x100 * le[1] as int + 0x1_0000 * le[2] as int
      + 0x100_0000 * le[3] as int) as u32
  }

  /** Decoding the packed bytes gives back the colour. */
  lemma FromToNeBytes(order: ByteOrder, c: u32)
    ensures FromNeBytes(order, ToNeBytes(order, c)) == c
  {
    var n0 := c as int;
    var n1 := n0 / 0x100;
    var n2 := n1 / 0x100;
    assert n0 == n0 % 0x100 + 0x100 * n1;
    assert n1 == n1 % 0x100 + 0x100 * n2;
    assert n2 == n2 % 0x100 + 0x100 * (n2 / 0x100);
  }

  /** One base-256 digit and the rest: division by 256 takes them apart again. */
  lemma SplitDigit(digit: int, rest: int)
    requires 0 <= digit < 0x100
    ensures (digit + 0x100 * rest) / 0x100 == rest && (digit + 0x100 * rest) % 0x100 == digit
  {
  }

  /** Packing a decoded colour gives back the four bytes. */
  lemma ToFromNeBytes(order: ByteOrder, b: seq<u8>)
    requires |b| == 4
    ensures ToNeBytes(order, FromNeBytes(order, b)) == b
  {
    var le := if order == LittleEndian then b else [b[3], b[2], b[1], b[0]];
    var m2 := le[2] as int + 0x100 * le[3] as int;
    var m1 := le[1] as int + 0x100 * m2;
    var n := le[0] as int + 0x100 * m1;
    assert FromNeBytes(order, b) as int == n;
    SplitDigit(le[0] as int, m1);
    SplitDigit(le[1] as int, m2);
    SplitDigit(le[2] as int, le[3] as int);
    assert LittleEndianBytes(n as u32) == le;
  }
}
