/** Octets and octet strings. */
module Bytes {

  type Byte = x: int | 0 <= x < 256

  function Xor(a: Byte, b: Byte): (r: Byte) {
    ((a as bv8) ^ (b as bv8)) as int
  }

  /** The octet-wise exclusive or of two strings of one length. */
  function XorAll(a: seq<Byte>, b: seq<Byte>): (r: seq<Byte>)
    requires |a| == |b|
    ensures |r| == |a|
    ensures forall i :: 0 <= i < |r| ==> r[i] == Xor(a[i], b[i])
  {
    seq(|a|, i requires 0 <= i < |a| => Xor(a[i], b[i]))
  }
}
