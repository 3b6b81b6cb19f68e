/** Single bits of a byte. */
module Bytes {

  /** 1 << bit */
  function Mask(bit: nat): bv8
    requires bit < 8
  {
    match bit
    case 0 => 1
    case 1 => 2
    case 2 => 4
    case 3 => 8
    case 4 => 16
    case 5 => 32
    case 6 => 64
    case _ => 128
  }

  predicate TestByte(x: bv8, bit: nat)
    requires bit < 8
  {
    x & Mask(bit) != 0
  }

  function SetByte(x: bv8, bit: nat): (r: bv8)
    requires bit < 8
    ensures forall k: nat :: k < 8 ==> (TestByte(r, k) <==> k == bit || TestByte(x, k))
  {
    x | Mask(bit)
  }

  function ClearByte(x: bv8, bit: nat): (r: bv8)
    requires bit < 8
    ensures forall k: nat :: k < 8 ==> (TestByte(r, k) <==> k != bit && TestByte(x, k))
  {
    x & !Mask(bit)
  }

  function BitNat(b: bool): (n: nat)
    ensures n <= 1
  {
    if b then 1 else 0
  }

  /** The number a byte stands for. */
  function Value(b: bv8): nat {
    BitNat(TestByte(b, 0)) + 2 * BitNat(TestByte(b, 1)) + 4 * BitNat(TestByte(b, 2)) + 8 * BitNat(TestByte(b, 3)) +
    16 * BitNat(TestByte(b, 4)) + 32 * BitNat(TestByte(b, 5)) + 64 * BitNat(TestByte(b, 6)) + 128 * BitNat(TestByte(b, 7))
  }
}
