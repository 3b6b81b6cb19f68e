/** BITOP bit by bit: what each bit of the result says about that bit of the sources. */
module BitOpBits {
  import opened Bytes
  import opened BitOp

  /** The bit of source i, zero behind its end. */
  predicate Has(srcs: seq<seq<bv8>>, i: nat, j: nat, bit: nat)
    requires i < |srcs| && bit < 8
  {
    j < |srcs[i]| && TestByte(srcs[i][j], bit)
  }

  function Holders(srcs: seq<seq<bv8>>, n: nat, j: nat, bit: nat): set<nat>
    requires n <= |srcs| && bit < 8
  {
    set i: nat | i < n && Has(srcs, i, j, bit)
  }

  predicate OneBit(m: bv8) { m == 1 || m == 2 || m == 4 || m == 8 || m == 16 || m == 32 || m == 64 || m == 128 }

  lemma AndBit(a: bv8, b: bv8, m: bv8)
    requires OneBit(m)
    ensures (a & b) & m != 0 <==> a & m != 0 && b & m != 0
  {
  }

  lemma OrBit(a: bv8, b: bv8, m: bv8)
    ensures (a | b) & m != 0 <==> a & m != 0 || b & m != 0
  {
  }

  lemma XorBit(a: bv8, b: bv8, m: bv8)
    requires OneBit(m)
    ensures (a ^ b) & m != 0 <==> (a & m != 0) != (b & m != 0)
  {
  }

  lemma NotBit(a: bv8, m: bv8)
    requires OneBit(m)
    ensures !a & m != 0 <==> a & m == 0
  {
  }

  lemma MaskIs(bit: nat)
    requires bit < 8
    ensures OneBit(Mask(bit))
  {
  }

  lemma AndBits(a: bv8, b: bv8, bit: nat)
    requires bit < 8
    ensures TestByte(Apply(And, a, b), bit) <==> TestByte(a, bit) && TestByte(b, bit)
  {
    MaskIs(bit);
    hide Mask, OneBit;
    AndBit(a, b, Mask(bit));
  }

  lemma OrBits(a: bv8, b: bv8, bit: nat)
    requires bit < 8
    ensures TestByte(Apply(Or, a, b), bit) <==> TestByte(a, bit) || TestByte(b, bit)
  {
    hide Mask;
    OrBit(a, b, Mask(bit));
  }

  lemma XorBits(a: bv8, b: bv8, bit: nat)
    requires bit < 8
    ensures TestByte(Apply(Xor, a, b), bit) <==> TestByte(a, bit) != TestByte(b, bit)
  {
    MaskIs(bit);
    hide Mask, OneBit;
    XorBit(a, b, Mask(bit));
  }

  lemma NotBits(a: bv8, bit: nat)
    requires bit < 8
    ensures TestByte(!a, bit) <==> !TestByte(a, bit)
  {
    MaskIs(bit);
    hide Mask, OneBit;
    NotBit(a, Mask(bit));
  }

  lemma BitsOf(op: Op, a: bv8, b: bv8, bit: nat)
    requires bit < 8 && !op.Not?
    ensures TestByte(Apply(op, a, b), bit) <==>
              match op
              case And => TestByte(a, bit) && TestByte(b, bit)
              case Or => TestByte(a, bit) || TestByte(b, bit)
              case _ => TestByte(a, bit) != TestByte(b, bit)
  {
    hide TestByte, Apply;
    match op {
      case And => AndBits(a, b, bit);
      case Or => OrBits(a, b, bit);
      case Xor => XorBits(a, b, bit);
    }
  }

  lemma ByteHas(srcs: seq<seq<bv8>>, i: nat, j: nat, bit: nat)
    requires i < |srcs| && bit < 8
    ensures TestByte(Byte(srcs[i], j), bit) <==> Has(srcs, i, j, bit)
  {
    assert !TestByte(0, bit);
  }

  lemma HoldersNext(srcs: seq<seq<bv8>>, n: nat, j: nat, bit: nat)
    requires n < |srcs| && bit < 8
    ensures Holders(srcs, n + 1, j, bit) == Holders(srcs, n, j, bit) + if Has(srcs, n, j, bit) then {n} else {}
    ensures |Holders(srcs, n, j, bit)| <= n
    decreases n
  {
    if n > 0 {
      HoldersNext(srcs, n - 1, j, bit);
      assert Holders(srcs, n, j, bit) == Holders(srcs, n - 1, j, bit) + if Has(srcs, n - 1, j, bit) then {n - 1} else {};
    }
  }

  ghost predicate Expected(op: Op, srcs: seq<seq<bv8>>, j: nat, n: nat, bit: nat)
    requires 1 <= n <= |srcs| && bit < 8
  {
    match op
    case And => forall i: nat :: i < n ==> Has(srcs, i, j, bit)
    case Or => exists i: nat :: i < n && Has(srcs, i, j, bit)
    case Xor => |Holders(srcs, n, j, bit)| % 2 == 1
    case Not => !Has(srcs, 0, j, bit)
  }

  lemma ExpectedFirst(op: Op, srcs: seq<seq<bv8>>, j: nat, bit: nat)
    requires srcs != [] && bit < 8
    ensures Expected(op, srcs, j, 1, bit) <==> Has(srcs, 0, j, bit) != op.Not?
  {
    hide Has;
    HoldersNext(srcs, 0, j, bit);
    assert Holders(srcs, 0, j, bit) == {};
  }

  lemma ExpectedNext(op: Op, srcs: seq<seq<bv8>>, j: nat, n: nat, bit: nat)
    requires 1 <= n < |srcs| && bit < 8 && !op.Not?
    ensures Expected(op, srcs, j, n + 1, bit) <==>
              match op
              case And => Expected(op, srcs, j, n, bit) && Has(srcs, n, j, bit)
              case Or => Expected(op, srcs, j, n, bit) || Has(srcs, n, j, bit)
              case _ => Expected(op, srcs, j, n, bit) != Has(srcs, n, j, bit)
  {
    hide Has;
    if op.Xor? {
      HoldersNext(srcs, n, j, bit);
    }
  }

  /** AND: all sources have the bit; OR: some; XOR: an odd number; NOT: the one source has it not. */
  lemma {:induction false} ResultBits(op: Op, srcs: seq<seq<bv8>>, j: nat, n: nat, bit: nat)
    requires 1 <= n <= |srcs| && bit < 8 && (op.Not? ==> n == 1)
    ensures TestByte(Fold(op, srcs, j, n), bit) <==> Expected(op, srcs, j, n, bit)
    decreases n
  {
    hide TestByte, Apply, Byte, Has, Expected;
    ByteHas(srcs, n - 1, j, bit);
    if n == 1 {
      ExpectedFirst(op, srcs, j, bit);
      NotBits(Byte(srcs[0], j), bit);
    } else {
      ResultBits(op, srcs, j, n - 1, bit);
      ExpectedNext(op, srcs, j, n - 1, bit);
      BitsOf(op, Fold(op, srcs, j, n - 1), Byte(srcs[n - 1], j), bit);
    }
  }
}
