/** The 2048-byte slot bitmap kept for every node. */
module SlotBitmap {
  import opened Bytes
  import opened ClusterNode

  const BITMAP_BYTES := CLUSTER_SLOTS / 8

  type Bitmap = b: seq<bv8> | |b| == BITMAP_BYTES witness seq(BITMAP_BYTES, i => 0)

  predicate TestBit(b: Bitmap, pos: Slot) {
    TestByte(b[pos / 8], pos % 8)
  }

  function SetBit(b: Bitmap, pos: Slot): (r: Bitmap)
    ensures forall j: Slot :: TestBit(r, j) <==> j == pos || TestBit(b, j)
  {
    hide TestByte, SetByte;
    b[pos / 8 := SetByte(b[pos / 8], pos % 8)]
  }

  function ClearBit(b: Bitmap, pos: Slot): (r: Bitmap)
    ensures forall j: Slot :: TestBit(r, j) <==> j != pos && TestBit(b, j)
  {
    hide TestByte, ClearByte;
    b[pos / 8 := ClearByte(b[pos / 8], pos % 8)]
  }

  /** The slots whose bit is set. */
  function Slots(b: Bitmap): (s: set<Slot>)
    ensures forall j: Slot :: j in s <==> TestBit(b, j)
  {
    set j: Slot | 0 <= j < CLUSTER_SLOTS && TestBit(b, j)
  }

  lemma SetBitSlots(b: Bitmap, pos: Slot)
    ensures Slots(SetBit(b, pos)) == Slots(b) + {pos}
    ensures Slots(ClearBit(b, pos)) == Slots(b) - {pos}
  {
    hide SetBit, ClearBit, TestBit;
  }
}
