/** redisBitpos: words and bytes at a time against bit by bit. */
module BitScan {
  import opened Bytes
  import opened Bitfield

  // ------------------------------------------------------------------ bits of a number

  lemma {:induction false} UnsignedDigit(t: seq<bv8>, n: nat, k: nat)
    requires k < n
    ensures Digit(Unsigned(t, 0, n), n - 1 - k) == Bit(t, k)
    decreases n
  {
    var u := Unsigned(t, 0, n);
    assert u % 2 == BitNat(Bit(t, n - 1)) && u / 2 == Unsigned(t, 0, n - 1);
    if k < n - 1 {
      UnsignedDigit(t, n - 1, k);
    }
  }

  lemma {:induction false} UnsignedZero(t: seq<bv8>, n: nat)
    requires forall k: nat :: k < n ==> !Bit(t, k)
    ensures Unsigned(t, 0, n) == 0
  {
    if n > 0 {
      assert !Bit(t, n - 1);
      UnsignedZero(t, n - 1);
    }
  }

  lemma {:induction false} ZeroDigit(k: nat)
    ensures !Digit(0, k)
  {
    if k > 0 { ZeroDigit(k - 1); }
  }

  lemma UnsignedTwo(t: seq<bv8>, m: nat)
    ensures Unsigned(t, 0, m + 2) == 4 * Unsigned(t, 0, m) + 2 * BitNat(Bit(t, m)) + BitNat(Bit(t, m + 1))
  {
    hide Bit;
  }

  lemma BitOfByte(t: seq<bv8>, j: nat, i: nat)
    requires i < 8
    ensures Bit(t, 8 * j + i) == (j < |t| && TestByte(t[j], 7 - i))
  {
    assert (8 * j + i) / 8 == j && (8 * j + i) % 8 == i;
  }

  lemma UnsignedFour(t: seq<bv8>, m: nat)
    ensures Unsigned(t, 0, m + 4) == 16 * Unsigned(t, 0, m) + 8 * BitNat(Bit(t, m)) + 4 * BitNat(Bit(t, m + 1))
                                     + 2 * BitNat(Bit(t, m + 2)) + BitNat(Bit(t, m + 3))
  {
    hide Unsigned, Bit;
    UnsignedTwo(t, m);
    UnsignedTwo(t, m + 2);
  }

  function BitAt(t: seq<bv8>, j: nat, i: nat): nat
    requires i < 8
  {
    BitNat(j < |t| && TestByte(t[j], 7 - i))
  }

  lemma BitIs(t: seq<bv8>, j: nat, i: nat)
    requires i < 8
    ensures BitNat(Bit(t, 8 * j + i)) == BitAt(t, j, i)
  {
    hide Bit, TestByte;
    BitOfByte(t, j, i);
  }

  lemma ValueBits(t: seq<bv8>, j: nat)
    ensures 16 * (8 * BitAt(t, j, 0) + 4 * BitAt(t, j, 1) + 2 * BitAt(t, j, 2) + BitAt(t, j, 3)) +
            8 * BitAt(t, j, 4) + 4 * BitAt(t, j, 5) + 2 * BitAt(t, j, 6) + BitAt(t, j, 7) == if j < |t| then Value(t[j]) else 0
  {
    hide TestByte;
  }

  /** Shifting a byte in from the right. */
  lemma UnsignedByte(t: seq<bv8>, j: nat)
    ensures Unsigned(t, 0, 8 * j + 8) == 256 * Unsigned(t, 0, 8 * j) + if j < |t| then Value(t[j]) else 0
  {
    hide Unsigned, Bit, BitNat, BitAt, Value;
    BitIs(t, j, 0); BitIs(t, j, 1); BitIs(t, j, 2); BitIs(t, j, 3);
    BitIs(t, j, 4); BitIs(t, j, 5); BitIs(t, j, 6); BitIs(t, j, 7);
    UnsignedFour(t, 8 * j);
    UnsignedFour(t, 8 * j + 4);
    ValueBits(t, j);
  }

  // --------------------------------------------------------------------------- bitpos

  function Skip(bit: bool): bv8 { if bit then 0 else 255 }

  lemma SkipBits(bit: bool, i: nat)
    requires i < 8
    ensures TestByte(Skip(bit), i) == !bit
  {
  }

  lemma OtherByte(b: bv8, bit: bool) returns (i: nat)
    requires b != Skip(bit)
    ensures i < 8 && TestByte(b, i) == bit
  {
    AllBits(b, bit);
    hide TestByte, Skip;
    i := if TestByte(b, 0) == bit then 0 else if TestByte(b, 1) == bit then 1 else if TestByte(b, 2) == bit then 2
         else if TestByte(b, 3) == bit then 3 else if TestByte(b, 4) == bit then 4
         else if TestByte(b, 5) == bit then 5 else if TestByte(b, 6) == bit then 6 else 7;
  }

  lemma AllBits(b: bv8, bit: bool)
    ensures TestByte(b, 0) != bit && TestByte(b, 1) != bit && TestByte(b, 2) != bit && TestByte(b, 3) != bit &&
            TestByte(b, 4) != bit && TestByte(b, 5) != bit && TestByte(b, 6) != bit && TestByte(b, 7) != bit ==>
            b == Skip(bit)
  {
  }

  /** No bit of the wanted kind before position n. */
  predicate NoneBefore(s: seq<bv8>, bit: bool, n: nat) {
    forall o: nat :: o < n ==> Bit(s, o) != bit
  }

  lemma SkipByte(s: seq<bv8>, bit: bool, i: nat)
    requires i < |s| && s[i] == Skip(bit) && NoneBefore(s, bit, 8 * i)
    ensures NoneBefore(s, bit, 8 * (i + 1))
  {
    hide TestByte;
    forall o: nat | o < 8 * (i + 1) ensures Bit(s, o) != bit {
      if o >= 8 * i {
        BitOfByte(s, i, o - 8 * i);
        SkipBits(bit, 7 - (o - 8 * i));
      }
    }
  }

  /** The loop that loads up to eight bytes, first byte on top, zero padded. */
  method LoadWord(s: seq<bv8>, start: nat) returns (word: nat)
    requires start <= |s|
    ensures word == Unsigned(s[start..], 0, 64)
  {
    hide Value;
    word := 0;
    var c := start;
    ghost var t := s[start..];
    for j := 0 to 8
      invariant c == (if start + j <= |s| then start + j else |s|)
      invariant word == Unsigned(t, 0, 8 * j)
    {
      UnsignedByte(t, j);
      word := word * 256;
      if c < |s| {
        word := word + Value(s[c]);
        c := c + 1;
      }
    }
  }

  lemma TailBit(s: seq<bv8>, start: nat, k: nat)
    requires start <= |s|
    ensures Bit(s, 8 * start + k) == Bit(s[start..], k)
  {
    assert (8 * start + k) / 8 == start + k / 8 && (8 * start + k) % 8 == k % 8;
  }

  /** Scans the word from the top bit. */
  method ScanWord(ghost t: seq<bv8>, word: nat, bit: bool) returns (k: nat)
    requires word == Unsigned(t, 0, 64)
    requires exists o: nat :: o < 64 && Bit(t, o) == bit
    ensures k < 64 && Bit(t, k) == bit && NoneBefore(t, bit, k)
  {
    hide Bit, Digit, Unsigned;
    k := 0;
    while Digit(word, 63 - k) != bit
      invariant k < 64 && NoneBefore(t, bit, k) && exists o: nat :: k <= o < 64 && Bit(t, o) == bit
      decreases 64 - k
    {
      UnsignedDigit(t, 64, k);
      k := k + 1;
    }
    UnsignedDigit(t, 64, k);
  }

  /** Bytes to an aligned address, then whole words, are skipped while they cannot hold the bit. */
  method SkipWords(s: seq<bv8>, address: nat, bit: bool) returns (i: nat)
    ensures i <= |s| && NoneBefore(s, bit, 8 * i)
    ensures |s| - i < 8 || s[i..i + 8] != seq(8, _ => Skip(bit))
  {
    i := 0;
    var found := false;
    while (address + i) % 8 != 0 && i < |s|
      invariant i <= |s| && NoneBefore(s, bit, 8 * i)
      decreases |s| - i
    {
      if s[i] != Skip(bit) {
        found := true;
        break;
      }
      SkipByte(s, bit, i);
      i := i + 1;
    }
    if found {
      assert |s| - i >= 8 ==> s[i..i + 8][0] == s[i];
      return;
    }
    while |s| - i >= 8
      invariant i <= |s| && NoneBefore(s, bit, 8 * i)
    {
      if s[i..i + 8] != seq(8, _ => Skip(bit)) { break; }
      SkipEight(s, bit, i);
      i := i + 8;
    }
  }

  lemma SkipEight(s: seq<bv8>, bit: bool, i: nat)
    requires i + 8 <= |s| && s[i..i + 8] == seq(8, _ => Skip(bit)) && NoneBefore(s, bit, 8 * i)
    ensures NoneBefore(s, bit, 8 * (i + 8))
  {
    hide NoneBefore, Skip;
    var w := s[i..i + 8];
    assert w[0] == s[i] && w[1] == s[i + 1] && w[2] == s[i + 2] && w[3] == s[i + 3];
    assert w[4] == s[i + 4] && w[5] == s[i + 5] && w[6] == s[i + 6] && w[7] == s[i + 7];
    SkipByte(s, bit, i); SkipByte(s, bit, i + 1); SkipByte(s, bit, i + 2); SkipByte(s, bit, i + 3);
    SkipByte(s, bit, i + 4); SkipByte(s, bit, i + 5); SkipByte(s, bit, i + 6); SkipByte(s, bit, i + 7);
  }

  /** Where the skipping stopped there is such a bit within a word, unless ones are sought and the string ends in zeros. */
  lemma FoundInWord(t: seq<bv8>, bit: bool)
    requires |t| < 8 || t[..8] != seq(8, _ => Skip(bit))
    ensures (exists o: nat :: o < 64 && Bit(t, o) == bit) || (bit && |t| < 8)
  {
    hide TestByte, Skip;
    if |t| >= 8 {
      var j :| 0 <= j < 8 && t[..8][j] != Skip(bit);
      var i := OtherByte(t[j], bit);
      BitOfByte(t, j, 7 - i);
      assert Bit(t, 8 * j + (7 - i)) == bit;
    } else if !bit {
      assert !Bit(t, 63);
    }
  }

  lemma NoOnes(t: seq<bv8>)
    requires |t| < 8 && Unsigned(t, 0, 64) == 0
    ensures forall o: nat :: !Bit(t, o)
  {
    hide Unsigned, Digit, TestByte;
    forall o: nat ensures !Bit(t, o) {
      if o < 64 {
        UnsignedDigit(t, 64, o);
        ZeroDigit(63 - o);
      }
    }
  }

  /** redisBitpos: the first such bit of the zero padded string, or -1 when ones are sought and there are none. */
  method Bitpos(s: seq<bv8>, address: nat, bit: bool) returns (pos: int)
    ensures pos == -1 ==> bit && forall o: nat :: !Bit(s, o)
    ensures pos != -1 ==> pos >= 0 && Bit(s, pos) == bit && NoneBefore(s, bit, pos)
  {
    hide Unsigned, Bit;
    var i := SkipWords(s, address, bit);
    var word := LoadWord(s, i);
    ghost var t := s[i..];
    assert |t| >= 8 ==> t[..8] == s[i..i + 8];
    FoundInWord(t, bit);
    if bit && word == 0 {
      ZeroWord(t);
      NoOnes(t);
      forall o: nat ensures !Bit(s, o) {
        if o >= 8 * i { TailBit(s, i, o - 8 * i); }
      }
      return -1;
    }
    if bit && forall o: nat :: o < 64 ==> !Bit(t, o) { UnsignedZero(t, 64); }
    var k := ScanWord(t, word, bit);
    TailBit(s, i, k);
    forall o: nat | o < 8 * i + k ensures Bit(s, o) != bit {
      if o >= 8 * i { TailBit(s, i, o - 8 * i); }
    }
    pos := 8 * i + k;
  }

  lemma ZeroWord(t: seq<bv8>)
    requires Unsigned(t, 0, 64) == 0
    ensures forall o: nat :: o < 64 ==> !Bit(t, o)
  {
    hide Unsigned, Digit, Bit;
    forall o: nat | o < 64 ensures !Bit(t, o) {
      UnsignedDigit(t, 64, o);
      ZeroDigit(63 - o);
    }
  }
}
