/** The bit-by-bit CRC-64 and the table driven one that takes eight bytes at a time. */
module Crc64 {

  type Word = bv64

  const TOP: Word := 0x8000_0000_0000_0000
  const POLY: Word := 0xad93_d235_94c9_35a9
  const REFLECTED_POLY: Word := 0x95ac_9329_ac4b_c9b5

  // ------------------------------------------------------------------- word operations

  function Xor(a: Word, b: Word): Word { a ^ b }

  function Half(a: Word): Word { a >> 1 }

  function Dbl(a: Word): Word { a << 1 }

  function Shr8(a: Word): Word { a >> 8 }

  function Shl8(a: Word): Word { a << 8 }

  function Low8(a: Word): bv8 { (a & 0xff) as bv8 }

  function Wide(b: bv8): Word { b as bv64 }

  predicate Odd(a: Word) { a & 1 == 1 }

  predicate HasTop(a: Word) { a & TOP != 0 }

  lemma XorAssoc(a: Word, b: Word, c: Word)
    ensures Xor(Xor(a, b), c) == Xor(a, Xor(b, c))
  {
  }

  lemma XorZero(a: Word)
    ensures Xor(a, 0) == a && Xor(0, a) == a && Xor(a, a) == 0
  {
  }

  lemma XorComm(a: Word, b: Word)
    ensures Xor(a, b) == Xor(b, a)
  {
  }

  lemma XorSwap(a: Word, b: Word, c: Word, d: Word)
    ensures Xor(Xor(a, b), Xor(c, d)) == Xor(Xor(a, c), Xor(b, d))
  {
    hide Xor;
    XorAssoc(a, b, Xor(c, d));
    XorAssoc(b, c, d);
    XorComm(b, c);
    XorAssoc(c, b, d);
    XorAssoc(a, c, Xor(b, d));
  }

  lemma XorCancel(a: Word, b: Word)
    ensures Xor(a, b) == 0 ==> a == b
  {
  }

  lemma HalfXor(a: Word, b: Word)
    ensures Half(Xor(a, b)) == Xor(Half(a), Half(b))
  {
  }

  lemma OddXor(a: Word, b: Word)
    ensures Odd(Xor(a, b)) == (Odd(a) != Odd(b))
  {
  }

  // ---------------------------------------------------------------- one reflected step

  function Carry(a: Word): Word { if Odd(a) then REFLECTED_POLY else 0 }

  /** Division by the polynomial, one bit, in reflected form. */
  function Step(a: Word): Word { Xor(Half(a), Carry(a)) }

  function Steps(a: Word, n: nat): Word {
    if n == 0 then a else Step(Steps(a, n - 1))
  }

  lemma CarryXor(a: Word, b: Word)
    ensures Carry(Xor(a, b)) == Xor(Carry(a), Carry(b))
  {
    hide Odd, Xor;
    OddXor(a, b);
    XorZero(REFLECTED_POLY);
    XorZero(0);
  }

  lemma StepXor(a: Word, b: Word)
    ensures Step(Xor(a, b)) == Xor(Step(a), Step(b))
  {
    hide Xor, Half, Carry;
    HalfXor(a, b);
    CarryXor(a, b);
    XorSwap(Half(a), Half(b), Carry(a), Carry(b));
  }

  /** The steps are linear over GF(2). */
  lemma {:induction false} StepsXor(a: Word, b: Word, n: nat)
    ensures Steps(Xor(a, b), n) == Xor(Steps(a, n), Steps(b, n))
  {
    hide Xor, Step;
    if n > 0 {
      StepsXor(a, b, n - 1);
      StepXor(Steps(a, n - 1), Steps(b, n - 1));
    }
  }

  lemma {:induction false} StepsAdd(a: Word, m: nat, n: nat)
    ensures Steps(Steps(a, m), n) == Steps(a, m + n)
  {
    hide Step;
    if n > 0 {
      StepsAdd(a, m, n - 1);
    }
  }

  /** No two words have the same successor. */
  lemma StepInjective(a: Word, b: Word)
    requires Step(a) == Step(b)
    ensures a == b
  {
    StepXor(a, b);
    XorZero(Step(a));
    StepKernel(Xor(a, b));
    XorCancel(a, b);
  }

  lemma StepKernel(a: Word)
    requires Step(a) == 0
    ensures a == 0
  {
  }

  lemma {:induction false} StepsInjective(a: Word, b: Word, n: nat)
    requires Steps(a, n) == Steps(b, n)
    ensures a == b
  {
    hide Step;
    if n > 0 {
      StepInjective(Steps(a, n - 1), Steps(b, n - 1));
      StepsInjective(a, b, n - 1);
    }
  }

  // ------------------------------------------------------------------- bytes of a word

  predicate Small(a: Word) { Shr8(Shl8(a)) == a }

  lemma StepDbl(a: Word)
    requires !HasTop(a)
    ensures Step(Dbl(a)) == a
  {
  }

  /** A byte shifted in at the top falls out unchanged after eight steps. */
  lemma StepsShl8(a: Word)
    requires Small(a)
    ensures Steps(Shl8(a), 8) == a
  {
    var b := Dbl(Dbl(Dbl(Dbl(a))));
    Doubles(a);
    hide Step, Dbl, Shl8, HasTop;
    var c := Dbl(Dbl(Dbl(Dbl(b))));
    StepDbl(Dbl(Dbl(Dbl(b)))); StepDbl(Dbl(Dbl(b))); StepDbl(Dbl(b)); StepDbl(b);
    StepDbl(Dbl(Dbl(Dbl(a)))); StepDbl(Dbl(Dbl(a))); StepDbl(Dbl(a)); StepDbl(a);
    assert Steps(c, 2) == Step(Step(c));
    assert Steps(c, 4) == Step(Step(Steps(c, 2)));
    assert Steps(c, 6) == Step(Step(Steps(c, 4)));
    assert Steps(c, 8) == Step(Step(Steps(c, 6)));
  }

  lemma Doubles(a: Word)
    requires Small(a)
    ensures Shl8(a) == Dbl(Dbl(Dbl(Dbl(Dbl(Dbl(Dbl(Dbl(a))))))))
    ensures !HasTop(a) && !HasTop(Dbl(a)) && !HasTop(Dbl(Dbl(a))) && !HasTop(Dbl(Dbl(Dbl(a))))
    ensures var b := Dbl(Dbl(Dbl(Dbl(a))));
            !HasTop(b) && !HasTop(Dbl(b)) && !HasTop(Dbl(Dbl(b))) && !HasTop(Dbl(Dbl(Dbl(b))))
  {
  }

  lemma SplitByte(a: Word)
    ensures a == Xor(Wide(Low8(a)), Shl8(Shr8(a))) && Small(Shr8(a))
  {
  }

  /** Eight steps by one table look up. */
  lemma ByteByTable(a: Word)
    ensures Steps(a, 8) == Xor(Steps(Wide(Low8(a)), 8), Shr8(a))
  {
    hide Xor, Wide, Low8, Shl8, Shr8, Small, Steps;
    SplitByte(a);
    StepsXor(Wide(Low8(a)), Shl8(Shr8(a)), 8);
    StepsShl8(Shr8(a));
  }

  /** The byte is consumed by the low end of the word alone. */
  lemma XorByte(crc: Word, b: bv8)
    ensures Shr8(Xor(crc, Wide(b))) == Shr8(crc)
  {
  }

  function ByteStep(crc: Word, b: bv8): Word { Steps(Xor(crc, Wide(b)), 8) }

  /** The CRC the tables compute, byte by byte. */
  function Fast(crc: Word, s: seq<bv8>): Word {
    if s == [] then crc else ByteStep(Fast(crc, s[..|s| - 1]), s[|s| - 1])
  }

  lemma {:induction false} FastAppend(crc: Word, a: seq<bv8>, b: seq<bv8>)
    ensures Fast(crc, a + b) == Fast(Fast(crc, a), b)
  {
    hide ByteStep;
    if b == [] {
      assert a + b == a;
    } else {
      var n := |b| - 1;
      assert (a + b)[..|a| + n] == a + b[..n] && (a + b)[|a| + n] == b[n];
      FastAppend(crc, a, b[..n]);
    }
  }

  lemma {:induction false} FastInjective(c: Word, d: Word, s: seq<bv8>)
    requires Fast(c, s) == Fast(d, s)
    ensures c == d
  {
    if s != [] {
      hide Xor, Wide, Steps;
      var n, b := |s| - 1, Wide(s[|s| - 1]);
      var c', d' := Fast(c, s[..n]), Fast(d, s[..n]);
      StepsInjective(Xor(c', b), Xor(d', b), 8);
      XorAssoc(c', b, b);
      XorAssoc(d', b, b);
      XorZero(b);
      XorZero(c');
      XorZero(d');
      FastInjective(c, d, s[..n]);
    }
  }

  // ------------------------------------------------------------------ eight at a time

  /** A little endian load. */
  function Load(s: seq<bv8>): Word {
    if s == [] then 0 else Xor(Wide(s[0]), Shl8(Load(s[1..])))
  }

  function ShrBytes(a: Word, n: nat): Word {
    if n == 0 then a else ShrBytes(Shr8(a), n - 1)
  }

  lemma SevenBytes(a: Word)
    requires ShrBytes(a, 7) == 0
    ensures Small(a)
  {
    hide Shr8, Small;
    var b := Shr8(Shr8(a));
    var c := Shr8(Shr8(b));
    var d := Shr8(Shr8(c));
    assert ShrBytes(a, 7) == ShrBytes(b, 5);
    assert ShrBytes(b, 5) == ShrBytes(c, 3);
    assert ShrBytes(c, 3) == ShrBytes(d, 1) == ShrBytes(Shr8(d), 0);
    SevenShifts(a);
  }

  lemma SevenShifts(a: Word)
    ensures Shr8(Shr8(Shr8(Shr8(Shr8(Shr8(Shr8(a))))))) == a >> 56
    ensures a >> 56 == 0 ==> Small(a)
  {
  }

  lemma ShrPush(b: bv8, a: Word)
    requires Small(a)
    ensures Shr8(Xor(Wide(b), Shl8(a))) == a
  {
  }

  lemma {:induction false} ShrZero(n: nat)
    ensures ShrBytes(0, n) == 0
  {
    if n > 0 {
      ShrZero(n - 1);
    }
  }

  lemma {:induction false} ShrMore(a: Word, m: nat, n: nat)
    requires m <= n && ShrBytes(a, m) == 0
    ensures ShrBytes(a, n) == 0
    decreases m
  {
    hide Shr8;
    if m == 0 {
      ShrZero(n);
    } else {
      ShrMore(Shr8(a), m - 1, n - 1);
    }
  }

  /** Seven bytes leave the top byte of the word free. */
  lemma {:induction false} LoadSmall(s: seq<bv8>)
    requires |s| <= 7
    ensures Small(Load(s)) && ShrBytes(Load(s), |s|) == 0
  {
    hide Xor, Wide, Shl8, Shr8, Small;
    if s == [] {
      ShrZero(7);
    } else {
      LoadSmall(s[1..]);
      ShrPush(s[0], Load(s[1..]));
    }
    ShrMore(Load(s), |s|, 7);
    SevenBytes(Load(s));
  }

  lemma FastFirst(crc: Word, s: seq<bv8>)
    requires s != []
    ensures Fast(crc, s) == Fast(ByteStep(crc, s[0]), s[1..])
  {
    hide ByteStep;
    assert s == [s[0]] + s[1..] && [s[0]][..0] == [];
    FastAppend(crc, [s[0]], s[1..]);
    assert Fast(crc, [s[0]]) == ByteStep(Fast(crc, []), s[0]);
  }

  /** Taking the bytes one by one is taking the word at once. */
  lemma {:induction false} WordByBytes(crc: Word, s: seq<bv8>)
    requires |s| <= 8
    ensures Steps(Xor(crc, Load(s)), 8 * |s|) == Fast(crc, s)
    decreases |s|
  {
    hide Xor, Wide, Shl8, Steps, ByteStep, Small;
    if s == [] {
      XorZero(crc);
      StepsNone(crc);
    } else {
      var b, v := Wide(s[0]), Load(s[1..]);
      LoadSmall(s[1..]);
      XorAssoc(crc, b, Shl8(v));
      StepsXor(Xor(crc, b), Shl8(v), 8);
      StepsShl8(v);
      StepsAdd(Xor(crc, Load(s)), 8, 8 * (|s| - 1));
      ByteStepIs(crc, s[0]);
      WordByBytes(ByteStep(crc, s[0]), s[1..]);
      FastFirst(crc, s);
    }
  }

  lemma StepsNone(a: Word)
    ensures Steps(a, 0) == a
  {
  }

  lemma ByteStepIs(crc: Word, b: bv8)
    ensures ByteStep(crc, b) == Steps(Xor(crc, Wide(b)), 8)
  {
  }

  /** One byte by its table, the others later. */
  lemma SliceOne(a: Word, n: nat)
    ensures Steps(a, 8 * (n + 1)) == Xor(Steps(Wide(Low8(a)), 8 * (n + 1)), Steps(Shr8(a), 8 * n))
  {
    hide Xor, Wide, Low8, Shr8, Steps;
    ByteByTable(a);
    StepsAdd(a, 8, 8 * n);
    StepsXor(Steps(Wide(Low8(a)), 8), Shr8(a), 8 * n);
    StepsAdd(Wide(Low8(a)), 8, 8 * n);
  }

  // ------------------------------------------------------------------- the fast form

  /** table[k][n] is the byte n run through k + 1 bytes of zeros. */
  ghost predicate Filled(table: array2<Word>)
    reads table
  {
    && table.Length0 == 8 && table.Length1 == 256
    && forall k, n :: 0 <= k < 8 && 0 <= n < 256 ==> table[k, n] == Steps(Wide(n as bv8), 8 * (k + 1))
  }

  method LookUp(table: array2<Word>, k: nat, b: bv8) returns (r: Word)
    requires Filled(table) && k < 8
    ensures r == Steps(Wide(b), 8 * (k + 1))
  {
    hide Steps, Wide;
    ByteIndex(b);
    r := table[k, b as int];
  }

  lemma ByteIndex(b: bv8)
    ensures 0 <= b as int < 256 && (b as int) as bv8 == b
  {
  }

  /** One byte through the first table. */
  method TableByte(table: array2<Word>, crc: Word, b: bv8) returns (r: Word)
    requires Filled(table)
    ensures r == ByteStep(crc, b)
  {
    hide Steps, Wide, Xor, Low8, Shr8, Filled;
    XorByte(crc, b);
    ByteByTable(Xor(crc, Wide(b)));
    var t := LookUp(table, 0, Low8(Xor(crc, Wide(b))));
    r := Xor(t, Shr8(crc));
  }

  /** Eight bytes through the eight tables. */
  method TableWord(table: array2<Word>, crc: Word, s: seq<bv8>) returns (r: Word)
    requires Filled(table) && |s| == 8
    ensures r == Fast(crc, s)
  {
    hide Steps, Wide, Xor, Low8, Shr8, Filled, Load, Fast;
    var a0 := Xor(crc, Load(s));
    var a1 := Shr8(a0);
    var a2 := Shr8(a1);
    var a3 := Shr8(a2);
    var a4 := Shr8(a3);
    var a5 := Shr8(a4);
    var a6 := Shr8(a5);
    var a7 := Shr8(a6);
    var t7 := LookUp(table, 7, Low8(a0));
    var t6 := LookUp(table, 6, Low8(a1));
    var t5 := LookUp(table, 5, Low8(a2));
    var t4 := LookUp(table, 4, Low8(a3));
    var t3 := LookUp(table, 3, Low8(a4));
    var t2 := LookUp(table, 2, Low8(a5));
    var t1 := LookUp(table, 1, Low8(a6));
    var t0 := LookUp(table, 0, Low8(a7));
    r := Xor(Xor(Xor(Xor(Xor(Xor(Xor(t7, t6), t5), t4), t3), t2), t1), t0);
    WordByBytes(crc, s);
    SliceTwo(a0, 6);
    SliceTwo(a2, 4);
    SliceTwo(a4, 2);
    SliceTwo(a6, 0);
    EightShifts(a0);
    StepsNone(Shr8(a7));
    XorChain(t7, t6, t5, t4, t3, t2, t1, t0);
    XorZero(Xor(t1, t0));
  }

  /** Two bytes by their tables, the others later. */
  lemma SliceTwo(a: Word, n: nat)
    ensures Steps(a, 8 * (n + 2)) ==
              Xor(Xor(Steps(Wide(Low8(a)), 8 * (n + 2)), Steps(Wide(Low8(Shr8(a))), 8 * (n + 1))),
                  Steps(Shr8(Shr8(a)), 8 * n))
  {
    hide Xor, Wide, Low8, Shr8, Steps;
    SliceOne(a, n + 1);
    SliceOne(Shr8(a), n);
    XorAssoc(Steps(Wide(Low8(a)), 8 * (n + 2)), Steps(Wide(Low8(Shr8(a))), 8 * (n + 1)), Steps(Shr8(Shr8(a)), 8 * n));
  }

  lemma XorChain(t7: Word, t6: Word, t5: Word, t4: Word, t3: Word, t2: Word, t1: Word, t0: Word)
    ensures Xor(Xor(Xor(Xor(Xor(Xor(Xor(t7, t6), t5), t4), t3), t2), t1), t0)
         == Xor(Xor(t7, t6), Xor(Xor(t5, t4), Xor(Xor(t3, t2), Xor(t1, t0))))
  {
    hide Xor;
    var a := Xor(t7, t6);
    var b := Xor(a, Xor(t5, t4));
    XorAssoc(a, t5, t4);
    XorAssoc(b, t3, t2);
    XorAssoc(Xor(b, Xor(t3, t2)), t1, t0);
    XorAssoc(a, Xor(t5, t4), Xor(t3, t2));
    XorAssoc(a, Xor(Xor(t5, t4), Xor(t3, t2)), Xor(t1, t0));
    XorAssoc(Xor(t5, t4), Xor(t3, t2), Xor(t1, t0));
  }

  lemma EightShifts(a: Word)
    ensures Shr8(Shr8(Shr8(Shr8(Shr8(Shr8(Shr8(Shr8(a)))))))) == 0
  {
  }

  /** crcspeed64little: bytes up to an aligned address, words, and the bytes left over. */
  method CrcSpeed(table: array2<Word>, start: Word, address: nat, s: seq<bv8>) returns (crc: Word)
    requires Filled(table)
    ensures crc == Fast(start, s)
  {
    hide Filled, Fast, ByteStep;
    crc := start;
    var i := 0;
    FastNothing(start, s);
    while i < |s| && (address + i) % 8 != 0
      invariant 0 <= i <= |s| && crc == Fast(start, s[..i])
    {
      FastOne(start, s, i);
      crc := TableByte(table, crc, s[i]);
      i := i + 1;
    }
    while |s| - i >= 8
      invariant 0 <= i <= |s| && crc == Fast(start, s[..i])
    {
      FastEight(start, s, i);
      crc := TableWord(table, crc, s[i..i + 8]);
      i := i + 8;
    }
    while i < |s|
      invariant 0 <= i <= |s| && crc == Fast(start, s[..i])
    {
      FastOne(start, s, i);
      crc := TableByte(table, crc, s[i]);
      i := i + 1;
    }
    assert s[..|s|] == s;
  }

  lemma FastNothing(crc: Word, s: seq<bv8>)
    ensures Fast(crc, s[..0]) == crc
  {
  }

  lemma FastOne(crc: Word, s: seq<bv8>, i: nat)
    requires i < |s|
    ensures Fast(crc, s[..i + 1]) == ByteStep(Fast(crc, s[..i]), s[i])
  {
    hide ByteStep;
    assert s[..i + 1][..i] == s[..i];
  }

  lemma FastEight(crc: Word, s: seq<bv8>, i: nat)
    requires i + 8 <= |s|
    ensures Fast(crc, s[..i + 8]) == Fast(Fast(crc, s[..i]), s[i..i + 8])
  {
    assert s[..i + 8] == s[..i] + s[i..i + 8];
    FastAppend(crc, s[..i], s[i..i + 8]);
  }

  // ------------------------------------------------------------- the bit-by-bit form

  function Push(ret: Word, data: Word): Word { (ret << 1) | (data & 1) }

  /** crc_reflect: n bits of data moved to ret, lowest first. */
  function Reflect(data: Word, ret: Word, n: nat): Word
    decreases n
  {
    if n == 0 then ret else Reflect(Half(data), Push(ret, data), n - 1)
  }

  method CrcReflect(word: Word, width: nat) returns (ret: Word)
    requires width >= 1
    ensures ret == Reflect(word, 0, width)
  {
    var data := word;
    ret := data & 1;
    ReflectFirst(word, width);
    hide Half, Push;
    for i := 1 to width
      invariant Reflect(Half(data), ret, width - i) == Reflect(word, 0, width)
    {
      data := Half(data);
      ret := Push(ret, data);
    }
  }

  lemma ReflectFirst(word: Word, width: nat)
    requires width >= 1
    ensures Reflect(word, 0, width) == Reflect(Half(word), word & 1, width - 1)
  {
    assert Push(0, word) == word & 1;
  }

  /** All 64 bits reversed. */
  function Rev(a: Word): Word {
    var a := ((a >> 1) & 0x5555_5555_5555_5555) | ((a & 0x5555_5555_5555_5555) << 1);
    var a := ((a >> 2) & 0x3333_3333_3333_3333) | ((a & 0x3333_3333_3333_3333) << 2);
    var a := ((a >> 4) & 0x0f0f_0f0f_0f0f_0f0f) | ((a & 0x0f0f_0f0f_0f0f_0f0f) << 4);
    var a := ((a >> 8) & 0x00ff_00ff_00ff_00ff) | ((a & 0x00ff_00ff_00ff_00ff) << 8);
    var a := ((a >> 16) & 0x0000_ffff_0000_ffff) | ((a & 0x0000_ffff_0000_ffff) << 16);
    (a >> 32) | (a << 32)
  }

  function RevByte(a: Word): Word {
    var a := ((a >> 1) & 0x55) | ((a & 0x55) << 1);
    var a := ((a >> 2) & 0x33) | ((a & 0x33) << 2);
    ((a >> 4) & 0x0f) | ((a & 0x0f) << 4)
  }

  function PushByte(ret: Word, data: Word): Word { Shl8(ret) | RevByte(data) }

  lemma ReflectTwo(data: Word, ret: Word, n: nat)
    ensures Reflect(data, ret, n + 2) == Reflect(Half(Half(data)), Push(Push(ret, data), Half(data)), n)
  {
    hide Half, Push;
  }

  lemma ReflectEight(data: Word, ret: Word, n: nat)
    ensures Reflect(data, ret, n + 8) == Reflect(Shr8(data), PushByte(ret, data), n)
  {
    hide Half, Push, Reflect, Shr8, PushByte;
    var d2, r2 := Half(Half(data)), Push(Push(ret, data), Half(data));
    var d4, r4 := Half(Half(d2)), Push(Push(r2, d2), Half(d2));
    var d6, r6 := Half(Half(d4)), Push(Push(r4, d4), Half(d4));
    ReflectTwo(data, ret, n + 6);
    ReflectTwo(d2, r2, n + 4);
    ReflectTwo(d4, r4, n + 2);
    ReflectTwo(d6, r6, n);
    EightHalves(data);
    PushFour(data, ret);
    PushFour(d4, r4);
    PushEight(data, ret);
  }

  lemma EightHalves(data: Word)
    ensures Half(Half(Half(Half(Half(Half(Half(Half(data)))))))) == Shr8(data)
    ensures Half(Half(Half(Half(data)))) == data >> 4
  {
  }

  /** Four bits at once. */
  function Nibble(ret: Word, data: Word): Word {
    (ret << 4) | ((data & 1) << 3) | ((data & 2) << 1) | ((data & 4) >> 1) | ((data & 8) >> 3)
  }

  lemma PushFour(data: Word, ret: Word)
    ensures var d2, r2 := Half(Half(data)), Push(Push(ret, data), Half(data));
            Push(Push(r2, d2), Half(d2)) == Nibble(ret, data)
  {
  }

  lemma PushEight(data: Word, ret: Word)
    ensures Nibble(Nibble(ret, data), data >> 4) == PushByte(ret, data)
  {
  }

  /** The loop over all 64 bits is the reversal. */
  lemma ReflectIsRev(a: Word)
    ensures Reflect(a, 0, 64) == Rev(a)
  {
    hide Reflect, Rev, Shr8, PushByte;
    var a1 := Shr8(a);
    var a2 := Shr8(a1);
    var a3 := Shr8(a2);
    var a4 := Shr8(a3);
    var a5 := Shr8(a4);
    var a6 := Shr8(a5);
    var a7 := Shr8(a6);
    var r1 := PushByte(0, a);
    var r2 := PushByte(r1, a1);
    var r3 := PushByte(r2, a2);
    var r4 := PushByte(r3, a3);
    var r5 := PushByte(r4, a4);
    var r6 := PushByte(r5, a5);
    var r7 := PushByte(r6, a6);
    ReflectEight(a, 0, 56);
    ReflectEight(a1, r1, 48);
    ReflectEight(a2, r2, 40);
    ReflectEight(a3, r3, 32);
    ReflectEight(a4, r4, 24);
    ReflectEight(a5, r5, 16);
    ReflectEight(a6, r6, 8);
    ReflectEight(a7, r7, 0);
    ReflectNone(Shr8(a7), PushByte(r7, a7));
    RevByBytes(a);
  }

  lemma ReflectNone(data: Word, ret: Word)
    ensures Reflect(data, ret, 0) == ret
  {
  }

  lemma RevByBytes(a: Word)
    ensures var a1 := Shr8(a); var a2 := Shr8(a1); var a3 := Shr8(a2); var a4 := Shr8(a3);
            var a5 := Shr8(a4); var a6 := Shr8(a5); var a7 := Shr8(a6);
            var r1 := PushByte(0, a); var r2 := PushByte(r1, a1); var r3 := PushByte(r2, a2);
            var r4 := PushByte(r3, a3); var r5 := PushByte(r4, a4); var r6 := PushByte(r5, a5);
            var r7 := PushByte(r6, a6);
            PushByte(r7, a7) == Rev(a)
  {
  }

  lemma RevDbl(a: Word)
    ensures Rev(Dbl(a)) == Half(Rev(a))
  {
    RevShift(a);
    hide Rev;
  }

  lemma RevShift(a: Word)
    ensures Rev(a << 1) == Rev(a) >> 1
  {
  }

  lemma RevTop(a: Word)
    ensures HasTop(a) == Odd(Rev(a))
  {
  }

  lemma RevXor(a: Word, b: Word)
    ensures Rev(Xor(a, b)) == Xor(Rev(a), Rev(b))
  {
  }

  lemma RevConstants()
    ensures Rev(POLY) == REFLECTED_POLY && Rev(0) == 0
  {
  }

  /** One message bit, most significant end first. */
  function BitStep(crc: Word, b: bool): Word {
    if HasTop(crc) != b then Xor(Dbl(crc), POLY) else Dbl(crc)
  }

  function BitWord(b: bool): Word { if b then 1 else 0 }

  lemma HalfBit(a: Word, b: bool)
    ensures Half(Xor(a, BitWord(b))) == Half(a) && Odd(Xor(a, BitWord(b))) == (Odd(a) != b)
  {
  }

  /** The reversal turns the left shifting form into the right shifting one. */
  lemma RevBitStep(crc: Word, b: bool)
    ensures Rev(BitStep(crc, b)) == Step(Xor(Rev(crc), BitWord(b)))
  {
    hide Rev, Dbl, Half, Odd, HasTop, Xor, BitWord;
    RevDbl(crc);
    RevTop(crc);
    RevXor(Dbl(crc), POLY);
    RevConstants();
    HalfBit(Rev(crc), b);
    XorZero(Half(Rev(crc)));
  }

  /** The mask the inner loop has reached after k bits. */
  function Mask(k: nat): bv8 {
    if k == 0 then 1 else Mask(k - 1) << 1
  }

  function BitSteps(crc: Word, c: bv8, k: nat): Word {
    if k == 0 then crc else BitStep(BitSteps(crc, c, k - 1), c & Mask(k - 1) != 0)
  }

  /** The bits of c from bit k on. */
  function Rest(c: bv8, k: nat): Word {
    if k == 0 then Wide(c) else Half(Rest(c, k - 1))
  }

  lemma Masks()
    ensures Mask(0) == 1 && Mask(1) == 2 && Mask(2) == 4 && Mask(3) == 8
    ensures Mask(4) == 16 && Mask(5) == 32 && Mask(6) == 64 && Mask(7) == 128 && Mask(8) == 0
  {
    assert Mask(2) == 4;
    assert Mask(4) == 16;
    assert Mask(6) == 64;
  }

  lemma Rests(c: bv8)
    ensures Rest(c, 0) == Wide(c) && Rest(c, 1) == Wide(c) >> 1 && Rest(c, 2) == Wide(c) >> 2 && Rest(c, 3) == Wide(c) >> 3
    ensures Rest(c, 4) == Wide(c) >> 4 && Rest(c, 5) == Wide(c) >> 5 && Rest(c, 6) == Wide(c) >> 6 && Rest(c, 7) == Wide(c) >> 7
    ensures Rest(c, 8) == 0
  {
    hide Half, Wide;
    HalfShifts(Wide(c));
    assert Rest(c, 2) == Half(Rest(c, 1));
    assert Rest(c, 4) == Half(Rest(c, 3));
    assert Rest(c, 6) == Half(Rest(c, 5));
    assert Rest(c, 8) == Half(Rest(c, 7));
    WideShift(c);
  }

  lemma HalfShifts(a: Word)
    ensures Half(a) == a >> 1 && Half(a >> 1) == a >> 2 && Half(a >> 2) == a >> 3 && Half(a >> 3) == a >> 4
    ensures Half(a >> 4) == a >> 5 && Half(a >> 5) == a >> 6 && Half(a >> 6) == a >> 7 && Half(a >> 7) == a >> 8
  {
  }

  lemma WideShift(c: bv8)
    ensures Wide(c) >> 8 == 0
  {
  }

  lemma RestBit(c: bv8, k: nat)
    requires k < 8
    ensures Odd(Rest(c, k)) == (c & Mask(k) != 0)
  {
    Masks();
    Rests(c);
    hide Mask, Rest;
    MaskBits(c);
  }

  lemma MaskBits(c: bv8)
    ensures Odd(Wide(c)) == (c & 1 != 0) && Odd(Wide(c) >> 1) == (c & 2 != 0) && Odd(Wide(c) >> 2) == (c & 4 != 0)
    ensures Odd(Wide(c) >> 3) == (c & 8 != 0) && Odd(Wide(c) >> 4) == (c & 16 != 0) && Odd(Wide(c) >> 5) == (c & 32 != 0)
    ensures Odd(Wide(c) >> 6) == (c & 64 != 0) && Odd(Wide(c) >> 7) == (c & 128 != 0)
  {
  }

  lemma HalfSplit(a: Word)
    ensures a == Xor(BitWord(Odd(a)), Dbl(Half(a))) && Step(Dbl(Half(a))) == Half(a)
  {
  }

  /** k message bits in: what is left of the byte still waits above the state. */
  lemma {:induction false} BitsByByte(crc: Word, c: bv8, k: nat)
    requires k <= 8
    ensures Steps(Xor(Rev(crc), Wide(c)), k) == Xor(Rev(BitSteps(crc, c, k)), Rest(c, k))
  {
    hide Rev, Xor, Wide, Half, Dbl, Odd, Step, BitStep, BitWord, Mask;
    if k > 0 {
      BitsByByte(crc, c, k - 1);
      var x, r, b := Rev(BitSteps(crc, c, k - 1)), Rest(c, k - 1), c & Mask(k - 1) != 0;
      RestBit(c, k - 1);
      HalfSplit(r);
      XorAssoc(x, BitWord(b), Dbl(Half(r)));
      StepXor(Xor(x, BitWord(b)), Dbl(Half(r)));
      RevBitStep(BitSteps(crc, c, k - 1), b);
    }
  }

  lemma RevByteSteps(crc: Word, c: bv8)
    ensures Rev(BitSteps(crc, c, 8)) == ByteStep(Rev(crc), c)
  {
    hide Rev, Xor, Wide, BitSteps, Steps, Rest;
    BitsByByte(crc, c, 8);
    RestGone(c);
    XorZero(Rev(BitSteps(crc, c, 8)));
  }

  lemma RestGone(c: bv8)
    ensures Rest(c, 8) == 0
  {
    Rests(c);
  }

  function Slow(crc: Word, s: seq<bv8>): Word {
    if s == [] then crc else BitSteps(Slow(crc, s[..|s| - 1]), s[|s| - 1], 8)
  }

  /** The bit-by-bit state, reversed, is the table driven state from the reversed start. */
  lemma {:induction false} SlowIsFast(crc: Word, s: seq<bv8>)
    ensures Rev(Slow(crc, s)) == Fast(Rev(crc), s)
  {
    hide Rev, BitSteps, ByteStep;
    if s != [] {
      var n := |s| - 1;
      SlowIsFast(crc, s[..n]);
      RevByteSteps(Slow(crc, s[..n]), s[n]);
    }
  }

  /** _crc64 */
  method BitByBit(start: Word, data: seq<bv8>) returns (r: Word)
    ensures r == Rev(Slow(start, data))
  {
    hide BitSteps, Reflect, Rev;
    var crc := start;
    for offset := 0 to |data|
      invariant crc == Slow(start, data[..offset])
    {
      assert data[..offset + 1][..offset] == data[..offset];
      crc := ByteBits(crc, data[offset]);
    }
    assert data[..|data|] == data;
    r := CrcReflect(crc, 64);
    ReflectIsRev(crc);
  }

  method OneBit(start: Word, b: bool) returns (crc: Word)
    ensures crc == BitStep(start, b)
  {
    hide Dbl, Xor, HasTop;
    var bit := HasTop(start);
    if b { bit := !bit; }
    crc := Dbl(start);
    if bit { crc := Xor(crc, POLY); }
  }

  /** The inner loop: a mask runs through the byte and out of it. */
  method ByteBits(start: Word, c: bv8) returns (crc: Word)
    ensures crc == BitSteps(start, c, 8)
  {
    hide BitStep, Mask;
    MaskRuns(0);
    var i: bv8 := 1;
    crc := start;
    ghost var k := 0;
    while i != 0
      invariant k <= 8 && i == Mask(k) && crc == BitSteps(start, c, k)
      decreases 8 - k
    {
      MaskRuns(k);
      crc := OneBit(crc, c & i != 0);
      i, k := i << 1, k + 1;
    }
    MaskRuns(k);
  }

  lemma MaskRuns(k: nat)
    requires k <= 8
    ensures (Mask(k) == 0 <==> k == 8) && Mask(k + 1) == Mask(k) << 1 && Mask(0) == 1
  {
    Masks();
  }

  // ---------------------------------------------------------------------- the tables

  /** crcspeed64little_init */
  method InitTable(table: array2<Word>)
    requires table.Length0 == 8 && table.Length1 == 256
    modifies table
    ensures Filled(table)
  {
    hide Steps, Wide, Xor, Low8, Shr8;
    for n := 0 to 256
      invariant forall m :: 0 <= m < n ==> table[0, m] == Steps(Wide(m as bv8), 8)
    {
      var crc := BitByBit(0, [n as bv8]);
      SingleByte(n as bv8);
      table[0, n] := crc;
    }
    for n := 0 to 256
      invariant forall m :: 0 <= m < 256 ==> table[0, m] == Steps(Wide(m as bv8), 8)
      invariant forall k, m :: 0 <= k < 8 && 0 <= m < n ==> table[k, m] == Steps(Wide(m as bv8), 8 * (k + 1))
    {
      FillRow(table, n);
    }
  }

  lemma SingleByte(b: bv8)
    ensures Rev(Slow(0, [b])) == Steps(Wide(b), 8)
  {
    hide Rev, Slow, Steps, Wide, Xor;
    SlowIsFast(0, [b]);
    RevConstants();
    assert [b][..0] == [];
    assert Fast(0, [b]) == ByteStep(Fast(0, []), b);
    XorZero(Wide(b));
  }

  /** The other seven entries for one byte, each from the one before. */
  method FillRow(table: array2<Word>, n: nat)
    requires table.Length0 == 8 && table.Length1 == 256 && n < 256
    requires forall m :: 0 <= m < 256 ==> table[0, m] == Steps(Wide(m as bv8), 8)
    modifies table
    ensures forall k :: 0 <= k < 8 ==> table[k, n] == Steps(Wide(n as bv8), 8 * (k + 1))
    ensures forall m :: 0 <= m < 256 ==> table[0, m] == old(table[0, m])
    ensures forall k, m :: 0 <= k < 8 && 0 <= m < 256 && m != n ==> table[k, m] == old(table[k, m])
  {
    hide Steps, Wide, Xor, Low8, Shr8;
    var crc := table[0, n];
    for k := 1 to 8
      invariant crc == Steps(Wide(n as bv8), 8 * k)
      invariant forall j :: 0 <= j < k ==> table[j, n] == Steps(Wide(n as bv8), 8 * (j + 1))
      invariant forall m :: 0 <= m < 256 ==> table[0, m] == old(table[0, m])
      invariant forall j, m :: 0 <= j < 8 && 0 <= m < 256 && m != n ==> table[j, m] == old(table[j, m])
    {
      ByteIndex(Low8(crc));
      ByteByTable(crc);
      StepsAdd(Wide(n as bv8), 8 * k, 8);
      crc := Xor(table[0, Low8(crc) as int], Shr8(crc));
      table[k, n] := crc;
    }
  }

  // -------------------------------------------------------------------- main results

  /** crc64 computes what _crc64 computes from the same start, exactly when that start is its own reversal. */
  lemma SameExactly(crc: Word, s: seq<bv8>)
    ensures Rev(Slow(crc, s)) == Fast(crc, s) <==> Rev(crc) == crc
  {
    hide Rev;
    SlowIsFast(crc, s);
    if Fast(Rev(crc), s) == Fast(crc, s) {
      FastInjective(Rev(crc), crc, s);
    }
  }

  /** From zero the two always agree, and the fast form can be continued piece by piece. */
  lemma FastRefinesSlow(a: seq<bv8>, b: seq<bv8>)
    ensures Rev(Slow(0, a)) == Fast(0, a)
    ensures Fast(Fast(0, a), b) == Fast(0, a + b) == Rev(Slow(0, a + b))
  {
    hide Rev, Slow, Fast;
    SlowIsFast(0, a);
    SlowIsFast(0, a + b);
    RevConstants();
    FastAppend(0, a, b);
  }

  // -------------------------------------------------------------------- the check value

  function Two(a: Word): Word { Step(Step(a)) }

  lemma EightSteps(a: Word)
    ensures Steps(a, 8) == Two(Two(Two(Two(a))))
  {
    hide Step;
    assert Steps(a, 1) == Step(a);
    assert Steps(a, 2) == Two(a);
    assert Steps(a, 4) == Two(Steps(a, 2));
    assert Steps(a, 6) == Two(Steps(a, 4));
    assert Steps(a, 8) == Two(Steps(a, 6));
  }

  lemma ByteFrom(crc: Word, b: bv8, next: Word)
    requires Two(Two(Two(Two(Xor(crc, Wide(b)))))) == next
    ensures ByteStep(crc, b) == next
  {
    hide Step, Xor, Wide, Two;
    EightSteps(Xor(crc, Wide(b)));
  }

  lemma FastNext(crc: Word, s: seq<bv8>, b: bv8, next: Word)
    requires ByteStep(Fast(crc, s), b) == next
    ensures Fast(crc, s + [b]) == next
  {
    hide ByteStep;
    assert (s + [b])[..|s|] == s;
  }

  const CheckText: seq<bv8> := [0x31, 0x32, 0x33, 0x34, 0x35, 0x36, 0x37, 0x38, 0x39]

  lemma CheckBytes()
    ensures ByteStep(0x0000_0000_0000_0000, 0x31) == 0xfdc1_7184_a9f7_39fa
    ensures ByteStep(0xfdc1_7184_a9f7_39fa, 0x32) == 0xe103_6451_3a98_ed96
    ensures ByteStep(0xe103_6451_3a98_ed96, 0x33) == 0xd5bc_fb81_4479_b1ac
    ensures ByteStep(0xd5bc_fb81_4479_b1ac, 0x34) == 0x4359_3c5d_cda5_21f0
    ensures ByteStep(0x4359_3c5d_cda5_21f0, 0x35) == 0xf075_8513_239c_7e0d
    ensures ByteStep(0xf075_8513_239c_7e0d, 0x36) == 0xa3a9_0925_b2ab_4903
    ensures ByteStep(0xa3a9_0925_b2ab_4903, 0x37) == 0x4782_4d36_2431_ad45
    ensures ByteStep(0x4782_4d36_2431_ad45, 0x38) == 0x49ec_20b3_15e8_6dc2
    ensures ByteStep(0x49ec_20b3_15e8_6dc2, 0x39) == 0xe9c6_d914_c4b8_d9ca
  {
    ByteFrom(0x0000_0000_0000_0000, 0x31, 0xfdc1_7184_a9f7_39fa);
    ByteFrom(0xfdc1_7184_a9f7_39fa, 0x32, 0xe103_6451_3a98_ed96);
    ByteFrom(0xe103_6451_3a98_ed96, 0x33, 0xd5bc_fb81_4479_b1ac);
    ByteFrom(0xd5bc_fb81_4479_b1ac, 0x34, 0x4359_3c5d_cda5_21f0);
    ByteFrom(0x4359_3c5d_cda5_21f0, 0x35, 0xf075_8513_239c_7e0d);
    ByteFrom(0xf075_8513_239c_7e0d, 0x36, 0xa3a9_0925_b2ab_4903);
    ByteFrom(0xa3a9_0925_b2ab_4903, 0x37, 0x4782_4d36_2431_ad45);
    ByteFrom(0x4782_4d36_2431_ad45, 0x38, 0x49ec_20b3_15e8_6dc2);
    ByteFrom(0x49ec_20b3_15e8_6dc2, 0x39, 0xe9c6_d914_c4b8_d9ca);
  }

  /** Of the text "123456789" both forms give the check value of this CRC. */
  lemma CheckValue()
    ensures Fast(0, CheckText) == Rev(Slow(0, CheckText)) == 0xe9c6_d914_c4b8_d9ca
  {
    hide Rev, Slow, Fast, ByteStep;
    CheckBytes();
    FastNone(0);
    var s: seq<bv8> := [];
    FastNext(0, s, 0x31, 0xfdc1_7184_a9f7_39fa);
    s := s + [0x31];
    FastNext(0, s, 0x32, 0xe103_6451_3a98_ed96);
    s := s + [0x32];
    FastNext(0, s, 0x33, 0xd5bc_fb81_4479_b1ac);
    s := s + [0x33];
    FastNext(0, s, 0x34, 0x4359_3c5d_cda5_21f0);
    s := s + [0x34];
    FastNext(0, s, 0x35, 0xf075_8513_239c_7e0d);
    s := s + [0x35];
    FastNext(0, s, 0x36, 0xa3a9_0925_b2ab_4903);
    s := s + [0x36];
    FastNext(0, s, 0x37, 0x4782_4d36_2431_ad45);
    s := s + [0x37];
    FastNext(0, s, 0x38, 0x49ec_20b3_15e8_6dc2);
    s := s + [0x38];
    FastNext(0, s, 0x39, 0xe9c6_d914_c4b8_d9ca);
    s := s + [0x39];
    assert s == CheckText;
    FastRefinesSlow(CheckText, []);
  }

  lemma FastNone(crc: Word)
    ensures Fast(crc, []) == crc
  {
  }
}
