/** BITFIELD: integers of any width at any bit offset, with wrap, saturate and fail arithmetic. */
module Bitfield {
  import opened Options
  import opened Bytes

  const TWO63 := 0x8000_0000_0000_0000
  const TWO64 := 0x1_0000_0000_0000_0000

  // ---------------------------------------------------------------------- bits and values

  /** Bit o of the string, counted from the top bit of the first byte; zero behind the end. */
  predicate Bit(s: seq<bv8>, o: nat) {
    o / 8 < |s| && TestByte(s[o / 8], 7 - o % 8)
  }

  function Pow2(n: nat): (p: nat)
    ensures p >= 1
  {
    if n == 0 then 1 else 2 * Pow2(n - 1)
  }

  /** The unsigned number in `bits` bits from `offset`, most significant first. */
  function Unsigned(s: seq<bv8>, offset: nat, bits: nat): (v: nat)
    ensures v < Pow2(bits)
  {
    if bits == 0 then 0 else 2 * Unsigned(s, offset, bits - 1) + BitNat(Bit(s, offset + bits - 1))
  }

  /** Two's complement. */
  function Signed(s: seq<bv8>, offset: nat, bits: nat): int
    requires bits >= 1
  {
    ToSigned(Unsigned(s, offset, bits), bits)
  }

  function ToSigned(u: nat, bits: nat): int
    requires bits >= 1
  {
    if u >= Pow2(bits - 1) then u - Pow2(bits) else u
  }

  // ------------------------------------------------------------- binary digits of integers

  /** x modulo 2^n; for the machine, the n low bits of x. */
  function Low(x: int, n: nat): (r: nat)
    ensures r < Pow2(n)
    decreases n
  {
    if n == 0 then 0 else x % 2 + 2 * Low(x / 2, n - 1)
  }

  /** x shifted right by n bits, towards minus infinity. */
  function Shift(x: int, n: nat): int
    decreases n
  {
    if n == 0 then x else Shift(x / 2, n - 1)
  }

  /** Binary digit k. */
  predicate Digit(x: int, k: nat) { Shift(x, k) % 2 == 1 }

  /** Low is the remainder of the division by 2^n. */
  lemma {:induction false} LowIs(x: int, n: nat)
    ensures x == Low(x, n) + Pow2(n) * Shift(x, n)
    decreases n
  {
    if n > 0 {
      LowIs(x / 2, n - 1);
      assert 2 * (Pow2(n - 1) * Shift(x, n)) == Pow2(n) * Shift(x, n);
    }
  }

  lemma {:induction false} LowSmall(x: nat, n: nat)
    requires x < Pow2(n)
    ensures Low(x, n) == x
    decreases n
  {
    if n > 0 { LowSmall(x / 2, n - 1); }
  }

  /** Cutting to more bits first does not matter. */
  lemma {:induction false} LowLow(x: int, m: nat, n: nat)
    requires n <= m
    ensures Low(Low(x, m), n) == Low(x, n)
    decreases n
  {
    if n > 0 {
      LowLow(x / 2, m - 1, n - 1);
      assert Low(x, m) / 2 == Low(x / 2, m - 1) && Low(x, m) % 2 == x % 2;
    }
  }

  lemma {:induction false} LowAddCarry(x: int, y: int, c: int, n: nat)
    requires 0 <= c <= 1
    ensures Low(Low(x, n) + Low(y, n) + c, n) == Low(x + y + c, n)
    decreases n
  {
    if n > 0 {
      var d := (x % 2 + y % 2 + c) / 2;
      LowAddCarry(x / 2, y / 2, d, n - 1);
      LowAddStep(x, y, c, d, n);
    }
  }

  lemma LowAddStep(x: int, y: int, c: int, d: int, n: nat)
    requires n > 0 && d == (x % 2 + y % 2 + c) / 2
    requires Low(Low(x / 2, n - 1) + Low(y / 2, n - 1) + d, n - 1) == Low(x / 2 + y / 2 + d, n - 1)
    ensures Low(Low(x, n) + Low(y, n) + c, n) == Low(x + y + c, n)
  {
    hide Low;
    LowHalves(x, n);
    LowHalves(y, n);
    LowSum(x, y, x % 2, y % 2, x / 2, y / 2, c, n);
    LowSum(Low(x, n), Low(y, n), x % 2, y % 2, Low(x / 2, n - 1), Low(y / 2, n - 1), c, n);
  }

  lemma LowHalves(x: int, n: nat)
    requires n > 0
    ensures Low(x, n) % 2 == x % 2 && Low(x, n) / 2 == Low(x / 2, n - 1)
  {
  }

  lemma LowSum(x: int, y: int, i: int, j: int, p: int, q: int, c: int, n: nat)
    requires n > 0 && x % 2 == i && y % 2 == j && x / 2 == p && y / 2 == q
    ensures Low(x + y + c, n) == (i + j + c) % 2 + 2 * Low(p + q + (i + j + c) / 2, n - 1)
  {
    var s := x + y + c;
    assert s % 2 == (i + j + c) % 2 && s / 2 == p + q + (i + j + c) / 2;
  }

  lemma LowAdd(x: int, y: int, n: nat)
    ensures Low(Low(x, n) + Low(y, n), n) == Low(x + y, n)
  {
    LowAddCarry(x, y, 0, n);
  }

  lemma {:induction false} ShiftMore(x: int, n: nat)
    ensures Shift(x, n + 1) == Shift(x, n) / 2
    decreases n
  {
    if n > 0 { ShiftMore(x / 2, n - 1); }
  }

  /** The top digit of the low n bits. */
  lemma {:induction false} LowTop(x: int, n: nat)
    ensures Low(x, n + 1) == Low(x, n) + BitNat(Digit(x, n)) * Pow2(n)
    decreases n
  {
    if n > 0 { LowTop(x / 2, n - 1); }
  }

  // ----------------------------------------------------------------------- get and set

  /** Writing the digits of a value from the top; nothing else changes. */
  ghost predicate Stores(before: seq<bv8>, after: seq<bv8>, offset: nat, bits: nat, value: int) {
    |after| == |before| && forall o: nat :: StoresAt(before, after, offset, bits, value, o)
  }

  predicate StoresAt(before: seq<bv8>, after: seq<bv8>, offset: nat, bits: nat, value: int, o: nat) {
    Bit(after, o) == if offset <= o < offset + bits then Digit(value, offset + bits - 1 - o) else Bit(before, o)
  }

  /** The first k digits read back. */
  lemma {:induction false} ReadBack(before: seq<bv8>, s: seq<bv8>, offset: nat, bits: nat, value: int, k: nat)
    requires k <= bits && Stores(before, s, offset, bits, value)
    ensures Unsigned(s, offset, k) == Low(Shift(value, bits - k), k)
  {
    if k > 0 {
      hide Bit;
      ReadBack(before, s, offset, bits, value, k - 1);
      ShiftMore(value, bits - k);
      assert StoresAt(before, s, offset, bits, value, offset + k - 1);
    }
  }

  /** What was set is what is read, modulo 2^bits. */
  lemma GetAfterSet(before: seq<bv8>, after: seq<bv8>, offset: nat, bits: nat, value: int)
    requires Stores(before, after, offset, bits, value)
    ensures Unsigned(after, offset, bits) == Low(value, bits)
  {
    hide Stores;
    ReadBack(before, after, offset, bits, value, bits);
  }

  /** getUnsignedBitfield */
  method GetUnsigned(p: seq<bv8>, offset: nat, bits: nat) returns (value: nat)
    requires offset + bits <= 8 * |p|
    ensures value == Unsigned(p, offset, bits)
  {
    hide TestByte;
    value := 0;
    var o := offset;
    for j := 0 to bits
      invariant o == offset + j && value == Unsigned(p, offset, j)
    {
      value := value * 2 + BitNat(TestByte(p[o / 8], 7 - o % 8));
      o := o + 1;
    }
  }

  /** setUnsignedBitfield, in place. */
  method SetUnsigned(p: array<bv8>, start: nat, bits: nat, value: int)
    requires start + bits <= 8 * p.Length
    modifies p
    ensures Stores(old(p[..]), p[..], start, bits, value)
  {
    hide TestByte, SetByte, ClearByte, Digit, Bit;
    var offset := start;
    ghost var end := start + bits;
    for j := 0 to bits
      invariant offset == start + j
      invariant forall o: nat :: Partly(old(p[..]), p[..], start, offset, end, value, o)
    {
      var byte, bit := offset / 8, 7 - offset % 8;
      ghost var before := p[..];
      var b := ClearByte(p[byte], bit);
      if Digit(value, bits - 1 - j) { b := SetByte(b, bit); }
      p[byte] := b;
      assert p[..] == before[byte := b];
      OneBit(before, offset, b, Digit(value, bits - 1 - j));
      offset := offset + 1;
      forall o: nat ensures Partly(old(p[..]), p[..], start, offset, end, value, o) {
        assert Partly(old(p[..]), before, start, offset - 1, end, value, o);
      }
    }
    forall o: nat ensures StoresAt(old(p[..]), p[..], start, bits, value, o) {
      assert Partly(old(p[..]), p[..], start, offset, end, value, o);
    }
  }

  predicate Partly(before: seq<bv8>, after: seq<bv8>, start: nat, now: nat, end: nat, value: int, o: nat)
    requires now <= end
  {
    Bit(after, o) == if start <= o < now then Digit(value, end - 1 - o) else Bit(before, o)
  }

  /** Replacing one bit of one byte. */
  lemma OneBit(s: seq<bv8>, o: nat, b: bv8, value: bool)
    requires o / 8 < |s|
    requires forall k: nat :: k < 8 ==> TestByte(b, k) == if k == 7 - o % 8 then value else TestByte(s[o / 8], k)
    ensures forall i: nat :: Bit(s[o / 8 := b], i) == if i == o then value else Bit(s, i)
  {
    hide TestByte;
    forall i: nat ensures Bit(s[o / 8 := b], i) == if i == o then value else Bit(s, i) {
      if i / 8 == o / 8 {
        assert i == 8 * (i / 8) + i % 8 && o == 8 * (o / 8) + o % 8;
        assert i % 8 == o % 8 <==> i == o;
      }
    }
  }

  // ------------------------------------------------------------------ overflow checks

  datatype Overflow = Wrap | Sat | Fail

  /** Conversion to and from uint64_t. */
  function U64(x: int): nat { Low(x, 64) }

  function I64(u: int): int { if u >= TWO63 then u - TWO64 else u }

  lemma {:induction false} Pow2Add(m: nat, n: nat)
    ensures Pow2(m + n) == Pow2(m) * Pow2(n)
  {
    if m > 0 {
      Pow2Add(m - 1, n);
    }
  }

  lemma Pow64()
    ensures Pow2(64) == TWO64 && Pow2(63) == TWO63
  {
    assert Pow2(4) == 16;
    Pow2Add(4, 4);
    Pow2Add(8, 8);
    Pow2Add(16, 16);
    Pow2Add(32, 32);
    assert Pow2(64) == 2 * Pow2(63);
  }

  lemma {:induction false} LowPeriod(x: int, n: nat)
    ensures Low(x + Pow2(n), n) == Low(x, n)
    decreases n
  {
    if n > 0 {
      LowPeriod(x / 2, n - 1);
      assert (x + Pow2(n)) / 2 == x / 2 + Pow2(n - 1);
    }
  }

  lemma Pow2Less(m: nat, n: nat)
    requires m < n
    ensures 2 * Pow2(m) <= Pow2(n)
  {
    if m + 1 < n { Pow2Less(m, n - 1); }
  }

  lemma RoundTrip64(x: int)
    requires -TWO63 <= x < TWO63
    ensures I64(U64(x)) == x && U64(x) == if x < 0 then x + TWO64 else x
  {
    Pow64();
    if x < 0 {
      LowPeriod(x, 64);
      LowSmall(x + TWO64, 64);
    } else {
      LowSmall(x, 64);
    }
  }

  /** checkUnsignedBitfieldOverflow: the sign of the overflow and the value to store instead. */
  function CheckUnsigned(value: nat, incr: int, bits: nat, ow: Overflow): (int, Option<int>) {
    var max := if bits == 64 then TWO64 - 1 else Pow2(bits) - 1;
    var maxincr := I64(U64(max - value));
    var minincr := I64(U64(0 - value));
    var wrapped := Low(U64(value + incr), bits);
    if value > max || (incr > 0 && incr > maxincr) then
      (1, match ow case Wrap => Some(wrapped) case Sat => Some(max) case Fail => None)
    else if incr < 0 && incr < minincr then
      (if ow.Wrap? then 1 else -1, match ow case Wrap => Some(wrapped) case Sat => Some(0) case Fail => None)
    else (0, None)
  }

  predicate Int64(x: int) { -TWO63 <= x < TWO63 }

  /** checkSignedBitfieldOverflow; `any` is what wrapping gives in 64 bits, where C leaves a shift undefined. */
  function CheckSigned(value: int, incr: int, bits: nat, ow: Overflow, any: int): (int, Option<int>)
    requires bits >= 1
  {
    var max := if bits == 64 then TWO63 - 1 else Pow2(bits - 1) - 1;
    var min := (0 - max) - 1;
    var maxincr, minincr := I64(U64(max - value)), I64(U64(min - value));
    if value > max || (bits != 64 && incr > maxincr) || (value >= 0 && incr > 0 && incr > maxincr) then
      (1, match ow case Wrap => Some(WrapSigned(value, incr, bits, any)) case Sat => Some(max) case Fail => None)
    else if value < min || (bits != 64 && incr < minincr) || (value < 0 && incr < 0 && incr < minincr) then
      (if ow.Wrap? then 1 else -1,
       match ow case Wrap => Some(WrapSigned(value, incr, bits, any)) case Sat => Some(min) case Fail => None)
    else (0, None)
  }

  /** Unsigned addition, then the sign bit spread upwards or the upper bits masked off. */
  function WrapSigned(value: int, incr: int, bits: nat, any: int): int
    requires bits >= 1
  {
    var c := U64(U64(value) + U64(incr));
    if bits == 64 then any
    else I64(if Digit(c, bits - 1) then Low(c, bits) + (TWO64 - Pow2(bits)) else Low(c, bits))
  }

  // -------------------------------------------------------------- what they compute

  predicate Fits(x: int, signed: bool, bits: nat)
    requires bits >= 1
  {
    if signed then 0 - Pow2(bits - 1) <= x < Pow2(bits - 1) else 0 <= x < Pow2(bits)
  }

  function Clamped(x: int, signed: bool, bits: nat): int
    requires bits >= 1
  {
    if signed then (if x < 0 then 0 - Pow2(bits - 1) else Pow2(bits - 1) - 1)
    else if x < 0 then 0 else Pow2(bits) - 1
  }

  /** The number of the type that is congruent to x modulo 2^bits. */
  function Wrapped(x: int, signed: bool, bits: nat): int
    requires bits >= 1
  {
    if signed then ToSigned(Low(x, bits), bits) else Low(x, bits)
  }

  /** What a field of this type shall hold for the exact result x; None when nothing is stored. */
  function Expected(x: int, signed: bool, bits: nat, ow: Overflow): Option<int>
    requires bits >= 1
  {
    if Fits(x, signed, bits) then Some(x)
    else match ow case Wrap => Some(Wrapped(x, signed, bits)) case Sat => Some(Clamped(x, signed, bits)) case Fail => None
  }

  /** How often a wrapped value went round. */
  function Turns(x: int, signed: bool, bits: nat): int
    requires bits >= 1
  {
    Shift(x, bits) + if signed && Low(x, bits) >= Pow2(bits - 1) then 1 else 0
  }

  /** Wrapping stays in the type and is exact modulo 2^bits. */
  lemma WrappedIs(x: int, signed: bool, bits: nat)
    requires bits >= 1
    ensures Fits(Wrapped(x, signed, bits), signed, bits)
    ensures x == Wrapped(x, signed, bits) + Pow2(bits) * Turns(x, signed, bits)
  {
    LowIs(x, bits);
    WrapTurns(x, signed, bits);
  }

  lemma WrapTurns(x: int, signed: bool, bits: nat)
    requires bits >= 1 && Pow2(bits) == 2 * Pow2(bits - 1) && x == Low(x, bits) + Pow2(bits) * Shift(x, bits)
    ensures Fits(Wrapped(x, signed, bits), signed, bits)
    ensures x == Wrapped(x, signed, bits) + Pow2(bits) * Turns(x, signed, bits)
  {
    hide Low, Pow2, Shift;
    TimesNext(Pow2(bits), Shift(x, bits));
  }

  lemma TimesNext(p: int, q: int)
    ensures p * (q + 1) == p * q + p
  {
  }

  predicate Result(r: (int, Option<int>), x: int, signed: bool, bits: nat, ow: Overflow)
    requires bits >= 1
  {
    && (r.0 == 0 <==> Fits(x, signed, bits))
    && (r.0 != 0 ==> r.1 == Expected(x, signed, bits, ow))
  }

  /** The unsigned check is exact for every value in range and every 64 bit increment, and for SET. */
  lemma UnsignedExact(value: nat, incr: int, bits: nat, ow: Overflow)
    requires 1 <= bits <= 63 && value < TWO64 && -TWO63 <= incr < TWO63
    requires value < Pow2(bits) || incr == 0
    ensures Result(CheckUnsigned(value, incr, bits, ow), value + incr, false, bits, ow)
  {
    hide U64, I64, Low, Pow2;
    Pow64();
    Pow2Less(bits, 64);
    WrapUnsignedIs(value + incr, bits);
    if value < Pow2(bits) {
      RoundTrip64(Pow2(bits) - 1 - value);
      RoundTrip64(0 - value);
    }
  }

  lemma WrapUnsignedIs(x: int, bits: nat)
    requires bits <= 64
    ensures Low(U64(x), bits) == Low(x, bits)
  {
    LowLow(x, 64, bits);
  }

  lemma DigitIsTop(x: int, bits: nat)
    requires bits >= 1
    ensures Digit(x, bits - 1) <==> Low(x, bits) >= Pow2(bits - 1)
  {
    LowTop(x, bits - 1);
  }

  lemma WrapSignedIs(value: int, incr: int, bits: nat, any: int)
    requires 1 <= bits <= 63
    ensures WrapSigned(value, incr, bits, any) == Wrapped(value + incr, true, bits)
  {
    hide Low, Digit;
    var c := U64(U64(value) + U64(incr));
    LowAdd(value, incr, 64);
    LowLow(value + incr, 64, bits);
    DigitIsTop(c, bits);
    Pow64();
    Pow2Less(bits, 64);
    Pow2Less(bits - 1, 63);
    assert Pow2(bits) == 2 * Pow2(bits - 1);
  }

  /** No 64 bit overflow: the distances to the limits are what they look like. */
  lemma Distances(value: int, bits: nat)
    requires 1 <= bits <= 63 && Pow2(bits - 1) - TWO63 <= value <= Pow2(bits - 1)
    ensures var max := Pow2(bits - 1) - 1; var min := 0 - max - 1;
            I64(U64(max - value)) == max - value && I64(U64(min - value)) == min - value
  {
    hide U64, I64;
    Pow64();
    Pow2Less(bits - 1, 63);
    RoundTrip64(Pow2(bits - 1) - 1 - value);
    RoundTrip64(0 - Pow2(bits - 1) - value);
  }

  /** The signed check is exact for every value of the type and every increment. */
  lemma SignedExact(value: int, incr: int, bits: nat, ow: Overflow, any: int)
    requires 1 <= bits <= 63 && Fits(value, true, bits)
    ensures Result(CheckSigned(value, incr, bits, ow, any), value + incr, true, bits, ow)
  {
    hide WrapSigned, Wrapped, U64, I64;
    Pow64();
    Pow2Less(bits - 1, 63);
    Distances(value, bits);
    WrapSignedIs(value, incr, bits, any);
  }

  /** In 64 bits too, but for the number to wrap to. */
  lemma Signed64Exact(value: int, incr: int, ow: Overflow, any: int)
    requires Int64(value) && Int64(incr)
    ensures var r := CheckSigned(value, incr, 64, ow, any);
            && (r.0 == 0 <==> Fits(value + incr, true, 64))
            && (r.0 != 0 ==> r.1 == if ow.Wrap? then Some(any) else Expected(value + incr, true, 64, ow))
  {
    hide U64, I64, Wrapped;
    Pow64();
    if value >= 0 {
      RoundTrip64(TWO63 - 1 - value);
    } else {
      RoundTrip64(0 - TWO63 - value);
    }
  }

  /** The direction reported for an increment of a value of the type; wrapping reports 1 both ways. */
  function Direction(sum: int, signed: bool, bits: nat, ow: Overflow): int
    requires bits >= 1
  {
    if Fits(sum, signed, bits) then 0 else if sum > 0 || ow.Wrap? then 1 else -1
  }

  lemma DirectionExact(value: int, incr: int, signed: bool, bits: nat, ow: Overflow, any: int)
    requires 1 <= bits <= 63 && Fits(value, signed, bits) && Int64(incr)
    ensures (if signed then CheckSigned(value, incr, bits, ow, any) else CheckUnsigned(value, incr, bits, ow)).0
         == Direction(value + incr, signed, bits, ow)
  {
    hide WrapSigned, U64, I64, Low;
    Pow64();
    Pow2Less(bits, 64);
    Pow2Less(bits - 1, 63);
    if signed {
      Distances(value, bits);
    } else {
      RoundTrip64(Pow2(bits) - 1 - value);
      RoundTrip64(0 - value);
    }
  }

  /** The values whose distance to the greatest one of the type is no int64_t. */
  predicate TooLow(value: int, bits: nat)
    requires bits >= 1
  {
    bits < 64 && value < Pow2(bits - 1) - TWO63
  }

  /** There the distance wraps to a negative number, and the value counts as too great. */
  lemma TooLowOverflows(value: int, bits: nat, ow: Overflow, any: int)
    requires bits >= 1 && Int64(value) && TooLow(value, bits)
    ensures CheckSigned(value, 0, bits, ow, any)
         == (1, match ow
                case Wrap => Some(Wrapped(value, true, bits))
                case Sat => Some(Pow2(bits - 1) - 1)
                case Fail => None)
  {
    hide WrapSigned, Wrapped, Low;
    var d := Pow2(bits - 1) - 1 - value;
    Pow64();
    Pow2Less(bits - 1, 63);
    LowSmall(d, 64);
    assert U64(d) == d >= TWO63 && I64(d) < 0;
    WrapSignedIs(value, 0, bits, any);
  }

  /** SET of a signed field gives what it should, except under SAT for a value that is too low. */
  lemma SetSignedExact(value: int, bits: nat, ow: Overflow, any: int)
    requires 1 <= bits <= 64 && Int64(value)
    ensures Result(CheckSigned(value, 0, bits, ow, any), value, true, bits, ow) <==> !(ow.Sat? && TooLow(value, bits))
  {
    hide WrapSigned, Wrapped, U64, I64, CheckSigned;
    Pow64();
    if TooLow(value, bits) {
      Pow2Less(bits - 1, 63);
      TooLowOverflows(value, bits, ow, any);
    } else {
      SetSignedInReach(value, bits, ow, any);
    }
  }

  lemma SetSignedInReach(value: int, bits: nat, ow: Overflow, any: int)
    requires 1 <= bits <= 64 && Int64(value) && !TooLow(value, bits)
    ensures Result(CheckSigned(value, 0, bits, ow, any), value, true, bits, ow)
  {
    hide WrapSigned, Wrapped, U64, I64;
    Pow64();
    if bits == 64 {
      Signed64Exact(value, 0, ow, any);
      return;
    }
    WrapSignedIs(value, 0, bits, any);
    if value < Pow2(bits - 1) {
      Distances(value, bits);
    }
  }

  /** SET i8 with OVERFLOW SAT and the least 64 bit number stores the greatest value of the field. */
  lemma LowestSaturatesHigh(any: int)
    ensures CheckSigned(0 - TWO63, 0, 8, Sat, any) == (1, Some(127))
    ensures Expected(0 - TWO63, true, 8, Sat) == Some(-128)
  {
    hide WrapSigned;
    assert Pow2(4) == 16;
    assert Pow2(7) == 128;
    TooLowOverflows(0 - TWO63, 8, Sat, any);
  }

  // -------------------------------------------------------------------- operations

  lemma {:induction false} DigitLow(x: int, n: nat, k: nat)
    requires k < n
    ensures Digit(Low(x, n), k) == Digit(x, k)
    decreases k
  {
    assert Low(x, n) / 2 == Low(x / 2, n - 1) && Low(x, n) % 2 == x % 2;
    if k > 0 {
      DigitLow(x / 2, n - 1, k - 1);
    }
  }

  /** A cast to uint64_t stores the same field. */
  lemma StoresCast(before: seq<bv8>, after: seq<bv8>, offset: nat, bits: nat, value: int)
    requires bits <= 64 && Stores(before, after, offset, bits, U64(value))
    ensures Stores(before, after, offset, bits, value)
  {
    hide Bit, Digit, Low;
    forall o: nat ensures StoresAt(before, after, offset, bits, value, o) {
      assert StoresAt(before, after, offset, bits, U64(value), o);
      if offset <= o < offset + bits {
        DigitLow(value, 64, offset + bits - 1 - o);
      }
    }
  }

  lemma ToSignedLow(v: int, bits: nat)
    requires bits >= 1 && Fits(v, true, bits)
    ensures ToSigned(Low(v, bits), bits) == v
  {
    assert Pow2(bits) == 2 * Pow2(bits - 1);
    if v < 0 {
      LowPeriod(v, bits);
      LowSmall(v + Pow2(bits), bits);
    } else {
      LowSmall(v, bits);
    }
  }

  /** The field as the type reads it. */
  function Field(s: seq<bv8>, signed: bool, offset: nat, bits: nat): int
    requires bits >= 1
  {
    if signed then Signed(s, offset, bits) else Unsigned(s, offset, bits)
  }

  /** A value of the type comes back as it was stored, signed or not. */
  lemma FieldAfterSet(before: seq<bv8>, after: seq<bv8>, signed: bool, offset: nat, bits: nat, value: int)
    requires bits >= 1 && Stores(before, after, offset, bits, value) && Fits(value, signed, bits)
    ensures Field(after, signed, offset, bits) == value
  {
    hide Stores, Unsigned;
    GetAfterSet(before, after, offset, bits, value);
    if signed {
      ToSignedLow(value, bits);
    } else {
      LowSmall(value, bits);
    }
  }

  /** The widths BITFIELD takes. */
  predicate Width(signed: bool, bits: nat) { 1 <= bits <= if signed then 64 else 63 }

  /** What getSignedBitfield makes of a field; for a negative one of 64 bits C leaves the shift undefined. */
  function ReadAs(field: int, signed: bool, bits: nat, any: int): int {
    if signed && bits == 64 && field < 0 then any else field
  }

  /** The field is read right, whatever the shift gives, if and only if that is not the case. */
  lemma ReadExact(field: int, signed: bool, bits: nat)
    ensures (forall any: int :: Int64(any) ==> ReadAs(field, signed, bits, any) == field) <==>
              !(signed && bits == 64 && field < 0)
  {
    assert ReadAs(field, signed, bits, 0) == if signed && bits == 64 && field < 0 then 0 else field;
  }

  /** Where a shift by 64 is one by 0 all bits are set: the field -5 reads as -1. */
  lemma ShiftedByNothing()
    ensures Fits(-5, true, 64) && ReadAs(-5, true, 64, -1) == -1
  {
    Pow64();
  }

  /** getSignedBitfield: a set top bit is spread to all the bits above. */
  method GetField(p: seq<bv8>, signed: bool, offset: nat, bits: nat, any: int) returns (value: int)
    requires offset + bits <= 8 * |p| && Width(signed, bits)
    ensures value == ReadAs(Field(p, signed, offset, bits), signed, bits, any)
  {
    value := GetUnsigned(p, offset, bits);
    if signed {
      assert Pow2(bits) == 2 * Pow2(bits - 1);
      Pow64();
      if bits < 64 {
        Pow2Less(bits, 64);
        Pow2Less(bits - 1, 63);
      }
      DigitIsTop(value, bits);
      LowSmall(value, bits);
      hide Pow2, Low, Digit, Unsigned;
      if Digit(value, bits - 1) {
        value := if bits == 64 then any else I64(value + (TWO64 - Pow2(bits)));
      }
    }
  }

  /** What INCRBY stores and replies for a value that was read. */
  function IncrOutcome(value: int, incr: int, signed: bool, bits: nat, ow: Overflow, any: int): Option<int>
    requires bits >= 1
  {
    if signed && bits == 64 && ow.Wrap? && !Fits(value + incr, true, 64) then Some(any)
    else Expected(value + incr, signed, bits, ow)
  }

  /** No undefined shift: the width is below 64, or the field is not negative and nothing wraps. */
  predicate IncrDefined(field: int, incr: int, signed: bool, bits: nat, ow: Overflow)
    requires bits >= 1
  {
    signed && bits == 64 ==> field >= 0 && (ow.Wrap? ==> Fits(field + incr, true, 64))
  }

  predicate IncrRight(field: int, incr: int, signed: bool, bits: nat, ow: Overflow, r: int, v: int)
    requires bits >= 1
  {
    IncrOutcome(ReadAs(field, signed, bits, r), incr, signed, bits, ow, v) == Expected(field + incr, signed, bits, ow)
  }

  /** INCRBY is right, whatever the undefined shifts give, if and only if there is none. */
  lemma IncrExact(field: int, incr: int, signed: bool, bits: nat, ow: Overflow)
    requires Width(signed, bits) && Fits(field, signed, bits) && Int64(incr)
    ensures IncrDefined(field, incr, signed, bits, ow) <==>
              forall r: int, v: int :: Int64(r) && Int64(v) ==> IncrRight(field, incr, signed, bits, ow, r, v)
  {
    hide Wrapped;
    if !IncrDefined(field, incr, signed, bits, ow) {
      Pow64();
      hide Pow2;
      if field < 0 {
        var other := if incr == 0 - TWO63 then 1 else -1;
        assert Int64(0) && Int64(other);
        assert IncrOutcome(ReadAs(field, signed, bits, 0), incr, signed, bits, ow, 0) == Some(incr);
        assert IncrOutcome(ReadAs(field, signed, bits, other), incr, signed, bits, ow, 0) == Some(incr + other);
        assert !IncrRight(field, incr, signed, bits, ow, 0, 0) || !IncrRight(field, incr, signed, bits, ow, other, 0);
      } else {
        assert Int64(0) && Int64(1);
        assert IncrOutcome(ReadAs(field, signed, bits, 0), incr, signed, bits, ow, 0) == Some(0);
        assert IncrOutcome(ReadAs(field, signed, bits, 0), incr, signed, bits, ow, 1) == Some(1);
        assert !IncrRight(field, incr, signed, bits, ow, 0, 0) || !IncrRight(field, incr, signed, bits, ow, 0, 1);
      }
    }
  }

  /**
   * INCRBY: the exact sum if it fits, its clamp or its residue if it does not, or nothing at
   * all under FAIL; every bit outside the field stays as it was. `anyRead` and `anyWrap` stand for
   * what the undefined shifts give.
   */
  method IncrBy(p: array<bv8>, signed: bool, offset: nat, bits: nat, incr: int, ow: Overflow, anyRead: int, anyWrap: int)
    returns (reply: Option<int>)
    requires offset + bits <= 8 * p.Length && Width(signed, bits) && Int64(incr) && Int64(anyRead) && Int64(anyWrap)
    modifies p
    ensures var field := old(Field(p[..], signed, offset, bits));
            && reply == IncrOutcome(ReadAs(field, signed, bits, anyRead), incr, signed, bits, ow, anyWrap)
            && (IncrDefined(field, incr, signed, bits, ow) ==> reply == Expected(field + incr, signed, bits, ow))
    ensures if reply.Some? then
              Stores(old(p[..]), p[..], offset, bits, reply.value) && Field(p[..], signed, offset, bits) == reply.value
            else p[..] == old(p[..])
  {
    hide Stores, CheckSigned, CheckUnsigned;
    var value := GetField(p[..], signed, offset, bits, anyRead);
    FieldFits(p[..], signed, offset, bits);
    Pow64();
    IncrChecked(value, incr, signed, bits, ow, anyWrap);
    var check := if signed then CheckSigned(value, incr, bits, ow, anyWrap) else CheckUnsigned(value, incr, bits, ow);
    reply := Store(p, signed, offset, bits, value + incr, check, ow);
  }

  lemma FieldFits(s: seq<bv8>, signed: bool, offset: nat, bits: nat)
    requires bits >= 1
    ensures Fits(Field(s, signed, offset, bits), signed, bits)
  {
    assert Pow2(bits) == 2 * Pow2(bits - 1);
    hide Unsigned;
  }

  /** The number to store once the check is made. */
  function Outcome(check: (int, Option<int>), x: int): Option<int> { if check.0 == 0 then Some(x) else check.1 }

  lemma IncrChecked(value: int, incr: int, signed: bool, bits: nat, ow: Overflow, any: int)
    requires Width(signed, bits) && Int64(incr) && Int64(any) && Fits(value, signed, bits)
    ensures signed || value >= 0
    ensures var check := if signed then CheckSigned(value, incr, bits, ow, any) else CheckUnsigned(value, incr, bits, ow);
            var e := IncrOutcome(value, incr, signed, bits, ow, any);
            && Outcome(check, value + incr) == e && (e.None? <==> check.0 != 0 && ow == Fail)
            && (e.Some? ==> Fits(e.value, signed, bits))
  {
    hide CheckSigned, CheckUnsigned, Wrapped;
    Pow64();
    ExpectedFits(value + incr, signed, bits, ow);
    if !signed {
      Pow2Less(bits, 64);
      UnsignedExact(value, incr, bits, ow);
    } else if bits == 64 {
      Signed64Exact(value, incr, ow, any);
    } else {
      SignedExact(value, incr, bits, ow, any);
    }
  }

  /** The common end of SET and INCRBY: the new value or its replacement is written, unless FAIL forbids it. */
  method Store(p: array<bv8>, signed: bool, offset: nat, bits: nat, x: int, check: (int, Option<int>), ow: Overflow)
    returns (stored: Option<int>)
    requires offset + bits <= 8 * p.Length && Width(signed, bits)
    requires Outcome(check, x).None? <==> check.0 != 0 && ow == Fail
    requires Outcome(check, x).Some? ==> Fits(Outcome(check, x).value, signed, bits)
    modifies p
    ensures stored == Outcome(check, x)
    ensures if stored.Some? then
              Stores(old(p[..]), p[..], offset, bits, stored.value) && Field(p[..], signed, offset, bits) == stored.value
            else p[..] == old(p[..])
  {
    hide Stores, Low, Unsigned, Fits;
    stored := Some(x);
    if check.0 != 0 { stored := check.1; }
    if check.0 != 0 && ow == Fail { return; }
    SetUnsigned(p, offset, bits, U64(stored.value));
    StoresCast(old(p[..]), p[..], offset, bits, stored.value);
    FieldAfterSet(old(p[..]), p[..], signed, offset, bits, stored.value);
  }

  lemma ExpectedFits(x: int, signed: bool, bits: nat, ow: Overflow)
    requires bits >= 1
    ensures var e := Expected(x, signed, bits, ow); e.Some? ==> Fits(e.value, signed, bits)
  {
    WrappedIs(x, signed, bits);
    hide Wrapped;
  }

  /** What SET stores: what it should, or the greatest value where a value too low saturates. */
  function SetOutcome(value: int, signed: bool, bits: nat, ow: Overflow): Option<int>
    requires bits >= 1
  {
    if signed && ow.Sat? && TooLow(value, bits) then Some(Pow2(bits - 1) - 1)
    else Expected(if signed then value else U64(value), signed, bits, ow)
  }

  lemma SetOutcomeIs(value: int, signed: bool, bits: nat, ow: Overflow, any: int)
    requires Width(signed, bits) && Int64(value)
    ensures var x := if signed then value else U64(value);
            var check := if signed then CheckSigned(x, 0, bits, ow, any) else CheckUnsigned(x, 0, bits, ow);
            var e := SetOutcome(value, signed, bits, ow);
            && Outcome(check, x) == e && (e.None? <==> check.0 != 0 && ow == Fail)
            && (e.Some? ==> Fits(e.value, signed, bits))
            && (e == Expected(x, signed, bits, ow) <==> !(signed && ow.Sat? && TooLow(value, bits)))
  {
    hide CheckSigned, CheckUnsigned, Low, Wrapped;
    Pow64();
    var x := if signed then value else U64(value);
    ExpectedFits(x, signed, bits, ow);
    if !signed {
      UnsignedExact(x, 0, bits, ow);
    } else if TooLow(value, bits) {
      Pow2Less(bits - 1, 63);
      TooLowOverflows(value, bits, ow, any);
    } else {
      SetSignedInReach(value, bits, ow, any);
    }
  }

  /** SET: like INCRBY, but the number is given and the reply is the old value. */
  method SetField(p: array<bv8>, signed: bool, offset: nat, bits: nat, value: int, ow: Overflow, any: int)
    returns (reply: Option<int>)
    requires offset + bits <= 8 * p.Length && Width(signed, bits) && Int64(value)
    modifies p
    ensures var e := SetOutcome(value, signed, bits, ow);
            && reply == (if e.Some? then Some(ReadAs(old(Field(p[..], signed, offset, bits)), signed, bits, any)) else None)
            && if e.Some? then
                 Stores(old(p[..]), p[..], offset, bits, e.value) && Field(p[..], signed, offset, bits) == e.value
               else p[..] == old(p[..])
    ensures reply.Some? ==>
              (Some(Field(p[..], signed, offset, bits)) == Expected(if signed then value else U64(value), signed, bits, ow)
               <==> !(signed && ow.Sat? && TooLow(value, bits)))
  {
    hide Stores, CheckSigned, CheckUnsigned, Low, Unsigned, Fits, Expected, TooLow;
    var was := GetField(p[..], signed, offset, bits, any);
    Pow64();
    var x := if signed then value else U64(value);
    SetOutcomeIs(value, signed, bits, ow, any);
    var check := if signed then CheckSigned(x, 0, bits, ow, any) else CheckUnsigned(x, 0, bits, ow);
    var stored := Store(p, signed, offset, bits, x, check, ow);
    reply := if stored.Some? then Some(was) else None;
  }

  // ------------------------------------------------------------------------------ GET

  predicate SameBit(s: seq<bv8>, t: seq<bv8>, a: nat, b: nat, i: nat) { Bit(s, a + i) == Bit(t, b + i) }

  lemma {:induction false} SameBits(s: seq<bv8>, t: seq<bv8>, a: nat, b: nat, bits: nat)
    requires forall i: nat :: i < bits ==> SameBit(s, t, a, b, i)
    ensures Unsigned(s, a, bits) == Unsigned(t, b, bits)
  {
    if bits > 0 {
      hide Bit;
      SameBits(s, t, a, b, bits - 1);
      assert SameBit(s, t, a, b, bits - 1);
    }
  }

  /** GET copies nine bytes and reads there what the zero padded string holds. */
  method GetCommand(src: seq<bv8>, signed: bool, offset: nat, bits: nat, any: int) returns (value: int)
    requires Width(signed, bits)
    ensures value == ReadAs(Field(src, signed, offset, bits), signed, bits, any)
  {
    hide TestByte;
    var byte := offset / 8;
    var buf := new bv8[9](_ => 0);
    var i := 0;
    while i < 9 && i + byte < |src|
      invariant 0 <= i <= 9 && (i == 0 || i + byte <= |src|)
      invariant forall j :: 0 <= j < 9 ==> buf[j] == if j < i then src[j + byte] else 0
    {
      buf[i] := src[i + byte];
      i := i + 1;
    }
    var start := offset - byte * 8;
    forall k: nat | k < bits ensures SameBit(buf[..], src, start, offset, k) {
      ZeroByte(7 - (offset + k) % 8);
      WindowBit(offset, byte, k);
    }
    SameBits(buf[..], src, start, offset, bits);
    value := GetField(buf[..], signed, start, bits, any);
  }

  lemma ZeroByte(bit: nat)
    requires bit < 8
    ensures !TestByte(0, bit)
  {
  }

  lemma WindowBit(offset: nat, byte: nat, k: nat)
    requires byte == offset / 8 && k < 64
    ensures (offset - byte * 8 + k) / 8 + byte == (offset + k) / 8 && (offset - byte * 8 + k) / 8 < 9
    ensures (offset - byte * 8 + k) % 8 == (offset + k) % 8
  {
  }
}
