/** redisPopcount: seven words at a time against the plain sum of bits. */
module BitCount {
  import opened Bytes

  // ---------------------------------------------------------------------- plain form

  /** The bits set in a byte; the table bitsinbyte. */
  function Ones(b: bv8): (n: nat)
    ensures n <= 8
  {
    BitNat(TestByte(b, 0)) + BitNat(TestByte(b, 1)) + BitNat(TestByte(b, 2)) + BitNat(TestByte(b, 3)) +
    BitNat(TestByte(b, 4)) + BitNat(TestByte(b, 5)) + BitNat(TestByte(b, 6)) + BitNat(TestByte(b, 7))
  }

  function Pop(s: seq<bv8>): nat {
    if s == [] then 0 else Pop(s[..|s| - 1]) + Ones(s[|s| - 1])
  }

  lemma {:induction false} PopAppend(a: seq<bv8>, b: seq<bv8>)
    ensures Pop(a + b) == Pop(a) + Pop(b)
  {
    hide Ones;
    if b == [] {
      assert a + b == a;
    } else {
      var n := |b| - 1;
      assert (a + b)[..|a| + n] == a + b[..n] && (a + b)[|a| + n] == b[n];
      PopAppend(a, b[..n]);
    }
  }

  // -------------------------------------------------------------------- words of four bytes

  /** Four bytes in one word, the first in the low bits. */
  function Pack(a: bv8, b: bv8, c: bv8, d: bv8): bv32 {
    (a as bv32) | ((b as bv32) << 8) | ((c as bv32) << 16) | ((d as bv32) << 24)
  }

  function Load(s: seq<bv8>): bv32
    requires |s| == 4
  {
    Pack(s[0], s[1], s[2], s[3])
  }

  /** The bits of each pair, each nibble and each byte of a word, counted in place. */
  function Pairs(x: bv32): bv32 { x - ((x >> 1) & 0x55555555) }

  function Nibbles(a: bv32): bv32 { (a & 0x33333333) + ((a >> 2) & 0x33333333) }

  function Octets(a: bv32): bv32 { (a + (a >> 4)) & 0x0F0F0F0F }

  /** The three steps on one word. */
  function Swar(x: bv32): bv32 { Octets(Nibbles(Pairs(x))) }

  /** The same on a byte. */
  function PairsOf(b: bv8): bv8 { (b & 0x55) + ((b >> 1) & 0x55) }

  function NibblesOf(b: bv8): bv8 { (b & 0x33) + ((b >> 2) & 0x33) }

  function Count(b: bv8): bv8 {
    var a := NibblesOf(PairsOf(b));
    (a & 0x0F) + (a >> 4)
  }

  /** Subtracting the high bit of each pair leaves the pair's count. */
  function PairSums(x: bv32): bv32 { (x & 0x55555555) + ((x >> 1) & 0x55555555) }

  lemma PairsLow(x: bv32)
    ensures Pairs(x) & 0xFFFF == PairSums(x) & 0xFFFF
  {
  }

  lemma PairsHigh(x: bv32)
    ensures Pairs(x) >> 16 == PairSums(x) >> 16
  {
  }

  lemma SameHalves(x: bv32, y: bv32)
    ensures x & 0xFFFF == y & 0xFFFF && x >> 16 == y >> 16 ==> x == y
  {
  }

  lemma PairsAre(x: bv32)
    ensures Pairs(x) == PairSums(x)
  {
    hide *;
    PairsLow(x);
    PairsHigh(x);
    SameHalves(Pairs(x), PairSums(x));
  }

  lemma PairsPack(a: bv8, b: bv8, c: bv8, d: bv8)
    ensures PairSums(Pack(a, b, c, d)) == Pack(PairsOf(a), PairsOf(b), PairsOf(c), PairsOf(d))
  {
  }

  lemma NibblesPack(a: bv8, b: bv8, c: bv8, d: bv8)
    ensures Nibbles(Pack(a, b, c, d)) == Pack(NibblesOf(a), NibblesOf(b), NibblesOf(c), NibblesOf(d))
  {
  }

  /** Both nibbles leave their top bit free. */
  predicate Sparse(a: bv8) { a & 0x88 == 0 }

  lemma OctetsPack(a: bv8, b: bv8, c: bv8, d: bv8)
    requires Sparse(a) && Sparse(b) && Sparse(c) && Sparse(d)
    ensures Octets(Pack(a, b, c, d))
         == Pack((a & 0x0F) + (a >> 4), (b & 0x0F) + (b >> 4), (c & 0x0F) + (c >> 4), (d & 0x0F) + (d >> 4))
  {
  }

  lemma NibblesSparse(b: bv8)
    ensures Sparse(NibblesOf(PairsOf(b)))
  {
  }

  /** One word counted in parallel: each byte of the result counts the bits of that byte. */
  lemma SwarIs(a: bv8, b: bv8, c: bv8, d: bv8)
    ensures Swar(Pack(a, b, c, d)) == Pack(Count(a), Count(b), Count(c), Count(d))
  {
    hide Pack, Pairs, Nibbles, Octets, PairsOf, NibblesOf, Sparse, PairSums;
    PairsAre(Pack(a, b, c, d));
    PairsPack(a, b, c, d);
    NibblesPack(PairsOf(a), PairsOf(b), PairsOf(c), PairsOf(d));
    NibblesSparse(a); NibblesSparse(b); NibblesSparse(c); NibblesSparse(d);
    OctetsPack(NibblesOf(PairsOf(a)), NibblesOf(PairsOf(b)), NibblesOf(PairsOf(c)), NibblesOf(PairsOf(d)));
  }

  // ------------------------------------------------------------------------- sums of words

  /** Bytes that cannot overflow when added, and their sum. */
  predicate Added(a: bv8, b: bv8, p: bv8) { a < 128 && b < 128 && p == a + b }

  lemma AddedZero(a: bv8)
    ensures a < 128 ==> Added(a, 0, a) && Added(0, a, a)
  {
  }

  lemma SumPack(a: bv8, b: bv8, c: bv8, d: bv8, e: bv8, f: bv8, g: bv8, h: bv8)
    ensures a < 128 && b < 128 && c < 128 && e < 128 && f < 128 && g < 128 ==>
              Pack(a, b, c, d) + Pack(e, f, g, h) == Pack(a + e, b + f, c + g, d + h)
  {
  }

  /** Sums of words are sums of their bytes as long as no byte overflows. */
  lemma AddPack(a: bv8, b: bv8, c: bv8, d: bv8, e: bv8, f: bv8, g: bv8, h: bv8, p: bv8, q: bv8, r: bv8, t: bv8)
    requires Added(a, e, p) && Added(b, f, q) && Added(c, g, r) && Added(d, h, t)
    ensures Plus(Pack(a, b, c, d), Pack(e, f, g, h)) == Pack(p, q, r, t)
  {
    hide Pack;
    SumPack(a, b, c, d, e, f, g, h);
  }

  lemma SumTop(a: bv8, b: bv8, c: bv8, d: bv8, e: bv8)
    ensures Pack(a, b, c, d) + Pack(0, 0, 0, e) == Pack(a, b, c, d + e)
  {
  }

  lemma AddTop(a: bv8, b: bv8, c: bv8, d: bv8, e: bv8, p: bv8)
    requires p == d + e
    ensures Plus(Pack(a, b, c, d), Pack(0, 0, 0, e)) == Pack(a, b, c, p)
  {
    hide Pack;
    SumTop(a, b, c, d, e);
  }

  function Plus(x: bv32, y: bv32): bv32 { x + y }

  function Top(x: bv32): bv32 { x >> 24 }

  /** Adding up the bytes below and at each place. */
  function Spread(x: bv32): bv32 { x * 0x01010101 }

  lemma Distribute(x: bv32, y: bv32, p: bv32, q: bv32, r: bv32)
    ensures x * 0x01010101 == p && y * 0x01010101 == q && (x + y) * 0x01010101 == r ==> r == p + q
  {
  }

  lemma SpreadSum(x: bv32, y: bv32)
    ensures Spread(x + y) == Spread(x) + Spread(y)
  {
    Distribute(x, y, Spread(x), Spread(y), Spread(x + y));
  }

  lemma SpreadAdd(x: bv32, y: bv32)
    ensures Spread(Plus(x, y)) == Plus(Spread(x), Spread(y))
  {
    hide Spread;
    SpreadSum(x, y);
  }

  lemma SpreadFirst(a: bv8)
    ensures Spread(Pack(a, 0, 0, 0)) == Pack(a, a, a, a)
  {
  }

  lemma SpreadSecond(b: bv8)
    ensures Spread(Pack(0, b, 0, 0)) == Pack(0, b, b, b)
  {
  }

  lemma SpreadThird(c: bv8)
    ensures Spread(Pack(0, 0, c, 0)) == Pack(0, 0, c, c)
  {
  }

  lemma SpreadFourth(d: bv8)
    ensures Spread(Pack(0, 0, 0, d)) == Pack(0, 0, 0, d)
  {
  }

  lemma SpreadTwo(a: bv8, b: bv8, u: bv8)
    requires Added(a, b, u)
    ensures Spread(Pack(a, b, 0, 0)) == Pack(a, u, u, u)
  {
    SpreadFirst(a);
    SpreadSecond(b);
    AddedZero(a); AddedZero(b); AddedZero(0);
    hide Pack, Spread, Plus;
    AddPack(a, 0, 0, 0, 0, b, 0, 0, a, b, 0, 0);
    SpreadAdd(Pack(a, 0, 0, 0), Pack(0, b, 0, 0));
    AddPack(a, a, a, a, 0, b, b, b, a, u, u, u);
  }

  lemma SpreadThree(a: bv8, b: bv8, c: bv8, u: bv8, v: bv8)
    requires a < 128 && b < 128 && Added(u, c, v) && Spread(Pack(a, b, 0, 0)) == Pack(a, u, u, u)
    ensures Spread(Pack(a, b, c, 0)) == Pack(a, u, v, v)
  {
    SpreadThird(c);
    AddedZero(a); AddedZero(b); AddedZero(c); AddedZero(0); AddedZero(u);
    hide Pack, Spread, Plus;
    AddPack(a, b, 0, 0, 0, 0, c, 0, a, b, c, 0);
    SpreadAdd(Pack(a, b, 0, 0), Pack(0, 0, c, 0));
    AddPack(a, u, u, u, 0, 0, c, c, a, u, v, v);
  }

  lemma SpreadFour(a: bv8, b: bv8, c: bv8, d: bv8, u: bv8, v: bv8, w: bv8)
    requires w == v + d && Spread(Pack(a, b, c, 0)) == Pack(a, u, v, v)
    ensures Spread(Pack(a, b, c, d)) == Pack(a, u, v, w)
  {
    SpreadFourth(d);
    hide Pack, Spread, Plus;
    AddTop(a, b, c, 0, d, d);
    SpreadAdd(Pack(a, b, c, 0), Pack(0, 0, 0, d));
    AddTop(a, u, v, v, d, w);
  }

  lemma PackTop(a: bv8, b: bv8, c: bv8, d: bv8)
    ensures Top(Pack(a, b, c, d)) == d as bv32
  {
  }

  // ----------------------------------------------------------------- bytes as numbers

  lemma CountIs(b: bv8)
    ensures Count(b) as nat == Ones(b)
  {
  }

  lemma Compare(a: bv8, b: bv8)
    ensures a <= b <==> a as nat <= b as nat
  {
  }

  lemma OneMore(a: bv8)
    requires a < 255
    ensures (a + 1) as nat == a as nat + 1
  {
  }

  lemma OneLess(b: bv8)
    requires b > 0
    ensures (b - 1) as nat == b as nat - 1
  {
  }

  lemma Balance(a: bv8, b: bv8)
    ensures (a + 1) + (b - 1) == a + b
  {
  }

  lemma Moved(a: bv8, b: bv8) returns (x: bv8, y: bv8)
    requires a < 255 && b > 0
    ensures x as nat == a as nat + 1 && y as nat == b as nat - 1 && x + y == a + b
  {
    OneMore(a);
    OneLess(b);
    Balance(a, b);
    x, y := a + 1, b - 1;
  }

  lemma Zero(a: bv8, b: bv8)
    requires b == 0
    ensures a + b == a
  {
  }

  lemma {:induction false} AddNat(a: bv8, b: bv8)
    requires a as nat + b as nat < 256
    ensures (a + b) as nat == a as nat + b as nat
    decreases b as nat
  {
    if b == 0 {
      Zero(a, b);
    } else {
      Compare(1, b);
      Compare(a, 254);
      var x, y := Moved(a, b);
      AddNat(x, y);
    }
  }

  /** The multiplication sums the columns in the top byte: at most 224, so nothing is lost. */
  lemma TopByte(a: bv8, b: bv8, c: bv8, d: bv8)
    requires a as nat <= 56 && b as nat <= 56 && c as nat <= 56 && d as nat <= 56
    ensures Top(Spread(Pack(a, b, c, d))) as nat == a as nat + b as nat + c as nat + d as nat
  {
    hide *;
    Compare(a, 127); Compare(b, 127);
    var u := Add(a, b);
    var v := Add(u, c);
    var w := AddLast(v, d);
    SpreadTwo(a, b, u);
    SpreadThree(a, b, c, u, v);
    SpreadFour(a, b, c, d, u, v, w);
    PackTop(a, u, v, w);
    Widened(w);
  }

  lemma Add(a: bv8, b: bv8) returns (u: bv8)
    requires a as nat < 128 && b as nat < 128
    ensures Added(a, b, u) && u as nat == a as nat + b as nat
  {
    Compare(a, 127); Compare(b, 127);
    u := AddLast(a, b);
  }

  lemma AddLast(a: bv8, b: bv8) returns (u: bv8)
    requires a as nat + b as nat < 256
    ensures u == a + b && u as nat == a as nat + b as nat
  {
    AddNat(a, b);
    u := a + b;
  }

  lemma Widened(a: bv8)
    ensures a as bv32 as nat == a as nat
  {
  }

  // ------------------------------------------------------------------ seven words at once

  /** The counted words of the first n words, added up. */
  function Sum(s: seq<bv8>, n: nat): bv32
    requires |s| >= 4 * n
  {
    if n == 0 then 0 else Plus(Sum(s, n - 1), Swar(Load(s[4 * n - 4..4 * n])))
  }

  /** A column of counts, none above 8 a word. */
  lemma Column(c: bv8, b: bv8, n: nat) returns (r: bv8)
    requires c as nat <= 8 * n && n < 7
    ensures Added(c, Count(b), r) && r as nat == c as nat + Ones(b) <= 8 * (n + 1)
  {
    hide *;
    CountIs(b);
    r := Add(c, Count(b));
  }

  lemma ColumnsNext(d0: bv8, d1: bv8, d2: bv8, d3: bv8, w0: bv8, w1: bv8, w2: bv8, w3: bv8, n: nat)
    returns (c0: bv8, c1: bv8, c2: bv8, c3: bv8)
    requires d0 as nat <= 8 * n && d1 as nat <= 8 * n && d2 as nat <= 8 * n && d3 as nat <= 8 * n && n < 7
    ensures Plus(Pack(d0, d1, d2, d3), Swar(Pack(w0, w1, w2, w3))) == Pack(c0, c1, c2, c3)
    ensures c0 as nat == d0 as nat + Ones(w0) <= 8 * (n + 1) && c1 as nat == d1 as nat + Ones(w1) <= 8 * (n + 1)
    ensures c2 as nat == d2 as nat + Ones(w2) <= 8 * (n + 1) && c3 as nat == d3 as nat + Ones(w3) <= 8 * (n + 1)
  {
    hide *;
    SwarIs(w0, w1, w2, w3);
    c0 := Column(d0, w0, n);
    c1 := Column(d1, w1, n);
    c2 := Column(d2, w2, n);
    c3 := Column(d3, w3, n);
    AddPack(d0, d1, d2, d3, Count(w0), Count(w1), Count(w2), Count(w3), c0, c1, c2, c3);
  }

  lemma {:induction false} Columns(s: seq<bv8>, n: nat) returns (c0: bv8, c1: bv8, c2: bv8, c3: bv8)
    requires n <= 7 && |s| >= 4 * n
    ensures c0 as nat <= 8 * n && c1 as nat <= 8 * n && c2 as nat <= 8 * n && c3 as nat <= 8 * n
    ensures Sum(s, n) == Pack(c0, c1, c2, c3)
    ensures Pop(s[..4 * n]) == c0 as nat + c1 as nat + c2 as nat + c3 as nat
  {
    if n == 0 {
      c0, c1, c2, c3 := 0, 0, 0, 0;
    } else {
      var d0, d1, d2, d3 := Columns(s, n - 1);
      var w := s[4 * n - 4..4 * n];
      PopWord(s, n);
      hide Ones, Swar, Pack, Plus, Pop;
      c0, c1, c2, c3 := ColumnsNext(d0, d1, d2, d3, w[0], w[1], w[2], w[3], n - 1);
    }
  }

  lemma PopWord(s: seq<bv8>, n: nat)
    requires n > 0 && |s| >= 4 * n
    ensures var w := s[4 * n - 4..4 * n];
            Pop(s[..4 * n]) == Pop(s[..4 * (n - 1)]) + Ones(w[0]) + Ones(w[1]) + Ones(w[2]) + Ones(w[3])
  {
    hide Pop, Ones;
    var w := s[4 * n - 4..4 * n];
    assert s[..4 * n] == s[..4 * (n - 1)] + w;
    PopFour(w);
    PopAppend(s[..4 * (n - 1)], w);
  }

  lemma PopFour(w: seq<bv8>)
    requires |w| == 4
    ensures Pop(w) == Ones(w[0]) + Ones(w[1]) + Ones(w[2]) + Ones(w[3])
  {
    hide Ones;
    assert w[..3][..2] == w[..2] && w[..2][..1] == w[..1] && w[..1][..0] == [];
    assert Pop(w) == Pop(w[..3]) + Ones(w[3]) && Pop(w[..3]) == Pop(w[..2]) + Ones(w[2]);
    assert Pop(w[..2]) == Pop(w[..1]) + Ones(w[1]) && Pop(w[..1]) == Pop([]) + Ones(w[0]);
  }

  /** redisPopcount for a string at any address. */
  method Popcount(s: seq<bv8>, address: nat) returns (bits: nat)
    ensures bits == Pop(s)
  {
    hide Ones;
    bits := 0;
    var i := 0;
    while (address + i) % 4 != 0 && i < |s|
      invariant i <= |s| && bits == Pop(s[..i])
      decreases |s| - i
    {
      PopNext(s, i);
      bits := bits + Ones(s[i]);
      i := i + 1;
    }
    while |s| - i >= 28
      invariant i <= |s| && bits == Pop(s[..i])
    {
      var n := CountBlock(s[i..i + 28]);
      assert s[..i + 28] == s[..i] + s[i..i + 28];
      PopAppend(s[..i], s[i..i + 28]);
      bits := bits + n;
      i := i + 28;
    }
    while i < |s|
      invariant i <= |s| && bits == Pop(s[..i])
    {
      PopNext(s, i);
      bits := bits + Ones(s[i]);
      i := i + 1;
    }
    assert s[..|s|] == s;
  }

  lemma PopNext(s: seq<bv8>, i: nat)
    requires i < |s|
    ensures Pop(s[..i + 1]) == Pop(s[..i]) + Ones(s[i])
  {
    hide Ones;
    assert s[..i + 1][..i] == s[..i];
  }

  /** Twenty-eight bytes: seven words, one multiplication. */
  method CountBlock(s: seq<bv8>) returns (n: nat)
    requires |s| == 28
    ensures n == Pop(s)
  {
    hide Swar, Load, Pop, Plus, Spread, Top, Pack;
    var sum := Swar(Load(s[0..4]));
    sum := Plus(sum, Swar(Load(s[4..8])));
    sum := Plus(sum, Swar(Load(s[8..12])));
    sum := Plus(sum, Swar(Load(s[12..16])));
    sum := Plus(sum, Swar(Load(s[16..20])));
    sum := Plus(sum, Swar(Load(s[20..24])));
    sum := Plus(sum, Swar(Load(s[24..28])));
    SumSeven(s);
    ghost var c0, c1, c2, c3 := Columns(s, 7);
    TopByte(c0, c1, c2, c3);
    assert s[..28] == s;
    n := Top(Spread(sum)) as nat;
  }

  lemma FirstWord(x: bv32)
    ensures Plus(0, x) == x
  {
  }

  lemma SumSeven(s: seq<bv8>)
    requires |s| == 28
    ensures Sum(s, 7)
         == Plus(Plus(Plus(Plus(Plus(Plus(Swar(Load(s[0..4])), Swar(Load(s[4..8]))), Swar(Load(s[8..12]))),
                                Swar(Load(s[12..16]))), Swar(Load(s[16..20]))), Swar(Load(s[20..24]))), Swar(Load(s[24..28])))
  {
    FirstWord(Swar(Load(s[0..4])));
    hide Swar, Load, Plus;
    assert Sum(s, 1) == Plus(Sum(s, 0), Swar(Load(s[0..4])));
    assert Sum(s, 2) == Plus(Sum(s, 1), Swar(Load(s[4..8])));
    assert Sum(s, 3) == Plus(Sum(s, 2), Swar(Load(s[8..12])));
    assert Sum(s, 4) == Plus(Sum(s, 3), Swar(Load(s[12..16])));
    assert Sum(s, 5) == Plus(Sum(s, 4), Swar(Load(s[16..20])));
    assert Sum(s, 6) == Plus(Sum(s, 5), Swar(Load(s[20..24])));
  }
}
