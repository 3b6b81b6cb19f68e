/** BITOP: four words at a time where every source has data, bytes for the rest. */
module BitOp {

  datatype Op = And | Or | Xor | Not

  /** A byte of a source; zero behind its end. */
  function Byte(src: seq<bv8>, j: nat): bv8 { if j < |src| then src[j] else 0 }

  function Apply(op: Op, a: bv8, b: bv8): bv8 {
    match op
    case And => a & b
    case Or => a | b
    case Xor => a ^ b
    case Not => a
  }

  /** Byte j over the first n sources. */
  function Fold(op: Op, srcs: seq<seq<bv8>>, j: nat, n: nat): bv8
    requires 1 <= n <= |srcs|
  {
    if n == 1 then (if op.Not? then !Byte(srcs[0], j) else Byte(srcs[0], j))
    else Apply(op, Fold(op, srcs, j, n - 1), Byte(srcs[n - 1], j))
  }

  function MaxLen(srcs: seq<seq<bv8>>): (m: nat)
    ensures forall i :: 0 <= i < |srcs| ==> |srcs[i]| <= m
    ensures srcs != [] ==> exists i :: 0 <= i < |srcs| && |srcs[i]| == m
  {
    if srcs == [] then 0
    else
      var m, l := MaxLen(srcs[..|srcs| - 1]), |srcs[|srcs| - 1]|;
      if l > m then l else m
  }

  lemma MaxLenNext(srcs: seq<seq<bv8>>, j: nat)
    requires j < |srcs|
    ensures var m, l := MaxLen(srcs[..j]), |srcs[j]|; MaxLen(srcs[..j + 1]) == if l > m then l else m
  {
    assert srcs[..j + 1][..j] == srcs[..j];
  }

  predicate Min(srcs: seq<seq<bv8>>, m: nat) { forall i :: 0 <= i < |srcs| ==> m <= |srcs[i]| }

  /** The longest and the shortest source. */
  method Lengths(srcs: seq<seq<bv8>>) returns (max: nat, min: nat)
    requires srcs != []
    ensures max == MaxLen(srcs) && Min(srcs, min) && min <= max && exists i :: 0 <= i < |srcs| && |srcs[i]| == min
  {
    assert MaxLen(srcs[..0]) == 0;
    hide MaxLen;
    max, min := 0, 0;
    ghost var shortest := 0;
    for j := 0 to |srcs|
      invariant max == MaxLen(srcs[..j]) && min <= max
      invariant forall i :: 0 <= i < j ==> min <= |srcs[i]|
      invariant j > 0 ==> shortest < j && |srcs[shortest]| == min
    {
      MaxLenNext(srcs, j);
      if |srcs[j]| > max { max := |srcs[j]|; }
      if j == 0 || |srcs[j]| < min { min, shortest := |srcs[j]|, j; }
    }
    assert srcs[..|srcs|] == srcs;
  }

  // -------------------------------------------------------------------------- machine words

  /** The operator on a whole word. */
  function ApplyWord(op: Op, a: bv64, b: bv64): bv64 {
    match op
    case And => a & b
    case Or => a | b
    case Xor => a ^ b
    case Not => a
  }

  /** Eight bytes in memory order, the first in the low bits. */
  function Word(b0: bv8, b1: bv8, b2: bv8, b3: bv8, b4: bv8, b5: bv8, b6: bv8, b7: bv8): bv64 {
    (b0 as bv64) | ((b1 as bv64) << 8) | ((b2 as bv64) << 16) | ((b3 as bv64) << 24) |
    ((b4 as bv64) << 32) | ((b5 as bv64) << 40) | ((b6 as bv64) << 48) | ((b7 as bv64) << 56)
  }

  /** Byte k of a word. */
  function Part(w: bv64, k: nat): bv8
    requires k < 8
  {
    match k
    case 0 => (w & 0xff) as bv8
    case 1 => ((w >> 8) & 0xff) as bv8
    case 2 => ((w >> 16) & 0xff) as bv8
    case 3 => ((w >> 24) & 0xff) as bv8
    case 4 => ((w >> 32) & 0xff) as bv8
    case 5 => ((w >> 40) & 0xff) as bv8
    case 6 => ((w >> 48) & 0xff) as bv8
    case _ => ((w >> 56) & 0xff) as bv8
  }

  function Load(s: seq<bv8>, at: nat): bv64
    requires at + 8 <= |s|
  {
    Word(s[at], s[at + 1], s[at + 2], s[at + 3], s[at + 4], s[at + 5], s[at + 6], s[at + 7])
  }

  lemma WordParts(b0: bv8, b1: bv8, b2: bv8, b3: bv8, b4: bv8, b5: bv8, b6: bv8, b7: bv8)
    ensures var w := Word(b0, b1, b2, b3, b4, b5, b6, b7);
            && Part(w, 0) == b0 && Part(w, 1) == b1 && Part(w, 2) == b2 && Part(w, 3) == b3
            && Part(w, 4) == b4 && Part(w, 5) == b5 && Part(w, 6) == b6 && Part(w, 7) == b7
  {
  }

  /** What is loaded is the bytes. */
  lemma LoadParts(s: seq<bv8>, at: nat, k: nat)
    requires at + 8 <= |s| && k < 8
    ensures Part(Load(s, at), k) == s[at + k]
  {
    hide Word, Part;
    WordParts(s[at], s[at + 1], s[at + 2], s[at + 3], s[at + 4], s[at + 5], s[at + 6], s[at + 7]);
  }

  lemma PartsAnd(a: bv64, b: bv64)
    ensures Part(ApplyWord(And, a, b), 0) == Apply(And, Part(a, 0), Part(b, 0))
    ensures Part(ApplyWord(And, a, b), 1) == Apply(And, Part(a, 1), Part(b, 1))
    ensures Part(ApplyWord(And, a, b), 2) == Apply(And, Part(a, 2), Part(b, 2))
    ensures Part(ApplyWord(And, a, b), 3) == Apply(And, Part(a, 3), Part(b, 3))
    ensures Part(ApplyWord(And, a, b), 4) == Apply(And, Part(a, 4), Part(b, 4))
    ensures Part(ApplyWord(And, a, b), 5) == Apply(And, Part(a, 5), Part(b, 5))
    ensures Part(ApplyWord(And, a, b), 6) == Apply(And, Part(a, 6), Part(b, 6))
    ensures Part(ApplyWord(And, a, b), 7) == Apply(And, Part(a, 7), Part(b, 7))
  {
  }

  lemma BytesOr(a: bv64, b: bv64)
    ensures Part(a | b, 0) == Part(a, 0) | Part(b, 0) && Part(a | b, 1) == Part(a, 1) | Part(b, 1)
    ensures Part(a | b, 2) == Part(a, 2) | Part(b, 2) && Part(a | b, 3) == Part(a, 3) | Part(b, 3)
    ensures Part(a | b, 4) == Part(a, 4) | Part(b, 4) && Part(a | b, 5) == Part(a, 5) | Part(b, 5)
    ensures Part(a | b, 6) == Part(a, 6) | Part(b, 6) && Part(a | b, 7) == Part(a, 7) | Part(b, 7)
  {
  }

  lemma PartsOr(a: bv64, b: bv64)
    ensures Part(ApplyWord(Or, a, b), 0) == Apply(Or, Part(a, 0), Part(b, 0))
    ensures Part(ApplyWord(Or, a, b), 1) == Apply(Or, Part(a, 1), Part(b, 1))
    ensures Part(ApplyWord(Or, a, b), 2) == Apply(Or, Part(a, 2), Part(b, 2))
    ensures Part(ApplyWord(Or, a, b), 3) == Apply(Or, Part(a, 3), Part(b, 3))
    ensures Part(ApplyWord(Or, a, b), 4) == Apply(Or, Part(a, 4), Part(b, 4))
    ensures Part(ApplyWord(Or, a, b), 5) == Apply(Or, Part(a, 5), Part(b, 5))
    ensures Part(ApplyWord(Or, a, b), 6) == Apply(Or, Part(a, 6), Part(b, 6))
    ensures Part(ApplyWord(Or, a, b), 7) == Apply(Or, Part(a, 7), Part(b, 7))
  {
    hide Part;
    BytesOr(a, b);
  }

  lemma BytesXor(a: bv64, b: bv64)
    ensures Part(a ^ b, 0) == Part(a, 0) ^ Part(b, 0) && Part(a ^ b, 1) == Part(a, 1) ^ Part(b, 1)
    ensures Part(a ^ b, 2) == Part(a, 2) ^ Part(b, 2) && Part(a ^ b, 3) == Part(a, 3) ^ Part(b, 3)
    ensures Part(a ^ b, 4) == Part(a, 4) ^ Part(b, 4) && Part(a ^ b, 5) == Part(a, 5) ^ Part(b, 5)
    ensures Part(a ^ b, 6) == Part(a, 6) ^ Part(b, 6) && Part(a ^ b, 7) == Part(a, 7) ^ Part(b, 7)
  {
  }

  lemma PartsXor(a: bv64, b: bv64)
    ensures Part(ApplyWord(Xor, a, b), 0) == Apply(Xor, Part(a, 0), Part(b, 0))
    ensures Part(ApplyWord(Xor, a, b), 1) == Apply(Xor, Part(a, 1), Part(b, 1))
    ensures Part(ApplyWord(Xor, a, b), 2) == Apply(Xor, Part(a, 2), Part(b, 2))
    ensures Part(ApplyWord(Xor, a, b), 3) == Apply(Xor, Part(a, 3), Part(b, 3))
    ensures Part(ApplyWord(Xor, a, b), 4) == Apply(Xor, Part(a, 4), Part(b, 4))
    ensures Part(ApplyWord(Xor, a, b), 5) == Apply(Xor, Part(a, 5), Part(b, 5))
    ensures Part(ApplyWord(Xor, a, b), 6) == Apply(Xor, Part(a, 6), Part(b, 6))
    ensures Part(ApplyWord(Xor, a, b), 7) == Apply(Xor, Part(a, 7), Part(b, 7))
  {
    hide Part;
    BytesXor(a, b);
  }

  lemma PartsNot(a: bv64, b: bv64)
    ensures Part(ApplyWord(Not, a, b), 0) == Apply(Not, Part(a, 0), Part(b, 0))
    ensures Part(ApplyWord(Not, a, b), 1) == Apply(Not, Part(a, 1), Part(b, 1))
    ensures Part(ApplyWord(Not, a, b), 2) == Apply(Not, Part(a, 2), Part(b, 2))
    ensures Part(ApplyWord(Not, a, b), 3) == Apply(Not, Part(a, 3), Part(b, 3))
    ensures Part(ApplyWord(Not, a, b), 4) == Apply(Not, Part(a, 4), Part(b, 4))
    ensures Part(ApplyWord(Not, a, b), 5) == Apply(Not, Part(a, 5), Part(b, 5))
    ensures Part(ApplyWord(Not, a, b), 6) == Apply(Not, Part(a, 6), Part(b, 6))
    ensures Part(ApplyWord(Not, a, b), 7) == Apply(Not, Part(a, 7), Part(b, 7))
  {
  }

  function Flip(a: bv8): bv8 { !a }

  function FlipWord(a: bv64): bv64 { !a }

  lemma PartsFlip(a: bv64)
    ensures Part(FlipWord(a), 0) == Flip(Part(a, 0)) && Part(FlipWord(a), 1) == Flip(Part(a, 1))
    ensures Part(FlipWord(a), 2) == Flip(Part(a, 2)) && Part(FlipWord(a), 3) == Flip(Part(a, 3))
    ensures Part(FlipWord(a), 4) == Flip(Part(a, 4)) && Part(FlipWord(a), 5) == Flip(Part(a, 5))
    ensures Part(FlipWord(a), 6) == Flip(Part(a, 6)) && Part(FlipWord(a), 7) == Flip(Part(a, 7))
  {
  }

  /** The operator on words is the operator on their bytes. */
  lemma PartApply(op: Op, a: bv64, b: bv64, k: nat)
    requires k < 8
    ensures Part(ApplyWord(op, a, b), k) == Apply(op, Part(a, k), Part(b, k))
  {
    hide *;
    match op {
      case And => PartsAnd(a, b);
      case Or => PartsOr(a, b);
      case Xor => PartsXor(a, b);
      case Not => PartsNot(a, b);
    }
  }

  lemma PartFlip(a: bv64, k: nat)
    requires k < 8
    ensures Part(FlipWord(a), k) == Flip(Part(a, k))
  {
    hide *;
    PartsFlip(a);
  }

  method Store(res: array<bv8>, at: nat, w: bv64)
    requires at + 8 <= res.Length
    modifies res
    ensures forall b :: 0 <= b < res.Length ==> res[b] == if at <= b < at + 8 then Part(w, b - at) else old(res[b])
  {
    hide Part;
    for k := 0 to 8
      invariant forall b :: 0 <= b < res.Length ==> res[b] == if at <= b < at + k then Part(w, b - at) else old(res[b])
    {
      res[at + k] := Part(w, k);
    }
  }

  /** One word of the result combined with the same word of a source. */
  method WordOp(res: array<bv8>, at: nat, op: Op, src: seq<bv8>)
    requires at + 8 <= res.Length && at + 8 <= |src|
    modifies res
    ensures forall b :: 0 <= b < res.Length ==>
              res[b] == if at <= b < at + 8 then Apply(op, old(res[b]), src[b]) else old(res[b])
  {
    hide Apply, ApplyWord, Part, Load;
    var x, y := Load(res[..], at), Load(src, at);
    forall b | at <= b < at + 8 ensures Part(ApplyWord(op, x, y), b - at) == Apply(op, res[b], src[b]) {
      LoadParts(res[..], at, b - at);
      LoadParts(src, at, b - at);
      PartApply(op, x, y, b - at);
    }
    Store(res, at, ApplyWord(op, x, y));
  }

  /** One word of the result complemented. */
  method WordNot(res: array<bv8>, at: nat)
    requires at + 8 <= res.Length
    modifies res
    ensures forall b :: 0 <= b < res.Length ==> res[b] == if at <= b < at + 8 then !old(res[b]) else old(res[b])
  {
    hide Part, Load, FlipWord;
    var x := Load(res[..], at);
    forall b | at <= b < at + 8 ensures Part(FlipWord(x), b - at) == !res[b] {
      LoadParts(res[..], at, b - at);
      PartFlip(x, b - at);
    }
    Store(res, at, FlipWord(x));
  }

  /** Bytes from `lo` to `hi` are those of the first source. */
  predicate Copied(res: array<bv8>, src: seq<bv8>, lo: nat, hi: nat)
    requires hi <= res.Length && hi <= |src|
    reads res
  {
    forall b :: lo <= b < hi ==> res[b] == src[b]
  }

  predicate Done(res: array<bv8>, op: Op, srcs: seq<seq<bv8>>, lo: nat, hi: nat, n: nat)
    requires hi <= res.Length && 1 <= n <= |srcs|
    reads res
  {
    forall b :: lo <= b < hi ==> res[b] == Fold(op, srcs, b, n)
  }

  /** Thirty-two bytes of the fast path. */
  method Block(res: array<bv8>, op: Op, srcs: seq<seq<bv8>>, j: nat, min: nat)
    requires srcs != [] && (op.Not? ==> |srcs| == 1) && Min(srcs, min) && j + 32 <= min <= res.Length
    requires Copied(res, srcs[0], j, min)
    modifies res
    ensures Done(res, op, srcs, j, j + 32, |srcs|) && Copied(res, srcs[0], j + 32, min)
    ensures forall b :: 0 <= b < j ==> res[b] == old(res[b])
  {
    hide Apply;
    if op.Not? {
      WordNot(res, j);
      WordNot(res, j + 8);
      WordNot(res, j + 16);
      WordNot(res, j + 24);
      return;
    }
    for i := 1 to |srcs|
      invariant Done(res, op, srcs, j, j + 32, i) && Copied(res, srcs[0], j + 32, min)
      invariant forall b :: 0 <= b < j ==> res[b] == old(res[b])
    {
      Combine(res, op, srcs, j, i);
    }
  }

  /** The next source combined into the block. */
  method Combine(res: array<bv8>, op: Op, srcs: seq<seq<bv8>>, j: nat, i: nat)
    requires 1 <= i < |srcs| && j + 32 <= |srcs[i]| && j + 32 <= res.Length && Done(res, op, srcs, j, j + 32, i)
    modifies res
    ensures Done(res, op, srcs, j, j + 32, i + 1)
    ensures forall b :: 0 <= b < res.Length && !(j <= b < j + 32) ==> res[b] == old(res[b])
  {
    hide Apply;
    WordOp(res, j, op, srcs[i]);
    WordOp(res, j + 8, op, srcs[i]);
    WordOp(res, j + 16, op, srcs[i]);
    WordOp(res, j + 24, op, srcs[i]);
  }

  /** The fast path: returns how many bytes are done. */
  method FastPath(res: array<bv8>, op: Op, srcs: seq<seq<bv8>>, minlen: nat) returns (j: nat)
    requires srcs != [] && (op.Not? ==> |srcs| == 1) && Min(srcs, minlen) && minlen <= res.Length
    modifies res
    ensures j <= minlen < j + 32 && Done(res, op, srcs, 0, j, |srcs|)
  {
    hide Fold;
    for b := 0 to minlen
      invariant Copied(res, srcs[0], 0, b)
    {
      res[b] := srcs[0][b];
    }
    j := 0;
    var left := minlen;
    while left >= 32
      invariant j + left == minlen && Done(res, op, srcs, 0, j, |srcs|) && Copied(res, srcs[0], j, minlen)
    {
      Block(res, op, srcs, j, minlen);
      j, left := j + 32, left - 32;
    }
  }

  /** The compute loop of bitopCommand: the zero padded bytewise operation on sources of any lengths. */
  method Bitop(op: Op, srcs: seq<seq<bv8>>) returns (res: array<bv8>)
    requires srcs != [] && (op.Not? ==> |srcs| == 1)
    ensures fresh(res) && res.Length == MaxLen(srcs)
    ensures forall j :: 0 <= j < res.Length ==> res[j] == Fold(op, srcs, j, |srcs|)
  {
    hide Fold;
    var maxlen, minlen := Lengths(srcs);
    res := new bv8[maxlen](_ => 0);
    var j := 0;
    if minlen >= 32 && |srcs| <= 16 {
      j := FastPath(res, op, srcs, minlen);
    }
    while j < maxlen
      invariant j <= maxlen && Done(res, op, srcs, 0, j, |srcs|)
    {
      var output := SlowByte(op, srcs, j);
      res[j] := output;
      j := j + 1;
    }
  }

  method SlowByte(op: Op, srcs: seq<seq<bv8>>, j: nat) returns (output: bv8)
    requires srcs != [] && (op.Not? ==> |srcs| == 1)
    ensures output == Fold(op, srcs, j, |srcs|)
  {
    hide Apply;
    output := if |srcs[0]| <= j then 0 else srcs[0][j];
    if op.Not? { output := !output; }
    for i := 1 to |srcs|
      invariant output == Fold(op, srcs, j, i)
    {
      var byte := if |srcs[i]| <= j then 0 else srcs[i][j];
      output := Apply(op, output, byte);
    }
  }
}
