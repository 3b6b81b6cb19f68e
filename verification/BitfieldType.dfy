/** The type argument of BITFIELD: i or u and the number of bits. */
module BitfieldType {
  import opened Options
  import opened Decimal
  import opened Bitfield

  predicate AllDigits(s: string) { forall i :: 0 <= i < |s| ==> IsDigit(s[i]) }

  /** string2ll for numbers that are not negative: digits without a leading zero, or 0 itself. */
  function ReadNumber(s: string): Option<nat> {
    if s == "0" then Some(0)
    else if s == "" || s[0] == '0' || !AllDigits(s) then None
    else Some(Scan(s, 0))
  }

  lemma {:induction false} DigitsScan(s: string)
    requires s != "" && s[0] != '0' && AllDigits(s)
    ensures Scan(s, 0) > 0 && Digits(Scan(s, 0)) == s
  {
    var n := |s| - 1;
    assert s == s[..n] + [s[n]];
    ScanLast(s[..n], s[n], 0);
    if n == 0 {
      assert Scan(s[..0], 0) == 0;
    } else {
      DigitsScan(s[..n]);
    }
  }

  /** Exactly what is printed for a number is read as that number. */
  lemma NumberExact(s: string, n: nat)
    ensures ReadNumber(s) == Some(n) <==> s == Digits(n)
  {
    ScanDigits(n);
    if s != "" && s[0] != '0' && AllDigits(s) {
      DigitsScan(s);
    }
  }

  /** getBitfieldTypeFromArgument: signed, and the width */
  function ReadType(s: string): Option<(bool, nat)> {
    if s == "" || s[0] !in {'i', 'u'} then None
    else
      var signed, bits := s[0] == 'i', ReadNumber(s[1..]);
      if bits.None? || bits.value < 1 || (signed && bits.value > 64) || (!signed && bits.value > 63) then None
      else Some((signed, bits.value))
  }

  /** Exactly the types i1 to i64 and u1 to u63 are accepted. */
  lemma TypeExact(s: string, signed: bool, bits: nat)
    ensures ReadType(s) == Some((signed, bits)) <==>
              s == (if signed then "i" else "u") + Digits(bits) && Width(signed, bits)
  {
    hide ReadNumber, Digits;
    if s != "" {
      assert s == [s[0]] + s[1..];
      NumberExact(s[1..], bits);
    }
    var t := (if signed then "i" else "u") + Digits(bits);
    assert t[1..] == Digits(bits);
  }
}
