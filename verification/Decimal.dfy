/** Decimal numerals as ll2string prints them and as atoi, strtol and strtoll read them. */
module Decimal {
  import opened Text

  predicate IsDigit(c: char) { '0' <= c <= '9' }

  function Digit(n: nat): (c: char)
    requires n < 10
    ensures IsDigit(c) && Value(c) == n
  {
    '0' + n as char
  }

  function Value(c: char): (n: nat)
    requires IsDigit(c)
    ensures n < 10
  {
    (c - '0') as nat
  }

  /** The numeral of a length or count: no sign, no leading zero. */
  function Digits(n: nat): (s: string)
    ensures s != [] && (forall i :: 0 <= i < |s| ==> IsDigit(s[i]))
    ensures n > 0 ==> s[0] != '0'
  {
    if n < 10 then [Digit(n)] else Digits(n / 10) + [Digit(n % 10)]
  }

  function Render(i: int): (s: string)
    ensures s != []
  {
    if i < 0 then "-" + Digits(-i) else Digits(i)
  }

  /** Reads digits up to the first other character. */
  function Scan(s: string, acc: nat): (n: nat)
    ensures acc <= n
  {
    if s == [] || !IsDigit(s[0]) then acc else Scan(s[1..], acc * 10 + Value(s[0]))
  }

  function SkipSpace(s: string): (t: string)
    ensures s == [] || !IsSpace(s[0]) ==> t == s
  {
    if s != [] && IsSpace(s[0]) then SkipSpace(s[1..]) else s
  }

  /** atoi, strtol and strtoll in base 10: white space, a sign, digits; the rest is ignored. */
  function Atoi(s: string): int {
    var t := SkipSpace(s);
    if t != [] && t[0] == '-' then (0 - Scan(t[1..], 0)) as int
    else if t != [] && t[0] == '+' then Scan(t[1..], 0)
    else Scan(t, 0)
  }

  predicate Stops(rest: string) { rest == [] || !IsDigit(rest[0]) }

  lemma {:induction false} ScanAll(s: string, rest: string, acc: nat)
    requires forall i :: 0 <= i < |s| ==> IsDigit(s[i])
    requires Stops(rest)
    ensures Scan(s + rest, acc) == Scan(s, acc)
  {
    if s == [] {
      assert s + rest == rest;
    } else {
      assert (s + rest)[1..] == s[1..] + rest;
      ScanAll(s[1..], rest, acc * 10 + Value(s[0]));
    }
  }

  lemma {:induction false} ScanLast(s: string, c: char, acc: nat)
    requires forall i :: 0 <= i < |s| ==> IsDigit(s[i])
    requires IsDigit(c)
    ensures Scan(s + [c], acc) == Scan(s, acc) * 10 + Value(c)
  {
    if s == [] {
      assert s + [c] == [c];
      assert Scan([c], acc) == Scan([c][1..], acc * 10 + Value(c));
    } else {
      assert (s + [c])[1..] == s[1..] + [c];
      ScanLast(s[1..], c, acc * 10 + Value(s[0]));
    }
  }

  lemma {:induction false} ScanDigits(n: nat)
    ensures Scan(Digits(n), 0) == n
  {
    if n < 10 {
      assert Scan([Digit(n)], 0) == Scan([Digit(n)][1..], n);
    } else {
      ScanDigits(n / 10);
      ScanLast(Digits(n / 10), Digit(n % 10), 0);
    }
  }

  /** The reader undoes the printer, whatever follows the numeral. */
  lemma AtoiRender(i: int, rest: string)
    requires Stops(rest)
    ensures Atoi(Render(i) + rest) == i
  {
    hide Scan, Digits;
    var n := if i < 0 then -i else i;
    ScanDigits(n);
    ScanAll(Digits(n), rest, 0);
    if i < 0 {
      assert (Render(i) + rest)[1..] == Digits(n) + rest;
    } else {
      assert (Render(i) + rest)[0] == Digits(n)[0];
    }
  }

  /** A numeral cut short still reads as a positive number. */
  lemma {:induction false} AtoiCut(n: nat, k: nat)
    requires n > 0 && 0 < k <= |Digits(n)|
    ensures Atoi(Digits(n)[..k]) >= 1
  {
    var s := Digits(n)[..k];
    assert s[0] == Digits(n)[0];
    assert Scan(s, 0) == Scan(s[1..], Value(s[0]));
  }

  function Pow10(k: nat): (p: nat)
    ensures p >= 1
  {
    if k == 0 then 1 else 10 * Pow10(k - 1)
  }

  lemma {:induction false} DigitsLength(n: nat, k: nat)
    requires 1 <= k && n < Pow10(k)
    ensures |Digits(n)| <= k
  {
    if n >= 10 {
      assert Pow10(1) == 10;
      DigitsLength(n / 10, k - 1);
    }
  }
}
