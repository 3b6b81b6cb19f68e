/**
 * The append only file as bytes: the printer of commands and the reader behind the loader.
 * One character stands for one byte.
 */
module AofFormat {
  import opened Decimal

  type Command = seq<string>

  const CRLF := "\r\n"
  const LINE_BUFFER := 128
  const MAX_ARGC := 0x8000_0000
  const MAX_LENGTH := 0x8000_0000_0000_0000

  // ------------------------------------------------------------------ printer

  function Header(kind: char, n: nat): (s: string)
    ensures |s| == 3 + |Digits(n)| && s[0] == kind
  {
    [kind] + Digits(n) + CRLF
  }

  function Bulk(arg: string): (s: string)
    ensures |s| >= 6 && s[0] == '$'
  {
    Header('$', |arg|) + arg + CRLF
  }

  function Bulks(args: seq<string>): string {
    if args == [] then "" else Bulk(args[0]) + Bulks(args[1..])
  }

  function Encode(cmd: Command): (s: string)
    ensures |s| >= 4 && s[0] == '*'
  {
    Header('*', |cmd|) + Bulks(cmd)
  }

  function EncodeAll(cmds: seq<Command>): (s: string)
    ensures s == "" <==> cmds == []
  {
    if cmds == [] then "" else Encode(cmds[0]) + EncodeAll(cmds[1..])
  }

  /** What an int argument count and a size_t length can hold. */
  predicate Printable(cmd: Command) {
    1 <= |cmd| < MAX_ARGC && forall i :: 0 <= i < |cmd| ==> |cmd[i]| < MAX_LENGTH
  }

  predicate AllPrintable(cmds: seq<Command>) {
    forall i :: 0 <= i < |cmds| ==> Printable(cmds[i])
  }

  lemma {:induction false} BulksAppend(a: seq<string>, b: seq<string>)
    ensures Bulks(a + b) == Bulks(a) + Bulks(b)
  {
    if a == [] {
      assert a + b == b;
    } else {
      assert (a + b)[1..] == a[1..] + b;
      BulksAppend(a[1..], b);
    }
  }

  lemma {:induction false} EncodeAllAppend(a: seq<Command>, b: seq<Command>)
    ensures EncodeAll(a + b) == EncodeAll(a) + EncodeAll(b)
  {
    if a == [] {
      assert a + b == b;
    } else {
      assert (a + b)[1..] == a[1..] + b;
      EncodeAllAppend(a[1..], b);
    }
  }

  lemma BulksLast(args: seq<string>, i: nat)
    requires i < |args|
    ensures Bulks(args[..i + 1]) == Bulks(args[..i]) + Bulk(args[i])
  {
    assert args[..i + 1] == args[..i] + [args[i]];
    BulksAppend(args[..i], [args[i]]);
    assert Bulks([args[i]]) == Bulk(args[i]) + Bulks([]);
  }

  /** catAppendOnlyGenericCommand */
  method CatCommand(dst: string, argv: Command) returns (out: string)
    ensures out == dst + Encode(argv)
  {
    hide Header;
    out := dst + Header('*', |argv|);
    for j := 0 to |argv|
      invariant out == dst + Header('*', |argv|) + Bulks(argv[..j])
    {
      BulksLast(argv, j);
      ghost var before := out;
      out := out + Header('$', |argv[j]|);
      out := out + argv[j];
      out := out + CRLF;
      assert out == before + Bulk(argv[j]);
    }
    assert argv[..|argv|] == argv;
  }

  // ------------------------------------------------------------------- reader

  /** Short and ReadError: a failed read, at the end of the file or before it. */
  datatype Read<T> = Got(value: T, rest: string) | Short | ReadError | BadFormat | Abort {
    function Fail<U>(): (r: Read<U>)
      requires !Got?
      ensures !r.Got?
    {
      match this
      case Short => Short
      case ReadError => ReadError
      case BadFormat => BadFormat
      case Abort => Abort
    }
  }

  /** The length of the line fgets returns: up to a newline, the end, or a full buffer. */
  function LineLength(s: string, room: nat): (n: nat)
    ensures n <= room && n <= |s|
    ensures room > 0 && s != [] ==> n > 0
  {
    if room == 0 || s == [] then 0
    else if s[0] == '\n' then 1
    else 1 + LineLength(s[1..], room - 1)
  }

  function Line(s: string): (line: string)
    ensures line <= s && (s != [] ==> line != [])
  {
    s[..LineLength(s, LINE_BUFFER - 1)]
  }

  /** Whether that fgets met the end of the file. */
  predicate LineMeetsEnd(s: string) {
    var line := Line(s);
    |line| < LINE_BUFFER - 1 && (line == [] || line[|line| - 1] != '\n')
  }

  function ParseArg(s: string): (r: Read<string>)
    ensures r.Got? ==> |r.rest| < |s| && r.rest == s[|s| - |r.rest|..]
  {
    if s == [] then Short
    else
      var line := Line(s);
      if line[0] != '$' then BadFormat
      else
        var len := Atoi(line[1..]);
        var rest := s[|line|..];
        if len < 0 then Abort
        else if |rest| < len || |rest| - len < 2 then Short
        else Got(rest[..len], rest[len + 2..])
  }

  function ParseArgs(s: string, n: nat): (r: Read<seq<string>>)
    ensures r.Got? ==> |r.value| == n && |r.rest| <= |s| && r.rest == s[|s| - |r.rest|..]
  {
    if n == 0 then Got([], s)
    else
      var arg := ParseArg(s);
      if !arg.Got? then arg.Fail()
      else
        var args := ParseArgs(arg.rest, n - 1);
        if args.Got? then Got([arg.value] + args.value, args.rest) else args
  }

  function ParseCommand(s: string): (r: Read<Command>)
    requires s != []
    ensures r.Got? ==> r.value != [] && |r.rest| < |s| && r.rest == s[|s| - |r.rest|..]
  {
    var line := Line(s);
    if line[0] != '*' then BadFormat
    else if |line| == 1 || line[1] == '\0' then (if LineMeetsEnd(s) then Short else ReadError)
    else
      var argc := Atoi(line[1..]);
      if argc < 1 then BadFormat else ParseArgs(s[|line|..], argc)
  }

  // ------------------------------------------------- the reader undoes the printer

  lemma {:induction false} LineThrough(s: string, rest: string, room: nat)
    requires |s| < room
    requires forall i :: 0 <= i < |s| ==> s[i] != '\n'
    ensures LineLength(s + ['\n'] + rest, room) == |s| + 1
    ensures LineLength(s, room) == |s|
  {
    var t := s + ['\n'] + rest;
    if s != [] {
      assert t[0] == s[0] && t[1..] == s[1..] + ['\n'] + rest;
      LineThrough(s[1..], rest, room - 1);
    }
  }

  lemma LengthFits(n: nat)
    requires n < MAX_LENGTH
    ensures |Digits(n)| <= 19
  {
    assert Pow10(19) == 10_000_000_000_000_000_000 by {
      assert Pow10(4) == 10_000;
      assert Pow10(8) == 100_000_000;
      assert Pow10(12) == 1_000_000_000_000;
      assert Pow10(16) == 10_000_000_000_000_000;
    }
    DigitsLength(n, 19);
  }

  /** A whole header line is read as printed. */
  lemma HeaderLine(kind: char, n: nat, rest: string)
    requires kind != '\n' && n < MAX_LENGTH
    ensures Line(Header(kind, n) + rest) == Header(kind, n)
    ensures Atoi(Header(kind, n)[1..]) == n
  {
    LengthFits(n);
    var body := [kind] + Digits(n) + ['\r'];
    assert Header(kind, n) == body + ['\n'];
    LineThrough(body, rest, LINE_BUFFER - 1);
    assert Header(kind, n) + rest == body + ['\n'] + rest;
    assert Header(kind, n)[1..] == Render(n) + CRLF;
    AtoiRender(n, CRLF);
  }

  /** A header line cut before its newline is read to the end of the file. */
  lemma CutHeaderLine(kind: char, n: nat, k: nat)
    requires kind != '\n' && n < MAX_LENGTH && 0 < k < |Header(kind, n)|
    ensures Line(Header(kind, n)[..k]) == Header(kind, n)[..k] && LineMeetsEnd(Header(kind, n)[..k])
    ensures k > 1 ==> IsDigit(Header(kind, n)[1]) && (n > 0 ==> Atoi(Header(kind, n)[..k][1..]) >= 1)
  {
    LengthFits(n);
    var cut := Header(kind, n)[..k];
    var d := Digits(n);
    assert forall i :: 0 < i <= |d| ==> Header(kind, n)[i] == d[i - 1];
    LineThrough(cut, "", LINE_BUFFER - 1);
    if k > 1 && n > 0 {
      var m := if k - 1 <= |d| then k - 1 else |d|;
      assert cut[1..] == d[..m] + (if k - 1 <= |d| then "" else "\r");
      AtoiCut(n, m);
      ScanAll(d[..m], if k - 1 <= |d| then "" else "\r", 0);
    }
  }

  lemma ParseBulk(arg: string, rest: string)
    requires |arg| < MAX_LENGTH
    ensures ParseArg(Bulk(arg) + rest) == Got(arg, rest)
  {
    var s := Bulk(arg) + rest;
    var h := Header('$', |arg|);
    assert s == h + (arg + CRLF + rest);
    HeaderLine('$', |arg|, arg + CRLF + rest);
    var t := s[|h|..];
    assert t == arg + CRLF + rest && t[..|arg|] == arg && t[|arg| + 2..] == rest;
  }

  lemma {:induction false} ParseBulks(args: seq<string>, rest: string)
    requires forall i :: 0 <= i < |args| ==> |args[i]| < MAX_LENGTH
    ensures ParseArgs(Bulks(args) + rest, |args|) == Got(args, rest)
  {
    hide ParseArg, Bulk;
    if args == [] {
      assert Bulks(args) + rest == rest;
    } else {
      assert Bulks(args) + rest == Bulk(args[0]) + (Bulks(args[1..]) + rest);
      ParseBulk(args[0], Bulks(args[1..]) + rest);
      ParseBulks(args[1..], rest);
      assert [args[0]] + args[1..] == args;
    }
  }

  /** Reading a printed command gives it back and stops right behind it. */
  lemma ParseEncode(cmd: Command, rest: string)
    requires Printable(cmd)
    ensures ParseCommand(Encode(cmd) + rest) == Got(cmd, rest)
  {
    hide Bulks, Line, ParseArgs, Atoi;
    var s := Encode(cmd) + rest;
    var h := Header('*', |cmd|);
    assert IsDigit(h[1]);
    hide Header;
    assert s == h + (Bulks(cmd) + rest);
    HeaderLine('*', |cmd|, Bulks(cmd) + rest);
    assert s[|h|..] == Bulks(cmd) + rest;
    ParseBulks(cmd, rest);
  }

  // ------------------------------------------------------------ every cut is seen

  lemma CutBulk(arg: string, k: nat)
    requires |arg| < MAX_LENGTH && k < |Bulk(arg)|
    ensures ParseArg(Bulk(arg)[..k]) == Short
  {
    var h := Header('$', |arg|);
    var cut := Bulk(arg)[..k];
    if 0 < k < |h| {
      assert cut == h[..k];
      CutHeaderLine('$', |arg|, k);
      if |arg| == 0 || k == 1 {
        CutZero(|arg|, k);
      }
    } else if k >= |h| {
      var tail := Bulk(arg)[|h|..k];
      assert cut == h + tail;
      HeaderLine('$', |arg|, tail);
      assert cut[|h|..] == tail && |tail| < |arg| + 2;
    }
  }

  lemma CutZero(n: nat, k: nat)
    requires 0 < k < |Header('$', n)| && (n == 0 || k == 1)
    ensures Atoi(Header('$', n)[..k][1..]) == 0
  {
    var t := Header('$', n)[..k][1..];
    if k > 1 {
      assert t == "0" || t == "0\r";
      AtoiRender(0, t[1..]);
      assert t == Render(0) + t[1..];
    } else {
      assert t == "";
    }
  }

  lemma {:induction false} CutBulks(args: seq<string>, k: nat)
    requires forall i :: 0 <= i < |args| ==> |args[i]| < MAX_LENGTH
    requires k < |Bulks(args)|
    ensures ParseArgs(Bulks(args)[..k], |args|) == Short
  {
    hide ParseArg, Bulk;
    var b := Bulk(args[0]);
    var cut := Bulks(args)[..k];
    if k < |b| {
      assert cut == b[..k];
      CutBulk(args[0], k);
    } else {
      assert cut == b + Bulks(args[1..])[..k - |b|];
      ParseBulk(args[0], Bulks(args[1..])[..k - |b|]);
      CutBulks(args[1..], k - |b|);
    }
  }

  /** A command cut anywhere reads as an unexpected end, never as another command. */
  lemma CutEncode(cmd: Command, k: nat)
    requires Printable(cmd) && 0 < k < |Encode(cmd)|
    ensures ParseCommand(Encode(cmd)[..k]) == Short
  {
    var h := Header('*', |cmd|);
    var cut := Encode(cmd)[..k];
    if k < |h| {
      assert cut == h[..k];
      CutHeaderLine('*', |cmd|, k);
      assert Bulks(cmd)[..0] == "";
      if k > 1 {
        assert cut[|Line(cut)|..] == "";
      }
    } else {
      assert cut == h + Bulks(cmd)[..k - |h|];
      HeaderLine('*', |cmd|, Bulks(cmd)[..k - |h|]);
      assert cut[|h|..] == Bulks(cmd)[..k - |h|];
      assert IsDigit(h[1]);
      CutBulks(cmd, k - |h|);
    }
  }
}
