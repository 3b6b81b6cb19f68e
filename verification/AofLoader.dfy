/** loadAppendOnlyFile: what a log loads to, whole, cut anywhere, or ending inside MULTI. */
module AofLoader {
  import opened Text
  import opened AofFormat

  // ------------------------------------------------------------- specification

  /** The command table is looked up without regard to case. */
  function Name(cmd: Command): string
    requires cmd != []
  {
    Lower(cmd[0])
  }

  /**
   * The fake client and the two offsets. `ran` lists the commands that took effect, in order;
   * `queue` what MULTI has queued.
   */
  datatype Loader = Loader(open: bool, queue: seq<Command>, ran: seq<Command>,
                           validUpTo: nat, beforeMulti: nat)

  const Fresh := Loader(false, [], [], 0, 0)

  datatype Reason = ShortFile | Unreadable | Malformed | UnknownCommand | OutOfMemory

  /** Cut: the server starts after truncating the file to `at` bytes. */
  datatype Outcome =
    | NothingToLoad
    | RdbPreamble
    | Loaded(ran: seq<Command>)
    | Cut(ran: seq<Command>, at: nat)
    | Refused(reason: Reason)

  predicate IsMulti(cmd: Command) { cmd != [] && Name(cmd) == "multi" }

  predicate IsExec(cmd: Command) { cmd != [] && Name(cmd) == "exec" }

  /** What EXEC makes of its queue: a MULTI inside a MULTI is refused and does nothing. */
  function Effective(cmds: seq<Command>): seq<Command> {
    if cmds == [] then []
    else
      var c := cmds[|cmds| - 1];
      Effective(cmds[..|cmds| - 1]) + (if IsMulti(c) || IsExec(c) then [] else [c])
  }

  /** One command of the log in the context of the fake client. */
  function Step(st: Loader, cmd: Command): Loader {
    var st := if IsMulti(cmd) then st.(beforeMulti := st.validUpTo) else st;
    if st.open && !IsExec(cmd) then st.(queue := st.queue + [cmd])
    else if IsMulti(cmd) then st.(open := true)
    else if !IsExec(cmd) then st.(ran := st.ran + [cmd])
    else if st.open then st.(open := false, queue := [], ran := st.ran + Effective(st.queue))
    else st
  }

  /** The offset of the last well-formed command is kept only when truncated files are tolerated. */
  function Advance(st: Loader, cmd: Command, pos: nat, tolerant: bool): Loader {
    var st := Step(st, cmd);
    if tolerant then st.(validUpTo := pos) else st
  }

  function AtEnd(st: Loader, at: nat, tolerant: bool): Outcome {
    if tolerant then Cut(st.ran, at) else Refused(ShortFile)
  }

  function Stopped(st: Loader, r: Read<Command>, tolerant: bool): Outcome
    requires !r.Got?
  {
    match r
    case Short => AtEnd(st, st.validUpTo, tolerant)
    case ReadError => Refused(Unreadable)
    case BadFormat => Refused(Malformed)
    case Abort => Refused(OutOfMemory)
  }

  function LoadFrom(s: string, pos: nat, st: Loader, known: string -> bool, tolerant: bool): Outcome
    decreases |s|
  {
    if s == "" then
      (if st.open then AtEnd(st, st.beforeMulti, tolerant) else Loaded(st.ran))
    else
      var r := ParseCommand(s);
      if !r.Got? then Stopped(st, r, tolerant)
      else if !known(Name(r.value)) then Refused(UnknownCommand)
      else
        var pos' := pos + |s| - |r.rest|;
        LoadFrom(r.rest, pos', Advance(st, r.value, pos', tolerant), known, tolerant)
  }

  function Load(s: string, known: string -> bool, tolerant: bool): Outcome {
    if s == "" then NothingToLoad
    else if "REDIS" <= s then RdbPreamble
    else LoadFrom(s, 0, Fresh, known, tolerant)
  }

  // -------------------------------------------------------------------- loader

  /** A stdio stream over the file: a cursor and the end-of-file flag. */
  class LogFile {
    const data: string
    var pos: nat
    var eof: bool

    ghost predicate Valid() reads this { pos <= |data| }

    ghost function Rest(): string
      requires Valid()
      reads this
    {
      data[pos..]
    }

    constructor (data: string)
      ensures Valid() && this.data == data && pos == 0 && !eof
    {
      this.data, pos, eof := data, 0, false;
    }

    /** fgets with the 128 byte buffer; the empty string stands for NULL. */
    method Gets() returns (line: string)
      requires Valid()
      modifies this
      ensures Valid() && line == Line(old(Rest())) && Rest() == old(Rest())[|line|..]
      ensures eof == (old(eof) || LineMeetsEnd(old(Rest())))
      ensures pos == old(pos) + |line|
    {
      line := "";
      ghost var s := Rest();
      ghost var n := LineLength(s, LINE_BUFFER - 1);
      while |line| < LINE_BUFFER - 1 && pos < |data| && (line == "" || line[|line| - 1] != '\n')
        invariant Valid() && pos == old(pos) + |line| && eof == old(eof)
        invariant |line| <= n <= |s| && line == s[..|line|]
        invariant line == "" || line[|line| - 1] != '\n' ==>
                    n == |line| + LineLength(s[|line|..], LINE_BUFFER - 1 - |line|)
        invariant line != "" && line[|line| - 1] == '\n' ==> n == |line|
        decreases |data| - pos
      {
        assert s[|line|..][0] == data[pos] && s[|line|..][1..] == s[|line| + 1..];
        line := line + [data[pos]];
        pos := pos + 1;
      }
      if |line| < LINE_BUFFER - 1 && (line == "" || line[|line| - 1] != '\n') {
        eof := true;
      }
    }

    /** fread of one item of n bytes. */
    method Get(n: nat) returns (ok: bool, bytes: string)
      requires Valid()
      modifies this
      ensures Valid() && ok == (n <= |old(Rest())|)
      ensures ok ==> bytes == old(Rest())[..n] && Rest() == old(Rest())[n..] && eof == old(eof)
      ensures ok ==> pos == old(pos) + n
      ensures !ok ==> eof
    {
      ok := n <= |data| - pos;
      if ok {
        bytes := data[pos..pos + n];
        pos := pos + n;
      } else {
        bytes := data[pos..];
        pos, eof := |data|, true;
      }
    }
  }

  lemma {:induction false} LineEnd(s: string, room: nat)
    requires LineLength(s, room) < room
    ensures LineLength(s, room) == |s| || (LineLength(s, room) > 0 && s[LineLength(s, room) - 1] == '\n')
  {
    if s != [] && s[0] != '\n' {
      LineEnd(s[1..], room - 1);
    }
  }

  /** One bulk string: its length line, its bytes, and the two bytes behind them. */
  method ReadArg(f: LogFile) returns (r: Read<string>)
    requires f.Valid()
    modifies f
    ensures f.Valid() && r == ParseArg(old(f.Rest()))
    ensures r.Got? ==> f.Rest() == r.rest && f.eof == old(f.eof)
  {
    hide LineLength, Line;
    ghost var s := f.Rest();
    LineEndHere(s);
    var line := f.Gets();
    if line == "" { return Short; }
    if line[0] != '$' { return BadFormat; }
    var len := Decimal.Atoi(line[1..]);
    if len < 0 { return Abort; }
    var ok, bytes := f.Get(len);
    if !ok { return if f.eof then Short else ReadError; }
    var ok', crlf := f.Get(2);
    if !ok' { return if f.eof then Short else ReadError; }
    return Got(bytes, f.data[f.pos..]);
  }

  lemma LineEndHere(s: string)
    ensures LineMeetsEnd(s) ==> Line(s) == s
    ensures s == "" <==> Line(s) == ""
  {
    if LineMeetsEnd(s) { LineEnd(s, LINE_BUFFER - 1); }
  }

  function Prepend(args: seq<string>, r: Read<Command>): Read<Command> {
    if r.Got? then Got(args + r.value, r.rest) else r
  }

  /** The argument loop: reads `argc` bulk strings. */
  method ReadArgs(f: LogFile, argc: nat) returns (r: Read<Command>)
    requires f.Valid()
    modifies f
    ensures f.Valid() && r == ParseArgs(old(f.Rest()), argc)
    ensures r.Got? ==> f.Rest() == r.rest && f.eof == old(f.eof)
  {
    hide ParseArg, ParseArgs;
    var argv := [];
    ghost var s := f.Rest();
    PrependNothing(ParseArgs(s, argc));
    while |argv| < argc
      invariant f.Valid() && |argv| <= argc && f.eof == old(f.eof)
      invariant ParseArgs(s, argc) == Prepend(argv, ParseArgs(f.Rest(), argc - |argv|))
    {
      NextArg(f.Rest(), argc - |argv|, argv);
      var arg := ReadArg(f);
      if !arg.Got? { return arg.Fail(); }
      argv := argv + [arg.value];
    }
    NoMoreArgs(f.Rest(), argv);
    return Got(argv, f.data[f.pos..]);
  }

  lemma PrependNothing(r: Read<Command>)
    ensures Prepend([], r) == r
  {
    if r.Got? { assert [] + r.value == r.value; }
  }

  lemma NoMoreArgs(s: string, argv: seq<string>)
    ensures Prepend(argv, ParseArgs(s, 0)) == Got(argv, s)
  {
    assert argv + [] == argv;
  }

  lemma NextArg(s: string, n: nat, argv: seq<string>)
    requires n > 0
    ensures var arg := ParseArg(s);
            Prepend(argv, ParseArgs(s, n)) ==
              if arg.Got? then Prepend(argv + [arg.value], ParseArgs(arg.rest, n - 1)) else arg.Fail()
  {
    hide ParseArg;
    var arg := ParseArg(s);
    if arg.Got? {
      var rest := ParseArgs(arg.rest, n - 1);
      if rest.Got? { assert argv + ([arg.value] + rest.value) == argv + [arg.value] + rest.value; }
    }
  }

  /** One turn of the loading loop up to the command lookup. */
  method ReadCommand(f: LogFile) returns (r: Read<Command>)
    requires f.Valid() && !f.eof && f.Rest() != ""
    modifies f
    ensures f.Valid() && r == ParseCommand(old(f.Rest()))
    ensures r.Got? ==> f.Rest() == r.rest && f.eof == old(f.eof)
  {
    hide LineLength, Line, ParseArg;
    ghost var s := f.Rest();
    LineEndHere(s);
    var line := f.Gets();
    if line[0] != '*' { return BadFormat; }
    if |line| == 1 || line[1] == '\0' { return if f.eof then Short else ReadError; }
    var argc := Decimal.Atoi(line[1..]);
    if argc < 1 { return BadFormat; }
    r := ReadArgs(f, argc);
  }

  /** The loading loop. */
  method LoadCommands(f: LogFile, known: string -> bool, tolerant: bool) returns (r: Outcome)
    requires f.Valid() && !f.eof
    modifies f
    ensures r == LoadFrom(old(f.Rest()), old(f.pos), Fresh, known, tolerant)
  {
    hide ParseCommand, Advance, Stopped, Name;
    var st := Fresh;
    while f.pos < |f.data|
      invariant f.Valid() && !f.eof
      invariant LoadFrom(old(f.Rest()), old(f.pos), Fresh, known, tolerant)
             == LoadFrom(f.Rest(), f.pos, st, known, tolerant)
      decreases |f.data| - f.pos
    {
      var c := ReadCommand(f);
      if !c.Got? { return Stopped(st, c, tolerant); }
      if !known(Name(c.value)) { return Refused(UnknownCommand); }
      st := Advance(st, c.value, f.pos, tolerant);
    }
    return if st.open then AtEnd(st, st.beforeMulti, tolerant) else Loaded(st.ran);
  }

  /** loadAppendOnlyFile */
  method LoadAppendOnlyFile(data: string, known: string -> bool, tolerant: bool) returns (r: Outcome)
    ensures r == Load(data, known, tolerant)
  {
    if data == "" { return NothingToLoad; }
    if "REDIS" <= data { return RdbPreamble; }
    var f := new LogFile(data);
    assert f.Rest() == data;
    r := LoadCommands(f, known, tolerant);
  }

  // ------------------------------------------------------------ what a log means

  predicate AllKnown(cmds: seq<Command>, known: string -> bool) {
    forall i :: 0 <= i < |cmds| ==> cmds[i] != [] && known(Name(cmds[i]))
  }

  /** A MULTI at i that no EXEC follows. */
  predicate OpenFrom(cmds: seq<Command>, i: int) {
    0 <= i < |cmds| && IsMulti(cmds[i]) && forall j :: i < j < |cmds| ==> !IsExec(cmds[j])
  }

  /** Where the transaction still open at the end of the log began, or the end of the log. */
  function OpenAt(cmds: seq<Command>): (r: nat)
    ensures r <= |cmds| && (r < |cmds| ==> IsMulti(cmds[r]) && OpenFrom(cmds, r))
    ensures forall i :: OpenFrom(cmds, i) ==> r <= i
  {
    if cmds == [] then 0
    else
      var n := |cmds| - 1;
      var r := OpenAt(cmds[..n]);
      assert forall i :: OpenFrom(cmds, i) && i < n ==> OpenFrom(cmds[..n], i);
      if IsExec(cmds[n]) then n + 1
      else if r < n || IsMulti(cmds[n]) then r
      else n + 1
  }

  /** The last MULTI of the log. */
  function LastMulti(cmds: seq<Command>): (r: nat)
    requires OpenAt(cmds) < |cmds|
    ensures OpenFrom(cmds, r)
    ensures forall i :: OpenFrom(cmds, i) ==> i <= r
  {
    var n := |cmds| - 1;
    if IsMulti(cmds[n]) then n
    else
      assert OpenFrom(cmds[..n], OpenAt(cmds));
      assert forall i :: OpenFrom(cmds, i) ==> OpenFrom(cmds[..n], i);
      LastMulti(cmds[..n])
  }

  /** Everything but the open transaction takes effect. */
  function Ran(cmds: seq<Command>): seq<Command> {
    Effective(cmds[..OpenAt(cmds)])
  }

  /** How many commands lie complete within the first p bytes. */
  function Complete(cmds: seq<Command>, p: nat): (k: nat)
    requires p <= |EncodeAll(cmds)|
    ensures k <= |cmds| && |EncodeAll(cmds[..k])| <= p
    ensures k < |cmds| ==> p < |EncodeAll(cmds[..k])| + |Encode(cmds[k])|
  {
    if cmds == [] || p < |Encode(cmds[0])| then 0
    else
      var k := Complete(cmds[1..], p - |Encode(cmds[0])|);
      assert cmds[..k + 1][1..] == cmds[1..][..k];
      k + 1
  }

  /** The loader's state after a whole log. */
  function After(cmds: seq<Command>, tolerant: bool): Loader {
    if cmds == [] then Fresh
    else
      var n := |cmds| - 1;
      Advance(After(cmds[..n], tolerant), cmds[n], |EncodeAll(cmds)|, tolerant)
  }

  lemma {:induction false} EffectiveAppend(a: seq<Command>, b: seq<Command>)
    ensures Effective(a + b) == Effective(a) + Effective(b)
  {
    if b == [] {
      assert a + b == a;
    } else {
      var n := |b| - 1;
      assert (a + b)[..|a| + n] == a + b[..n] && (a + b)[|a| + n] == b[n];
      EffectiveAppend(a, b[..n]);
    }
  }

  lemma QueueRuns(cmds: seq<Command>, o: nat)
    requires o < |cmds| && IsMulti(cmds[o])
    ensures Effective(cmds) == Effective(cmds[..o]) + Effective(cmds[o + 1..])
  {
    assert cmds == cmds[..o + 1] + cmds[o + 1..] && cmds[..o + 1][..o] == cmds[..o];
    EffectiveAppend(cmds[..o + 1], cmds[o + 1..]);
  }

  lemma OpenStep(front: seq<Command>, c: Command)
    ensures OpenAt(front + [c]) ==
              if IsExec(c) then |front| + 1
              else if OpenAt(front) < |front| || IsMulti(c) then OpenAt(front)
              else |front| + 1
  {
    hide IsExec, IsMulti, OpenFrom;
    assert (front + [c])[..|front|] == front;
  }

  lemma EffectiveStep(front: seq<Command>, c: Command)
    ensures Effective(front + [c]) == Effective(front) + if IsMulti(c) || IsExec(c) then [] else [c]
  {
    hide IsExec, IsMulti;
    assert (front + [c])[..|front|] == front;
  }

  lemma WholeSlice(cmds: seq<Command>)
    ensures cmds[..|cmds|] == cmds
  {
  }

  /** Inside a transaction only EXEC makes anything take effect: all that was held. */
  lemma RanExec(front: seq<Command>, c: Command)
    requires OpenAt(front) < |front| && IsExec(c)
    ensures Ran(front + [c]) == Ran(front) + Effective(front[OpenAt(front) + 1..])
  {
    hide IsExec, IsMulti, OpenFrom, OpenAt, Effective;
    OpenStep(front, c);
    WholeSlice(front + [c]);
    assert Ran(front + [c]) == Effective(front + [c]);
    MultiOrExec(c);
    EffectiveStep(front, c);
    QueueRuns(front, OpenAt(front));
    assert Effective(front) + [] == Effective(front);
  }

  lemma RanHeld(front: seq<Command>, c: Command)
    requires OpenAt(front) < |front| && !IsExec(c)
    ensures Ran(front + [c]) == Ran(front)
  {
    hide IsExec, IsMulti, OpenFrom, OpenAt, Effective;
    OpenStep(front, c);
    assert (front + [c])[..OpenAt(front)] == front[..OpenAt(front)];
  }

  /** Outside one, every command takes effect but the markers. */
  lemma RanOutside(front: seq<Command>, c: Command)
    requires OpenAt(front) == |front|
    ensures Ran(front + [c]) == if IsExec(c) || IsMulti(c) then Ran(front) else Ran(front) + [c]
  {
    hide IsExec, IsMulti, OpenFrom, OpenAt, Effective;
    var cmds := front + [c];
    OpenStep(front, c);
    EffectiveStep(front, c);
    assert front[..|front|] == front && cmds[..|front|] == front && cmds[..|front| + 1] == cmds;
  }

  /** The fake client has run, and holds back, what it should after a log. */
  predicate Caught(st: Loader, cmds: seq<Command>) {
    var o := OpenAt(cmds);
    && st.open == (o < |cmds|) && st.ran == Ran(cmds)
    && st.queue == if o < |cmds| then cmds[o + 1..] else []
  }

  lemma CaughtStep(st: Loader, front: seq<Command>, c: Command)
    requires Caught(st, front)
    ensures Caught(Step(st, c), front + [c])
  {
    hide Ran, OpenAt, OpenFrom, Effective, IsMulti, IsExec;
    MultiOrExec(c);
    OpenStep(front, c);
    var o := OpenAt(front);
    if o < |front| {
      if IsExec(c) { RanExec(front, c); } else { RanHeld(front, c); }
      assert (front + [c])[o + 1..] == front[o + 1..] + [c];
    } else {
      RanOutside(front, c);
      assert (front + [c])[o + 1..] == [];
    }
  }

  /** The fake client holds back exactly the open transaction. */
  lemma {:induction false} AfterRuns(cmds: seq<Command>, tolerant: bool)
    ensures Caught(After(cmds, tolerant), cmds)
  {
    if cmds != [] {
      hide Ran, OpenAt, Step;
      var front, c := cmds[..|cmds| - 1], cmds[|cmds| - 1];
      assert cmds == front + [c];
      AfterRuns(front, tolerant);
      CaughtStep(After(front, tolerant), front, c);
    }
  }

  lemma MultiOrExec(c: Command)
    ensures !IsMulti(c) || !IsExec(c)
  {
  }

  /** The two offsets the loader keeps, as positions in the log. */
  lemma {:induction false} AfterOffsets(cmds: seq<Command>)
    ensures After(cmds, true).validUpTo == |EncodeAll(cmds)|
    ensures OpenAt(cmds) < |cmds| ==> After(cmds, true).beforeMulti == |EncodeAll(cmds[..LastMulti(cmds)])|
  {
    hide IsMulti, IsExec, EncodeAll;
    if cmds == [] {
      assert EncodeAll(cmds) == "";
    } else {
      var n := |cmds| - 1;
      AfterOffsets(cmds[..n]);
      if OpenAt(cmds) < |cmds| && !IsMulti(cmds[n]) {
        assert OpenFrom(cmds[..n], OpenAt(cmds));
        assert cmds[..n][..LastMulti(cmds)] == cmds[..LastMulti(cmds)];
      }
    }
  }

  // ---------------------------------------------------------------- main results

  /** Whole commands are consumed one by one and leave the loader in After. */
  lemma {:induction false} LoadWholeCommands(cmds: seq<Command>, k: nat, tail: string, known: string -> bool, tolerant: bool)
    requires k <= |cmds| && AllPrintable(cmds) && AllKnown(cmds, known)
    ensures LoadFrom(EncodeAll(cmds[k..]) + tail, |EncodeAll(cmds[..k])|, After(cmds[..k], tolerant), known, tolerant)
         == LoadFrom(tail, |EncodeAll(cmds)|, After(cmds, tolerant), known, tolerant)
    decreases |cmds| - k
  {
    hide ParseCommand, Advance, Encode, EncodeAll, After;
    if k == |cmds| {
      WholeSlice(cmds);
      NothingEncoded(cmds[k..]);
      assert EncodeAll(cmds[k..]) + tail == tail;
    } else {
      var rest := EncodeAll(cmds[k + 1..]) + tail;
      var s := EncodeAll(cmds[k..]) + tail;
      EncodeNext(cmds, k);
      assert s == Encode(cmds[k]) + rest;
      ParseEncode(cmds[k], rest);
      AfterNext(cmds, k, tolerant);
      LoadWholeCommands(cmds, k + 1, tail, known, tolerant);
    }
  }

  lemma NothingEncoded(cmds: seq<Command>)
    requires cmds == []
    ensures EncodeAll(cmds) == ""
  {
  }

  lemma EncodeNext(cmds: seq<Command>, k: nat)
    requires k < |cmds|
    ensures EncodeAll(cmds[k..]) == Encode(cmds[k]) + EncodeAll(cmds[k + 1..])
    ensures |EncodeAll(cmds[..k + 1])| == |EncodeAll(cmds[..k])| + |Encode(cmds[k])|
  {
    hide Encode;
    assert cmds[k..][1..] == cmds[k + 1..];
    assert cmds[..k + 1] == cmds[..k] + [cmds[k]];
    EncodeAllAppend(cmds[..k], [cmds[k]]);
    assert EncodeAll([cmds[k]]) == Encode(cmds[k]) + EncodeAll([]);
  }

  lemma AfterNext(cmds: seq<Command>, k: nat, tolerant: bool)
    requires k < |cmds|
    ensures After(cmds[..k + 1], tolerant)
         == Advance(After(cmds[..k], tolerant), cmds[k], |EncodeAll(cmds[..k + 1])|, tolerant)
  {
    hide Advance, EncodeAll;
    assert cmds[..k + 1][..k] == cmds[..k];
  }

  lemma NotRdb(cmds: seq<Command>, p: nat)
    requires 0 < p <= |EncodeAll(cmds)|
    ensures !("REDIS" <= EncodeAll(cmds)[..p])
  {
    assert EncodeAll(cmds)[..p][0] == Encode(cmds[0])[0];
  }

  /** A log of whole commands loads completely, or is rolled back to the last MULTI. */
  lemma LoadLog(cmds: seq<Command>, known: string -> bool, tolerant: bool)
    requires cmds != [] && AllPrintable(cmds) && AllKnown(cmds, known)
    ensures Load(EncodeAll(cmds), known, tolerant) ==
              if OpenAt(cmds) == |cmds| then Loaded(Ran(cmds))
              else if tolerant then Cut(Ran(cmds), |EncodeAll(cmds[..LastMulti(cmds)])|)
              else Refused(ShortFile)
  {
    var s := EncodeAll(cmds);
    assert s[..|s|] == s;
    NotRdb(cmds, |s|);
    assert cmds[0..] == cmds && s + "" == s && cmds[..0] == [];
    LoadWholeCommands(cmds, 0, "", known, tolerant);
    AfterRuns(cmds, tolerant);
    AfterOffsets(cmds);
  }

  /** A log cut inside a command loads the commands before it and is truncated behind them. */
  lemma LoadCut(cmds: seq<Command>, p: nat, known: string -> bool, tolerant: bool)
    requires AllPrintable(cmds) && AllKnown(cmds, known) && p <= |EncodeAll(cmds)|
    requires |EncodeAll(cmds[..Complete(cmds, p)])| < p
    ensures var kept := cmds[..Complete(cmds, p)];
            Load(EncodeAll(cmds)[..p], known, tolerant) ==
              if tolerant then Cut(Ran(kept), |EncodeAll(kept)|) else Refused(ShortFile)
  {
    hide Encode, ParseCommand, Advance, Ran;
    var k := Complete(cmds, p);
    var kept, at := cmds[..k], |EncodeAll(cmds[..k])|;
    assert cmds[..|cmds|] == cmds;
    var c := Encode(cmds[k]);
    assert cmds == kept + cmds[k..];
    EncodeAllAppend(kept, cmds[k..]);
    var s := EncodeAll(cmds)[..p];
    assert EncodeAll(cmds[k..]) == c + EncodeAll(cmds[k..][1..]);
    assert s == EncodeAll(kept) + c[..p - at];
    NotRdb(cmds, p);
    CutEncode(cmds[k], p - at);
    assert kept[0..] == kept && kept[..0] == [];
    LoadWholeCommands(kept, 0, c[..p - at], known, tolerant);
    AfterRuns(kept, tolerant);
    AfterOffsets(kept);
  }

  predicate TransactionFree(cmds: seq<Command>) {
    forall i :: 0 <= i < |cmds| ==> !IsMulti(cmds[i]) && !IsExec(cmds[i])
  }

  lemma {:induction false} TransactionFreeRuns(cmds: seq<Command>)
    requires TransactionFree(cmds)
    ensures OpenAt(cmds) == |cmds| && Ran(cmds) == cmds
  {
    if cmds != [] {
      hide Ran, OpenAt, IsMulti, IsExec;
      var front, c := cmds[..|cmds| - 1], cmds[|cmds| - 1];
      assert cmds == front + [c];
      TransactionFreeRuns(front);
      OpenStep(front, c);
      RanOutside(front, c);
    }
  }

  lemma WholeCut(cmds: seq<Command>, p: nat)
    requires p <= |EncodeAll(cmds)|
    ensures EncodeAll(cmds)[..|EncodeAll(cmds[..Complete(cmds, p)])|] == EncodeAll(cmds[..Complete(cmds, p)])
  {
    hide Encode;
    var k := Complete(cmds, p);
    assert cmds == cmds[..k] + cmds[k..];
    EncodeAllAppend(cmds[..k], cmds[k..]);
  }

  /**
   * Any byte prefix of a transaction-free log loads exactly its complete commands, and what
   * the loader keeps of the file is exactly their encoding.
   */
  lemma AnyPrefixLoads(cmds: seq<Command>, p: nat, known: string -> bool)
    requires AllPrintable(cmds) && AllKnown(cmds, known) && TransactionFree(cmds) && p <= |EncodeAll(cmds)|
    ensures var kept := cmds[..Complete(cmds, p)];
            var at := |EncodeAll(kept)|;
            && EncodeAll(cmds)[..at] == EncodeAll(kept)
            && Load(EncodeAll(cmds)[..p], known, true) ==
                 if at < p then Cut(kept, at) else if p == 0 then NothingToLoad else Loaded(kept)
  {
    hide Load, Complete, OpenAt, Ran;
    var kept := cmds[..Complete(cmds, p)];
    WholeCut(cmds, p);
    TransactionFreeRuns(kept);
    if |EncodeAll(kept)| < p {
      LoadCut(cmds, p, known, true);
    } else if p > 0 {
      LoadLog(kept, known, true);
    } else {
      LoadNothing(known);
      assert EncodeAll(cmds)[..p] == "";
    }
  }

  lemma LoadNothing(known: string -> bool)
    ensures Load("", known, true) == NothingToLoad
  {
  }

  /**
   * A roll back leaves a log that closes all its transactions exactly when no MULTI was
   * nested in the open one; either way what takes effect stays the same.
   */
  lemma RollbackExact(cmds: seq<Command>)
    requires OpenAt(cmds) < |cmds|
    ensures var kept := cmds[..LastMulti(cmds)];
            && Ran(kept) == Ran(cmds)
            && (OpenAt(kept) == |kept| <==> LastMulti(cmds) == OpenAt(cmds))
  {
    hide Name, Effective;
    var o, l := OpenAt(cmds), LastMulti(cmds);
    var kept := cmds[..l];
    MultiOrExec(cmds[l]);
    if o < l {
      assert OpenFrom(kept, o);
    }
    forall i | OpenFrom(kept, i) ensures o <= i {
      assert OpenFrom(cmds, i);
    }
    assert kept[..o] == cmds[..o];
  }

  /** Two MULTI in a row: the roll back keeps the first one, still open. */
  lemma NestedMultiStaysOpen(known: string -> bool)
    requires known("multi")
    ensures Load(EncodeAll([["MULTI"], ["MULTI"]]), known, true) == Cut([], |EncodeAll([["MULTI"]])|)
    ensures OpenAt([["MULTI"]]) == 0
  {
    var m: Command := ["MULTI"];
    var cmds := [m, m];
    assert Lower("MULTI") == "multi";
    assert OpenFrom(cmds, 1) && OpenFrom(cmds, 0) && OpenFrom([m], 0);
    assert cmds[..0] == [] && cmds[..1] == [m];
    LoadLog(cmds, known, true);
  }
}
