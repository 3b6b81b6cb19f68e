/** The parent process: buffers, blocks and counters updated in place, as aof.c does. */
module AofServer {
  import opened Text
  import opened AofFormat
  import opened AofLoader
  import opened AofFeed
  import opened AofSystem
  import opened Decimal

  /** One result of write(2): interrupted, failed, or some bytes taken. */
  datatype Sys = Interrupted | Failed_ | Wrote(n: nat)

  datatype Policy = Always | EverySecond | No

  const BLOCK_SIZE := 1024 * 1024 * 10

  function Concat(blocks: seq<string>): string {
    if blocks == [] then "" else Concat(blocks[..|blocks| - 1]) + blocks[|blocks| - 1]
  }

  lemma {:induction false} ConcatFirst(blocks: seq<string>)
    requires blocks != []
    ensures Concat(blocks) == blocks[0] + Concat(blocks[1..])
  {
    var n := |blocks| - 1;
    if n > 0 {
      ConcatFirst(blocks[..n]);
      assert blocks[1..][..n - 1] == blocks[..n][1..];
    } else {
      assert blocks[..0] == [] && blocks[1..] == [];
    }
  }

  predicate Blocks(blocks: seq<string>) {
    forall i :: 0 <= i < |blocks| ==> 0 < |blocks[i]| <= BLOCK_SIZE
  }

  /** The blocks after n bytes of the first were sent; an emptied block is freed. */
  function Unsent(blocks: seq<string>, n: nat): seq<string>
    requires blocks != [] && n <= |blocks[0]|
  {
    if n == |blocks[0]| then blocks[1..] else [blocks[0][n..]] + blocks[1..]
  }

  lemma Sent(blocks: seq<string>, n: nat)
    requires Blocks(blocks) && blocks != [] && n <= |blocks[0]|
    ensures Blocks(Unsent(blocks, n)) && n <= |Concat(blocks)|
    ensures Concat(blocks)[..n] == blocks[0][..n] && Concat(Unsent(blocks, n)) == Concat(blocks)[n..]
  {
    hide Concat;
    ConcatFirst(blocks);
    var rest := Unsent(blocks, n);
    if n < |blocks[0]| {
      ConcatFirst(rest);
      assert rest[1..] == blocks[1..];
    }
  }

  function Min(a: nat, b: nat): nat { if a < b then a else b }

  function ResultAt(results: seq<Sys>, i: nat): Sys {
    if i < |results| then results[i] else Failed_
  }

  /** The bytes write(2) is ready to take from the first result on, up to the first failure. */
  function Accepts(results: seq<Sys>): nat {
    if results == [] || results[0].Failed_? then 0
    else (if results[0].Wrote? then results[0].n else 0) + Accepts(results[1..])
  }

  /** aofWrite retries short and interrupted writes: it writes all that is taken, and -1 says nothing was. */
  method AofWrite(file: string, buf: string, results: seq<Sys>) returns (after: string, n: int)
    ensures var taken := Min(|buf|, Accepts(results));
            after == file + buf[..taken] && n == if taken == 0 && buf != "" then -1 else taken
  {
    var done, i := 0, 0;
    after := file;
    assert results[0..] == results;
    while done < |buf|
      invariant 0 <= done <= |buf| && i <= |results| && after == file + buf[..done]
      invariant Min(|buf|, Accepts(results)) == Min(|buf|, done + Accepts(results[i..]))
      decreases |results| - i
    {
      var r := ResultAt(results, i);
      match r {
        case Interrupted =>
        case Failed_ => return after, if done > 0 then done else -1;
        case Wrote(k) =>
          var k := Min(k, |buf| - done);
          assert buf[..done] + buf[done..done + k] == buf[..done + k];
          after := after + buf[done..done + k];
          done := done + k;
      }
      assert results[i..][1..] == results[i + 1..];
      i := i + 1;
    }
    n := done;
  }

  /** How the write of a buffer of this length ends. */
  function WrittenBy(length: nat, results: seq<Sys>, truncates: bool): Written {
    var taken := Accepts(results);
    if taken >= length then All else if taken == 0 then None else Part(taken, truncates)
  }

  /** The bytes the pipe takes: one write for each block that is not empty yet, up to one that takes nothing. */
  function Delivered(blocks: seq<string>, results: seq<Sys>): (k: nat)
    decreases |results|
  {
    if blocks == [] || results == [] || !results[0].Wrote? || results[0].n == 0 then 0
    else
      var n := Min(results[0].n, |blocks[0]|);
      n + Delivered(Unsent(blocks, n), results[1..])
  }

  /** All pending bytes are delivered if every write takes some and there are as many writes as bytes. */
  lemma {:induction false} DeliversAll(blocks: seq<string>, results: seq<Sys>)
    requires Blocks(blocks) && forall i :: 0 <= i < |results| ==> results[i].Wrote? && results[i].n > 0
    ensures Delivered(blocks, results) <= |Concat(blocks)|
    ensures |results| >= |Concat(blocks)| ==> Delivered(blocks, results) == |Concat(blocks)|
    decreases |results|
  {
    if blocks != [] {
      ConcatFirst(blocks);
      if results != [] {
        var n := Min(results[0].n, |blocks[0]|);
        Sent(blocks, n);
        hide Concat, Unsent;
        DeliversAll(Unsent(blocks, n), results[1..]);
      }
    }
  }

  lemma NothingLeft(results: seq<Sys>)
    ensures Delivered([], results) == 0
  {
  }

  /** The next write. */
  lemma DeliversNext(blocks: seq<string>, results: seq<Sys>, i: nat)
    requires blocks != [] && i <= |results|
    ensures var r := ResultAt(results, i);
            Delivered(blocks, results[i..]) ==
              if !r.Wrote? || r.n == 0 then 0
              else Min(r.n, |blocks[0]|) + Delivered(Unsent(blocks, Min(r.n, |blocks[0]|)), results[i + 1..])
    ensures i == |results| ==> !ResultAt(results, i).Wrote?
  {
    if i < |results| {
      assert results[i..][0] == results[i] && results[i..][1..] == results[i + 1..];
    }
  }

  /** Each block is taken by one write. */
  predicate TakesAll(blocks: seq<string>, results: seq<Sys>) {
    forall i :: 0 <= i < |blocks| ==> ResultAt(results, i).Wrote? && ResultAt(results, i).n >= |blocks[i]|
  }

  class Server {
    var state: AofState
    var file: string
    var buf: string
    var size: int
    var selected: int
    var child: bool
    var blocks: seq<string>
    var pipe: string
    var stop: bool
    var policy: Policy
    var postponed: int
    ghost var model: System

    ghost predicate Valid()
      reads this
    {
      && Blocks(blocks)
      && model.state == state && model.file == file && model.buf == buf && model.size == size
      && model.selected == selected && model.pending == Concat(blocks) && model.stop == stop
      && model.child.Child? == child && (child ==> model.child.pipe == pipe)
    }

    // -------------------------------------------------------------- rewrite buffer

    /** aofRewriteBufferAppend: fills the last block, then allocates new ones. */
    method BufferAppend(s: string)
      requires Blocks(blocks)
      modifies this`blocks
      ensures Blocks(blocks) && Concat(blocks) == old(Concat(blocks)) + s
    {
      var rest := s;
      while rest != ""
        invariant Blocks(blocks) && Concat(blocks) + rest == old(Concat(blocks)) + s
        decreases |rest|
      {
        ghost var before := Concat(blocks);
        if blocks != [] && |blocks[|blocks| - 1]| < BLOCK_SIZE {
          var last := |blocks| - 1;
          var k := Min(BLOCK_SIZE - |blocks[last]|, |rest|);
          assert before == Concat(blocks[..last]) + blocks[last];
          blocks := blocks[last := blocks[last] + rest[..k]];
          assert rest == rest[..k] + rest[k..];
          assert Concat(blocks) == before + rest[..k];
          rest := rest[k..];
        } else {
          var k := Min(BLOCK_SIZE, |rest|);
          label Before: blocks := blocks + [rest[..k]];
          assert blocks[..|blocks| - 1] == old@Before(blocks) && Concat(blocks) == before + rest[..k];
          assert rest == rest[..k] + rest[k..];
          rest := rest[k..];
        }
      }
    }

    /** aofChildWriteDiffData: sends blocks until told to stop, out of blocks, or the pipe is full. */
    method WriteDiffData(results: seq<Sys>, ghost w: World) returns (k: nat)
      requires Valid() && child
      modifies this`blocks, this`pipe, this`model
      ensures Valid() && k == if old(stop) then 0 else Delivered(old(blocks), results)
      ensures k <= |old(model).pending| && model == Next(old(model), ParentWrite(k), w)
    {
      hide Concat, Blocks, Delivered, Unsent, ResultAt;
      k := 0;
      ghost var all := Concat(blocks);
      var i := 0;
      assert results[0..] == results;
      while !stop && blocks != []
        invariant i <= |results| && (!stop ==> Delivered(old(blocks), results) == k + Delivered(blocks, results[i..]))
        invariant Blocks(blocks) && k <= |all| && (stop ==> k == 0) && model == old(model)
        invariant pipe == old(pipe) + all[..k] && Concat(blocks) == all[k..]
        decreases |results| - i
      {
        var r := ResultAt(results, i);
        DeliversNext(blocks, results, i);
        if !r.Wrote? || r.n == 0 { break; }
        i := i + 1;
        var n := Min(r.n, |blocks[0]|);
        Sent(blocks, n);
        assert all[..k] + all[k..][..n] == all[..k + n] && all[k..][n..] == all[k + n..];
        pipe := pipe + blocks[0][..n];
        k := k + n;
        blocks := Unsent(blocks, n);
      }
      assert !stop && blocks == [] ==> Delivered(blocks, results[i..]) == 0 by { NothingLeft(results[i..]); }
      model := model.(child := model.child.(pipe := pipe), pending := all[k..]);
    }

    /** aofRewriteBufferWrite: everything or failure; a failed write leaves the temporary file useless. */
    method BufferWrite(temp: string, results: seq<Sys>) returns (ok: bool, after: string)
      requires Blocks(blocks)
      ensures ok <==> TakesAll(blocks, results)
      ensures ok ==> after == temp + Concat(blocks)
    {
      after := temp;
      assert Concat(blocks[..0]) == "";
      for i := 0 to |blocks|
        invariant after == temp + Concat(blocks[..i]) && TakesAll(blocks[..i], results)
      {
        var r := ResultAt(results, i);
        if !r.Wrote? || r.n < |blocks[i]| { return false, after; }
        assert blocks[..i + 1][..i] == blocks[..i];
        after := after + blocks[i];
      }
      assert blocks[..|blocks|] == blocks;
      ok := true;
    }

    // ------------------------------------------------------------------------ feed

    /** feedAppendOnlyFile at time `fed` for a command that ran in database db. */
    method FeedCommand(db: nat, cmd: Command, fed: int, ghost f: SetFlags) returns (stopped: bool)
      requires Valid() && Accepted(cmd, f)
      modifies this`buf, this`selected, this`blocks, this`model
      ensures Valid() && model == Feed(old(model), db, cmd, fed)
      ensures stopped <==> Conflicts(cmd)
    {
      hide Fed, EncodeAll, Concat, Blocks, Accepted, Conflicts;
      var out;
      out, stopped := Print(selected, db, cmd, fed, f);
      selected := db;
      if !stopped {
        if state == On { buf := buf + out; }
        if child { BufferAppend(out); }
      }
      model := Feed(model, db, cmd, fed);
    }

    // ----------------------------------------------------------------------- flush

    /** The write is put off: a background fsync is in progress, for less than two seconds. */
    predicate Postpones(force: bool, busy: bool, now: int)
      reads this`policy, this`postponed
    {
      policy == EverySecond && !force && busy && (postponed == 0 || now - postponed < 2)
    }

    /**
     * flushAppendOnlyFile: `busy` says whether a background fsync is in progress. Under the
     * always policy a failed write ends the server.
     */
    method FlushAppendOnlyFile(force: bool, busy: bool, now: int, results: seq<Sys>, truncates: bool)
      returns (exited: bool, r: Written)
      requires Valid() && size >= 0 && state != Off
      modifies this`file, this`buf, this`size, this`postponed, this`model
      ensures !exited ==> Valid() && model == Flush(old(model), r)
      ensures old(buf) == "" ==>
                r.None? && !exited && file == old(file) && buf == "" && size == old(size) && postponed == old(postponed)
      ensures old(buf) != "" && old(Postpones(force, busy, now)) ==>
                && r.None? && !exited && file == old(file) && buf == old(buf) && size == old(size)
                && postponed == if old(postponed) == 0 then now else old(postponed)
      ensures old(buf) != "" && !old(Postpones(force, busy, now)) ==>
                && postponed == 0 && r == WrittenBy(|old(buf)|, results, truncates)
                && WroteOut(old(file), old(buf), old(size), results, truncates, exited)
    {
      exited, r := false, None;
      if buf == "" { return; }
      if policy == EverySecond && !force && busy {
        if postponed == 0 { postponed := now; return; }
        if now - postponed < 2 { return; }
      }
      postponed := 0;
      exited, r := WriteOut(results, truncates);
    }

    /**
     * What a write leaves: all of the buffer in the file; or as much as was taken, which is undone
     * or counted; a server that must not lose writes ends unless all of it was taken.
     */
    ghost predicate WroteOut(file0: string, buf0: string, size0: int, results: seq<Sys>, truncates: bool, exited: bool)
      reads this`file, this`buf, this`size, this`policy
    {
      var taken := Accepts(results);
      && (exited <==> policy == Always && taken < |buf0|)
      && (taken >= |buf0| ==> file == file0 + buf0 && buf == "" && size == size0 + |buf0|)
      && (taken == 0 < |buf0| ==> file == file0 && buf == buf0 && size == size0)
      && (0 < taken < |buf0| && truncates ==>
            file == Truncated(file0 + buf0[..taken], size0) && buf == buf0 && size == size0)
      && (0 < taken < |buf0| && !truncates ==>
            && file == file0 + buf0[..taken]
            && (!exited ==> buf == buf0[taken..] && size == size0 + taken))
    }

    /** The write itself and what is done about a failed or short one. */
    method WriteOut(results: seq<Sys>, truncates: bool) returns (exited: bool, r: Written)
      requires Valid() && size >= 0 && buf != ""
      modifies this`file, this`buf, this`size, this`model
      ensures !exited ==> Valid() && model == Flush(old(model), r)
      ensures r == WrittenBy(|old(buf)|, results, truncates)
      ensures WroteOut(old(file), old(buf), old(size), results, truncates, exited)
    {
      hide Concat, Blocks, Truncated, Accepts;
      var after, n := AofWrite(file, buf, results);
      exited := false;
      if n == |buf| {
        assert buf[..n] == buf;
        r := All;
        file, size, buf := after, size + n, "";
      } else {
        assert n == -1 ==> buf[..0] == "" && file + "" == file;
        r := if n == -1 then None else Part(n, truncates);
        file := after;
        if r.Part? && truncates {
          file, n := Truncated(after, size), -1;
        }
        if policy == Always { return true, r; }
        if n > 0 {
          size, buf := size + n, buf[n..];
        }
      }
      model := Flush(model, r);
    }

    // --------------------------------------------------------------------- rewrite

    /** rewriteAppendOnlyFileBackground in the parent, once the fork worked. */
    method StartRewrite(ghost base: seq<Command>)
      requires Valid() && !child && blocks == []
      modifies this`child, this`selected, this`stop, this`pipe, this`model
      ensures Valid() && model == Fork(old(model), base)
    {
      pipe, stop, child := "", false, true;
      selected := NO_DB;
      model := Fork(model, base);
    }

    /** aofChildPipeReadable: the child asked to stop. */
    method StopRequested(delivered: bool, ghost w: World)
      requires Valid() && child
      modifies this`stop, this`model
      ensures Valid() && model == Next(old(model), ParentAck(delivered), w)
    {
      stop := true;
      model := model.(stop := true, child := model.child.(acked := delivered));
    }

    /** backgroundRewriteDoneHandler; temp is the file the child wrote. */
    method RewriteDone(exitOk: bool, temp: string, opens: bool, results: seq<Sys>, renames: bool, statOk: bool) returns (ok: bool)
      requires Valid() && child && (exitOk ==> temp == model.child.snap + model.child.diff)
      modifies this
      ensures Valid() && model == Finish(old(model), ok, statOk) && blocks == [] && !child
      ensures ok <==> exitOk && opens && renames && TakesAll(old(blocks), results)
    {
      hide TakesAll;
      ok := false;
      if exitOk && opens {
        var written, whole := BufferWrite(temp, results);
        if written && renames {
          ok := true;
          assert whole == Rewritten(model);
          file := whole;
          if state != Off {
            selected := NO_DB;
            if statOk { size := |file|; }
            buf := "";
            state := On;
          }
        }
      }
      blocks, child := [], false;
      model := Finish(model, ok, statOk);
    }
  }

  // ------------------------------------------------------------------- printing

  lemma {:induction false} FindOptionLast(args: seq<string>, y: string, name: string)
    requires args != []
    ensures FindOption(args + [y], name) == if OptionName(args[|args| - 1]) == name then [y] else FindOption(args, name)
  {
    hide OptionName;
    if |args| > 1 {
      FindOptionLast(args[1..], y, name);
      assert (args + [y])[1..] == args[1..] + [y];
    } else {
      assert (args + [y])[1..] == [y];
    }
  }

  /** Only the expire time that is used can be the last argument. */
  lemma {:induction false} EndsInNoOption(args: seq<string>, f: SetFlags, g: SetFlags)
    requires ReadsOptions(args, f, g) && Timed(g.expiry) && args != []
    ensures OptionName(args[|args| - 1]) != "ex" && OptionName(args[|args| - 1]) != "px"
    decreases |args|
  {
    hide OptionName, IsNumeral;
    var a := OptionName(args[0]);
    if a in {"nx", "xx", "keepttl"} {
      var f' := if a == "nx" then f.(nx := true) else if a == "xx" then f.(xx := true) else f.(keep := true);
      FlagIsNoTime(a);
      if |args| > 1 { EndsInNoOption(args[1..], f', g); }
    } else {
      var f' := f.(expiry := if a == "ex" then Seconds(args[1]) else Millis(args[1]));
      if |args| > 2 {
        EndsInNoOption(args[2..], f', g);
      } else {
        assert g == f';
        NumeralIsNoOption(args[1]);
      }
    }
  }

  lemma FlagIsNoTime(a: string)
    requires a in {"nx", "xx", "keepttl"}
    ensures a != "ex" && a != "px"
  {
    assert a[0] != "ex"[0] && a[0] != "px"[0];
  }

  /**
   * The option scan of feedAppendOnlyFile; it never looks behind the last argument. Its assertion
   * fails if and only if a replaced expire time spells the option of the other unit.
   */
  method ScanOptions(cmd: Command, ghost f: SetFlags) returns (ex: seq<string>, px: seq<string>, stopped: bool)
    requires |cmd| > 3 && Name(cmd) == "set" && Accepted(cmd, f)
    ensures ex == FindOption(cmd[3..], "ex") && px == FindOption(cmd[3..], "px")
    ensures stopped <==> Misleading(cmd[3..], f.expiry)
    ensures !stopped ==> f.expiry == if ex != [] then Seconds(ex[0]) else if px != [] then Millis(px[0]) else Never
  {
    hide OptionName, Name;
    EndsInNoOption(cmd[3..], NoFlags, f);
    ScanExact(cmd, f);
    hide Accepted, Misleading, FindOption;
    ex, px := [], [];
    FindOne(cmd[3..4]);
    for i := 3 to |cmd|
      invariant ex == FindOption(cmd[3..if i < |cmd| then i + 1 else i], "ex")
      invariant px == FindOption(cmd[3..if i < |cmd| then i + 1 else i], "px")
    {
      if i + 1 < |cmd| {
        assert cmd[3..i + 2] == cmd[3..i + 1] + [cmd[i + 1]];
        FindOptionLast(cmd[3..i + 1], cmd[i + 1], "ex");
        FindOptionLast(cmd[3..i + 1], cmd[i + 1], "px");
      }
      if OptionName(cmd[i]) == "ex" { ex := [cmd[i + 1]]; }
      if OptionName(cmd[i]) == "px" { px := [cmd[i + 1]]; }
    }
    assert cmd[3..|cmd|] == cmd[3..];
    stopped := ex != [] && px != [];
  }

  lemma FindOne(args: seq<string>)
    requires |args| == 1
    ensures FindOption(args, "ex") == [] && FindOption(args, "px") == []
  {
  }

  lemma SelectBulk()
    ensures Header('*', 2) == "*2\r\n" && Bulk("SELECT") == "$6\r\nSELECT\r\n"
  {
    assert Digits(2) == "2" && Digits(6) == "6";
    assert Header('$', 6) == "$6\r\n";
  }

  lemma EncodeSelect(db: nat)
    ensures Encode(Select(db)) == "*2\r\n$6\r\nSELECT\r\n" + Bulk(Digits(db))
  {
    hide Bulk, Header, Digits;
    SelectBulk();
    var c := Select(db);
    assert c[1..] == [Digits(db)] && c[1..][1..] == [];
    assert Bulks(c) == Bulk("SELECT") + (Bulk(Digits(db)) + Bulks([]));
  }

  lemma EncodeOne(c: Command)
    ensures EncodeAll([c]) == Encode(c)
  {
    hide Encode;
    assert EncodeAll([c]) == Encode(c) + EncodeAll([]);
  }

  lemma EncodeTwo(a: Command, b: Command)
    ensures EncodeAll([a, b]) == Encode(a) + Encode(b)
  {
    hide Encode;
    EncodeOne(b);
    assert [a, b][1..] == [b];
  }

  /** The command or its translation, printed, unless the scan stops the server. */
  method PrintTranslated(dst: string, cmd: Command, now: int, ghost f: SetFlags) returns (out: string, stopped: bool)
    requires Accepted(cmd, f)
    ensures stopped <==> Conflicts(cmd)
    ensures !stopped ==> out == dst + EncodeAll(Translate(cmd, now))
  {
    hide Encode, EncodeAll, FindOption, ReadsOptions, Lower, When, ExpireAt, Misleading, Timed;
    out, stopped := dst, false;
    var first, second: seq<Command> := cmd, [];
    if IsNamed(cmd, "expire", 3) {
      first := ExpireAt(cmd[1], Seconds(cmd[2]), now);
    } else if IsNamed(cmd, "pexpire", 3) {
      first := ExpireAt(cmd[1], Millis(cmd[2]), now);
    } else if IsNamed(cmd, "expireat", 3) {
      first := ExpireAt(cmd[1], Seconds(cmd[2]), 0);
    } else if IsNamed(cmd, "setex", 4) {
      first, second := ["SET", cmd[1], cmd[3]], [ExpireAt(cmd[1], Seconds(cmd[2]), now)];
    } else if IsNamed(cmd, "psetex", 4) {
      first, second := ["SET", cmd[1], cmd[3]], [ExpireAt(cmd[1], Millis(cmd[2]), now)];
    } else if |cmd| > 3 && Name(cmd) == "set" {
      var ex, px;
      ex, px, stopped := ScanOptions(cmd, f);
      ScanExact(cmd, f);
      if stopped { return; }
      if ex != [] {
        first, second := cmd[..3], [ExpireAt(cmd[1], Seconds(ex[0]), now)];
      } else if px != [] {
        first, second := cmd[..3], [ExpireAt(cmd[1], Millis(px[0]), now)];
      }
    }
    assert Translate(cmd, now) == [first] + second;
    out := CatCommand(out, first);
    EncodeOne(first);
    if second != [] {
      EncodeTwo(first, second[0]);
      out := CatCommand(out, second[0]);
    }
  }

  /** What feedAppendOnlyFile prints: SELECT when the database changes, then the command. */
  method Print(selected: int, db: nat, cmd: Command, now: int, ghost f: SetFlags) returns (out: string, stopped: bool)
    requires Accepted(cmd, f)
    ensures stopped <==> Conflicts(cmd)
    ensures !stopped ==> out == EncodeAll(Fed(selected, db, cmd, now))
  {
    hide Encode, EncodeAll, Translate, Accepted, Select, Conflicts;
    out := "";
    ghost var sel := if db != selected then [Select(db)] else [];
    EncodeAllAppend(sel, Translate(cmd, now));
    if db != selected {
      EncodeSelect(db);
      EncodeOne(Select(db));
      out := "*2\r\n$6\r\nSELECT\r\n" + Bulk(Digits(db));
    }
    out, stopped := PrintTranslated(out, cmd, now, f);
  }

  /** aofReadDiffFromParent on a pipe nobody writes to: reads up to 64 KB at a time until it is empty. */
  method ReadDiff(diff: string, pipe: string) returns (after: string, total: nat)
    ensures after == diff + pipe && total == |pipe|
  {
    after, total := diff, 0;
    while total < |pipe|
      invariant total <= |pipe| && after == diff + pipe[..total]
    {
      var n := Min(65536, |pipe| - total);
      assert pipe[..total] + pipe[total..total + n] == pipe[..total + n];
      after, total := after + pipe[total..total + n], total + n;
    }
  }
}
