/**
 * The server, its append only file and the rewrite child as one state machine:
 * commands, flushes with any outcome, pipe reads and writes, the stop handshake,
 * rewrite start, failure and switch-over, AOF switched on and off.
 */
module AofSystem {
  import opened Text
  import opened AofFormat
  import opened AofLoader
  import opened AofReplay
  import opened AofFeed
  import opened AofClock
  import opened Decimal

  datatype AofState = On | WaitRewrite | Off

  /** Asked: sent '!' and waits; Draining: got '!' back; Done: exited with 0. */
  datatype Phase = Working | Asked | Draining | Done | Failed

  /** snap: the rewritten dataset; diff: what was read from the pipe so far. */
  datatype Child = NoChild | Child(snap: string, diff: string, pipe: string, phase: Phase, acked: bool)

  /**
   * `log`, `base` and `since` are history: the commands behind file and buf, the commands
   * of the child's snapshot, and the commands fed since the fork. `stopped`: a command was met that
   * could not be fed.
   */
  datatype System = System(
    data: Data, open: bool, stopped: bool, state: AofState,
    file: string, buf: string, size: int, selected: int,
    child: Child, pending: string, stop: bool,
    log: seq<Command>, base: seq<Command>, since: seq<Command>)

  /** The command table, what the uninterpreted commands do, and how late a command may be fed. */
  datatype World = World(known: string -> bool, other: Other, delay: nat)

  ghost predicate Table(w: World) {
    w.known("select") && w.known("set") && w.known("pexpireat")
  }

  // ------------------------------------------------------------------------- feed

  const NO_DB := -1

  function Select(db: nat): Command { ["SELECT", Digits(db)] }

  /** The commands feedAppendOnlyFile prints. */
  function Fed(selected: int, db: nat, cmd: Command, fed: int): seq<Command> {
    (if db != selected then [Select(db)] else []) + Translate(cmd, fed)
  }

  function Opened(open: bool, cmd: Command): bool {
    if IsMulti(cmd) then true else if IsExec(cmd) then false else open
  }

  /** feedAppendOnlyFile at time `fed`; finding both expire options it stops the server. */
  function Feed(s: System, db: nat, cmd: Command, fed: int): System {
    if Conflicts(cmd) then s.(selected := db, stopped := true)
    else FeedOut(s, db, Fed(s.selected, db, cmd, fed))
  }

  function FeedOut(s: System, db: nat, out: seq<Command>): System {
    s.(selected := db,
       buf := if s.state.On? then s.buf + EncodeAll(out) else s.buf,
       log := if s.state.On? then s.log + out else s.log,
       pending := if s.child.Child? then s.pending + EncodeAll(out) else s.pending,
       since := if s.child.Child? then s.since + out else s.since)
  }

  /** A command runs at time `now`; it is fed unless the AOF is off. */
  function Execute(s: System, db: nat, cmd: Command, f: SetFlags, now: int, fed: int, w: World): System {
    var s' := if s.state.Off? then s else Feed(s, db, cmd, fed);
    s'.(data := Live(s.data, db, cmd, f, now, w.other), open := Opened(s.open, cmd))
  }

  // ------------------------------------------------------------------------ flush

  /** How the write of the whole buffer ended: n bytes on disk and, if short, whether ftruncate worked. */
  datatype Written = All | None | Part(n: nat, undone: bool)

  function Flush(s: System, r: Written): System {
    match r
    case All => s.(file := s.file + s.buf, size := s.size + |s.buf|, buf := "")
    case None => s
    case Part(n, undone) =>
      if n > |s.buf| then s
      else if undone then s.(file := Truncated(s.file + s.buf[..n], s.size))
      else s.(file := s.file + s.buf[..n], size := s.size + n, buf := s.buf[n..])
  }

  /** ftruncate: cuts the file or pads it with zero bytes. */
  function Truncated(file: string, size: int): string {
    if size < 0 then file
    else if size <= |file| then file[..size]
    else file + seq(size - |file|, _ => '\0')
  }

  // ---------------------------------------------------------------------- rewrite

  /** What the child may print for the dataset at the fork. */
  ghost predicate Rebuilds(base: seq<Command>, data: Data, w: World) {
    && CanFeed(base, w) && TransactionFree(base)
    && Replay(Start, base, w.other).data == data
  }

  function Fork(s: System, base: seq<Command>): System {
    s.(child := Child(EncodeAll(base), "", "", Working, false), pending := "", stop := false,
       selected := NO_DB, base := base, since := [])
  }

  function Kill(s: System): System {
    s.(child := NoChild, pending := "", base := [], since := [])
  }

  /** The child's file plus what the parent still holds. */
  function Rewritten(s: System): string
    requires s.child.Child?
  {
    s.child.snap + s.child.diff + s.pending
  }

  /** backgroundRewriteDoneHandler; ok: child exited with 0 and open, write and rename worked. */
  function Finish(s: System, ok: bool, statOk: bool): System
    requires s.child.Child?
  {
    if !ok then Kill(s)
    else if s.state.Off? then Kill(s).(file := Rewritten(s))
    else
      Kill(s).(file := Rewritten(s), buf := "", selected := NO_DB, state := On,
               size := if statOk then |Rewritten(s)| else s.size,
               log := s.base + s.since)
  }

  function StopAof(s: System, r: Written): System {
    Kill(Flush(s, r)).(state := Off, selected := NO_DB)
  }

  // ----------------------------------------------------------------------- machine

  datatype Action =
    | DoExecute(db: nat, cmd: Command, flags: SetFlags, now: int, fed: int)
    | DoFlush(written: Written)
    | DoFork(base: seq<Command>)
    | ParentWrite(n: nat)
    | ChildRead(n: nat)
    | ChildAsk
    | ParentAck(delivered: bool)
    | ChildAcked
    | ChildFinish
    | ChildFail
    | DoFinish(ok: bool, statOk: bool)
    | DoStop(written: Written)
    | DoStart(fork: bool, base: seq<Command>)

  ghost predicate CanFeed(out: seq<Command>, w: World) { AllPrintable(out) && AllKnown(out, w.known) }

  ghost predicate Enabled(s: System, a: Action, w: World) {
    !s.stopped &&
    match a
    case DoExecute(db, cmd, f, now, fed) =>
      && Accepted(cmd, f) && Clocks(cmd, f, now, fed, w.delay)
      && (Conflicts(cmd) || CanFeed(Fed(s.selected, db, cmd, fed), w))
    case DoFlush(r) => s.buf != "" && (r.Part? ==> 0 < r.n < |s.buf|)
    case DoFork(base) => s.child.NoChild? && Rebuilds(base, s.data, w)
    case ParentWrite(n) => s.child.Child? && !s.stop && n <= |s.pending|
    case ChildRead(n) => s.child.Child? && s.child.phase in {Working, Draining} && n <= |s.child.pipe|
    case ChildAsk => s.child.Child? && s.child.phase.Working?
    case ParentAck(_) => s.child.Child? && s.child.phase.Asked? && !s.stop
    case ChildAcked => s.child.Child? && s.child.phase.Asked? && s.child.acked
    case ChildFinish => s.child.Child? && s.child.phase.Draining? && s.child.pipe == ""
    case ChildFail => s.child.Child? && !s.child.phase.Done?
    case DoFinish(ok, _) => s.child.Child? && s.child.phase in {Done, Failed} && (ok ==> s.child.phase.Done?)
    case DoStop(r) => !s.state.Off? && (r.Part? ==> 0 < r.n < |s.buf|)
    case DoStart(fork, base) => s.state.Off? && (fork ==> Rebuilds(base, s.data, w))
  }

  function Next(s: System, a: Action, w: World): System {
    match a
    case DoExecute(db, cmd, f, now, fed) => Execute(s, db, cmd, f, now, fed, w)
    case DoFlush(r) => if s.state.Off? then s else Flush(s, r)
    case DoFork(base) => Fork(s, base)
    case ParentWrite(n) =>
      if s.child.Child? && n <= |s.pending| then
        s.(child := s.child.(pipe := s.child.pipe + s.pending[..n]), pending := s.pending[n..])
      else s
    case ChildRead(n) =>
      if s.child.Child? && n <= |s.child.pipe| then
        s.(child := s.child.(diff := s.child.diff + s.child.pipe[..n], pipe := s.child.pipe[n..]))
      else s
    case ChildAsk => if s.child.Child? then s.(child := s.child.(phase := Asked)) else s
    case ParentAck(delivered) =>
      if s.child.Child? then s.(stop := true, child := s.child.(acked := delivered)) else s
    case ChildAcked => if s.child.Child? then s.(child := s.child.(phase := Draining)) else s
    case ChildFinish => if s.child.Child? then s.(child := s.child.(phase := Done)) else s
    case ChildFail => if s.child.Child? then s.(child := s.child.(phase := Failed)) else s
    case DoFinish(ok, statOk) => if s.child.Child? then Finish(s, ok, statOk) else s
    case DoStop(r) => StopAof(s, r)
    case DoStart(fork, base) =>
      var s' := Kill(s).(state := WaitRewrite);
      if fork then Fork(s', base) else s'
  }

  ghost predicate Steps(s: System, a: Action, s': System, w: World) {
    Enabled(s, a, w) && s' == Next(s, a, w)
  }

  ghost predicate IsRun(states: seq<System>, actions: seq<Action>, w: World) {
    && |states| == |actions| + 1
    && forall i :: 0 <= i < |actions| ==> Steps(states[i], actions[i], states[i + 1], w)
  }

  // ---------------------------------------------------------------------- invariant

  predicate Opens(log: seq<Command>) { OpenAt(log) < |log| }

  /** `bytes` is the print of `log`. */
  ghost predicate Logged(log: seq<Command>, bytes: string, w: World) {
    bytes == EncodeAll(log) && CanFeed(log, w)
  }

  /** Replaying it gives the dataset, expire times up to the delay of the feed. */
  ghost predicate Faithful(log: seq<Command>, bytes: string, data: Data, selected: int, open: bool, w: World) {
    && Logged(log, bytes, w)
    && Near(data, Replay(Start, log, w.other).data, w.delay)
    && (selected == NO_DB || Replay(Start, log, w.other).db == selected)
    && (Opens(log) ==> open)
  }

  /** Exactly once and in order: read, in the pipe, still held. */
  predicate InOrder(c: Child, pending: string, since: seq<Command>) {
    c.Child? ==> c.diff + c.pipe + pending == EncodeAll(since)
  }

  /** The child drains only a pipe nobody writes to any more. */
  predicate Handshake(c: Child, stop: bool) {
    && (c.Child? && c.acked ==> stop)
    && (c.Child? && c.phase in {Draining, Done} ==> stop)
    && (c.Child? && c.phase.Done? ==> c.pipe == "")
  }

  predicate Idle(s: System) {
    s.child.NoChild? ==> s.pending == ""
  }

  ghost predicate LogHolds(s: System, w: World) {
    s.state.On? ==>
      && Logged(s.log, s.file + s.buf, w) && s.size == |s.file|
      && (!s.stopped ==> Faithful(s.log, s.file + s.buf, s.data, s.selected, s.open, w))
  }

  ghost predicate ForkHolds(s: System, w: World) {
    s.child.Child? && !s.state.Off? ==>
      && s.child.snap == EncodeAll(s.base)
      && (!s.stopped ==>
            Faithful(s.base + s.since, EncodeAll(s.base + s.since), s.data, s.selected, s.open, w))
  }

  ghost predicate Inv(s: System, w: World) {
    && LogHolds(s, w) && ForkHolds(s, w)
    && InOrder(s.child, s.pending, s.since) && Handshake(s.child, s.stop) && Idle(s)
  }

  // ------------------------------------------------------------ feeding keeps a log faithful

  lemma OpensStep(front: seq<Command>, c: Command)
    ensures Opens(front + [c]) == Opened(Opens(front), c)
  {
    hide OpenAt, IsMulti, IsExec;
    MultiOrExec(c);
    OpenStep(front, c);
  }

  predicate Unmarked(c: Command) { !IsMulti(c) && !IsExec(c) }

  lemma {:induction false} OpensUnmarked(log: seq<Command>, out: seq<Command>)
    requires forall i :: 0 <= i < |out| ==> Unmarked(out[i])
    ensures Opens(log + out) == Opens(log)
  {
    if out == [] {
      assert log + out == log;
    } else {
      hide IsMulti, IsExec, Opens;
      var n := |out| - 1;
      assert log + out == (log + out[..n]) + [out[n]];
      OpensStep(log + out[..n], out[n]);
      OpensUnmarked(log, out[..n]);
    }
  }

  lemma PrintedUnmarked(c: Command)
    requires c != [] && c[0] in {"SELECT", "SET", "PEXPIREAT"}
    ensures Unmarked(c)
  {
    assert |Name(c)| == |c[0]|;
  }

  lemma TranslateMarks(cmd: Command, now: int)
    requires cmd != []
    ensures Unmarked(cmd) ==> forall c :: c in Translate(cmd, now) ==> Unmarked(c)
    ensures !Unmarked(cmd) ==> Translate(cmd, now) == [cmd]
  {
    hide FindOption, Lower;
    if Unmarked(cmd) {
      forall c | c in Translate(cmd, now) ensures Unmarked(c) {
        assert c != [] && c[0] in {"SET", "PEXPIREAT", cmd[0]};
        if c[0] != cmd[0] { PrintedUnmarked(c); }
      }
    }
  }

  lemma SelectUnmarked(db: nat)
    ensures Unmarked(Select(db))
  {
    PrintedUnmarked(Select(db));
  }

  lemma FedOpens(log: seq<Command>, selected: int, db: nat, cmd: Command, now: int)
    requires cmd != []
    ensures Opens(log + Fed(selected, db, cmd, now)) == Opened(Opens(log), cmd)
  {
    hide Opens, Translate, IsMulti, IsExec, Select;
    var sel := if db != selected then [Select(db)] else [];
    SelectUnmarked(db);
    TranslateMarks(cmd, now);
    OpensUnmarked(log, sel);
    assert log + Fed(selected, db, cmd, now) == (log + sel) + Translate(cmd, now);
    if Unmarked(cmd) {
      OpensUnmarked(log + sel, Translate(cmd, now));
    } else {
      OpensStep(log + sel, cmd);
    }
  }

  lemma ReplaySelect(p: Place, db: nat, other: Other)
    ensures Replay(p, [Select(db)], other) == p.(db := db)
  {
    ReplayOne(p, Select(db), other);
    assert Lower("SELECT") == "select";
    assert Digits(db) + "" == Render(db);
    AtoiRender(db, "");
  }

  /** Each command is replayed in the database it ran in. */
  lemma FedReplays(p: Place, selected: int, db: nat, cmd: Command, f: SetFlags, now: int, other: Other)
    requires Accepted(cmd, f) && !Conflicts(cmd) && (selected == NO_DB || p.db == selected)
    ensures Replay(p, Fed(selected, db, cmd, now), other)
         == Place(Live(p.data, db, cmd, f, now, other), db)
  {
    hide Replay, Translate, Live, Accepted, Select;
    var sel := if db != selected then [Select(db)] else [];
    ReplayAppend(p, sel, Translate(cmd, now), other);
    if db != selected {
      ReplaySelect(p, db, other);
      TranslateFaithful(p.(db := db), cmd, f, now, other);
    } else {
      ReplayNothing(p, other);
      TranslateFaithful(p, cmd, f, now, other);
    }
  }

  lemma ReplayNothing(p: Place, other: Other)
    ensures Replay(p, [], other) == p
  {
  }

  /** The step every log takes: the main one and the one since the fork. */
  lemma FaithfulFed(log: seq<Command>, bytes: string, data: Data, selected: int, open: bool,
                    db: nat, cmd: Command, f: SetFlags, now: int, fed: int, w: World)
    requires Faithful(log, bytes, data, selected, open, w) && Steady(w.other, w.delay)
    requires Accepted(cmd, f) && !Conflicts(cmd) && Clocks(cmd, f, now, fed, w.delay)
    requires CanFeed(Fed(selected, db, cmd, fed), w)
    ensures var out := Fed(selected, db, cmd, fed);
            Faithful(log + out, bytes + EncodeAll(out), Live(data, db, cmd, f, now, w.other), db, Opened(open, cmd), w)
  {
    hide Replay, Live, Fed, Opens, Printable, Name, Near, Steady, Clocks, Conflicts, EncodeAll;
    var out := Fed(selected, db, cmd, fed);
    assert cmd != [];
    EncodeAllAppend(log, out);
    ReplayAppend(Start, log, out, w.other);
    var p := Replay(Start, log, w.other);
    FedReplays(p, selected, db, cmd, f, fed, w.other);
    LiveNear(data, p.data, db, cmd, f, now, fed, w.other, w.delay);
    FedOpens(log, selected, db, cmd, fed);
  }

  // -------------------------------------------------------------- every step keeps it

  lemma ExecuteKeeps(s: System, db: nat, cmd: Command, f: SetFlags, now: int, fed: int, w: World)
    requires Inv(s, w) && Enabled(s, DoExecute(db, cmd, f, now, fed), w) && Steady(w.other, w.delay)
    ensures Inv(Execute(s, db, cmd, f, now, fed, w), w)
  {
    hide Faithful, Live, Opened, Fed, Accepted, CanFeed, EncodeAll, Conflicts, Clocks, Steady;
    var out := Fed(s.selected, db, cmd, fed);
    var s' := Execute(s, db, cmd, f, now, fed, w);
    if !s.state.Off? && !Conflicts(cmd) {
      if s.state.On? {
        FaithfulFed(s.log, s.file + s.buf, s.data, s.selected, s.open, db, cmd, f, now, fed, w);
        assert s'.file + s'.buf == s.file + s.buf + EncodeAll(out);
        FaithfulLogged(s'.log, s'.file + s'.buf, s'.data, s'.selected, s'.open, w);
      }
      if s.child.Child? {
        var log := s.base + s.since;
        FaithfulFed(log, EncodeAll(log), s.data, s.selected, s.open, db, cmd, f, now, fed, w);
        assert s'.base + s'.since == log + out;
        EncodeAllAppend(log, out);
        EncodeAllAppend(s.since, out);
        assert s'.child.diff + s'.child.pipe + s'.pending == s.child.diff + s.child.pipe + s.pending + EncodeAll(out);
      }
    }
  }

  lemma FaithfulLogged(log: seq<Command>, bytes: string, data: Data, selected: int, open: bool, w: World)
    requires Faithful(log, bytes, data, selected, open, w)
    ensures Logged(log, bytes, w)
  {
  }

  /** The server is stopped exactly by a SET whose replaced expire time spells the other option. */
  lemma StopExact(s: System, a: Action, s': System, w: World)
    requires Steps(s, a, s', w)
    ensures s'.stopped <==>
              && a.DoExecute? && !s.state.Off? && |a.cmd| > 3 && Name(a.cmd) == "set"
              && Misleading(a.cmd[3..], a.flags.expiry)
  {
    hide FindOption, Times, Live, Fed, Translate, EncodeAll;
    if a.DoExecute? && |a.cmd| > 3 && Name(a.cmd) == "set" {
      ScanExact(a.cmd, a.flags);
    }
  }

  /** A short write is undone exactly when the recorded size is the size of the file. */
  lemma UndoExact(s: System, n: nat)
    requires 0 < n <= |s.buf| && s.size >= 0
    ensures Flush(s, Part(n, true)).file == s.file <==> s.size == |s.file|
  {
    var file := s.file + s.buf[..n];
    assert file[..|s.file|] == s.file;
  }

  lemma FlushBytes(s: System, r: Written)
    requires s.size == |s.file| && (r.Part? ==> 0 < r.n <= |s.buf|)
    ensures var s' := Flush(s, r); s'.file + s'.buf == s.file + s.buf && s'.size == |s'.file|
  {
    if r.Part? {
      if r.undone {
        UndoExact(s, r.n);
      } else {
        assert s.buf[..r.n] + s.buf[r.n..] == s.buf;
      }
    }
  }

  /** Whatever the write did, file and buffer together hold the same bytes. */
  lemma FlushKeeps(s: System, r: Written, w: World)
    requires Inv(s, w) && (r.Part? ==> 0 < r.n <= |s.buf|)
    ensures Inv(Flush(s, r), w)
    ensures s.state.On? ==> Flush(s, r).file + Flush(s, r).buf == s.file + s.buf
  {
    if s.state.On? {
      FlushBytes(s, r);
    }
    FlushShape(s, r);
    hide Faithful, Logged, Flush, InOrder, Handshake;
  }

  lemma FlushShape(s: System, r: Written)
    ensures var s' := Flush(s, r); s' == s.(file := s'.file, buf := s'.buf, size := s'.size)
  {
  }

  lemma ForkKeeps(s: System, base: seq<Command>, w: World)
    requires LogHolds(s, w) && Rebuilds(base, s.data, w)
    ensures Inv(Fork(s, base), w)
  {
    hide Replay, CanFeed, EncodeAll, Near;
    assert base + [] == base;
    TransactionFreeRuns(base);
    NearSelf(s.data, w.delay);
  }

  /** The finished file is the snapshot and then everything fed since the fork, once and in order. */
  lemma RewrittenIs(s: System, w: World)
    requires Inv(s, w) && s.child.Child? && s.child.phase.Done? && !s.state.Off?
    ensures Rewritten(s) == EncodeAll(s.base) + EncodeAll(s.since) == EncodeAll(s.base + s.since)
  {
    hide Faithful, EncodeAll;
    EncodeAllAppend(s.base, s.since);
    assert s.child.diff + s.child.pipe + s.pending == s.child.diff + s.pending;
    assert s.child.snap + (s.child.diff + s.pending) == Rewritten(s);
  }

  /** Switch-over keeps the invariant exactly when the recorded size ends up right. */
  lemma FinishExact(s: System, ok: bool, statOk: bool, w: World)
    requires Inv(s, w) && Enabled(s, DoFinish(ok, statOk), w)
    ensures Inv(Finish(s, ok, statOk), w) <==>
              !ok || s.state.Off? || statOk || s.size == |Rewritten(s)|
  {
    hide EncodeAll, CanFeed, Replay, Opens, Near;
    var s' := Finish(s, ok, statOk);
    if ok && !s.state.Off? {
      RewrittenIs(s, w);
      assert s'.file + s'.buf == Rewritten(s);
    }
  }

  lemma PipeKeeps(s: System, a: Action, w: World)
    requires Inv(s, w) && Enabled(s, a, w)
    requires a.ParentWrite? || a.ChildRead? || a.ChildAsk? || a.ParentAck? || a.ChildAcked? || a.ChildFinish? || a.ChildFail?
    ensures Inv(Next(s, a, w), w)
  {
    hide Faithful, EncodeAll, Logged, Rebuilds;
    match a
    case ParentWrite(n) => BytesKeep(s, a, w);
    case ChildRead(n) => BytesKeep(s, a, w);
    case _ =>
  }

  lemma Handed(a: string, b: string, c: string, n: nat)
    ensures n <= |c| ==> a + (b + c[..n]) + c[n..] == a + b + c
    ensures n <= |b| ==> (a + b[..n]) + b[n..] + c == a + b + c
  {
    if n <= |b| {
      assert b == b[..n] + b[n..];
    }
    if n <= |c| {
      assert c == c[..n] + c[n..];
    }
  }

  /** Bytes move along the pipe in order. */
  lemma BytesInOrder(s: System, a: Action, w: World)
    requires InOrder(s.child, s.pending, s.since) && Enabled(s, a, w) && (a.ParentWrite? || a.ChildRead?)
    ensures var s' := Next(s, a, w); InOrder(s'.child, s'.pending, s'.since)
  {
    hide EncodeAll;
    Handed(s.child.diff, s.child.pipe, s.pending, a.n);
  }

  lemma BytesKeep(s: System, a: Action, w: World)
    requires Inv(s, w) && Enabled(s, a, w) && (a.ParentWrite? || a.ChildRead?)
    ensures Inv(Next(s, a, w), w)
  {
    BytesInOrder(s, a, w);
    hide Faithful, EncodeAll, Logged, Rebuilds, InOrder;
  }

  lemma KilledHolds(s: System, w: World)
    requires !s.state.On?
    ensures Inv(Kill(s), w)
  {
  }

  /** fstat of the new file works at every switch-over. */
  predicate StatWorks(a: Action) { a.DoFinish? && a.ok ==> a.statOk }

  lemma StepInv(s: System, a: Action, w: World)
    requires Inv(s, w) && Enabled(s, a, w) && StatWorks(a) && Steady(w.other, w.delay)
    ensures Inv(Next(s, a, w), w)
  {
    hide Faithful, Logged, Rebuilds, InOrder, Handshake, Execute, Flush, Rewritten, EncodeAll, Steady, Clocks, Conflicts;
    match a
    case DoExecute(db, cmd, f, now, fed) => ExecuteKeeps(s, db, cmd, f, now, fed, w);
    case DoFlush(r) => FlushKeeps(s, r, w);
    case DoFork(base) => ForkKeeps(s, base, w);
    case DoFinish(ok, statOk) => FinishExact(s, ok, statOk, w);
    case DoStop(r) => KilledHolds(Flush(s, r).(state := Off, selected := NO_DB), w);
    case DoStart(fork, base) =>
      KilledHolds(s.(state := WaitRewrite), w);
      if fork {
        ForkKeeps(Kill(s).(state := WaitRewrite), base, w);
      }
    case _ => PipeKeeps(s, a, w);
  }

  // ------------------------------------------------------------------- whole runs

  /** A server that has just started, with an empty log or the one it loaded. */
  ghost predicate Started(s: System, w: World) {
    && s.child.NoChild? && s.pending == "" && s.buf == "" && s.selected == NO_DB && !s.stopped
    && LogHolds(s, w)
  }

  /** The server as it starts, with an empty file. */
  const Empty := System(map[], false, false, On, "", "", 0, NO_DB, NoChild, "", false, [], [], [])

  lemma EmptyStarted(w: World)
    ensures Started(Empty, w)
  {
    ReplayNothing(Start, w.other);
    NothingPrintable(w);
    NearSelf(map[], w.delay);
  }

  lemma NothingPrintable(w: World)
    ensures AllPrintable([]) && AllKnown([], w.known)
  {
  }

  ghost predicate GoodRun(states: seq<System>, actions: seq<Action>, w: World) {
    && IsRun(states, actions, w) && Started(states[0], w) && Steady(w.other, w.delay)
    && forall i :: 0 <= i < |actions| ==> StatWorks(actions[i])
  }

  lemma {:induction false} RunInv(states: seq<System>, actions: seq<Action>, w: World, i: nat)
    requires GoodRun(states, actions, w) && i < |states|
    ensures Inv(states[i], w)
  {
    hide LogHolds, Steps, StatWorks, Steady;
    if i > 0 {
      RunInv(states, actions, w, i - 1);
      assert Steps(states[i - 1], actions[i - 1], states[i - 1 + 1], w) && StatWorks(actions[i - 1]);
      Taken(states[i - 1], actions[i - 1], states[i], w);
    }
  }

  lemma Taken(s: System, a: Action, s': System, w: World)
    requires Inv(s, w) && Steps(s, a, s', w) && StatWorks(a) && Steady(w.other, w.delay)
    ensures Inv(s', w)
  {
    hide Inv, Next, Enabled, Steady;
    StepInv(s, a, w);
  }

  /** The dataset a restart ends up with. */
  function Restored(r: Outcome, w: World): Data
    requires r.NothingToLoad? || r.Loaded? || r.Cut?
  {
    if r.NothingToLoad? then map[] else Replay(Start, r.ran, w.other).data
  }

  lemma RestoredIs(log: seq<Command>, k: nat, w: World)
    requires k <= |log|
    ensures Replay(Start, Ran(log[..k]), w.other) == Replay(Start, log[..OpenAt(log[..k])], w.other)
  {
    hide Replay;
    var kept := log[..k];
    assert kept[..OpenAt(kept)] == log[..OpenAt(kept)];
    ReplayEffective(Start, log[..OpenAt(kept)], w.other);
  }

  /**
   * Durability: at every point of every run, while the AOF is on, the server has not been stopped
   * and no transaction is half fed, loading file and buffer gives the dataset, with expire times
   * as much later as the feed read the clock later; and the recorded size is the file's.
   */
  lemma Durability(states: seq<System>, actions: seq<Action>, w: World, i: nat, tolerant: bool)
    requires GoodRun(states, actions, w) && i < |states| && states[i].state.On?
    ensures states[i].size == |states[i].file|
    ensures var r := Load(states[i].file + states[i].buf, w.known, tolerant);
            !states[i].stopped && !states[i].open ==>
              && (r.NothingToLoad? || r.Loaded?) && Near(states[i].data, Restored(r, w), w.delay)
              && (w.delay == 0 ==> Restored(r, w) == states[i].data)
  {
    hide Replay, Load, Near, Steady;
    RunInv(states, actions, w, i);
    var s := states[i];
    var log := s.log;
    if !s.stopped && !s.open {
      assert log[..|log|] == log;
      if log != [] {
        LoadLog(log, w.known, tolerant);
        RestoredIs(log, |log|, w);
      } else {
        ReplayNothing(Start, w.other);
        LoadsNothing(w.known, tolerant);
      }
      NearNow(s.data, Restored(Load(s.file + s.buf, w.known, tolerant), w));
    }
  }

  lemma LoadsNothing(known: string -> bool, tolerant: bool)
    ensures Load("", known, tolerant) == NothingToLoad
  {
  }

  /**
   * Crash recovery: whatever part of the buffer reached the disk, the file alone restores the
   * dataset as it was after some prefix of the commands, namely the complete ones on disk
   * outside an unfinished transaction.
   */
  lemma CrashRecovery(states: seq<System>, actions: seq<Action>, w: World, i: nat)
    requires GoodRun(states, actions, w) && i < |states| && states[i].state.On?
    ensures var s := states[i]; var r := Load(s.file, w.known, true);
            && (r.NothingToLoad? || r.Loaded? || r.Cut?)
            && s.file <= EncodeAll(s.log) && |s.file| <= |EncodeAll(s.log)|
            && var kept := s.log[..Complete(s.log, |s.file|)];
               Restored(r, w) == Replay(Start, s.log[..OpenAt(kept)], w.other).data
  {
    hide Replay, Load, OpenAt, OpenFrom, Complete, AllPrintable, AllKnown, Faithful, Steady;
    RunInv(states, actions, w, i);
    var s := states[i];
    var bytes := EncodeAll(s.log);
    assert bytes == s.file + s.buf && bytes[..|s.file|] == s.file;
    RecoverPrefix(s.log, |s.file|, w);
  }

  lemma RecoverPrefix(log: seq<Command>, p: nat, w: World)
    requires AllPrintable(log) && AllKnown(log, w.known) && p <= |EncodeAll(log)|
    ensures var r := Load(EncodeAll(log)[..p], w.known, true);
            var kept := log[..Complete(log, p)];
            && (r.NothingToLoad? || r.Loaded? || r.Cut?)
            && Restored(r, w) == Replay(Start, log[..OpenAt(kept)], w.other).data
  {
    hide Replay, Load, OpenAt, Complete, EncodeAll;
    var k := Complete(log, p);
    var kept := log[..k];
    WholeCut(log, p);
    RestoredIs(log, k, w);
    if |EncodeAll(kept)| < p {
      LoadCut(log, p, w.known, true);
    } else if kept != [] {
      LoadLog(kept, w.known, true);
    } else {
      ReplayNothing(Start, w.other);
      LoadsNothing(w.known, true);
    }
  }

  /**
   * Exactly once and in order: what the child read, what is in the pipe and what the parent
   * holds are together the bytes fed since the fork; and once the child is done its file
   * completed with what the parent holds is the snapshot followed by all of them.
   */
  lemma ExactlyOnce(states: seq<System>, actions: seq<Action>, w: World, i: nat)
    requires GoodRun(states, actions, w) && i < |states| && states[i].child.Child?
    ensures var s := states[i];
            && s.child.diff + s.child.pipe + s.pending == EncodeAll(s.since)
            && (s.child.phase.Done? ==> Rewritten(s) == s.child.snap + EncodeAll(s.since))
  {
    hide LogHolds, ForkHolds;
    RunInv(states, actions, w, i);
    var s := states[i];
    if s.child.phase.Done? {
      assert s.child.diff + s.child.pipe + s.pending == s.child.diff + s.pending;
      assert s.child.snap + (s.child.diff + s.pending) == Rewritten(s);
    }
  }
}
