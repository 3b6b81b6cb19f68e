/** Crash, truncation and restart: when a server may append to the log it has loaded. */
module AofRestart {
  import opened Text
  import opened AofFormat
  import opened AofLoader
  import opened AofReplay
  import opened AofFeed
  import opened AofClock
  import opened AofSystem
  import opened Decimal

  /** The complete commands in the first p bytes of a log. */
  function OnDisk(log: seq<Command>, p: nat): seq<Command>
    requires p <= |EncodeAll(log)|
  {
    log[..Complete(log, p)]
  }

  /**
   * What the loader leaves of them: a cut inside a command takes that command only, a log
   * that ends between two commands is rolled back to its last open MULTI.
   */
  function Kept(log: seq<Command>, p: nat): seq<Command>
    requires p <= |EncodeAll(log)|
  {
    var done := OnDisk(log, p);
    if |EncodeAll(done)| == p && Opens(done) then done[..LastMulti(done)] else done
  }

  /** The file after loading it. */
  function Left(file: string, r: Outcome): string {
    if r.Cut? && r.at <= |file| then file[..r.at] else file
  }

  /** The server crashes when n bytes of its buffer are written, and its file can be loaded. */
  ghost predicate Restartable(s: System, n: nat, w: World) {
    && n <= |s.buf| && s.file + s.buf == EncodeAll(s.log)
    && var r := Load(s.file + s.buf[..n], w.known, true);
       r.NothingToLoad? || r.Loaded? || r.Cut?
  }

  /** loadAppendOnlyFile and the start of the server behind it. */
  ghost function Restarted(s: System, n: nat, w: World): System
    requires Restartable(s, n, w)
  {
    var file := s.file + s.buf[..n];
    var r := Load(file, w.known, true);
    Empty.(data := Restored(r, w), file := Left(file, r), size := |Left(file, r)|, log := Kept(s.log, |file|))
  }

  /** The log is left with an open transaction: cut inside one, or rolled back to a nested MULTI. */
  lemma KeptOpens(log: seq<Command>, p: nat)
    requires p <= |EncodeAll(log)|
    ensures var done := OnDisk(log, p);
            Opens(Kept(log, p)) <==>
              Opens(done) && (|EncodeAll(done)| < p || LastMulti(done) != OpenAt(done))
  {
    hide OpenAt, LastMulti, Complete, EncodeAll;
    var done := OnDisk(log, p);
    if Opens(done) {
      RollbackExact(done);
    }
  }

  lemma KeptRuns(log: seq<Command>, p: nat)
    requires p <= |EncodeAll(log)|
    ensures Ran(Kept(log, p)) == Ran(OnDisk(log, p))
    ensures Kept(log, p) <= log
  {
    hide OpenAt, LastMulti, Complete, EncodeAll, Ran;
    var done := OnDisk(log, p);
    if Opens(done) {
      RollbackExact(done);
    }
  }

  lemma EncodedPrefix(log: seq<Command>, k: nat)
    requires k <= |log|
    ensures |EncodeAll(log[..k])| <= |EncodeAll(log)| && EncodeAll(log)[..|EncodeAll(log[..k])|] == EncodeAll(log[..k])
  {
    hide Encode;
    assert log == log[..k] + log[k..];
    EncodeAllAppend(log[..k], log[k..]);
  }

  /** Loading any prefix of a log succeeds, and leaves the print of what is kept. */
  lemma LoadLeaves(log: seq<Command>, p: nat, w: World)
    requires AllPrintable(log) && AllKnown(log, w.known) && p <= |EncodeAll(log)|
    ensures var file := EncodeAll(log)[..p]; var r := Load(file, w.known, true);
            && (r.NothingToLoad? || r.Loaded? || r.Cut?)
            && Left(file, r) == EncodeAll(Kept(log, p))
            && Restored(r, w) == Replay(Start, Ran(OnDisk(log, p)), w.other).data
  {
    hide Replay, Load, OpenAt, Complete, EncodeAll, LastMulti, Ran, Printable, Name;
    var done := OnDisk(log, p);
    WholeCut(log, p);
    if |EncodeAll(done)| < p {
      LoadCut(log, p, w.known, true);
    } else if done != [] {
      LoadLog(done, w.known, true);
      if Opens(done) { EncodedPrefix(done, LastMulti(done)); }
    } else {
      LoadsNothing(w.known, true);
      EmptyRuns(w);
    }
  }

  lemma EmptyRuns(w: World)
    ensures !Opens([]) && Replay(Start, Ran([]), w.other).data == map[] && EncodeAll([]) == ""
  {
    ReplayNothing(Start, w.other);
  }

  /** Replaying a log without an open transaction is replaying what takes effect. */
  lemma ClosedReplays(log: seq<Command>, w: World)
    requires !Opens(log)
    ensures Replay(Start, log, w.other) == Replay(Start, Ran(log), w.other)
  {
    hide Replay, OpenAt;
    assert log[..|log|] == log;
    RestoredIs(log, |log|, w);
  }

  /**
   * At every point of every run the server can crash with any part of its buffer written and
   * start again; it starts a run exactly when no open MULTI is kept in the file.
   */
  lemma RestartExact(states: seq<System>, actions: seq<Action>, w: World, i: nat, n: nat)
    requires GoodRun(states, actions, w) && i < |states| && states[i].state.On? && n <= |states[i].buf|
    ensures Restartable(states[i], n, w)
    ensures Started(Restarted(states[i], n, w), w) <==> !Opens(Restarted(states[i], n, w).log)
  {
    RunInv(states, actions, w, i);
    hide GoodRun, ForkHolds, InOrder, Handshake, LogHolds, Restartable, Restarted, Started, Opens;
    CrashHolds(states[i], n, w);
  }

  lemma CrashHolds(s: System, n: nat, w: World)
    requires LogHolds(s, w) && s.state.On? && n <= |s.buf|
    ensures Restartable(s, n, w)
    ensures Started(Restarted(s, n, w), w) <==> !Opens(Restarted(s, n, w).log)
  {
    hide Replay, Load, OpenAt, OnDisk, Kept, EncodeAll, Printable, Name, Left, Ran;
    var p := |s.file| + n;
    assert (s.file + s.buf)[..p] == s.file + s.buf[..n];
    LoadLeaves(s.log, p, w);
    KeptRuns(s.log, p);
    var s' := Restarted(s, n, w);
    assert s'.file + s'.buf == s'.file;
    if !Opens(s'.log) {
      ClosedReplays(s'.log, w);
    }
  }

  // ------------------------------------------------------------- many lives of a server

  /** A run and the crash that ended it, n bytes of the buffer being written. */
  datatype Life = Life(states: seq<System>, actions: seq<Action>, n: nat)

  ghost predicate Lived(l: Life, w: World) {
    && IsRun(l.states, l.actions, w)
    && forall i :: 0 <= i < |l.actions| ==> StatWorks(l.actions[i])
  }

  /** The next life starts from the file of the one before, which kept no open MULTI. */
  ghost predicate Follows(l: Life, next: Life, w: World) {
    && l.states != [] && next.states != []
    && var s := l.states[|l.states| - 1];
    && s.state.On? && Restartable(s, l.n, w) && next.states[0] == Restarted(s, l.n, w)
    && !Opens(next.states[0].log)
  }

  ghost predicate Lives(lives: seq<Life>, w: World) {
    && (forall k :: 0 <= k < |lives| ==> Lived(lives[k], w))
    && (forall k :: 0 < k < |lives| ==> Follows(lives[k - 1], lives[k], w))
    && (lives != [] ==> lives[0].states != [] && Started(lives[0].states[0], w))
    && Steady(w.other, w.delay)
  }

  lemma {:induction false} LifeIsGood(lives: seq<Life>, w: World, k: nat)
    requires Lives(lives, w) && k < |lives|
    ensures GoodRun(lives[k].states, lives[k].actions, w)
  {
    hide IsRun, Started, StatWorks, Restarted, Opens, Load, EncodeAll, Steady;
    assert Lived(lives[k], w);
    if k > 0 {
      LifeIsGood(lives, w, k - 1);
      hide GoodRun;
      var l := lives[k - 1];
      assert Follows(l, lives[k], w);
      RestartExact(l.states, l.actions, w, |l.states| - 1, l.n);
    }
  }

  /** Durability through any number of crashes and restarts. */
  lemma DurableLives(lives: seq<Life>, w: World, k: nat, i: nat, tolerant: bool)
    requires Lives(lives, w) && k < |lives| && i < |lives[k].states| && lives[k].states[i].state.On?
    ensures var s := lives[k].states[i]; var r := Load(s.file + s.buf, w.known, tolerant);
            !s.stopped && !s.open ==>
              && (r.NothingToLoad? || r.Loaded?) && Near(s.data, Restored(r, w), w.delay)
              && (w.delay == 0 ==> Restored(r, w) == s.data)
  {
    hide Lives, Load, GoodRun, Near;
    LifeIsGood(lives, w, k);
    Durability(lives[k].states, lives[k].actions, w, i, tolerant);
  }

  // ------------------------------------------------------------------ a MULTI that is kept

  lemma {:induction false} StaysOpen(log: seq<Command>, out: seq<Command>)
    requires Opens(log) && forall i :: 0 <= i < |out| ==> !IsExec(out[i])
    ensures Opens(log + out) && OpenAt(log + out) == OpenAt(log)
  {
    hide OpenAt, IsExec, IsMulti;
    if out == [] {
      assert log + out == log;
    } else {
      var n := |out| - 1;
      StaysOpen(log, out[..n]);
      assert log + out == (log + out[..n]) + [out[n]];
      OpenStep(log + out[..n], out[n]);
    }
  }

  /** Behind a MULTI that was kept, whatever is logged before the next EXEC is gone at the next start. */
  lemma HiddenWrites(log: seq<Command>, out: seq<Command>, w: World)
    requires Opens(log) && forall i :: 0 <= i < |out| ==> !IsExec(out[i])
    requires AllPrintable(log + out) && AllKnown(log + out, w.known)
    ensures var r := Load(EncodeAll(log + out), w.known, true);
            r.Cut? && Restored(r, w) == Replay(Start, log[..OpenAt(log)], w.other).data
  {
    hide Replay, Load, OpenAt, EncodeAll, IsExec, Printable, Name, LastMulti;
    var all := log + out;
    StaysOpen(log, out);
    LoadLog(all, w.known, true);
    assert all[..|all|] == all && all[..OpenAt(log)] == log[..OpenAt(log)];
    RestoredIs(all, |all|, w);
  }

  // ------------------------------------------------------------- the run that shows it

  const Multi: Command := ["MULTI"]

  const Exec: Command := ["EXEC"]

  const Put: Command := ["SET", "k", "v"]

  /** What is on disk, but for one byte, when the server crashes. */
  function Torn(): seq<Command> { [Select(0), Multi] }

  /** The whole transaction has been fed. */
  function TornLog(): seq<Command> { Torn() + [Put] + [Exec] }

  function Runs(cmd: Command): Action { DoExecute(0, cmd, NoFlags, 0, 0) }

  function TornActions(): seq<Action> { [Runs(Multi), Runs(Put), Runs(Exec)] }

  function TornStates(w: World): seq<System> {
    var s := Next(Empty, Runs(Multi), w);
    var s' := Next(s, Runs(Put), w);
    [Empty, s, s', Next(s', Runs(Exec), w)]
  }

  ghost predicate TornTable(w: World) { Table(w) && w.known("multi") && w.known("exec") && Steady(w.other, w.delay) }

  lemma NamesAre()
    ensures Name(Multi) == "multi" && Name(Exec) == "exec" && Name(Put) == "set" && Name(Select(0)) == "select"
  {
    assert Lower("MULTI") == "multi" && Lower("EXEC") == "exec" && Lower("SET") == "set" && Lower("SELECT") == "select";
  }

  lemma TornFed(w: World)
    requires TornTable(w)
    ensures Fed(NO_DB, 0, Multi, 0) == Torn() && CanFeed(Torn(), w)
    ensures Fed(0, 0, Put, 0) == [Put] && CanFeed([Put], w) && Fed(0, 0, Exec, 0) == [Exec] && CanFeed([Exec], w)
    ensures Accepted(Multi, NoFlags) && Accepted(Put, NoFlags) && Accepted(Exec, NoFlags)
    ensures !Conflicts(Multi) && !Conflicts(Put) && !Conflicts(Exec)
  {
    NamesAre();
    DigitsLength(0, 1);
    hide Name, Steady;
    assert |Name(Multi)| == 5 && |Name(Exec)| == 4 && |Name(Put)| == 3;
  }

  /** A command that is fed as it is, or behind a SELECT. */
  lemma Plain(s: System, cmd: Command, out: seq<Command>, w: World)
    requires s.state.On? && s.child.NoChild? && !s.stopped
    requires Accepted(cmd, NoFlags) && !Conflicts(cmd) && Fed(s.selected, 0, cmd, 0) == out && CanFeed(out, w)
    ensures var s' := Next(s, Runs(cmd), w);
            && Steps(s, Runs(cmd), s', w) && s'.state.On? && s'.child.NoChild? && !s'.stopped && s'.selected == 0
            && s'.file == s.file && s'.buf == s.buf + EncodeAll(out) && s'.log == s.log + out
  {
    hide Live, Accepted, Conflicts, Fed, CanFeed, EncodeAll, Opened;
  }

  lemma TornSteps(w: World)
    requires TornTable(w)
    ensures |TornStates(w)| == 4 && |TornActions()| == 3 && TornStates(w)[0] == Empty
    ensures var states, actions := TornStates(w), TornActions();
            && Steps(states[0], actions[0], states[1], w) && Steps(states[1], actions[1], states[2], w)
            && Steps(states[2], actions[2], states[3], w)
            && states[3].state.On? && states[3].file == "" && states[3].log == TornLog()
            && states[3].buf == "" + EncodeAll(Torn()) + EncodeAll([Put]) + EncodeAll([Exec])
  {
    hide Accepted, Conflicts, CanFeed, EncodeAll, Fed, Next, Torn, Steps, TornTable, Runs;
    TornFed(w);
    var states := TornStates(w);
    Plain(states[0], Multi, Torn(), w);
    Plain(states[1], Put, [Put], w);
    Plain(states[2], Exec, [Exec], w);
    assert [] + Torn() == Torn();
  }

  lemma TornRun(w: World)
    requires TornTable(w)
    ensures GoodRun(TornStates(w), TornActions(), w) && |TornStates(w)| == 4
    ensures var s := TornStates(w)[3];
            s.state.On? && s.file == "" && s.log == TornLog() && s.buf == EncodeAll(s.log)
  {
    hide EncodeAll, Started, TornStates, TornActions, Steady, StatWorks, Torn, Steps, TornTable, GoodRun;
    TornSteps(w);
    EmptyStarted(w);
    NoFinish();
    TornSteady(w);
    ThreeSteps(TornStates(w), TornActions(), w);
    EncodeAllAppend(Torn(), [Put]);
    EncodeAllAppend(Torn() + [Put], [Exec]);
    assert "" + EncodeAll(Torn()) == EncodeAll(Torn());
  }

  lemma ThreeSteps(states: seq<System>, actions: seq<Action>, w: World)
    requires |states| == 4 && |actions| == 3 && Started(states[0], w) && Steady(w.other, w.delay)
    requires forall a :: a in actions ==> StatWorks(a)
    requires Steps(states[0], actions[0], states[1], w) && Steps(states[1], actions[1], states[2], w)
    requires Steps(states[2], actions[2], states[3], w)
    ensures GoodRun(states, actions, w)
  {
    hide Started, Steady, Steps, StatWorks;
  }

  lemma TornSteady(w: World)
    requires TornTable(w)
    ensures Steady(w.other, w.delay)
  {
  }

  lemma NoFinish()
    ensures forall a :: a in TornActions() ==> StatWorks(a)
  {
  }

  /** MULTI, SET, EXEC; the crash leaves the first byte of the SET; the next server starts behind the MULTI. */
  lemma TornTransaction(w: World) returns (states: seq<System>, n: nat)
    requires TornTable(w)
    ensures GoodRun(states, TornActions(), w) && |states| == 4 && !states[3].open
    ensures states[3].state.On? && Restartable(states[3], n, w)
    ensures Restarted(states[3], n, w).log == Torn() && !Started(Restarted(states[3], n, w), w)
  {
    hide GoodRun, TornStates, TornActions, Torn, TornLog, Started, Restarted, Restartable, Kept, EncodeAll, Opens, OpenAt, TornTable;
    states, n := TornStates(w), |EncodeAll(Torn())| + 1;
    TornRun(w);
    TornClosed(w);
    TornKept();
    TornOpens();
    RestartExact(states, TornActions(), w, 3, n);
    RestartedLog(states[3], n, w);
  }

  lemma TornOpens()
    ensures Opens(Torn())
  {
    NamesAre();
    hide Name;
    assert OpenFrom(Torn(), 1);
  }

  lemma TornClosed(w: World)
    ensures |TornStates(w)| == 4 && !TornStates(w)[3].open
  {
    NamesAre();
    hide Name, Live, Feed;
  }

  lemma RestartedLog(s: System, n: nat, w: World)
    requires Restartable(s, n, w)
    ensures |s.file| + n <= |EncodeAll(s.log)| && Restarted(s, n, w).log == Kept(s.log, |s.file| + n)
  {
    hide Load, EncodeAll, Kept, Left, Restored;
  }

  lemma TornKept()
    ensures var n := |EncodeAll(Torn())| + 1; n <= |EncodeAll(TornLog())| && Kept(TornLog(), n) == Torn()
  {
    var log, n := TornLog(), |EncodeAll(Torn())| + 1;
    EncodeAllAppend(Torn(), [Put]);
    EncodeAllAppend(Torn() + [Put], [Exec]);
    assert |EncodeAll([Put])| > 1;
    hide Torn, Encode, Opens, EncodeAll;
    assert log[..|Torn()|] == Torn() && log[..|Torn()| + 1] == Torn() + [Put];
    CompleteIs(log, |Torn()|, n);
  }

  /** The count of complete commands is the only one the cut falls behind. */
  lemma CompleteIs(log: seq<Command>, k: nat, p: nat)
    requires k < |log| && p <= |EncodeAll(log)|
    requires |EncodeAll(log[..k])| <= p < |EncodeAll(log[..k + 1])|
    ensures Complete(log, p) == k
  {
    hide Complete, EncodeAll;
    var c := Complete(log, p);
    if c < k {
      EncodeNext(log, c);
      assert log[..k][..c + 1] == log[..c + 1];
      EncodedPrefix(log[..k], c + 1);
    } else if c > k {
      assert log[..c][..k + 1] == log[..k + 1];
      EncodedPrefix(log[..c], k + 1);
    }
  }
}
