/**
 * Durability needs fstat: a run in which it fails once at the end of a rewrite, the next short
 * write is undone at the size of the old file, and a key is lost.
 */
module AofStaleSize {
  import opened Text
  import opened AofFormat
  import opened AofLoader
  import opened AofReplay
  import opened AofFeed
  import opened AofSystem
  import opened Decimal

  function SetOf(key: string, value: string): Command { ["SET", key, value] }

  function Stored(value: string): Entry { Entry(Str(value), NO_EXPIRE) }

  /** What is fed first for a SET: the database and the command; also what the child prints for one key. */
  function Printed(key: string, value: string): seq<Command> { [Select(0), SetOf(key, value)] }

  lemma SetIsFed(key: string, value: string, w: World)
    requires Table(w) && |key| < 10 && |value| < 10
    ensures Accepted(SetOf(key, value), NoFlags) && Fed(NO_DB, 0, SetOf(key, value), 0) == Printed(key, value)
    ensures AllPrintable(Printed(key, value)) && AllKnown(Printed(key, value), w.known) && TransactionFree(Printed(key, value))
  {
    assert Lower("SET") == "set" && Lower("SELECT") == "select";
    DigitsLength(0, 1);
  }

  lemma SetIsLive(d: Data, key: string, value: string, other: Other)
    ensures Live(d, 0, SetOf(key, value), NoFlags, 0, other) == d[(0, key) := Stored(value)]
  {
    assert Lower("SET") == "set";
  }

  lemma SetReplays(key: string, value: string, w: World)
    requires Table(w) && |key| < 10 && |value| < 10
    ensures Replay(Start, Printed(key, value), w.other).data == map[(0, key) := Stored(value)]
  {
    SetIsFed(key, value, w);
    SetIsLive(map[], key, value, w.other);
    hide Live, Accepted, Replay;
    FedReplays(Start, NO_DB, 0, SetOf(key, value), NoFlags, 0, w.other);
  }

  /** One key, not yet written; then a rewrite up to its end. */
  function Grown(): System {
    Empty.(data := map[(0, "k") := Stored("v")], buf := EncodeAll(Printed("k", "v")), selected := 0, log := Printed("k", "v"))
  }

  function Rewriting(phase: Phase, acked: bool): System {
    Grown().(child := Child(EncodeAll(Printed("k", "v")), "", "", phase, acked), stop := acked, selected := NO_DB,
             base := Printed("k", "v"))
  }

  /** The new file is in place, the size is still that of the old one. */
  function Switched(): System {
    Empty.(data := map[(0, "k") := Stored("v")], file := EncodeAll(Printed("k", "v")), stop := true, log := Printed("k", "v"))
  }

  /** Another key arrives, and its write is cut short and undone. */
  function Undone(file: string): System {
    Switched().(data := map[(0, "k") := Stored("v"), (0, "j") := Stored("w")], file := file,
                buf := EncodeAll(Printed("j", "w")), selected := 0, log := Printed("k", "v") + Printed("j", "w"))
  }

  function Actions(): seq<Action> {
    [DoExecute(0, SetOf("k", "v"), NoFlags, 0, 0), DoFork(Printed("k", "v")), ChildAsk, ParentAck(true), ChildAcked, ChildFinish,
     DoFinish(true, false), DoExecute(0, SetOf("j", "w"), NoFlags, 0, 0), DoFlush(Part(1, true))]
  }

  function States(): seq<System> {
    [Empty, Grown(), Rewriting(Working, false), Rewriting(Asked, false), Rewriting(Asked, true), Rewriting(Draining, true),
     Rewriting(Done, true), Switched(), Undone(EncodeAll(Printed("k", "v"))), Undone("")]
  }

  lemma Grows(w: World)
    requires Table(w)
    ensures Steps(Empty, DoExecute(0, SetOf("k", "v"), NoFlags, 0, 0), Grown(), w)
  {
    SetIsFed("k", "v", w);
    SetIsLive(map[], "k", "v", w.other);
    hide Live, Accepted, Printed, SetOf, AllPrintable, AllKnown, EncodeAll;
    var out := Printed("k", "v");
    assert "" + EncodeAll(out) == EncodeAll(out) && [] + out == out;
    assert !IsMulti(SetOf("k", "v")) && !IsExec(SetOf("k", "v")) by { NoMarker("k", "v"); }
  }

  lemma NoMarker(key: string, value: string)
    ensures !IsMulti(SetOf(key, value)) && !IsExec(SetOf(key, value))
  {
    assert Lower("SET") == "set";
  }

  lemma Rewrites(w: World)
    requires Table(w)
    ensures Steps(Grown(), DoFork(Printed("k", "v")), Rewriting(Working, false), w)
    ensures Steps(Rewriting(Working, false), ChildAsk, Rewriting(Asked, false), w)
    ensures Steps(Rewriting(Asked, false), ParentAck(true), Rewriting(Asked, true), w)
    ensures Steps(Rewriting(Asked, true), ChildAcked, Rewriting(Draining, true), w)
    ensures Steps(Rewriting(Draining, true), ChildFinish, Rewriting(Done, true), w)
  {
    SetIsFed("k", "v", w);
    SetReplays("k", "v", w);
    hide Printed, AllPrintable, AllKnown, EncodeAll, Replay, TransactionFree;
  }

  lemma Switches(w: World)
    ensures Steps(Rewriting(Done, true), DoFinish(true, false), Switched(), w)
  {
    hide Printed, EncodeAll;
    var out := Printed("k", "v");
    assert EncodeAll(out) + "" + "" == EncodeAll(out) && out + [] == out;
  }

  lemma Undoes(w: World)
    requires Table(w)
    ensures Steps(Switched(), DoExecute(0, SetOf("j", "w"), NoFlags, 0, 0), Undone(EncodeAll(Printed("k", "v"))), w)
    ensures Steps(Undone(EncodeAll(Printed("k", "v"))), DoFlush(Part(1, true)), Undone(""), w)
  {
    SetIsFed("j", "w", w);
    SetIsLive(map[(0, "k") := Stored("v")], "j", "w", w.other);
    NoMarker("j", "w");
    PrintedLong("j", "w");
    hide Live, Accepted, Printed, SetOf, AllPrintable, AllKnown, EncodeAll;
    assert "" + EncodeAll(Printed("j", "w")) == EncodeAll(Printed("j", "w"));
    var file := EncodeAll(Printed("k", "v")) + EncodeAll(Printed("j", "w"))[..1];
    assert file[..0] == "";
  }

  lemma PrintedLong(key: string, value: string)
    ensures |EncodeAll(Printed(key, value))| > 1
  {
  }

  lemma StaleRun(w: World)
    requires Table(w)
    ensures IsRun(States(), Actions(), w)
  {
    hide Steps, Grown, Rewriting, Switched, Undone, Printed, SetOf, EncodeAll, Table;
    var states, actions := States(), Actions();
    forall i | 0 <= i < |actions| ensures Steps(states[i], actions[i], states[i + 1], w) {
      if i == 0 {
        Grows(w);
      } else if i < 6 {
        Rewrites(w);
      } else if i == 6 {
        Switches(w);
      } else {
        Undoes(w);
      }
    }
  }

  lemma KeyLost(w: World, tolerant: bool)
    requires Table(w)
    ensures var s := Undone(""); var r := Load(s.file + s.buf, w.known, tolerant);
            s.state.On? && !s.open && r.Loaded? && Restored(r, w) != s.data
  {
    var s := Undone("");
    var log := Printed("j", "w");
    assert s.file + s.buf == EncodeAll(log);
    SetIsFed("j", "w", w);
    SetReplays("j", "w", w);
    TransactionFreeRuns(log);
    hide Load, Replay, EncodeAll, AllPrintable, AllKnown, TransactionFree;
    LoadLog(log, w.known, tolerant);
    assert (0, "k") in s.data && (0, "k") !in map[(0, "j") := Stored("w")];
  }

  /** After that run the file and the buffer no longer hold the first key. */
  lemma StaleSizeLosesKey(w: World, tolerant: bool)
    requires Table(w)
    ensures IsRun(States(), Actions(), w) && Started(States()[0], w)
    ensures forall i :: 0 <= i < |Actions()| ==> (StatWorks(Actions()[i]) <==> i != 6)
    ensures var s := States()[9]; var r := Load(s.file + s.buf, w.known, tolerant);
            s.state.On? && !s.open && r.Loaded? && Restored(r, w) != s.data
  {
    hide IsRun, Load, Replay, EncodeAll, Started, Grown, Rewriting, Switched, Undone, Printed, SetOf;
    StaleRun(w);
    EmptyStarted(w);
    KeyLost(w, tolerant);
  }
}
