/** feedAppendOnlyFile: what is written for a command that ran, and why replaying it is the same. */
module AofFeed {
  import opened Text
  import opened AofFormat
  import opened AofLoader
  import opened AofReplay
  import opened Decimal

  // ------------------------------------------------------------------ live commands

  datatype Expiry = Never | Seconds(text: string) | Millis(text: string)

  datatype SetFlags = SetFlags(nx: bool, xx: bool, keep: bool, expiry: Expiry)

  const NoFlags := SetFlags(false, false, false, Never)

  ghost predicate IsNumeral(s: string) { exists n: nat :: n > 0 && s == Digits(n) }

  /** An argument compared with the name of an option. */
  function OptionName(arg: string): string { Lower(CString(arg)) }

  /** The options of SET as the command reads them; a later expire time replaces an earlier one. */
  predicate ReadsOptions(args: seq<string>, f: SetFlags, g: SetFlags)
    decreases |args|
  {
    if args == [] then f == g
    else
      var a := OptionName(args[0]);
      || (a == "nx" && !f.xx && ReadsOptions(args[1..], f.(nx := true), g))
      || (a == "xx" && !f.nx && ReadsOptions(args[1..], f.(xx := true), g))
      || (a == "keepttl" && f.expiry.Never? && ReadsOptions(args[1..], f.(keep := true), g))
      || (|args| > 1 && a == "ex" && !f.keep && !f.expiry.Millis?
          && ReadsOptions(args[2..], f.(expiry := Seconds(args[1])), g))
      || (|args| > 1 && a == "px" && !f.keep && !f.expiry.Seconds?
          && ReadsOptions(args[2..], f.(expiry := Millis(args[1])), g))
  }

  /** The expire time that is used is read as a number, and must be positive; no other one is. */
  ghost predicate Timed(e: Expiry) { e.Never? || IsNumeral(e.text) }

  /** All expire times among the options, the used one last. */
  function Times(args: seq<string>): seq<string>
    decreases |args|
  {
    if args == [] then []
    else if |args| > 1 && OptionName(args[0]) in {"ex", "px"} then [args[1]] + Times(args[2..])
    else Times(args[1..])
  }

  function When(e: Expiry, now: int): int {
    match e
    case Never => NO_EXPIRE
    case Seconds(t) => Atoi(t) * 1000 + now
    case Millis(t) => Atoi(t) + now
  }

  predicate IsNamed(cmd: Command, name: string, argc: nat) { |cmd| == argc && argc > 0 && Name(cmd) == name }

  /** A command that took effect at time `now` in database db; f gives the options of SET. */
  function Live(d: Data, db: nat, cmd: Command, f: SetFlags, now: int, other: Other): Data {
    if IsNamed(cmd, "expire", 3) then SetExpire(d, (db, cmd[1]), When(Seconds(cmd[2]), now))
    else if IsNamed(cmd, "pexpire", 3) then SetExpire(d, (db, cmd[1]), When(Millis(cmd[2]), now))
    else if IsNamed(cmd, "expireat", 3) then SetExpire(d, (db, cmd[1]), When(Seconds(cmd[2]), 0))
    else if IsNamed(cmd, "setex", 4) then SetString(d, (db, cmd[1]), cmd[3], When(Seconds(cmd[2]), now))
    else if IsNamed(cmd, "psetex", 4) then SetString(d, (db, cmd[1]), cmd[3], When(Millis(cmd[2]), now))
    else if |cmd| > 3 && Name(cmd) == "set" && !f.expiry.Never? then
      SetString(d, (db, cmd[1]), cmd[2], When(f.expiry, now))
    else Exec(d, db, cmd, other)
  }

  // -------------------------------------------------------------------- translation

  /** catAppendOnlyExpireAtCommand */
  function ExpireAt(key: string, e: Expiry, now: int): Command { ["PEXPIREAT", key, Render(When(e, now))] }

  /** The argument behind the last argument of the given name, option or not. */
  function FindOption(args: seq<string>, name: string): (r: seq<string>)
    ensures |r| <= 1
  {
    if |args| < 2 then []
    else
      var r := FindOption(args[1..], name);
      if r != [] then r else if OptionName(args[0]) == name then [args[1]] else []
  }

  /** The scan finds both options, which stops the server. */
  predicate Conflicts(cmd: Command) {
    |cmd| > 3 && Name(cmd) == "set" && FindOption(cmd[3..], "ex") != [] && FindOption(cmd[3..], "px") != []
  }

  function Translate(cmd: Command, now: int): seq<Command> {
    if IsNamed(cmd, "expire", 3) then [ExpireAt(cmd[1], Seconds(cmd[2]), now)]
    else if IsNamed(cmd, "pexpire", 3) then [ExpireAt(cmd[1], Millis(cmd[2]), now)]
    else if IsNamed(cmd, "expireat", 3) then [ExpireAt(cmd[1], Seconds(cmd[2]), 0)]
    else if IsNamed(cmd, "setex", 4) then [["SET", cmd[1], cmd[3]], ExpireAt(cmd[1], Seconds(cmd[2]), now)]
    else if IsNamed(cmd, "psetex", 4) then [["SET", cmd[1], cmd[3]], ExpireAt(cmd[1], Millis(cmd[2]), now)]
    else if |cmd| > 3 && Name(cmd) == "set" then
      var ex, px := FindOption(cmd[3..], "ex"), FindOption(cmd[3..], "px");
      if ex != [] then [cmd[..3], ExpireAt(cmd[1], Seconds(ex[0]), now)]
      else if px != [] then [cmd[..3], ExpireAt(cmd[1], Millis(px[0]), now)]
      else [cmd]
    else [cmd]
  }

  lemma NumeralIsNoOption(s: string)
    requires IsNumeral(s)
    ensures OptionName(s) != "ex" && OptionName(s) != "px"
  {
    var n: nat :| n > 0 && s == Digits(n);
    assert IsDigit(s[0]) && OptionName(s)[0] == s[0];
  }

  function OwnOption(e: Expiry): string { if e.Seconds? then "ex" else "px" }

  function RivalOption(e: Expiry): string { if e.Seconds? then "px" else "ex" }

  /** An expire time that was replaced spells the option of the other unit. */
  predicate Misleading(args: seq<string>, e: Expiry) {
    exists i :: 0 <= i < |Times(args)| - 1 && OptionName(Times(args)[i]) == RivalOption(e)
  }

  lemma FindNothing(name: string)
    ensures FindOption([], name) == []
  {
  }

  lemma Skip(args: seq<string>, name: string)
    requires args != [] && OptionName(args[0]) in {"nx", "xx", "keepttl"} && name in {"ex", "px"}
    ensures FindOption(args, name) == FindOption(args[1..], name) && Times(args) == Times(args[1..])
  {
    var a := OptionName(args[0]);
    assert a[0] != "ex"[0] && a[0] != "px"[0];
  }

  lemma FindFrom(args: seq<string>, name: string)
    requires |args| > 1
    ensures var r := FindOption(args[2..], name);
            FindOption(args, name) ==
              if r != [] then r
              else if |args| > 2 && OptionName(args[1]) == name then [args[2]]
              else if OptionName(args[0]) == name then [args[1]] else []
  {
    hide OptionName;
    assert args[1..][1..] == args[2..];
  }

  /** What the scan finds among options that leave the expiry at e. */
  predicate Scanned(args: seq<string>, before: Expiry, e: Expiry) {
    var times := Times(args);
    if times == [] then
      e == before && FindOption(args, "ex") == [] && FindOption(args, "px") == []
    else
      && !e.Never? && e.text == times[|times| - 1]
      && FindOption(args, OwnOption(e)) == [e.text]
      && (FindOption(args, RivalOption(e)) != [] <==> Misleading(args, e))
  }

  lemma ScannedTime(args: seq<string>, before: Expiry, e: Expiry)
    requires |args| > 1 && Timed(e) && !before.Never? && before.text == args[1]
    requires OptionName(args[0]) == OwnOption(before) && (e.Seconds? <==> before.Seconds?)
    requires Scanned(args[2..], before, e)
    ensures forall first: Expiry :: Scanned(args, first, e)
  {
    hide OptionName, FindOption;
    FindFrom(args, OwnOption(e));
    FindFrom(args, RivalOption(e));
    var rest := Times(args[2..]);
    var times := Times(args);
    assert times == [args[1]] + rest;
    if rest == [] {
      NumeralIsNoOption(args[1]);
    } else {
      assert args[2..] != [] by { assert Times([]) == []; }
      assert Misleading(args, e) <==> OptionName(args[1]) == RivalOption(e) || Misleading(args[2..], e) by {
        assert forall i :: 0 < i < |times| ==> times[i] == rest[i - 1];
        if Misleading(args[2..], e) {
          var i :| 0 <= i < |rest| - 1 && OptionName(rest[i]) == RivalOption(e);
          assert times[i + 1] == rest[i];
        }
        assert times[0] == args[1];
      }
    }
  }

  /** The scan of the log writer against the reading of the command. */
  lemma {:induction false} ScanAgrees(args: seq<string>, f: SetFlags, g: SetFlags)
    requires ReadsOptions(args, f, g) && Timed(g.expiry)
    ensures Scanned(args, f.expiry, g.expiry)
    ensures (f.expiry.Seconds? ==> g.expiry.Seconds?) && (f.expiry.Millis? ==> g.expiry.Millis?)
    decreases |args|
  {
    hide FindOption, IsNumeral, OptionName, Misleading;
    if args == [] {
      FindNothing("ex");
      FindNothing("px");
    } else {
      var a := OptionName(args[0]);
      if a in {"nx", "xx", "keepttl"} {
        Skip(args, "ex");
        Skip(args, "px");
        var f' := if a == "nx" then f.(nx := true) else if a == "xx" then f.(xx := true) else f.(keep := true);
        ScanAgrees(args[1..], f', g);
        MisleadingSkip(args, g.expiry);
      } else {
        var e := if a == "ex" then Seconds(args[1]) else Millis(args[1]);
        ScanAgrees(args[2..], f.(expiry := e), g);
        ScannedTime(args, e, g.expiry);
      }
    }
  }

  lemma MisleadingSkip(args: seq<string>, e: Expiry)
    requires args != [] && Times(args) == Times(args[1..])
    ensures Misleading(args, e) <==> Misleading(args[1..], e)
  {
  }

  /**
   * For every SET that is accepted: the scan finds the expire time the command used, and stops
   * the server if and only if a replaced one spells the option of the other unit.
   */
  lemma ScanExact(cmd: Command, f: SetFlags)
    requires Accepted(cmd, f) && |cmd| > 3 && Name(cmd) == "set"
    ensures Conflicts(cmd) <==> Misleading(cmd[3..], f.expiry)
    ensures if f.expiry.Never? then FindOption(cmd[3..], "ex") == [] && FindOption(cmd[3..], "px") == []
            else FindOption(cmd[3..], OwnOption(f.expiry)) == [f.expiry.text]
  {
    hide FindOption, OptionName;
    ScanAgrees(cmd[3..], NoFlags, f);
  }

  /** The first expire time is dropped by the command and taken for an option by the scan. */
  lemma ReplacedTimeStops()
    ensures var cmd := ["SET", "k", "v", "EX", "px", "EX", "10"];
            Accepted(cmd, NoFlags.(expiry := Seconds("10"))) && Conflicts(cmd)
  {
    var cmd := ["SET", "k", "v", "EX", "px", "EX", "10"];
    var args := ["EX", "px", "EX", "10"];
    var f := NoFlags.(expiry := Seconds("10"));
    assert cmd[3..] == args && args[2..] == ["EX", "10"];
    TwoLetters("EX", "ex");
    TwoLetters("px", "px");
    assert Lower("SET") == "set";
    assert ReadsOptions([], f, f) && args[2..][2..] == [];
    assert ReadsOptions(args[2..], NoFlags.(expiry := Seconds("px")), f);
    assert Digits(10) == "10";
    assert Times(args[2..]) == ["10"] && Times(args) == ["px", "10"];
    ScanExact(cmd, f);
  }

  lemma TwoLetters(arg: string, name: string)
    requires |arg| == 2 && arg[0] != '\0' && arg[1] != '\0' && Lower(arg) == name
    ensures OptionName(arg) == name
  {
    assert arg[1..][1..] == "" && CString(arg[1..]) == [arg[1]];
    assert CString(arg) == arg;
  }

  // ---------------------------------------------------------------- meaning is kept

  /** The options handed to Live are those SET reads. */
  ghost predicate Accepted(cmd: Command, f: SetFlags) {
    && cmd != [] && !IsSelect(cmd)
    && (|cmd| > 3 && Name(cmd) == "set" ==> ReadsOptions(cmd[3..], NoFlags, f) && Timed(f.expiry))
  }

  lemma ReplayPair(p: Place, a: Command, b: Command, other: Other)
    ensures Replay(p, [a, b], other) == Replay1(Replay1(p, a, other), b, other)
  {
    hide Replay1;
    assert [a, b][..1] == [a];
    ReplayOne(p, a, other);
  }

  lemma ReplayExpireAt(p: Place, key: string, e: Expiry, now: int, other: Other)
    ensures Replay1(p, ExpireAt(key, e, now), other) == p.(data := SetExpire(p.data, (p.db, key), When(e, now)))
  {
    var cmd := ExpireAt(key, e, now);
    var text := Render(When(e, now));
    assert text + "" == text;
    AtoiRender(When(e, now), "");
    assert Lower("PEXPIREAT") == "pexpireat";
    assert |Name(cmd)| == 9;
  }

  lemma ReplaySet(p: Place, cmd: Command, key: string, text: string, other: Other)
    requires |cmd| == 3 && Name(cmd) == "set" && cmd[1] == key && cmd[2] == text
    ensures Replay1(p, cmd, other) == p.(data := SetString(p.data, (p.db, key), text, NO_EXPIRE))
  {
    assert |Name(cmd)| == 3;
  }

  lemma ReplaySetExpire(p: Place, cmd: Command, e: Expiry, now: int, other: Other)
    requires |cmd| == 3 && Name(cmd) == "set"
    ensures Replay(p, [cmd, ExpireAt(cmd[1], e, now)], other)
         == p.(data := SetString(p.data, (p.db, cmd[1]), cmd[2], When(e, now)))
  {
    hide Replay1, Name, ExpireAt;
    ReplayPair(p, cmd, ExpireAt(cmd[1], e, now), other);
    ReplaySet(p, cmd, cmd[1], cmd[2], other);
    ReplayExpireAt(Replay1(p, cmd, other), cmd[1], e, now, other);
    var d := SetString(p.data, (p.db, cmd[1]), cmd[2], NO_EXPIRE);
    assert SetExpire(d, (p.db, cmd[1]), When(e, now)) == SetString(p.data, (p.db, cmd[1]), cmd[2], When(e, now));
  }

  /** The time at which the key of a command naming n seconds or milliseconds expires. */
  function Deadline(cmd: Command, f: SetFlags, n: int, now: int): int
    requires cmd != []
  {
    if Name(cmd) == "expireat" then 1000 * n
    else if Name(cmd) in {"expire", "setex"} || (Name(cmd) == "set" && f.expiry.Seconds?) then now + 1000 * n
    else now + n
  }

  /** What the commands with a time n do to their key, and what is written for them at the end. */
  lemma TimedCommands(d: Data, db: nat, cmd: Command, f: SetFlags, n: int, now: int, other: Other)
    requires || (|cmd| == 3 && Name(cmd) in {"expire", "pexpire", "expireat"} && cmd[2] == Render(n))
             || (|cmd| == 4 && Name(cmd) in {"setex", "psetex"} && cmd[2] == Render(n))
             || (|cmd| > 3 && Name(cmd) == "set" && !f.expiry.Never? && f.expiry.text == Render(n)
                 && Accepted(cmd, f) && !Conflicts(cmd))
    ensures var at, when := (db, cmd[1]), Deadline(cmd, f, n, now);
            Live(d, db, cmd, f, now, other) ==
              if |cmd| > 3 then d[at := Entry(Str(if Name(cmd) == "set" then cmd[2] else cmd[3]), when)]
              else if at in d then d[at := Entry(d[at].value, when)] else d
    ensures var out := Translate(cmd, now);
            out != [] && out[|out| - 1] == ["PEXPIREAT", cmd[1], Render(Deadline(cmd, f, n, now))]
  {
    hide Render, Atoi, FindOption, Lower, ReadsOptions;
    assert Render(n) + "" == Render(n);
    AtoiRender(n, "");
    if |cmd| > 3 && Name(cmd) == "set" {
      ScanExact(cmd, f);
    }
  }

  /** Replaying what is written for a command, unless that stops the server, repeats its effect at the time of writing. */
  lemma TranslateFaithful(p: Place, cmd: Command, f: SetFlags, now: int, other: Other)
    requires Accepted(cmd, f) && !Conflicts(cmd)
    ensures Replay(p, Translate(cmd, now), other) == p.(data := Live(p.data, p.db, cmd, f, now, other))
  {
    hide Replay1, SetExpire, SetString, When, Exec, ExpireAt, FindOption, Lower, Misleading;
    var out := Translate(cmd, now);
    if |out| == 1 {
      ReplayOne(p, out[0], other);
    }
    if IsNamed(cmd, "expire", 3) {
      ReplayExpireAt(p, cmd[1], Seconds(cmd[2]), now, other);
    } else if IsNamed(cmd, "pexpire", 3) {
      ReplayExpireAt(p, cmd[1], Millis(cmd[2]), now, other);
    } else if IsNamed(cmd, "expireat", 3) {
      ReplayExpireAt(p, cmd[1], Seconds(cmd[2]), 0, other);
    } else if IsNamed(cmd, "setex", 4) {
      SetName();
      ReplaySetExpire(p, ["SET", cmd[1], cmd[3]], Seconds(cmd[2]), now, other);
    } else if IsNamed(cmd, "psetex", 4) {
      SetName();
      ReplaySetExpire(p, ["SET", cmd[1], cmd[3]], Millis(cmd[2]), now, other);
    } else if |cmd| > 3 && Name(cmd) == "set" {
      ScanExact(cmd, f);
      if !f.expiry.Never? {
        ReplaySetExpire(p, cmd[..3], f.expiry, now, other);
      } else {
        ReplayOther(p, cmd, other);
      }
    } else {
      ReplayOther(p, cmd, other);
    }
  }

  lemma SetName()
    ensures Lower("SET") == "set"
  {
  }

  lemma ReplayOther(p: Place, cmd: Command, other: Other)
    requires !IsSelect(cmd)
    ensures Replay1(p, cmd, other) == p.(data := Exec(p.data, p.db, cmd, other))
  {
  }
}
