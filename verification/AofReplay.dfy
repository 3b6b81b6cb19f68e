/** What commands do to the dataset, live and when a log is replayed. */
module AofReplay {
  import opened Text
  import opened AofFormat
  import opened AofLoader
  import opened Decimal

  /** Sorted set scores and hash values are kept as their text. */
  datatype Value =
    | Str(text: string)
    | Lst(items: seq<string>)
    | Set(members: set<string>)
    | ZSet(scores: map<string, string>)
    | Hash(fields: map<string, string>)

  const NO_EXPIRE := -1

  datatype Entry = Entry(value: Value, expire: int)

  type Data = map<(nat, string), Entry>

  /** The effect of every command this module does not interpret. */
  type Other = (Data, nat, Command) -> Data

  /** The dataset and the database the client has selected. */
  datatype Place = Place(data: Data, db: nat)

  const Start := Place(map[], 0)

  // -------------------------------------------------------------- replaying a log

  predicate IsSelect(cmd: Command) { |cmd| == 2 && Name(cmd) == "select" }

  function PutPairs(m: map<string, string>, pairs: seq<string>, keyFirst: bool): map<string, string>
    requires |pairs| % 2 == 0
    decreases |pairs|
  {
    if pairs == [] then m
    else
      var k, v := if keyFirst then 0 else 1, if keyFirst then 1 else 0;
      PutPairs(m[pairs[k] := pairs[v]], pairs[2..], keyFirst)
  }

  predicate IsZaddOption(arg: string) { Lower(arg) in {"nx", "xx", "ch", "incr"} }

  /** The object at a key after RPUSH, SADD, ZADD or HMSET, unchanged when the type is wrong. */
  function Added(e: Entry, name: string, args: seq<string>): Entry
  {
    match e.value
    case Lst(items) => if name == "rpush" then e.(value := Lst(items + args)) else e
    case Set(members) => if name == "sadd" then e.(value := Set(members + set x | x in args)) else e
    case ZSet(scores) =>
      if name == "zadd" && |args| % 2 == 0 then e.(value := ZSet(PutPairs(scores, args, false))) else e
    case Hash(fields) =>
      if name == "hmset" && |args| % 2 == 0 then e.(value := Hash(PutPairs(fields, args, true))) else e
    case Str(_) => e
  }

  function EmptyFor(name: string): Value {
    if name == "rpush" then Lst([])
    else if name == "sadd" then Set({})
    else if name == "zadd" then ZSet(map[])
    else Hash(map[])
  }

  predicate Builds(cmd: Command) {
    && |cmd| >= 3
    && Name(cmd) in {"rpush", "sadd", "zadd", "hmset"}
    && (Name(cmd) == "zadd" ==> !IsZaddOption(cmd[2]))
  }

  function Build(d: Data, at: (nat, string), name: string, args: seq<string>): Data {
    if name in {"zadd", "hmset"} && |args| % 2 != 0 then d
    else d[at := Added(if at in d then d[at] else Entry(EmptyFor(name), NO_EXPIRE), name, args)]
  }

  function SetString(d: Data, at: (nat, string), text: string, expire: int): Data {
    d[at := Entry(Str(text), expire)]
  }

  /** Expires in the past are kept while loading. */
  function SetExpire(d: Data, at: (nat, string), when: int): Data {
    if at in d then d[at := d[at].(expire := when)] else d
  }

  function Exec(d: Data, db: nat, cmd: Command, other: Other): Data {
    if cmd == [] || IsMulti(cmd) || IsExec(cmd) then d
    else if |cmd| == 3 && Name(cmd) == "set" then SetString(d, (db, cmd[1]), cmd[2], NO_EXPIRE)
    else if |cmd| == 3 && Name(cmd) == "pexpireat" then SetExpire(d, (db, cmd[1]), Atoi(cmd[2]))
    else if Builds(cmd) then Build(d, (db, cmd[1]), Name(cmd), cmd[2..])
    else other(d, db, cmd)
  }

  function Replay1(p: Place, cmd: Command, other: Other): Place {
    if IsSelect(cmd) then (if Atoi(cmd[1]) >= 0 then p.(db := Atoi(cmd[1])) else p)
    else p.(data := Exec(p.data, p.db, cmd, other))
  }

  function Replay(p: Place, cmds: seq<Command>, other: Other): Place {
    if cmds == [] then p
    else Replay1(Replay(p, cmds[..|cmds| - 1], other), cmds[|cmds| - 1], other)
  }

  lemma {:induction false} ReplayAppend(p: Place, a: seq<Command>, b: seq<Command>, other: Other)
    ensures Replay(p, a + b, other) == Replay(Replay(p, a, other), b, other)
  {
    hide Replay1;
    if b == [] {
      assert a + b == a;
    } else {
      var n := |b| - 1;
      assert (a + b)[..|a| + n] == a + b[..n] && (a + b)[|a| + n] == b[n];
      ReplayAppend(p, a, b[..n], other);
    }
  }

  lemma ReplayOne(p: Place, cmd: Command, other: Other)
    ensures Replay(p, [cmd], other) == Replay1(p, cmd, other)
  {
    hide Replay1;
    assert [cmd][..0] == [];
  }

  /** MULTI and EXEC only say when commands take effect, not what they do. */
  lemma {:induction false} ReplayEffective(p: Place, cmds: seq<Command>, other: Other)
    ensures Replay(p, Effective(cmds), other) == Replay(p, cmds, other)
  {
    if cmds != [] {
      hide Builds, Build, Added, SetString, SetExpire;
      var n := |cmds| - 1;
      ReplayEffective(p, cmds[..n], other);
      if IsMulti(cmds[n]) || IsExec(cmds[n]) {
        assert Effective(cmds) == Effective(cmds[..n]);
        assert |Name(cmds[n])| != |"select"|;
      } else {
        ReplayAppend(p, Effective(cmds[..n]), [cmds[n]], other);
        ReplayOne(Replay(p, cmds[..n], other), cmds[n], other);
      }
    }
  }
}
