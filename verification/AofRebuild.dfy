/** Replaying a rewritten dataset gives the dataset back. */
module AofRebuild {
  import opened Text
  import opened AofFormat
  import opened AofLoader
  import opened AofReplay
  import opened AofFeed
  import opened AofSystem
  import opened AofRewrite
  import opened Decimal

  predicate IsKind(kind: string) { kind in {"RPUSH", "SADD", "ZADD", "HMSET"} }

  function Width(kind: string): nat { if kind in {"ZADD", "HMSET"} then 2 else 1 }

  function KindOf(v: Value): string
    requires !v.Str?
  {
    match v
    case Lst(_) => "RPUSH"
    case Set(_) => "SADD"
    case ZSet(_) => "ZADD"
    case Hash(_) => "HMSET"
  }

  /** Items of the right width, scores first in a sorted set's pairs. */
  predicate Usable(kind: string, items: seq<seq<string>>) {
    && Wide(items, Width(kind))
    && (kind == "ZADD" ==> forall i :: 0 <= i < |items| ==> !IsZaddOption(items[i][0]))
  }

  predicate Matches(v: Value, kind: string) { !v.Str? && KindOf(v) == kind }

  predicate Even(kind: string, args: seq<string>) { Width(kind) == 2 ==> |args| % 2 == 0 }

  lemma {:induction false} PutPairsAppend(m: map<string, string>, a: seq<string>, b: seq<string>, keyFirst: bool)
    requires |a| % 2 == 0 && |b| % 2 == 0
    ensures |a + b| % 2 == 0 && PutPairs(m, a + b, keyFirst) == PutPairs(PutPairs(m, a, keyFirst), b, keyFirst)
    decreases |a|
  {
    if a == [] {
      assert a + b == b;
    } else {
      assert (a + b)[2..] == a[2..] + b;
      var k, v := if keyFirst then 0 else 1, if keyFirst then 1 else 0;
      PutPairsAppend(m[a[k] := a[v]], a[2..], b, keyFirst);
    }
  }

  lemma LowerKinds()
    ensures Lower("RPUSH") == "rpush" && Lower("SADD") == "sadd" && Lower("ZADD") == "zadd" && Lower("HMSET") == "hmset"
  {
  }

  /** Adding in two commands is adding in one. */
  lemma AddedTwice(e: Entry, kind: string, a: seq<string>, b: seq<string>)
    requires IsKind(kind) && Matches(e.value, kind) && Even(kind, a) && Even(kind, b)
    ensures Matches(Added(e, Lower(kind), a).value, kind)
    ensures Added(Added(e, Lower(kind), a), Lower(kind), b) == Added(e, Lower(kind), a + b)
  {
    LowerKinds();
    hide Lower, PutPairs;
    match e.value
    case Lst(items) => assert items + a + b == items + (a + b);
    case Set(members) =>
      assert members + (set x | x in a) + (set x | x in b) == members + set x | x in a + b;
    case ZSet(scores) => PutPairsAppend(scores, a, b, false);
    case Hash(fields) => PutPairsAppend(fields, a, b, true);
  }

  /** A printed chunk builds on the object at its key. */
  lemma ReplayChunk(p: Place, kind: string, key: string, args: seq<string>, other: Other)
    requires IsKind(kind) && args != [] && Even(kind, args) && (kind == "ZADD" ==> !IsZaddOption(args[0]))
    ensures Replay1(p, [kind, key] + args, other) == p.(data := Build(p.data, (p.db, key), Lower(kind), args))
  {
    hide IsZaddOption, Build;
    LowerKinds();
    var cmd := [kind, key] + args;
    assert Name(cmd) == Lower(kind) && cmd[2..] == args && cmd[2] == args[0];
    assert |Name(cmd)| == |kind|;
  }

  lemma FlattenEven(kind: string, items: seq<seq<string>>)
    requires Wide(items, Width(kind))
    ensures Even(kind, Flatten(items)) && (items != [] ==> Flatten(items) != [] && Flatten(items)[0] == items[0][0])
  {
    FlattenLength(items, Width(kind));
  }

  /** What a command that adds to a key starts from. */
  function Base(p: Place, kind: string, key: string): Entry {
    if (p.db, key) in p.data then p.data[(p.db, key)] else Entry(EmptyFor(Lower(kind)), NO_EXPIRE)
  }

  function AddTo(p: Place, kind: string, key: string, args: seq<string>): Place {
    p.(data := p.data[(p.db, key) := Added(Base(p, kind, key), Lower(kind), args)])
  }

  lemma ReplayFirstChunk(p: Place, kind: string, key: string, items: seq<seq<string>>, other: Other)
    requires IsKind(kind) && Usable(kind, items) && items != []
    ensures var n := Take(items);
            Replay(p, Chunks(kind, key, items), other)
            == Replay(AddTo(p, kind, key, Flatten(items[..n])), Chunks(kind, key, items[n..]), other)
  {
    hide Replay, Replay1, Added, Lower, IsKind, IsZaddOption, Flatten, Even, Width;
    var n := Take(items);
    var args := Flatten(items[..n]);
    FlattenEven(kind, items[..n]);
    ReplayAppend(p, [[kind, key] + args], Chunks(kind, key, items[n..]), other);
    ReplayOne(p, [kind, key] + args, other);
    ReplayChunk(p, kind, key, args, other);
    BuildAdds(p, kind, key, args);
  }

  lemma BuildAdds(p: Place, kind: string, key: string, args: seq<string>)
    requires IsKind(kind) && Even(kind, args)
    ensures p.(data := Build(p.data, (p.db, key), Lower(kind), args)) == AddTo(p, kind, key, args)
  {
    LowerKinds();
    hide Lower, Added;
  }

  lemma AddToTwice(p: Place, kind: string, key: string, items: seq<seq<string>>, n: nat)
    requires IsKind(kind) && Wide(items, Width(kind)) && n <= |items| && Matches(Base(p, kind, key).value, kind)
    ensures var p' := AddTo(p, kind, key, Flatten(items[..n]));
            && AddTo(p', kind, key, Flatten(items[n..])) == AddTo(p, kind, key, Flatten(items))
            && Matches(Base(p', kind, key).value, kind)
  {
    hide Added, Lower, IsKind, Flatten, Matches, Even, Width, EmptyFor;
    FlattenEven(kind, items[..n]);
    FlattenEven(kind, items[n..]);
    AddedTwice(Base(p, kind, key), kind, Flatten(items[..n]), Flatten(items[n..]));
    assert items[..n] + items[n..] == items;
    FlattenAppend(items[..n], items[n..]);
  }

  /** All chunks of an object, on top of what is already at the key. */
  lemma {:induction false} ReplayChunks(p: Place, kind: string, key: string, items: seq<seq<string>>, other: Other)
    requires IsKind(kind) && Usable(kind, items) && Matches(Base(p, kind, key).value, kind)
    requires items != [] || (p.db, key) in p.data
    ensures Replay(p, Chunks(kind, key, items), other) == AddTo(p, kind, key, Flatten(items))
    decreases |items|
  {
    if items == [] {
      AddedNothing(p.data[(p.db, key)], kind);
      assert p.data[(p.db, key) := p.data[(p.db, key)]] == p.data;
    } else {
      hide Replay, Added, Lower, IsKind, IsZaddOption, Flatten, Matches, Base, Width, Chunks;
      var n := Take(items);
      ReplayFirstChunk(p, kind, key, items, other);
      AddToTwice(p, kind, key, items, n);
      ReplayChunks(AddTo(p, kind, key, Flatten(items[..n])), kind, key, items[n..], other);
    }
  }

  lemma AddedNothing(e: Entry, kind: string)
    requires IsKind(kind) && Matches(e.value, kind)
    ensures Added(e, Lower(kind), []) == e
  {
    LowerKinds();
    hide Lower;
    match e.value
    case Lst(items) => assert items + [] == items;
    case Set(members) => assert members + (set x | x in []) == members;
    case _ =>
  }

  /** The object a fresh key holds after all its items were added. */
  function Rebuilt(kind: string, items: seq<seq<string>>): Entry {
    Added(Entry(EmptyFor(Lower(kind)), NO_EXPIRE), Lower(kind), Flatten(items))
  }

  lemma EmptyMatches(kind: string)
    requires IsKind(kind)
    ensures Matches(EmptyFor(Lower(kind)), kind)
  {
    LowerKinds();
    hide Lower;
  }

  lemma ReplayObject(p: Place, kind: string, key: string, items: seq<seq<string>>, other: Other)
    requires IsKind(kind) && Usable(kind, items) && items != [] && (p.db, key) !in p.data
    ensures Replay(p, Chunks(kind, key, items), other) == p.(data := p.data[(p.db, key) := Rebuilt(kind, items)])
  {
    hide Replay, Added, Lower, Flatten, Usable, Chunks;
    EmptyMatches(kind);
    ReplayChunks(p, kind, key, items, other);
  }

  // ------------------------------------------------------------ iterating over objects

  predicate Fits(s: string) { |s| < MAX_LENGTH }

  predicate AllFit(items: seq<seq<string>>) {
    forall i, j :: 0 <= i < |items| && 0 <= j < |items[i]| ==> Fits(items[i][j])
  }

  /** What the server can hold: no empty collections, scores that are numbers, 64 bit expire times. */
  predicate Storable(e: Entry) {
    && -MAX_LENGTH < e.expire < MAX_LENGTH
    && match e.value
       case Str(text) => Fits(text)
       case Lst(items) => items != [] && forall x :: x in items ==> Fits(x)
       case Set(members) => members != {} && forall x :: x in members ==> Fits(x)
       case ZSet(scores) =>
         scores != map[] && forall x :: x in scores ==> Fits(x) && Fits(scores[x]) && !IsZaddOption(scores[x])
       case Hash(fields) => fields != map[] && forall x :: x in fields ==> Fits(x) && Fits(fields[x])
  }

  lemma {:induction false} FlattenSingles(xs: seq<string>, items: seq<seq<string>>)
    requires |items| == |xs| && forall i :: 0 <= i < |xs| ==> items[i] == [xs[i]]
    ensures Flatten(items) == xs
  {
    if xs != [] {
      FlattenSingles(xs[1..], items[1..]);
    }
  }

  lemma FlattenPush(items: seq<seq<string>>, item: seq<string>)
    ensures Flatten(items + [item]) == Flatten(items) + item
  {
    FlattenAppend(items, [item]);
    assert Flatten([item]) == item + Flatten([]);
  }

  /** The elements of a set in some order. */
  method SetItems(members: set<string>) returns (items: seq<seq<string>>)
    requires forall x :: x in members ==> Fits(x)
    ensures Wide(items, 1) && AllFit(items) && (set x | x in Flatten(items)) == members
  {
    items := [];
    var left := members;
    while left != {}
      invariant left <= members && Wide(items, 1) && AllFit(items)
      invariant (set x | x in Flatten(items)) == members - left
      decreases |left|
    {
      var x :| x in left;
      FlattenPush(items, [x]);
      assert (set y | y in Flatten(items) + [x]) == (set y | y in Flatten(items)) + {x};
      items := items + [[x]];
      left := left - {x};
    }
  }

  function Pair(k: string, v: string, keyFirst: bool): seq<string> {
    if keyFirst then [k, v] else [v, k]
  }

  lemma PutPair(m: map<string, string>, args: seq<string>, k: string, v: string, keyFirst: bool)
    requires |args| % 2 == 0
    ensures |args + Pair(k, v, keyFirst)| % 2 == 0
    ensures PutPairs(m, args + Pair(k, v, keyFirst), keyFirst) == PutPairs(m, args, keyFirst)[k := v]
  {
    PutPairsAppend(m, args, Pair(k, v, keyFirst), keyFirst);
    assert Pair(k, v, keyFirst)[2..] == [];
  }

  predicate PairsFit(m: map<string, string>, keyFirst: bool) {
    forall k :: k in m ==> Fits(k) && Fits(m[k]) && (!keyFirst ==> !IsZaddOption(m[k]))
  }

  /** The pairs of a hash, or of a sorted set with the score first, in some order. */
  method PairItems(m: map<string, string>, keyFirst: bool) returns (items: seq<seq<string>>)
    requires PairsFit(m, keyFirst)
    ensures Wide(items, 2) && AllFit(items) && |Flatten(items)| % 2 == 0
    ensures PutPairs(map[], Flatten(items), keyFirst) == m
    ensures !keyFirst ==> forall i :: 0 <= i < |items| ==> !IsZaddOption(items[i][0])
  {
    hide IsZaddOption, Flatten, PutPairs, Fits;
    items := [];
    NoPairs(keyFirst);
    var left := m.Keys;
    while left != {}
      invariant left <= m.Keys && Wide(items, 2) && AllFit(items) && |Flatten(items)| % 2 == 0
      invariant PutPairs(map[], Flatten(items), keyFirst) == m - left
      invariant !keyFirst ==> forall i :: 0 <= i < |items| ==> !IsZaddOption(items[i][0])
      decreases |left|
    {
      var k :| k in left;
      FlattenPush(items, Pair(k, m[k], keyFirst));
      PutPair(map[], Flatten(items), k, m[k], keyFirst);
      assert (m - left)[k := m[k]] == m - (left - {k});
      items := items + [Pair(k, m[k], keyFirst)];
      left := left - {k};
    }
    assert m - {} == m;
  }

  lemma NoPairs(keyFirst: bool)
    ensures Flatten([]) == [] && PutPairs(map[], [], keyFirst) == map[]
  {
  }

  /** One item per element or pair of an object, in iteration order. */
  method ItemsOf(v: Value) returns (items: seq<seq<string>>)
    requires !v.Str? && Storable(Entry(v, NO_EXPIRE))
    ensures items != [] && Usable(KindOf(v), items) && AllFit(items)
    ensures Rebuilt(KindOf(v), items) == Entry(v, NO_EXPIRE)
  {
    LowerKinds();
    NoPairs(true);
    NoPairs(false);
    hide Lower, Flatten, PutPairs;
    match v {
      case Lst(xs) =>
        items := seq(|xs|, i requires 0 <= i < |xs| => [xs[i]]);
        FlattenSingles(xs, items);
      case Set(members) => items := SetItems(members);
      case ZSet(scores) => items := PairItems(scores, false);
      case Hash(fields) => items := PairItems(fields, true);
    }
  }

  // ---------------------------------------------------------------- keys and databases

  /** The commands a rewrite prints are in the command table. */
  ghost predicate RewriteTable(w: World) {
    && w.known("select") && w.known("set") && w.known("pexpireat")
    && w.known("rpush") && w.known("sadd") && w.known("zadd") && w.known("hmset")
  }

  ghost predicate Clean(cmds: seq<Command>, w: World) {
    AllPrintable(cmds) && AllKnown(cmds, w.known) && TransactionFree(cmds)
  }

  lemma CleanAppend(a: seq<Command>, b: seq<Command>, w: World)
    requires Clean(a, w) && Clean(b, w)
    ensures Clean(a + b, w)
  {
    hide Printable, Name, IsMulti, IsExec;
  }

  lemma CleanOne(c: Command, w: World)
    requires RewriteTable(w) && Printable(c) && (IsKind(c[0]) || c[0] in {"SET", "PEXPIREAT", "SELECT"})
    ensures Clean([c], w)
  {
    LowerKinds();
    assert Lower("SET") == "set" && Lower("PEXPIREAT") == "pexpireat" && Lower("SELECT") == "select";
    assert |Name(c)| == |c[0]|;
    assert "multi"[0] == 'm' && "exec"[0] == 'e';
    assert Name(c)[0] != 'm' && Name(c)[0] != 'e';
  }

  lemma {:induction false} FlattenFits(items: seq<seq<string>>)
    requires AllFit(items)
    ensures forall i :: 0 <= i < |Flatten(items)| ==> Fits(Flatten(items)[i])
  {
    if items != [] {
      FlattenFits(items[1..]);
      forall j | 0 <= j < |items[0]| ensures Fits(items[0][j]) {}
    }
  }

  lemma ChunkPrintable(kind: string, key: string, items: seq<seq<string>>)
    requires IsKind(kind) && Fits(key) && AllFit(items) && Wide(items, Width(kind)) && |items| <= ITEMS_PER_CMD
    ensures Printable([kind, key] + Flatten(items))
  {
    hide Flatten, AllFit, Wide;
    FlattenFits(items);
    FlattenLength(items, Width(kind));
  }

  lemma {:induction false} ChunksClean(kind: string, key: string, items: seq<seq<string>>, w: World)
    requires RewriteTable(w) && IsKind(kind) && Fits(key) && AllFit(items) && Wide(items, Width(kind))
    ensures Clean(Chunks(kind, key, items), w)
    decreases |items|
  {
    if items != [] {
      hide Clean, RewriteTable, IsKind, Fits, Printable, Flatten;
      var n := Take(items);
      var c := [kind, key] + Flatten(items[..n]);
      ChunkPrintable(kind, key, items[..n]);
      CleanOne(c, w);
      ChunksClean(kind, key, items[n..], w);
      CleanAppend([c], Chunks(kind, key, items[n..]), w);
    }
  }

  lemma RenderFits(n: int)
    requires -MAX_LENGTH < n < MAX_LENGTH
    ensures |Render(n)| < MAX_LENGTH
  {
    LengthFits(if n < 0 then -n else n);
  }

  /** The commands that create the value of one key. */
  method RewriteValue(dst: string, key: string, v: Value, ghost p: Place, ghost w: World)
    returns (out: string, ghost cs: seq<Command>)
    requires RewriteTable(w) && Fits(key) && Storable(Entry(v, NO_EXPIRE)) && (p.db, key) !in p.data
    ensures out == dst + EncodeAll(cs) && Clean(cs, w)
    ensures Replay(p, cs, w.other) == p.(data := p.data[(p.db, key) := Entry(v, NO_EXPIRE)])
  {
    if v.Str? {
      var c := ["SET", key, v.text];
      cs := [c];
      CleanOne(c, w);
      out := CatCommand(dst, c);
      SingleEncode(c);
      SetName();
      ReplayOne(p, c, w.other);
      ReplaySet(p, c, key, v.text, w.other);
    } else {
      hide Replay, Clean, EncodeAll, Storable, Usable, Rebuilt, Chunks, RewriteTable;
      var items := ItemsOf(v);
      out := RewriteItemsOf(dst, v, key, items);
      cs := Chunks(KindOf(v), key, items);
      UsableIsWide(KindOf(v), items);
      ChunksClean(KindOf(v), key, items, w);
      ReplayObject(p, KindOf(v), key, items, w.other);
    }
  }

  lemma UsableIsWide(kind: string, items: seq<seq<string>>)
    requires Usable(kind, items)
    ensures Wide(items, Width(kind))
  {
  }

  method RewriteItemsOf(dst: string, v: Value, key: string, items: seq<seq<string>>) returns (out: string)
    requires !v.Str? && Usable(KindOf(v), items)
    ensures out == dst + EncodeAll(Chunks(KindOf(v), key, items))
  {
    out := RewriteItems(dst, KindOf(v), key, items, Width(KindOf(v)));
  }

  /** One key: its value and its expire time. */
  method RewriteEntry(dst: string, key: string, e: Entry, ghost p: Place, ghost w: World)
    returns (out: string, ghost cs: seq<Command>)
    requires RewriteTable(w) && Fits(key) && Storable(e) && (p.db, key) !in p.data
    ensures out == dst + EncodeAll(cs) && Clean(cs, w)
    ensures Replay(p, cs, w.other) == p.(data := p.data[(p.db, key) := e])
  {
    hide Replay, EncodeAll, Clean, RewriteTable, Render;
    out, cs := RewriteValue(dst, key, e.value, p, w);
    if e.expire != NO_EXPIRE {
      var c := ["PEXPIREAT", key, Render(e.expire)];
      ghost var p' := p.(data := p.data[(p.db, key) := Entry(e.value, NO_EXPIRE)]);
      RenderFits(e.expire);
      CleanOne(c, w);
      CleanAppend(cs, [c], w);
      out := CatCommand(out, c);
      SingleEncode(c);
      EncodeAllAppend(cs, [c]);
      ReplayAppend(p, cs, [c], w.other);
      ReplayOne(p', c, w.other);
      ReplayExpire(p', key, e.expire, w.other);
      cs := cs + [c];
      assert p'.data[(p.db, key) := e] == p.data[(p.db, key) := e];
    }
  }

  lemma ReplayExpire(p: Place, key: string, when: int, other: Other)
    ensures Replay1(p, ["PEXPIREAT", key, Render(when)], other) == p.(data := SetExpire(p.data, (p.db, key), when))
  {
    ReplayExpireAt(p, key, Millis("0"), when, other);
    assert "0" + "" == Render(0) + "";
    AtoiRender(0, "");
    assert When(Millis("0"), when) == when;
  }

  predicate DatasetStorable(data: Data, dbnum: nat) {
    dbnum < MAX_ARGC && forall at :: at in data ==> at.0 < dbnum && Fits(at.1) && Storable(data[at])
  }

  /** The part of the dataset in the databases below db and, in db itself, outside `left`. */
  function Written(data: Data, db: nat, left: set<string>): Data {
    map at | at in data && (at.0 < db || (at.0 == db && at.1 !in left)) :: data[at]
  }

  function KeysOf(data: Data, db: nat): set<string> {
    set at | at in data && at.0 == db :: at.1
  }

  lemma WrittenKey(data: Data, db: nat, left: set<string>, key: string)
    requires key in left && (db, key) in data
    ensures (db, key) !in Written(data, db, left)
    ensures Written(data, db, left)[(db, key) := data[(db, key)]] == Written(data, db, left - {key})
  {
  }

  /** All keys of one database, behind a SELECT. */
  method RewriteDatabase(dst: string, data: Data, db: nat, ghost base: seq<Command>, ghost w: World)
    returns (out: string, ghost after: seq<Command>)
    requires RewriteTable(w) && Clean(base, w) && db < MAX_ARGC && dst == EncodeAll(base)
    requires forall at :: at in data ==> Fits(at.1) && Storable(data[at])
    requires Replay(Start, base, w.other).data == Written(data, db, KeysOf(data, db))
    ensures out == EncodeAll(after) && Clean(after, w)
    ensures Replay(Start, after, w.other).data == Written(data, db, {})
  {
    hide Replay, EncodeAll, Clean, RewriteTable, Written, Storable, Fits;
    out, after := dst, base;
    var left := KeysOf(data, db);
    if left == {} { return; }
    ghost var p := Replay(Start, base, w.other);
    SelectClean(db, w);
    out := CatCommand(out, Select(db));
    SingleEncode(Select(db));
    EncodeAllAppend(base, [Select(db)]);
    CleanAppend(base, [Select(db)], w);
    ReplayAppend(Start, base, [Select(db)], w.other);
    ReplaySelect(p, db, w.other);
    after := base + [Select(db)];
    while left != {}
      invariant left <= KeysOf(data, db) && out == EncodeAll(after) && Clean(after, w)
      invariant Replay(Start, after, w.other) == Place(Written(data, db, left), db)
      decreases |left|
    {
      var key :| key in left;
      out, after := RewriteKey(out, data, db, left, key, after, w);
      left := left - {key};
    }
  }

  method RewriteKey(dst: string, data: Data, db: nat, ghost left: set<string>, key: string, ghost base: seq<Command>, ghost w: World)
    returns (out: string, ghost after: seq<Command>)
    requires RewriteTable(w) && Clean(base, w) && dst == EncodeAll(base)
    requires key in left && key in KeysOf(data, db)
    requires forall at :: at in data ==> Fits(at.1) && Storable(data[at])
    requires Replay(Start, base, w.other) == Place(Written(data, db, left), db)
    ensures out == EncodeAll(after) && Clean(after, w)
    ensures Replay(Start, after, w.other) == Place(Written(data, db, left - {key}), db)
  {
    hide Replay, EncodeAll, Clean, RewriteTable, Written, Storable, Fits;
    ghost var p := Replay(Start, base, w.other);
    WrittenKey(data, db, left, key);
    ghost var cs;
    out, cs := RewriteEntry(dst, key, data[(db, key)], p, w);
    EncodeAllAppend(base, cs);
    CleanAppend(base, cs, w);
    ReplayAppend(Start, base, cs, w.other);
    after := base + cs;
  }

  lemma SelectClean(db: nat, w: World)
    requires RewriteTable(w) && db < MAX_ARGC
    ensures Clean([Select(db)], w)
  {
    LengthFits(db);
    CleanOne(Select(db), w);
  }

  /** A restart with this file, whether truncated files are tolerated or not, gives the dataset. */
  ghost predicate Restores(file: string, tolerant: bool, data: Data, w: World) {
    var r := Load(file, w.known, tolerant);
    (r.NothingToLoad? || r.Loaded?) && Restored(r, w) == data
  }

  lemma RebuiltLoads(base: seq<Command>, data: Data, w: World, tolerant: bool)
    requires Rebuilds(base, data, w)
    ensures Restores(EncodeAll(base), tolerant, data, w)
  {
    hide Replay, Load;
    if base == [] {
      ReplayNothing(Start, w.other);
      LoadsNothing(w.known, tolerant);
    } else {
      TransactionFreeRuns(base);
      LoadLog(base, w.known, tolerant);
    }
  }

  /** rewriteAppendOnlyFileRio: what the child prints rebuilds the dataset it was forked with. */
  method RewriteDataset(data: Data, dbnum: nat, ghost w: World) returns (out: string, ghost base: seq<Command>)
    requires RewriteTable(w) && DatasetStorable(data, dbnum)
    ensures out == EncodeAll(base) && Rebuilds(base, data, w)
    ensures Restores(out, true, data, w) && Restores(out, false, data, w)
  {
    out, base := "", [];
    ReplayNothing(Start, w.other);
    hide Replay, EncodeAll, RewriteTable, Storable, Fits, KeysOf;
    for db := 0 to dbnum
      invariant out == EncodeAll(base) && Clean(base, w)
      invariant Replay(Start, base, w.other).data == Below(data, db)
    {
      BelowIs(data, db);
      out, base := RewriteDatabase(out, data, db, base, w);
    }
    assert Below(data, dbnum) == data;
    RebuiltLoads(base, data, w, true);
    RebuiltLoads(base, data, w, false);
  }

  function Below(data: Data, db: nat): Data {
    map at | at in data && at.0 < db :: data[at]
  }

  lemma BelowIs(data: Data, db: nat)
    ensures Below(data, db) == Written(data, db, KeysOf(data, db))
    ensures Below(data, db + 1) == Written(data, db, {})
  {
    assert forall at :: at in data && at.0 == db ==> at.1 in KeysOf(data, db);
  }
}
