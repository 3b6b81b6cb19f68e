/** ACL users and the rule language of ACL SETUSER. */
module AclUser {
  import opened Options
  import opened Text

  // ------------------------------------------------------------------ command table

  const BITS := 1024
  const RESERVED := BITS - 1

  const CATEGORIES := [
    "keyspace", "read", "write", "set", "sortedset", "list", "hash", "string", "bitmap", "hyperloglog", "geo",
    "stream", "pubsub", "admin", "fast", "slow", "blocking", "dangerous", "connection", "transaction", "scripting"]

  datatype Cmd = Cmd(name: string, id: nat, cats: set<string>, fromModule: bool)

  /** The original command table in the order the dictionary is walked. */
  type Table = seq<Cmd>

  predicate HasSpaces(s: string) {
    exists i :: 0 <= i < |s| && (IsSpace(s[i]) || s[i] == '\0')
  }

  predicate NameOk(name: string) {
    name != "" && Lower(name) == name && '|' !in name && name[0] != '@' && !HasSpaces(name)
  }

  /** Command names and ids are unique, and every id is below the reserved bit. */
  ghost predicate TableOk(t: Table) {
    && (forall i :: 0 <= i < |t| ==> NameOk(t[i].name) && t[i].id < RESERVED)
    && (forall i, j :: 0 <= i < j < |t| ==> t[i].name != t[j].name && t[i].id != t[j].id)
  }

  /** ACLLookupCommand: names are compared without regard to case. */
  function Lookup(t: Table, name: string): (r: Option<Cmd>)
    ensures r.Some? ==> r.value in t && r.value.name == Lower(name)
    ensures r.None? ==> forall c :: c in t ==> c.name != Lower(name)
  {
    if t == [] then None
    else if t[0].name == Lower(name) then Some(t[0])
    else Lookup(t[1..], name)
  }

  // -------------------------------------------------------------------------- users

  /** Command permissions: the bitmap, the ALLCOMMANDS flag, and the subcommands allowed per command id. */
  datatype Perms = Perms(bits: seq<bool>, all: bool, subs: map<nat, seq<string>>)

  /** Everything else: flags, password hashes and key patterns. */
  datatype Access = Access(on: bool, off: bool, nopass: bool, allkeys: bool,
                           passwords: seq<string>, patterns: seq<string>)

  datatype User = User(access: Access, perms: Perms)

  /** +@all and -@all set every bit, also those of no command, and forget all subcommands. */
  function Uniform(value: bool): (p: Perms)
    ensures |p.bits| == BITS && forall i :: 0 <= i < BITS ==> p.bits[i] == value
  {
    Perms(seq(BITS, _ => value), value, map[])
  }

  const NoAccess := Access(false, true, false, false, [], [])

  /** A user as ACLCreateUser makes it. */
  const Fresh := User(NoAccess, Uniform(false))

  datatype Error = EINVAL | ENOENT | EBUSY | EEXIST | ENODEV | EBADMSG

  datatype Result<T> = Ok(value: T) | Err(error: Error)

  // ------------------------------------------------------------- command permissions

  /** ACLSetUserCommandBit: clearing a bit clears ALLCOMMANDS. */
  function SetBit(p: Perms, id: nat, value: bool): (r: Perms)
    ensures |r.bits| == |p.bits| && r.subs == p.subs
  {
    if id >= |p.bits| then p else p.(bits := p.bits[id := value], all := p.all && value)
  }

  function ResetSubs(p: Perms, id: nat): Perms { p.(subs := p.subs - {id}) }

  function SubsOf(p: Perms, id: nat): seq<string> { if id in p.subs then p.subs[id] else [] }

  predicate Listed(subs: seq<string>, sub: string) {
    exists i :: 0 <= i < |subs| && Lower(subs[i]) == Lower(sub)
  }

  /** ACLAddAllowedSubcommand */
  function AddSub(p: Perms, id: nat, sub: string): Perms {
    if Listed(SubsOf(p, id), sub) then p else p.(subs := p.subs[id := SubsOf(p, id) + [sub]])
  }

  /** ACLSetUserCommandBitsForCategory; commands of modules are left alone. */
  function SetCategory(p: Perms, t: Table, cat: string, value: bool): (r: Perms)
    ensures |r.bits| == |p.bits|
  {
    if t == [] then p
    else
      var p := SetCategory(p, t[..|t| - 1], cat, value);
      var c := t[|t| - 1];
      if c.fromModule || cat !in c.cats then p else ResetSubs(SetBit(p, c.id, value), c.id)
  }

  /** The position of the first '|'. */
  function Bar(s: string): (r: nat)
    ensures r <= |s| && (r < |s| ==> s[r] == '|') && '|' !in s[..r]
  {
    if s == "" || s[0] == '|' then 0
    else
      var r := Bar(s[1..]);
      assert s[..r + 1] == [s[0]] + s[1..][..r];
      1 + r
  }

  function Bit(p: Perms, id: nat): bool { id < |p.bits| && p.bits[id] }

  /** +cmd|sub: the command must exist and not be fully allowed, the subcommand not be empty. */
  function AllowSub(p: Perms, t: Table, name: string, sub: string): Result<Perms> {
    match Lookup(t, name)
    case None => Err(ENOENT)
    case Some(c) =>
      if sub == "" then Err(EINVAL)
      else if Bit(p, c.id) then Err(EBUSY)
      else Ok(SetBit(AddSub(p, c.id, sub), c.id, false))
  }

  function SetCommand(p: Perms, t: Table, name: string, value: bool): Result<Perms> {
    match Lookup(t, name)
    case None => Err(ENOENT)
    case Some(c) => Ok(ResetSubs(SetBit(p, c.id, value), c.id))
  }

  predicate IsCommandRule(op: string) {
    op != "" && (Lower(op) in {"allcommands", "nocommands"} || op[0] == '+' || op[0] == '-')
  }

  function SetPerms(p: Perms, op: string, t: Table): Result<Perms>
    requires IsCommandRule(op)
  {
    if Lower(op) in {"allcommands", "+@all"} then Ok(Uniform(true))
    else if Lower(op) in {"nocommands", "-@all"} then Ok(Uniform(false))
    else if |op| > 1 && op[1] == '@' then
      (if Lower(op[2..]) in CATEGORIES then Ok(SetCategory(p, t, Lower(op[2..]), op[0] == '+')) else Err(ENOENT))
    else if op[0] == '+' && '|' in op then
      var name, bar := op[1..], Bar(op[1..]);
      AllowSub(p, t, name[..bar], if bar < |name| then name[bar + 1..] else "")
    else SetCommand(p, t, op[1..], op[0] == '+')
  }

  // ------------------------------------------------------------------------- access

  predicate IsHash(s: string) {
    |s| == 64 && forall i :: 0 <= i < 64 ==> 'a' <= s[i] <= 'f' || '0' <= s[i] <= '9'
  }

  function AddOnce(xs: seq<string>, x: string): seq<string> { if x in xs then xs else xs + [x] }

  /** The list without its first x. */
  function RemoveFirst(xs: seq<string>, x: string): (r: seq<string>)
    ensures multiset(r) == multiset(xs) - multiset{x}
  {
    if xs == [] then []
    else
      assert xs == [xs[0]] + xs[1..];
      if xs[0] == x then xs[1..] else [xs[0]] + RemoveFirst(xs[1..], x)
  }

  function AddPassword(a: Access, hash: string): Access {
    a.(passwords := AddOnce(a.passwords, hash), nopass := false)
  }

  function DropPassword(a: Access, hash: string): Result<Access> {
    if hash in a.passwords then Ok(a.(passwords := RemoveFirst(a.passwords, hash))) else Err(ENODEV)
  }

  function AddPattern(a: Access, pattern: string): Result<Access> {
    if a.allkeys then Err(EEXIST)
    else if HasSpaces(pattern) then Err(EINVAL)
    else Ok(a.(patterns := AddOnce(a.patterns, pattern)))
  }

  function SetAccess(a: Access, op: string, hash: string -> string): Result<Access>
    requires op != ""
  {
    var name := Lower(op);
    if name == "on" then Ok(a.(on := true, off := false))
    else if name == "off" then Ok(a.(off := true, on := false))
    else if name in {"allkeys", "~*"} then Ok(a.(allkeys := true, patterns := []))
    else if name == "resetkeys" then Ok(a.(allkeys := false, patterns := []))
    else if name == "nopass" then Ok(a.(nopass := true, passwords := []))
    else if name == "resetpass" then Ok(a.(nopass := false, passwords := []))
    else if op[0] == '>' then Ok(AddPassword(a, hash(op[1..])))
    else if op[0] == '#' then (if IsHash(op[1..]) then Ok(AddPassword(a, op[1..])) else Err(EBADMSG))
    else if op[0] == '<' then DropPassword(a, hash(op[1..]))
    else if op[0] == '!' then (if IsHash(op[1..]) then DropPassword(a, op[1..]) else Err(EBADMSG))
    else if op[0] == '~' then AddPattern(a, op[1..])
    else Err(EINVAL)
  }

  // ---------------------------------------------------------------------------- rules

  datatype World = World(table: Table, hash: string -> string)

  /** The command table is sound and passwords hash to 64 hexadecimal digits. */
  ghost predicate WorldOk(w: World) {
    TableOk(w.table) && forall s :: IsHash(w.hash(s))
  }

  /** ACLSetUser */
  function SetUser(u: User, op: string, w: World): Result<User> {
    if op == "" then Ok(u)
    else if IsCommandRule(op) then
      (match SetPerms(u.perms, op, w.table)
       case Ok(p) => Ok(u.(perms := p))
       case Err(e) => Err(e))
    else if Lower(op) == "reset" then Ok(Fresh)
    else
      match SetAccess(u.access, op, w.hash)
      case Ok(a) => Ok(u.(access := a))
      case Err(e) => Err(e)
  }

  function SetAll(u: User, ops: seq<string>, w: World): Result<User>
    decreases |ops|
  {
    if ops == [] then Ok(u)
    else
      match SetUser(u, ops[0], w)
      case Ok(v) => SetAll(v, ops[1..], w)
      case Err(e) => Err(e)
  }

  // ------------------------------------------------------------------------ invariant

  predicate Distinct(xs: seq<string>) {
    forall i, j :: 0 <= i < j < |xs| ==> xs[i] != xs[j]
  }

  predicate PatternOk(p: string) { p != "*" && !HasSpaces(p) }

  ghost predicate AccessOk(a: Access) {
    && a.on != a.off
    && (a.nopass ==> a.passwords == []) && (a.allkeys ==> a.patterns == [])
    && Distinct(a.passwords) && (forall h :: h in a.passwords ==> IsHash(h))
    && Distinct(a.patterns) && (forall p :: p in a.patterns ==> PatternOk(p))
  }

  predicate SubsDistinct(subs: seq<string>) {
    && (forall i :: 0 <= i < |subs| ==> subs[i] != "")
    && (forall i, j :: 0 <= i < j < |subs| ==> Lower(subs[i]) != Lower(subs[j]))
  }

  ghost predicate IsId(t: Table, id: nat) { exists c :: c in t && c.id == id }

  ghost predicate PermsOk(p: Perms, t: Table) {
    && |p.bits| == BITS
    && (forall id :: 0 <= id < BITS && !IsId(t, id) ==> p.bits[id] == p.bits[RESERVED])
    && (p.all ==> forall id :: 0 <= id < BITS ==> p.bits[id])
    && (forall id :: id in p.subs ==> IsId(t, id) && !Bit(p, id) && p.subs[id] != [] && SubsDistinct(p.subs[id]))
  }

  ghost predicate UserOk(u: User, t: Table) { AccessOk(u.access) && PermsOk(u.perms, t) }

  // ------------------------------------------------------- every rule keeps a user sound

  lemma SetBitOk(p: Perms, t: Table, c: Cmd, value: bool)
    requires TableOk(t) && PermsOk(p, t) && c in t
    ensures PermsOk(ResetSubs(SetBit(p, c.id, value), c.id), t)
  {
    assert IsId(t, c.id) && c.id < RESERVED && !IsId(t, RESERVED);
  }

  lemma {:induction false} SetCategoryOk(p: Perms, t: Table, k: nat, cat: string, value: bool)
    requires TableOk(t) && PermsOk(p, t) && k <= |t|
    ensures PermsOk(SetCategory(p, t[..k], cat, value), t)
  {
    if k > 0 {
      hide PermsOk, TableOk;
      SetCategoryOk(p, t, k - 1, cat, value);
      assert t[..k][..k - 1] == t[..k - 1];
      if !t[k - 1].fromModule && cat in t[k - 1].cats {
        SetBitOk(SetCategory(p, t[..k - 1], cat, value), t, t[k - 1], value);
      }
    }
  }

  lemma AllowSubOk(p: Perms, t: Table, name: string, sub: string)
    requires TableOk(t) && PermsOk(p, t)
    ensures var r := AllowSub(p, t, name, sub); r.Ok? ==> PermsOk(r.value, t)
  {
    hide Lower, NameOk;
    var r := AllowSub(p, t, name, sub);
    if r.Ok? {
      var c := Lookup(t, name).value;
      var q := AddSub(p, c.id, sub);
      assert IsId(t, c.id);
      assert r.value.bits == p.bits;
      assert SubsDistinct(SubsOf(p, c.id));
    }
  }

  lemma SetPermsOk(p: Perms, op: string, t: Table)
    requires TableOk(t) && PermsOk(p, t) && IsCommandRule(op)
    ensures var r := SetPerms(p, op, t); r.Ok? ==> PermsOk(r.value, t)
  {
    hide TableOk, Lower, AllowSub;
    var r := SetPerms(p, op, t);
    if Lower(op) in {"allcommands", "+@all", "nocommands", "-@all"} {
    } else if |op| > 1 && op[1] == '@' {
      assert t[..|t|] == t;
      SetCategoryOk(p, t, |t|, Lower(op[2..]), op[0] == '+');
    } else if op[0] == '+' && '|' in op {
      var name, bar := op[1..], Bar(op[1..]);
      AllowSubOk(p, t, name[..bar], if bar < |name| then name[bar + 1..] else "");
    } else if r.Ok? {
      SetBitOk(p, t, Lookup(t, op[1..]).value, op[0] == '+');
    }
  }

  lemma {:induction false} RemoveFirstDistinct(xs: seq<string>, x: string)
    requires Distinct(xs)
    ensures Distinct(RemoveFirst(xs, x)) && forall y :: y in RemoveFirst(xs, x) ==> y in xs
  {
    if xs != [] && xs[0] != x {
      RemoveFirstDistinct(xs[1..], x);
      var r := RemoveFirst(xs[1..], x);
      forall i | 0 <= i < |r| ensures r[i] != xs[0] {
        assert r[i] in xs[1..];
      }
    }
  }

  lemma AddPasswordOk(a: Access, hash: string)
    requires AccessOk(a) && IsHash(hash)
    ensures AccessOk(AddPassword(a, hash))
  {
    hide IsHash, HasSpaces;
  }

  lemma DropPasswordOk(a: Access, hash: string)
    requires AccessOk(a) && hash in a.passwords
    ensures AccessOk(DropPassword(a, hash).value)
  {
    hide IsHash, HasSpaces, RemoveFirst;
    RemoveFirstDistinct(a.passwords, hash);
  }

  lemma AddPatternOk(a: Access, pattern: string)
    requires AccessOk(a) && pattern != "*"
    ensures AddPattern(a, pattern).Ok? ==> AccessOk(AddPattern(a, pattern).value)
  {
    hide IsHash, HasSpaces;
  }

  lemma StarIsAllKeys(op: string)
    requires op != "" && op[0] == '~' && op[1..] == "*"
    ensures Lower(op) == "~*"
  {
    assert op == "~*";
  }

  lemma FlagsOk(a: Access, b: Access)
    requires AccessOk(a) && b.on != b.off
    requires (b.passwords == a.passwords && b.nopass == a.nopass) || b.passwords == []
    requires (b.patterns == a.patterns && b.allkeys == a.allkeys) || b.patterns == []
    ensures AccessOk(b)
  {
    hide IsHash, HasSpaces;
  }

  lemma SetAccessOk(a: Access, op: string, w: World)
    requires WorldOk(w) && AccessOk(a) && op != ""
    ensures var r := SetAccess(a, op, w.hash); r.Ok? ==> AccessOk(r.value)
  {
    var name, r := Lower(op), SetAccess(a, op, w.hash);
    var onOff := a.on != a.off;
    assert onOff && (a.nopass ==> a.passwords == []);
    hide TableOk, IsHash, HasSpaces, AccessOk, Lower, AddPassword, DropPassword, AddPattern;
    if name in {"on", "off", "allkeys", "~*", "resetkeys", "nopass", "resetpass"} {
      FlagsOk(a, r.value);
    } else if op[0] == '>' {
      AddPasswordOk(a, w.hash(op[1..]));
    } else if op[0] == '#' {
      if IsHash(op[1..]) { AddPasswordOk(a, op[1..]); }
    } else if op[0] == '<' {
      if w.hash(op[1..]) in a.passwords { DropPasswordOk(a, w.hash(op[1..])); } else { NoSuchPassword(a, w.hash(op[1..])); }
    } else if op[0] == '!' {
      if op[1..] in a.passwords { DropPasswordOk(a, op[1..]); } else { NoSuchPassword(a, op[1..]); }
    } else if op[0] == '~' {
      if op[1..] == "*" { StarIsAllKeys(op); }
      AddPatternOk(a, op[1..]);
    }
  }

  lemma NoSuchPassword(a: Access, hash: string)
    requires hash !in a.passwords
    ensures DropPassword(a, hash).Err?
  {
  }

  /** Every rule, in every order, keeps a user sound. */
  lemma SetUserOk(u: User, op: string, w: World)
    requires WorldOk(w) && UserOk(u, w.table)
    ensures var r := SetUser(u, op, w); r.Ok? ==> UserOk(r.value, w.table)
  {
    hide AccessOk, SetAccess, SetPerms, TableOk, IsHash;
    if op != "" {
      if IsCommandRule(op) {
        SetPermsOk(u.perms, op, w.table);
      } else if Lower(op) == "reset" {
        FreshOk(w.table);
      } else {
        SetAccessOk(u.access, op, w);
      }
    }
  }

  lemma FreshOk(t: Table)
    ensures UserOk(Fresh, t)
  {
  }

  lemma {:induction false} SetAllOk(u: User, ops: seq<string>, w: World)
    requires WorldOk(w) && UserOk(u, w.table)
    ensures var r := SetAll(u, ops, w); r.Ok? ==> UserOk(r.value, w.table)
    decreases |ops|
  {
    if ops != [] {
      hide UserOk, WorldOk, SetUser;
      SetUserOk(u, ops[0], w);
      var r := SetUser(u, ops[0], w);
      if r.Ok? {
        SetAllOk(r.value, ops[1..], w);
      }
    }
  }
}
