/** What each rule means to a client: who may log in, what may run, which keys may be touched. */
module AclRules {
  import opened Text
  import opened AclUser

  // --------------------------------------------------------------------- checks at run time

  predicate HasPassword(a: Access, password: string, hash: string -> string) { hash(password) in a.passwords }

  /** ACLCheckUserCredentials */
  predicate LogsIn(a: Access, password: string, hash: string -> string) {
    !a.off && (a.nopass || HasPassword(a, password, hash))
  }

  /** The part of ACLCheckCommandPerm about the command; AUTH is always allowed. */
  predicate Runs(p: Perms, c: Cmd, argv: seq<string>) {
    p.all || c.name == "auth" || Bit(p, c.id) || (|argv| >= 2 && Listed(SubsOf(p, c.id), argv[1]))
  }

  type Match = (string, string) -> bool

  predicate Touches(a: Access, key: string, matches: Match) {
    a.allkeys || exists i :: 0 <= i < |a.patterns| && matches(a.patterns[i], key)
  }

  // ---------------------------------------------------------------------------- categories

  /** The category names the command, which is no module's. */
  predicate Belongs(c: Cmd, cat: string) { !c.fromModule && cat in c.cats }

  ghost predicate Hit(t: Table, cat: string, id: nat) { exists c :: c in t && Belongs(c, cat) && c.id == id }

  /** From p to r exactly the bits of the category's commands are set to the value, their subcommands dropped. */
  ghost predicate CategorySet(p: Perms, r: Perms, t: Table, cat: string, value: bool) {
    && |r.bits| == |p.bits|
    && (forall id :: 0 <= id < |p.bits| ==> r.bits[id] == if Hit(t, cat, id) then value else p.bits[id])
    && r.subs == (map id | id in p.subs && !Hit(t, cat, id) :: p.subs[id])
    && (r.all <==> p.all && (value || forall c :: c in t ==> !Belongs(c, cat)))
  }

  /** A category sets the bits of its commands, drops their subcommands, and touches nothing else. */
  lemma {:induction false} CategoryExact(p: Perms, t: Table, cat: string, value: bool)
    requires forall c :: c in t ==> c.id < |p.bits|
    ensures CategorySet(p, SetCategory(p, t, cat, value), t, cat, value)
  {
    if t != [] {
      var n := |t| - 1;
      assert t[n] in t && forall d :: d in t[..n] ==> d in t;
      CategoryExact(p, t[..n], cat, value);
      hide CategorySet;
      CategoryStep(p, SetCategory(p, t[..n], cat, value), t, cat, value);
    }
  }

  lemma CategoryStep(p: Perms, q: Perms, t: Table, cat: string, value: bool)
    requires t != [] && t[|t| - 1].id < |p.bits| && CategorySet(p, q, t[..|t| - 1], cat, value)
    ensures var c := t[|t| - 1];
            CategorySet(p, if Belongs(c, cat) then ResetSubs(SetBit(q, c.id, value), c.id) else q, t, cat, value)
  {
    var n := |t| - 1;
    HitNext(t, cat);
    assert forall d :: d in t <==> d in t[..n] || d == t[n];
    hide Belongs, Hit;
    assert (forall d :: d in t ==> !Belongs(d, cat)) <==> (forall d :: d in t[..n] ==> !Belongs(d, cat)) && !Belongs(t[n], cat);
  }

  lemma HitNext(t: Table, cat: string)
    requires t != []
    ensures var n := |t| - 1;
            forall id :: Hit(t, cat, id) <==> Hit(t[..n], cat, id) || (Belongs(t[n], cat) && t[n].id == id)
  {
    var n := |t| - 1;
    assert forall d :: d in t <==> d in t[..n] || d == t[n];
    forall id ensures Hit(t, cat, id) <==> Hit(t[..n], cat, id) || (Belongs(t[n], cat) && t[n].id == id) {
      if Hit(t[..n], cat, id) {
        var c :| c in t[..n] && Belongs(c, cat) && c.id == id;
        assert c in t;
      }
    }
  }

  /** Ids are unique, so a command is hit only by itself. */
  lemma HitSelf(t: Table, cat: string, c: Cmd)
    requires TableOk(t) && c in t
    ensures Hit(t, cat, c.id) <==> Belongs(c, cat)
  {
    hide NameOk;
    if Hit(t, cat, c.id) {
      var d :| d in t && Belongs(d, cat) && d.id == c.id;
      var i :| 0 <= i < |t| && t[i] == c;
      var j :| 0 <= j < |t| && t[j] == d;
      assert i == j;
    }
  }

  /** +@cat and -@cat: the commands of the category run with any arguments, or not at all, the others as before. */
  lemma CategoryRuleRuns(u: User, op: string, w: World, c: Cmd, argv: seq<string>)
    requires WorldOk(w) && UserOk(u, w.table) && c in w.table
    requires |op| > 2 && op[0] in {'+', '-'} && op[1] == '@' && Lower(op[2..]) != "all"
    ensures var r, cat := SetUser(u, op, w), Lower(op[2..]);
            && (cat !in CATEGORIES ==> r == Err(ENOENT))
            && (cat in CATEGORIES ==>
                  && r.Ok? && r.value.access == u.access
                  && (Runs(r.value.perms, c, argv) <==>
                        if Belongs(c, cat) then op[0] == '+' || c.name == "auth" else Runs(u.perms, c, argv)))
  {
    NotTheWord(op);
    var t, cat, p := w.table, Lower(op[2..]), u.perms;
    assert forall d :: d in t ==> d.id < |p.bits|;
    CategoryExact(p, t, cat, op[0] == '+');
    HitSelf(t, cat, c);
    hide Lower, NameOk, SetCategory, Hit, CATEGORIES, Listed, SubsDistinct, IsHash, HasSpaces;
    var r := SetCategory(p, t, cat, op[0] == '+');
    assert SubsOf(r, c.id) == if Belongs(c, cat) then [] else SubsOf(p, c.id);
    assert !Listed([], if |argv| >= 2 then argv[1] else "") by { NoneListed(if |argv| >= 2 then argv[1] else ""); }
  }

  lemma NoneListed(sub: string)
    ensures !Listed([], sub)
  {
  }

  lemma NotTheWord(op: string)
    requires |op| > 2 && op[0] in {'+', '-'} && op[1] == '@' && Lower(op[2..]) != "all"
    ensures IsCommandRule(op) && Lower(op) !in {"allcommands", "nocommands", "+@all", "-@all"}
  {
    assert Lower(op)[2..] == Lower(op[2..]);
    assert "+@all"[2..] == "all" && "-@all"[2..] == "all";
    assert Lower(op)[0] == op[0];
  }

  // ------------------------------------------------------------------------------ commands

  /** Everything runs, with any arguments. */
  lemma AllCommandsRule(u: User, op: string, w: World, c: Cmd, argv: seq<string>)
    requires Lower(op) in {"allcommands", "+@all"}
    ensures var r := SetUser(u, op, w); r.Ok? && r.value.access == u.access && Runs(r.value.perms, c, argv)
  {
    FirstChar(op);
  }

  /** Nothing runs but AUTH. */
  lemma NoCommandsRule(u: User, op: string, w: World, c: Cmd, argv: seq<string>)
    requires Lower(op) in {"nocommands", "-@all"}
    ensures var r := SetUser(u, op, w);
            r.Ok? && r.value.access == u.access && (Runs(r.value.perms, c, argv) <==> c.name == "auth")
  {
    FirstChar(op);
    assert "nocommands"[0] == 'n' && "-@all"[0] == '-' && "allcommands"[0] == 'a' && "+@all"[0] == '+';
  }

  lemma FirstChar(op: string)
    requires Lower(op) in {"allcommands", "+@all", "nocommands", "-@all"}
    ensures op != "" && IsCommandRule(op)
  {
    assert |Lower(op)| == |op| && Lower(op)[0] == LowerChar(op[0]);
  }

  /** Two commands of the table with one id are the same. */
  lemma SameId(t: Table, c: Cmd, d: Cmd)
    requires TableOk(t) && c in t && d in t && c.id == d.id
    ensures c == d
  {
    hide NameOk;
    var i :| 0 <= i < |t| && t[i] == c;
    var j :| 0 <= j < |t| && t[j] == d;
    assert i == j;
  }

  lemma Signed(op: string)
    requires |op| > 1 && op[0] in {'+', '-'} && op[1] != '@'
    ensures IsCommandRule(op) && Lower(op) !in {"allcommands", "nocommands", "+@all", "-@all"}
  {
    assert Lower(op)[0] == op[0] && Lower(op)[1] == LowerChar(op[1]) != '@';
  }

  /** +cmd and -cmd: the command runs with any arguments, or not at all, the others as before. */
  lemma CommandRule(u: User, op: string, w: World, c: Cmd, argv: seq<string>)
    requires WorldOk(w) && UserOk(u, w.table) && c in w.table
    requires |op| > 1 && op[0] in {'+', '-'} && op[1] != '@' && (op[0] == '+' ==> '|' !in op)
    ensures var r, d := SetUser(u, op, w), Lookup(w.table, op[1..]);
            && (d.None? ==> r == Err(ENOENT))
            && (d.Some? ==>
                  && r.Ok? && r.value.access == u.access
                  && (Runs(r.value.perms, c, argv) <==>
                        if c == d.value then op[0] == '+' || c.name == "auth" else Runs(u.perms, c, argv)))
  {
    Signed(op);
    hide Lower, NameOk, TableOk, Listed, SubsDistinct, IsHash, HasSpaces, Lookup, AllowSub;
    var d := Lookup(w.table, op[1..]);
    NoneListed(if |argv| >= 2 then argv[1] else "");
    if d.Some? {
      IdBelow(w.table, d.value);
      if c.id == d.value.id { SameId(w.table, c, d.value); }
    }
  }

  lemma IdBelow(t: Table, c: Cmd)
    requires TableOk(t) && c in t
    ensures c.id < RESERVED
  {
    hide NameOk;
  }

  /** +cmd|sub: what ran before runs, and the command with this subcommand in any case. */
  lemma SubcommandRule(u: User, op: string, w: World, c: Cmd, argv: seq<string>)
    requires WorldOk(w) && UserOk(u, w.table) && c in w.table
    requires |op| > 1 && op[0] == '+' && op[1] != '@' && '|' in op
    ensures var r, name, bar := SetUser(u, op, w), op[1..], Bar(op[1..]);
            && bar < |name|
            && var d, sub := Lookup(w.table, name[..bar]), name[bar + 1..];
               && (d.None? ==> r == Err(ENOENT))
               && (d.Some? && sub == "" ==> r == Err(EINVAL))
               && (d.Some? && sub != "" && Bit(u.perms, d.value.id) ==> r == Err(EBUSY))
               && (d.Some? && sub != "" && !Bit(u.perms, d.value.id) ==>
                     && r.Ok? && r.value.access == u.access
                     && (Runs(r.value.perms, c, argv) <==>
                           Runs(u.perms, c, argv) || (c == d.value && |argv| >= 2 && Lower(argv[1]) == Lower(sub))))
  {
    Signed(op);
    BarInside(op);
    var name, bar := op[1..], Bar(op[1..]);
    var d, sub := Lookup(w.table, name[..bar]), name[bar + 1..];
    hide Lower, TableOk, PermsOk, Lookup, Bar, SetBit, AddSub, Runs, Listed, Bit;
    if d.Some? && sub != "" && !Bit(u.perms, d.value.id) {
      AllowedRuns(u.perms, w.table, d.value, sub, c, argv);
    }
  }

  lemma AllowedRuns(p: Perms, t: Table, d: Cmd, sub: string, c: Cmd, argv: seq<string>)
    requires TableOk(t) && PermsOk(p, t) && c in t && d in t && !Bit(p, d.id)
    ensures Runs(SetBit(AddSub(p, d.id, sub), d.id, false), c, argv) <==>
              Runs(p, c, argv) || (c == d && |argv| >= 2 && Lower(argv[1]) == Lower(sub))
  {
    IdBelow(t, d);
    if c.id == d.id { SameId(t, c, d); }
    assert !p.all;
    hide Lower, TableOk, PermsOk;
    if |argv| >= 2 { ListedMore(SubsOf(p, d.id), sub, argv[1]); }
    hide Listed;
  }

  lemma BarInside(op: string)
    requires |op| > 1 && op[0] == '+' && '|' in op
    ensures Bar(op[1..]) < |op[1..]|
  {
    var name := op[1..];
    assert op == [op[0]] + name && name[..|name|] == name && '|' in name;
  }

  lemma ListedMore(subs: seq<string>, sub: string, x: string)
    ensures Listed(subs + [sub], x) <==> Listed(subs, x) || Lower(sub) == Lower(x)
    ensures Listed(subs, sub) && Lower(sub) == Lower(x) ==> Listed(subs, x)
  {
    hide Lower;
    var more := subs + [sub];
    assert more[|subs|] == sub;
    assert forall i :: 0 <= i < |subs| ==> more[i] == subs[i];
  }

  // -------------------------------------------------------------------------------- access

  /** A rule that starts with a mark is none of the words. */
  lemma Marked(op: string)
    requires op != "" && op[0] in {'>', '#', '<', '!', '~'}
    ensures !IsCommandRule(op) && Lower(op)[0] == op[0]
    ensures Lower(op) !in {"on", "off", "allkeys", "resetkeys", "nopass", "resetpass", "reset"}
  {
    assert Lower(op)[0] == op[0];
  }

  predicate Hex64(s: string) { |s| == 64 && forall i :: 0 <= i < 64 ==> s[i] in "0123456789abcdef" }

  lemma HashIsHex(s: string)
    ensures IsHash(s) <==> Hex64(s)
  {
    forall i | 0 <= i < |s| ensures s[i] in "0123456789abcdef" <==> 'a' <= s[i] <= 'f' || '0' <= s[i] <= '9' {
      HexDigit(s[i]);
    }
  }

  lemma HexDigit(c: char)
    ensures c in "0123456789abcdef" <==> 'a' <= c <= 'f' || '0' <= c <= '9'
  {
    var digits := "0123456789abcdef";
    if '0' <= c <= '9' {
      assert digits[(c - '0') as int] == c;
    } else if 'a' <= c <= 'f' {
      assert digits[10 + (c - 'a') as int] == c;
    }
  }

  /** >password and #hash: that password logs in as well, and one is needed from now on. */
  lemma AddPasswordRule(u: User, op: string, w: World, x: string)
    requires op != "" && op[0] in {'>', '#'}
    ensures var r, h := SetUser(u, op, w), if op[0] == '>' then w.hash(op[1..]) else op[1..];
            && (op[0] == '#' && !Hex64(h) ==> r == Err(EBADMSG))
            && (op[0] == '>' || Hex64(h) ==>
                  && r.Ok? && r.value.perms == u.perms
                  && (LogsIn(r.value.access, x, w.hash) <==>
                        !u.access.off && (HasPassword(u.access, x, w.hash) || w.hash(x) == h))
                  && (forall key, matches: Match :: Touches(r.value.access, key, matches) <==> Touches(u.access, key, matches)))
  {
    Marked(op);
    HashIsHex(op[1..]);
    hide IsHash, Hex64, Lower;
  }

  /** <password and !hash: that password is gone, the others stay. */
  lemma DropPasswordRule(u: User, op: string, w: World, x: string)
    requires WorldOk(w) && UserOk(u, w.table) && op != "" && op[0] in {'<', '!'}
    ensures var r, h := SetUser(u, op, w), if op[0] == '<' then w.hash(op[1..]) else op[1..];
            && (op[0] == '!' && !Hex64(h) ==> r == Err(EBADMSG))
            && (op[0] == '<' || Hex64(h) ==>
                  && (h !in u.access.passwords ==> r == Err(ENODEV))
                  && (h in u.access.passwords ==>
                        && r.Ok? && r.value.perms == u.perms
                        && (LogsIn(r.value.access, x, w.hash) <==> LogsIn(u.access, x, w.hash) && w.hash(x) != h)
                        && r.value.access == u.access.(passwords := r.value.access.passwords)))
  {
    Marked(op);
    HashIsHex(op[1..]);
    var h := if op[0] == '<' then w.hash(op[1..]) else op[1..];
    if h in u.access.passwords {
      RemovedOnly(u.access.passwords, h);
    }
    hide IsHash, Hex64, Lower, RemoveFirst, TableOk, PermsOk, HasSpaces;
  }

  lemma {:induction false} RemovedOnly(xs: seq<string>, x: string)
    requires Distinct(xs)
    ensures forall y :: y in RemoveFirst(xs, x) <==> y in xs && y != x
  {
    if xs != [] {
      assert xs == [xs[0]] + xs[1..];
      assert xs[0] !in xs[1..];
      if xs[0] != x { RemovedOnly(xs[1..], x); }
    }
  }

  /** on, off, nopass and resetpass. */
  lemma LoginRules(u: User, op: string, w: World, x: string)
    requires Lower(op) in {"on", "off", "nopass", "resetpass"}
    ensures var r := SetUser(u, op, w);
            && r.Ok? && r.value.perms == u.perms
            && r.value.access.patterns == u.access.patterns && r.value.access.allkeys == u.access.allkeys
            && (LogsIn(r.value.access, x, w.hash) <==>
                  if Lower(op) == "on" then u.access.nopass || HasPassword(u.access, x, w.hash)
                  else if Lower(op) == "nopass" then !u.access.off
                  else false)
            && (Lower(op) in {"nopass", "resetpass"} ==> r.value.access.passwords == [])
  {
    Word(op);
    WordsDiffer();
  }

  /** allkeys, ~* and resetkeys. */
  lemma KeyRules(u: User, op: string, w: World, key: string, matches: Match, x: string)
    requires Lower(op) in {"allkeys", "~*", "resetkeys"}
    ensures var r := SetUser(u, op, w);
            && r.Ok? && r.value.perms == u.perms
            && (Touches(r.value.access, key, matches) <==> Lower(op) != "resetkeys")
            && (LogsIn(r.value.access, x, w.hash) <==> LogsIn(u.access, x, w.hash))
  {
    Word(op);
    WordsDiffer();
  }

  predicate Blank(s: string) { exists c :: c in s && c in {' ', '\t', '\n', 11 as char, 12 as char, '\r', '\0'} }

  lemma SpacesAreBlank(s: string)
    ensures HasSpaces(s) <==> Blank(s)
  {
    if HasSpaces(s) {
      var i :| 0 <= i < |s| && (IsSpace(s[i]) || s[i] == '\0');
      assert s[i] in s;
    }
  }

  /** ~pattern: the keys it matches as well. */
  lemma PatternRule(u: User, op: string, w: World, key: string, matches: Match, x: string)
    requires op != "" && op[0] == '~' && Lower(op) != "~*"
    ensures var r, pattern := SetUser(u, op, w), op[1..];
            && (u.access.allkeys ==> r == Err(EEXIST))
            && (!u.access.allkeys && Blank(pattern) ==> r == Err(EINVAL))
            && (!u.access.allkeys && !Blank(pattern) ==>
                  && r.Ok? && r.value.perms == u.perms
                  && (Touches(r.value.access, key, matches) <==> Touches(u.access, key, matches) || matches(pattern, key))
                  && (LogsIn(r.value.access, x, w.hash) <==> LogsIn(u.access, x, w.hash)))
  {
    Marked(op);
    SpacesAreBlank(op[1..]);
    hide HasSpaces, Blank, Lower;
    var xs := u.access.patterns;
    MatchesMore(xs, op[1..], key, matches);
  }

  predicate MatchesOne(xs: seq<string>, key: string, matches: Match) {
    exists i :: 0 <= i < |xs| && matches(xs[i], key)
  }

  lemma MatchesMore(xs: seq<string>, x: string, key: string, matches: Match)
    ensures MatchesOne(AddOnce(xs, x), key, matches) <==> MatchesOne(xs, key, matches) || matches(x, key)
  {
    var more := AddOnce(xs, x);
    assert x in more;
    assert forall i :: 0 <= i < |xs| ==> more[i] == xs[i];
  }

  lemma Word(op: string)
    requires Lower(op) in {"on", "off", "nopass", "resetpass", "allkeys", "~*", "resetkeys"}
    ensures op != "" && !IsCommandRule(op) && Lower(op) != "reset"
  {
    assert |Lower(op)| == |op| && Lower(op)[0] == LowerChar(op[0]);
    assert |"reset"| == 5;
  }

  lemma WordsDiffer()
    ensures "on" != "off" && "on" != "nopass" && "on" != "resetpass" && "off" != "nopass" && "off" != "resetpass"
    ensures "nopass" != "resetpass" && "allkeys" != "~*" && "allkeys" != "resetkeys" && "~*" != "resetkeys"
    ensures {"on", "off", "nopass", "resetpass"} !! {"allkeys", "~*", "resetkeys"}
  {
    assert "on"[1] != "off"[1] && "nopass"[0] != "resetpass"[0] && "allkeys"[0] != "~*"[0] && "allkeys"[0] != "resetkeys"[0];
  }

  /** reset: nobody logs in, nothing runs but AUTH, no key may be touched. */
  lemma ResetRule(u: User, op: string, w: World, c: Cmd, argv: seq<string>, x: string, key: string, matches: Match)
    requires Lower(op) == "reset"
    ensures var r := SetUser(u, op, w);
            && r.Ok? && !LogsIn(r.value.access, x, w.hash) && !Touches(r.value.access, key, matches)
            && (Runs(r.value.perms, c, argv) <==> c.name == "auth")
  {
    assert |Lower(op)| == |op| && Lower(op)[0] == LowerChar(op[0]);
  }
}
