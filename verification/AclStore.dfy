/** Users as objects: rules applied in place, descriptions built against a fake user. */
module AclStore {
  import opened Options
  import opened Text
  import opened AclUser
  import opened AclRules
  import opened AclDescribe
  import opened AclText

  /** The rules before rule i took effect, and rule i was refused. */
  ghost predicate StopsAt(u: User, ops: seq<string>, w: World, i: nat, v: User, e: Error)
    requires i < |ops|
  {
    SetAll(u, ops[..i], w) == Ok(v) && SetUser(v, ops[i], w) == Err(e)
  }

  lemma SetAllNext(u: User, ops: seq<string>, w: World, i: nat)
    requires i < |ops| && SetAll(u, ops[..i], w).Ok?
    ensures SetAll(u, ops[..i + 1], w) == SetUser(SetAll(u, ops[..i], w).value, ops[i], w)
  {
    hide SetUser;
    assert ops[..i + 1] == ops[..i] + [ops[i]];
    SetAllAppend(u, ops[..i], [ops[i]], w);
    SetOne(SetAll(u, ops[..i], w).value, ops[i], w);
  }

  class Account {
    var on: bool
    var off: bool
    var nopass: bool
    var allkeys: bool
    var all: bool
    var bits: seq<bool>
    var subs: map<nat, seq<string>>
    var passwords: seq<string>
    var patterns: seq<string>

    function AccessPart(): Access
      reads this`on, this`off, this`nopass, this`allkeys, this`passwords, this`patterns
    {
      Access(on, off, nopass, allkeys, passwords, patterns)
    }

    function PermsPart(): Perms
      reads this`bits, this`all, this`subs
    {
      Perms(bits, all, subs)
    }

    function View(): User
      reads this
    {
      User(AccessPart(), PermsPart())
    }

    /** ACLCreateUser */
    constructor ()
      ensures View() == Fresh
    {
      on, off, nopass, allkeys, all := false, true, false, false, false;
      bits, subs, passwords, patterns := seq(BITS, _ => false), map[], [], [];
    }

    // ----------------------------------------------------------------- checks at run time

    /** ACLCheckUserCredentials for a user that exists. */
    method CheckUserCredentials(password: string, hash: string -> string) returns (ok: bool)
      ensures ok <==> LogsIn(AccessPart(), password, hash)
    {
      if off { return false; }
      if nopass { return true; }
      var hashed := hash(password);
      for i := 0 to |passwords|
        invariant hashed !in passwords[..i]
      {
        if passwords[i] == hashed { return true; }
        assert passwords[..i + 1] == passwords[..i] + [passwords[i]];
      }
      assert passwords[..|passwords|] == passwords;
      return false;
    }

    /** ACLCheckCommandPerm, given the keys among the arguments; the first key denied is told. */
    method CheckCommandPerm(c: Cmd, argv: seq<string>, keys: seq<string>, matches: Match)
      returns (allowed: bool, denied: Option<nat>)
      ensures allowed <==> Runs(PermsPart(), c, argv) && forall i :: 0 <= i < |keys| ==> Touches(AccessPart(), keys[i], matches)
      ensures denied.Some? <==> Runs(PermsPart(), c, argv) && !allowed
      ensures denied.Some? ==>
                && denied.value < |keys| && !Touches(AccessPart(), keys[denied.value], matches)
                && forall i :: 0 <= i < denied.value ==> Touches(AccessPart(), keys[i], matches)
    {
      hide Lower;
      allowed, denied := false, None;
      if !all && c.name != "auth" && !(c.id < |bits| && bits[c.id]) {
        if |argv| < 2 || c.id !in subs { return; }
        var found := FindSubcommand(subs[c.id], argv[1]);
        if !found { return; }
      }
      if !allkeys {
        for j := 0 to |keys|
          invariant forall i :: 0 <= i < j ==> Touches(AccessPart(), keys[i], matches)
        {
          var matched := MatchesAny(keys[j], matches);
          if !matched { return false, Some(j); }
        }
      }
      allowed := true;
    }

    method FindSubcommand(list: seq<string>, sub: string) returns (found: bool)
      ensures found <==> Listed(list, sub)
    {
      hide Lower;
      for subid := 0 to |list|
        invariant forall i :: 0 <= i < subid ==> Lower(list[i]) != Lower(sub)
      {
        if Lower(sub) == Lower(list[subid]) { return true; }
      }
      return false;
    }

    method MatchesAny(key: string, matches: Match) returns (found: bool)
      ensures found <==> exists i :: 0 <= i < |patterns| && matches(patterns[i], key)
    {
      for i := 0 to |patterns|
        invariant forall k :: 0 <= k < i ==> !matches(patterns[k], key)
      {
        if matches(patterns[i], key) { return true; }
      }
      return false;
    }

    // ------------------------------------------------------------ command permissions

    method SetCommandBit(id: nat, value: bool)
      modifies this`bits, this`all
      ensures PermsPart() == SetBit(old(PermsPart()), id, value)
    {
      if id >= |bits| { return; }
      if value {
        bits := bits[id := true];
      } else {
        bits := bits[id := false];
        all := false;
      }
    }

    method ResetSubcommandsForCommand(id: nat)
      modifies this`subs
      ensures PermsPart() == ResetSubs(old(PermsPart()), id)
    {
      subs := subs - {id};
    }

    method AddAllowedSubcommand(id: nat, sub: string)
      modifies this`subs
      ensures PermsPart() == AddSub(old(PermsPart()), id, sub)
    {
      var list := if id in subs then subs[id] else [];
      var items := 0;
      while items < |list|
        invariant 0 <= items <= |list|
        invariant forall i :: 0 <= i < items ==> Lower(list[i]) != Lower(sub)
      {
        if Lower(list[items]) == Lower(sub) { return; }
        items := items + 1;
      }
      subs := subs[id := list + [sub]];
    }

    method SetBitsForCategory(t: Table, cat: string, value: bool)
      modifies this`bits, this`all, this`subs
      ensures PermsPart() == SetCategory(old(PermsPart()), t, cat, value)
      ensures (forall c :: c in t ==> c.id < |bits|) ==> CategorySet(old(PermsPart()), PermsPart(), t, cat, value)
    {
      hide CategorySet;
      if forall c :: c in t ==> c.id < |bits| { CategoryExact(PermsPart(), t, cat, value); }
      for i := 0 to |t|
        invariant PermsPart() == SetCategory(old(PermsPart()), t[..i], cat, value)
      {
        assert t[..i + 1][..i] == t[..i];
        if !t[i].fromModule && cat in t[i].cats {
          SetCommandBit(t[i].id, value);
          ResetSubcommandsForCommand(t[i].id);
        }
      }
      assert t[..|t|] == t;
    }

    method SetAllCommands(value: bool)
      modifies this`bits, this`all, this`subs
      ensures PermsPart() == Uniform(value)
    {
      bits, all, subs := seq(BITS, _ => value), value, map[];
    }

    /** The rules about commands. */
    method SetCommands(op: string, t: Table) returns (r: Option<Error>)
      requires IsCommandRule(op)
      modifies this`bits, this`all, this`subs
      ensures PermsPart() == match SetPerms(old(PermsPart()), op, t) case Ok(p) => p case Err(_) => old(PermsPart())
      ensures r == match SetPerms(old(PermsPart()), op, t) case Ok(_) => None case Err(e) => Some(e)
    {
      hide Lower, SetCategory, SetBit, ResetSubs, AddSub, Uniform, CATEGORIES;
      r := None;
      if Lower(op) in {"allcommands", "+@all"} {
        SetAllCommands(true);
      } else if Lower(op) in {"nocommands", "-@all"} {
        SetAllCommands(false);
      } else if |op| > 1 && op[1] == '@' {
        if Lower(op[2..]) !in CATEGORIES { return Some(ENOENT); }
        SetBitsForCategory(t, Lower(op[2..]), op[0] == '+');
      } else if op[0] == '+' && '|' in op {
        var name, bar := op[1..], Bar(op[1..]);
        r := AllowSubcommand(t, name[..bar], if bar < |name| then name[bar + 1..] else "");
      } else {
        var c := Lookup(t, op[1..]);
        if c.None? { return Some(ENOENT); }
        SetCommandBit(c.value.id, op[0] == '+');
        ResetSubcommandsForCommand(c.value.id);
      }
    }

    method AllowSubcommand(t: Table, name: string, sub: string) returns (r: Option<Error>)
      modifies this`bits, this`all, this`subs
      ensures PermsPart() == match AllowSub(old(PermsPart()), t, name, sub) case Ok(p) => p case Err(_) => old(PermsPart())
      ensures r == match AllowSub(old(PermsPart()), t, name, sub) case Ok(_) => None case Err(e) => Some(e)
    {
      hide Lower, SetBit, AddSub;
      var c := Lookup(t, name);
      if c.None? { return Some(ENOENT); }
      if sub == "" { return Some(EINVAL); }
      if c.value.id < |bits| && bits[c.value.id] { return Some(EBUSY); }
      AddAllowedSubcommand(c.value.id, sub);
      SetCommandBit(c.value.id, false);
      r := None;
    }

    // ------------------------------------------------------------------------- access

    /** The rules about flags, passwords and key patterns. */
    method SetFlags(op: string, hash: string -> string) returns (r: Option<Error>)
      requires op != ""
      modifies this`on, this`off, this`nopass, this`allkeys, this`passwords, this`patterns
      ensures AccessPart() == match SetAccess(old(AccessPart()), op, hash) case Ok(a) => a case Err(_) => old(AccessPart())
      ensures r == match SetAccess(old(AccessPart()), op, hash) case Ok(_) => None case Err(e) => Some(e)
    {
      hide Lower, IsHash, HasSpaces, RemoveFirst;
      var name := Lower(op);
      r := None;
      if name == "on" { on, off := true, false; }
      else if name == "off" { off, on := true, false; }
      else if name in {"allkeys", "~*"} { allkeys, patterns := true, []; }
      else if name == "resetkeys" { allkeys, patterns := false, []; }
      else if name == "nopass" { nopass, passwords := true, []; }
      else if name == "resetpass" { nopass, passwords := false, []; }
      else if op[0] == '>' || op[0] == '#' {
        if op[0] == '#' && !IsHash(op[1..]) { return Some(EBADMSG); }
        var pass := if op[0] == '>' then hash(op[1..]) else op[1..];
        if pass !in passwords { passwords := passwords + [pass]; }
        nopass := false;
      } else if op[0] == '<' || op[0] == '!' {
        if op[0] == '!' && !IsHash(op[1..]) { return Some(EBADMSG); }
        var pass := if op[0] == '<' then hash(op[1..]) else op[1..];
        if pass !in passwords { return Some(ENODEV); }
        passwords := RemoveFirst(passwords, pass);
      } else if op[0] == '~' {
        if allkeys { return Some(EEXIST); }
        if HasSpaces(op[1..]) { return Some(EINVAL); }
        if op[1..] !in patterns { patterns := patterns + [op[1..]]; }
        allkeys := false;
      } else {
        return Some(EINVAL);
      }
    }

    /** ACLSetUser: an accepted rule takes effect as specified, a refused one changes nothing. */
    method SetRule(op: string, w: World) returns (r: Option<Error>)
      modifies this
      ensures View() == match SetUser(old(View()), op, w) case Ok(u) => u case Err(_) => old(View())
      ensures r == match SetUser(old(View()), op, w) case Ok(_) => None case Err(e) => Some(e)
    {
      hide SetPerms, SetAccess, Lower, Uniform;
      r := None;
      if op == "" { return; }
      if IsCommandRule(op) {
        r := SetCommands(op, w.table);
      } else if Lower(op) == "reset" {
        on, off, nopass, allkeys, passwords, patterns := false, true, false, false, [], [];
        SetAllCommands(false);
      } else {
        r := SetFlags(op, w.hash);
      }
    }

    /** Rules one after the other, up to the first that is refused. */
    method SetRules(ops: seq<string>, w: World) returns (r: Option<Error>)
      modifies this
      ensures r == match SetAll(old(View()), ops, w) case Ok(_) => None case Err(e) => Some(e)
      ensures r.None? ==> Ok(View()) == SetAll(old(View()), ops, w)
      ensures r.Some? ==> exists i :: 0 <= i < |ops| && StopsAt(old(View()), ops, w, i, View(), r.value)
    {
      hide SetUser;
      r := None;
      for i := 0 to |ops|
        invariant r.None? && SetAll(old(View()), ops, w) == SetAll(View(), ops[i..], w)
        invariant SetAll(old(View()), ops[..i], w) == Ok(View())
      {
        SetAllNext(old(View()), ops, w, i);
        assert ops[i..][1..] == ops[i + 1..];
        ghost var before := View();
        r := SetRule(ops[i], w);
        if r.Some? {
          assert StopsAt(old(View()), ops, w, i, before, r.value);
          return;
        }
      }
    }

    // --------------------------------------------------------------------------- copy

    /** ACLCopyUser: subcommands are added one by one. */
    method CopyFrom(src: Account)
      requires src != this && SubsSound(src.subs)
      modifies this
      ensures View() == src.View()
    {
      passwords, patterns := src.passwords, src.patterns;
      bits, all := src.bits, src.all;
      on, off, nopass, allkeys := src.on, src.off, src.nopass, src.allkeys;
      CopyAllSubs(src.subs);
    }

    method CopyAllSubs(from: map<nat, seq<string>>)
      requires SubsSound(from)
      modifies this`subs
      ensures subs == from
    {
      hide SubsDistinct;
      subs := map[];
      for j := 0 to BITS
        invariant subs == map id | id in from && id < j :: from[id]
      {
        if j in from {
          CopySubs(j, from[j]);
        }
      }
    }

    method CopySubs(id: nat, list: seq<string>)
      requires id !in subs && SubsDistinct(list) && list != []
      modifies this`subs
      ensures subs == old(subs)[id := list]
    {
      hide Lower;
      for i := 0 to |list|
        invariant subs == if i == 0 then old(subs) else old(subs)[id := list[..i]]
      {
        assert list[..i + 1] == list[..i] + [list[i]];
        assert !Listed(list[..i], list[i]);
        AddAllowedSubcommand(id, list[i]);
      }
      assert list[..|list|] == list;
    }

    // ----------------------------------------------------------------------- describe

    method CountCategory(t: Table, cat: string) returns (on: nat, off: nat)
      ensures on == CountOn(PermsPart(), t, cat, true) && off == CountOn(PermsPart(), t, cat, false)
    {
      on, off := 0, 0;
      for i := 0 to |t|
        invariant on == CountOn(PermsPart(), t[..i], cat, true) && off == CountOn(PermsPart(), t[..i], cat, false)
      {
        assert t[..i + 1][..i] == t[..i];
        if cat in t[i].cats {
          if t[i].id < |bits| && bits[t[i].id] { on := on + 1; } else { off := off + 1; }
        }
      }
      assert t[..|t|] == t;
    }

    /** The base rule and the categories, tried out on the fake user as they are printed. */
    method DescribeCategories(t: Table, fake: Account, w: World) returns (text: string)
      requires fake != this && w.table == t
      modifies fake
      ensures text == Spaced([BaseRule(PermsPart())] + CategoryRules(PermsPart(), t, CATEGORIES))
      ensures fake.PermsPart() == Guess(PermsPart(), t)
    {
      hide Apply, SetUser, CountOn, SetCategory, CATEGORIES;
      ghost var p := PermsPart();
      var future := RESERVED < |bits| && bits[RESERVED];
      var base := if future then "+@all" else "-@all";
      text := "" + base + " ";
      BaseMeans(fake.PermsPart(), p, t);
      AsRule(fake.View(), base, w);
      var _ := fake.SetRule(base, w);
      assert CategoryRules(p, t, CATEGORIES[..0]) == [] && [base] + [] == [base];
      SpacedOne(base);
      for j := 0 to |CATEGORIES|
        invariant PermsPart() == p
        invariant fake.PermsPart() == Categories(p, t, Uniform(Bit(p, RESERVED)), CATEGORIES[..j])
        invariant text == Spaced([base] + CategoryRules(p, t, CATEGORIES[..j]))
      {
        var cat := CATEGORIES[j];
        ghost var before := [base] + CategoryRules(p, t, CATEGORIES[..j]);
        assert CATEGORIES[..j + 1][..j] == CATEGORIES[..j];
        var on, off := CountCategory(t, cat);
        if (!future && on > off) || (future && off > on) {
          var op := (if future then "-@" else "+@") + cat;
          CategoryRuleMeans(fake.PermsPart(), t, cat, !future);
          AsRule(fake.View(), op, w);
          var _ := fake.SetRule(op, w);
          text := text + op + " ";
          SpacedPush(before, op);
          assert before + [op] == [base] + CategoryRules(p, t, CATEGORIES[..j + 1]);
        } else {
          assert before == [base] + CategoryRules(p, t, CATEGORIES[..j + 1]);
        }
      }
      assert CATEGORIES[..|CATEGORIES|] == CATEGORIES;
    }

    /** One command of the last pass: its bit if the fake user differs, then its subcommands. */
    method DescribeCommand(c: Cmd, fake: Account, text: string) returns (after: string)
      requires fake != this && c.id < |fake.bits|
      modifies fake`bits, fake`all
      ensures after == text + Spaced(CommandFix(PermsPart(), old(fake.PermsPart()), c))
      ensures fake.bits == old(fake.bits)[c.id := Bit(PermsPart(), c.id)]
    {
      hide SubRules, BitRule, Spaced;
      var userBit, fakeBit := c.id < |bits| && bits[c.id], fake.bits[c.id];
      ghost var first := if userBit != fakeBit then [BitRule(c, userBit)] else [];
      ghost var second := if userBit then [] else SubRules(c, SubsOf(PermsPart(), c.id));
      assert CommandFix(PermsPart(), fake.PermsPart(), c) == first + second;
      SpacedAppend(first, second);
      SpacedNone();
      NoSubRules(c);
      hide CommandFix;
      after := text;
      if userBit != fakeBit {
        SpacedOne(BitRule(c, userBit));
        after := after + (BitRule(c, userBit) + " ");
        fake.SetCommandBit(c.id, userBit);
      }
      if !userBit && c.id in subs {
        after := DescribeSubs(c, subs[c.id], after);
      }
    }

    static method DescribeSubs(c: Cmd, subs: seq<string>, text: string) returns (after: string)
      ensures after == text + Spaced(SubRules(c, subs))
    {
      after := text;
      for j := 0 to |subs|
        invariant after == text + Spaced(SubRules(c, subs[..j]))
      {
        assert subs[..j + 1][..j] == subs[..j];
        SpacedPush(SubRules(c, subs[..j]), SubRule(c, subs[j]));
        after := after + (SubRule(c, subs[j]) + " ");
      }
      assert subs[..|subs|] == subs;
    }

    /** ACLDescribeUserCommandRules: the predicted bitmap always ends up equal to the user's. */
    method DescribeCommandRules(w: World) returns (rules: string)
      requires TableOk(w.table) && PermsOk(PermsPart(), w.table)
      ensures rules == Join(CommandRules(PermsPart(), w.table), ' ')
    {
      hide CategoryRules, CommandFix, PermsOk, TableOk, Spaced;
      var t := w.table;
      ghost var p := PermsPart();
      ghost var guess := Guess(p, t);
      var fake := new Account();
      var text := DescribeCategories(t, fake, w);
      ghost var head := [BaseRule(p)] + CategoryRules(p, t, CATEGORIES);
      assert CommandFixes(p, guess, t[..0]) == [] && head + [] == head;
      GuessSize(p, t);
      for k := 0 to |t|
        invariant PermsPart() == p && Predicted(fake.bits, p, guess, t, k)
        invariant text == Spaced(head + CommandFixes(p, guess, t[..k]))
      {
        assert t[..k + 1][..k] == t[..k];
        PredictedStep(fake.bits, p, guess, t, k);
        SameFix(p, fake.PermsPart(), guess, t[k]);
        ghost var done, fix := head + CommandFixes(p, guess, t[..k]), CommandFix(p, guess, t[k]);
        text := DescribeCommand(t[k], fake, text);
        SpacedAppend(done, fix);
        assert done + fix == head + CommandFixes(p, guess, t[..k + 1]);
      }
      assert t[..|t|] == t;
      PredictedAll(fake.bits, p, guess, t);
      assert fake.bits == bits;
      SpacedJoin(CommandRules(p, t));
      rules := text[..|text| - 1];
    }

    static method DescribeList(text: string, mark: string, xs: seq<string>) returns (after: string)
      ensures after == text + Spaced(Prefixed(mark, xs))
    {
      after := text;
      for i := 0 to |xs|
        invariant after == text + Spaced(Prefixed(mark, xs[..i]))
      {
        assert xs[..i + 1][..i] == xs[..i];
        SpacedPush(Prefixed(mark, xs[..i]), mark + xs[i]);
        after := after + (mark + xs[i] + " ");
      }
      assert xs[..|xs|] == xs;
    }

    /** ACLDescribeUser */
    method Describe(w: World) returns (text: string)
      requires TableOk(w.table) && PermsOk(PermsPart(), w.table)
      ensures text == Join(Rules(View(), w.table), ' ')
    {
      hide PermsOk, TableOk, CommandRules, Prefixed;
      text := (if on then "on " else "") + (if off then "off " else "") + (if nopass then "nopass " else "");
      FlagsSpaced(AccessPart());
      text := DescribeList(text, "#", passwords);
      if allkeys {
        text := text + "~* ";
      } else {
        text := DescribeList(text, "~", patterns);
      }
      AccessSpaced(AccessPart());
      var rules := DescribeCommandRules(w);
      CommandsExist(PermsPart(), w.table);
      JoinSpaced(AccessRules(AccessPart()), CommandRules(PermsPart(), w.table));
      text := text + rules;
    }
  }

  predicate SubsSound(subs: map<nat, seq<string>>) {
    forall id :: id in subs ==> id < BITS && subs[id] != [] && SubsDistinct(subs[id])
  }

  // ---------------------------------------------------------------- lemmas for describe

  /** Rules as they are printed, each followed by a space. */
  function Spaced(xs: seq<string>): string {
    if xs == [] then "" else Spaced(xs[..|xs| - 1]) + (xs[|xs| - 1] + " ")
  }

  lemma SpacedPush(xs: seq<string>, x: string)
    ensures Spaced(xs + [x]) == Spaced(xs) + (x + " ")
  {
    assert (xs + [x])[..|xs|] == xs;
  }

  lemma SpacedNone()
    ensures Spaced([]) == ""
  {
  }

  lemma SpacedOne(x: string)
    ensures Spaced([x]) == x + " "
  {
    assert [x][..0] == [];
  }

  lemma {:induction false} SpacedAppend(xs: seq<string>, ys: seq<string>)
    ensures Spaced(xs + ys) == Spaced(xs) + Spaced(ys)
  {
    hide Spaced;
    if ys == [] {
      assert xs + ys == xs;
      SpacedNone();
    } else {
      var n := |ys| - 1;
      SpacedAppend(xs, ys[..n]);
      assert xs + ys == (xs + ys[..n]) + [ys[n]] && ys == ys[..n] + [ys[n]];
      SpacedPush(xs + ys[..n], ys[n]);
      SpacedPush(ys[..n], ys[n]);
    }
  }

  lemma {:induction false} SpacedJoin(xs: seq<string>)
    requires xs != []
    ensures Spaced(xs) == Join(xs, ' ') + " "
  {
    hide Spaced;
    if |xs| == 1 {
      assert xs == [xs[0]];
      SpacedOne(xs[0]);
    } else {
      assert xs == [xs[0]] + xs[1..];
      SpacedAppend([xs[0]], xs[1..]);
      SpacedOne(xs[0]);
      SpacedJoin(xs[1..]);
    }
  }

  lemma NoSubRules(c: Cmd)
    ensures SubRules(c, []) == []
  {
  }

  /** A command rule acts on the permissions of a user alone. */
  lemma AsRule(u: User, op: string, w: World)
    requires Apply(u.perms, op, w.table).Ok?
    ensures SetUser(u, op, w) == Ok(u.(perms := Apply(u.perms, op, w.table).value))
  {
    hide SetPerms, Lower;
  }

  ghost predicate Predicted(bits: seq<bool>, p: Perms, guess: Perms, t: Table, k: nat)
    requires k <= |t|
  {
    && |bits| == |guess.bits| == BITS
    && forall id :: 0 <= id < BITS ==> bits[id] == if Seen(t, k, id) then Bit(p, id) else guess.bits[id]
  }

  lemma GuessSize(p: Perms, t: Table)
    ensures Predicted(Guess(p, t).bits, p, Guess(p, t), t, 0)
  {
    hide Categories;
  }

  lemma PredictedStep(bits: seq<bool>, p: Perms, guess: Perms, t: Table, k: nat)
    requires TableOk(t) && k < |t| && Predicted(bits, p, guess, t, k)
    ensures t[k].id < BITS && bits[t[k].id] == guess.bits[t[k].id]
    ensures Predicted(bits[t[k].id := Bit(p, t[k].id)], p, guess, t, k + 1)
  {
    NewId(t, k);
    assert t[k].id < RESERVED;
    hide Seen, TableOk;
  }

  lemma SameFix(p: Perms, fake: Perms, guess: Perms, c: Cmd)
    requires Bit(fake, c.id) == Bit(guess, c.id)
    ensures CommandFix(p, fake, c) == CommandFix(p, guess, c)
  {
  }

  lemma PredictedAll(bits: seq<bool>, p: Perms, guess: Perms, t: Table)
    requires PermsOk(p, t) && guess == Guess(p, t) && Predicted(bits, p, guess, t, |t|)
    ensures bits == p.bits
  {
    GuessCoarse(p, t);
    hide Guess, SubsDistinct;
    forall id: nat ensures Seen(t, |t|, id) == IsId(t, id) {
      if IsId(t, id) {
        var c :| c in t && c.id == id;
        var i :| 0 <= i < |t| && t[i] == c;
      }
    }
  }

  lemma FlagsSpaced(a: Access)
    ensures Spaced(FlagRules(a)) ==
              (if a.on then "on " else "") + (if a.off then "off " else "") + (if a.nopass then "nopass " else "")
  {
    hide Spaced;
    var x, y, z := if a.on then ["on"] else [], if a.off then ["off"] else [], if a.nopass then ["nopass"] else [];
    assert FlagRules(a) == x + y + z;
    SpacedNone();
    SpacedOne("on");
    SpacedOne("off");
    SpacedOne("nopass");
    SpacedAppend(x + y, z);
    SpacedAppend(x, y);
  }

  lemma AccessSpaced(a: Access)
    ensures Spaced(AccessRules(a)) == Spaced(FlagRules(a)) + Spaced(Prefixed("#", a.passwords)) +
                                      (if a.allkeys then "~* " else Spaced(Prefixed("~", a.patterns)))
  {
    hide Prefixed, Spaced;
    var keys := if a.allkeys then ["~*"] else Prefixed("~", a.patterns);
    assert AccessRules(a) == FlagRules(a) + Prefixed("#", a.passwords) + keys;
    SpacedAppend(FlagRules(a) + Prefixed("#", a.passwords), keys);
    SpacedAppend(FlagRules(a), Prefixed("#", a.passwords));
    SpacedOne("~*");
  }

  lemma CommandsExist(p: Perms, t: Table)
    ensures CommandRules(p, t) != []
  {
  }

  lemma JoinSpaced(xs: seq<string>, ys: seq<string>)
    requires ys != []
    ensures Join(xs + ys, ' ') == Spaced(xs) + Join(ys, ' ')
  {
    hide Spaced, Join;
    SpacedJoin(xs + ys);
    SpacedJoin(ys);
    SpacedAppend(xs, ys);
    var a, b := Join(xs + ys, ' '), Spaced(xs) + Join(ys, ' ');
    assert a + " " == b + " ";
    assert (a + " ")[..|a|] == a && (b + " ")[..|b|] == b;
  }
}
