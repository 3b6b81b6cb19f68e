/** The description of a user as rules, and why applying them to a fresh user rebuilds it. */
module AclDescribe {
  import opened Options
  import opened Text
  import opened AclUser
  import opened AclRules

  // -------------------------------------------------------------------- specification

  function BaseRule(p: Perms): string { if Bit(p, RESERVED) then "+@all" else "-@all" }

  /** ACLCountCategoryBitsForUser: allowed and denied commands of a category. */
  function CountOn(p: Perms, t: Table, cat: string, on: bool): nat {
    if t == [] then 0
    else
      var c := t[|t| - 1];
      CountOn(p, t[..|t| - 1], cat, on) + if cat in c.cats && Bit(p, c.id) == on then 1 else 0
  }

  predicate Worthwhile(p: Perms, t: Table, cat: string) {
    var on, off := CountOn(p, t, cat, true), CountOn(p, t, cat, false);
    if Bit(p, RESERVED) then off > on else on > off
  }

  function CategoryRule(p: Perms, cat: string): string { (if Bit(p, RESERVED) then "-@" else "+@") + cat }

  function CategoryRules(p: Perms, t: Table, cats: seq<string>): seq<string> {
    if cats == [] then []
    else
      var cat := cats[|cats| - 1];
      CategoryRules(p, t, cats[..|cats| - 1]) + if Worthwhile(p, t, cat) then [CategoryRule(p, cat)] else []
  }

  function BitRule(c: Cmd, value: bool): string { (if value then "+" else "-") + c.name }

  function SubRule(c: Cmd, sub: string): string { "+" + c.name + "|" + sub }

  function SubRules(c: Cmd, subs: seq<string>): seq<string> {
    if subs == [] then [] else SubRules(c, subs[..|subs| - 1]) + [SubRule(c, subs[|subs| - 1])]
  }

  /** The rules that settle one command, given what the categories made of it. */
  function CommandFix(p: Perms, fake: Perms, c: Cmd): seq<string> {
    (if Bit(p, c.id) != Bit(fake, c.id) then [BitRule(c, Bit(p, c.id))] else []) +
    (if !Bit(p, c.id) then SubRules(c, SubsOf(p, c.id)) else [])
  }

  function CommandFixes(p: Perms, fake: Perms, t: Table): seq<string> {
    if t == [] then []
    else CommandFixes(p, fake, t[..|t| - 1]) + CommandFix(p, fake, t[|t| - 1])
  }

  function Apply(p: Perms, op: string, t: Table): Result<Perms> {
    if IsCommandRule(op) then SetPerms(p, op, t) else Err(EINVAL)
  }

  /** Command rules applied in turn. */
  function ApplyAll(p: Perms, ops: seq<string>, t: Table): Result<Perms>
    decreases |ops|
  {
    if ops == [] then Ok(p)
    else
      var r := Apply(p, ops[0], t);
      if r.Ok? then ApplyAll(r.value, ops[1..], t) else r
  }

  /** The fake user after the base rule and the categories. */
  function Guess(p: Perms, t: Table): Perms {
    Categories(p, t, Uniform(Bit(p, RESERVED)), CATEGORIES)
  }

  function Categories(p: Perms, t: Table, q: Perms, cats: seq<string>): (r: Perms)
    ensures |r.bits| == |q.bits|
  {
    if cats == [] then q
    else
      var n := |cats| - 1;
      var q := Categories(p, t, q, cats[..n]);
      if Worthwhile(p, t, cats[n]) then SetCategory(q, t, cats[n], !Bit(p, RESERVED)) else q
  }

  function CommandRules(p: Perms, t: Table): seq<string> {
    [BaseRule(p)] + CategoryRules(p, t, CATEGORIES) + CommandFixes(p, Guess(p, t), t)
  }

  function Prefixed(prefix: string, xs: seq<string>): seq<string> {
    if xs == [] then [] else Prefixed(prefix, xs[..|xs| - 1]) + [prefix + xs[|xs| - 1]]
  }

  function AccessRules(a: Access): seq<string> {
    (if a.on then ["on"] else []) + (if a.off then ["off"] else []) + (if a.nopass then ["nopass"] else [])
    + Prefixed("#", a.passwords)
    + (if a.allkeys then ["~*"] else Prefixed("~", a.patterns))
  }

  function Rules(u: User, t: Table): seq<string> { AccessRules(u.access) + CommandRules(u.perms, t) }

  // ------------------------------------------------------------------ what rules parse to

  lemma {:induction false} LookupFinds(t: Table, i: nat)
    requires TableOk(t) && i < |t|
    ensures Lookup(t, t[i].name) == Some(t[i])
  {
    hide Lower;
    var name := t[i].name;
    assert Lower(name) == name;
    if i > 0 {
      assert t[0].name != t[i].name && t[1..][i - 1] == t[i];
      forall j, k | 0 <= j < k < |t[1..]| ensures t[1..][j].name != t[1..][k].name && t[1..][j].id != t[1..][k].id {
        assert t[1..][j] == t[j + 1] && t[1..][k] == t[k + 1];
      }
      LookupFinds(t[1..], i - 1);
    }
  }

  lemma LowerStart(s: string)
    requires s != ""
    ensures Lower(s)[0] == LowerChar(s[0]) && (|s| > 1 ==> Lower(s)[1] == LowerChar(s[1]))
  {
  }

  lemma PlainRule(op: string, sign: char)
    requires sign == '+' || sign == '-'
    requires |op| > 1 && op[0] == sign && op[1] != '@'
    ensures IsCommandRule(op) && Lower(op) !in {"allcommands", "nocommands", "+@all", "-@all"}
  {
    hide Lower;
    LowerStart(op);
    var l := Lower(op);
    assert l[0] == sign && l[1] != '@';
    assert "allcommands"[0] == 'a' && "nocommands"[0] == 'n' && "+@all"[1] == '@' && "-@all"[1] == '@';
  }

  lemma BitRuleMeans(p: Perms, t: Table, i: nat, value: bool)
    requires TableOk(t) && i < |t|
    ensures Apply(p, BitRule(t[i], value), t) == Ok(ResetSubs(SetBit(p, t[i].id, value), t[i].id))
  {
    var op := BitRule(t[i], value);
    assert NameOk(t[i].name);
    assert op[1..] == t[i].name && op[1] == t[i].name[0];
    assert '|' !in op by {
      assert op == [op[0]] + t[i].name;
    }
    hide Lower, TableOk;
    PlainRule(op, op[0]);
    LookupFinds(t, i);
  }

  lemma {:induction false} BarAt(name: string, sub: string)
    requires '|' !in name
    ensures Bar(name + "|" + sub) == |name|
  {
    var s := name + "|" + sub;
    if name != "" {
      assert s[1..] == name[1..] + "|" + sub && s[0] == name[0];
      BarAt(name[1..], sub);
    }
  }

  lemma SubRuleMeans(p: Perms, t: Table, i: nat, sub: string)
    requires TableOk(t) && i < |t| && sub != "" && !Bit(p, t[i].id)
    ensures Apply(p, SubRule(t[i], sub), t) == Ok(SetBit(AddSub(p, t[i].id, sub), t[i].id, false))
  {
    var op, name := SubRule(t[i], sub), t[i].name;
    assert NameOk(name);
    var tail := name + "|" + sub;
    assert op[1..] == tail && op[1] == name[0] && op[1 + |name|] == '|';
    BarAt(name, sub);
    assert tail[..|name|] == name && tail[|name| + 1..] == sub;
    hide Lower, TableOk, Bar;
    PlainRule(op, '+');
    LookupFinds(t, i);
  }

  // ----------------------------------------------------------------- the last pass

  lemma {:induction false} ApplyAppend(p: Perms, a: seq<string>, b: seq<string>, t: Table)
    requires ApplyAll(p, a, t).Ok?
    ensures ApplyAll(p, a + b, t) == ApplyAll(ApplyAll(p, a, t).value, b, t)
    decreases |a|
  {
    hide Apply;
    if a == [] {
      assert a + b == b;
    } else {
      assert (a + b)[1..] == a[1..] + b;
      ApplyAppend(Apply(p, a[0], t).value, a[1..], b, t);
    }
  }

  lemma ApplyOne(p: Perms, op: string, t: Table)
    ensures ApplyAll(p, [op], t) == Apply(p, op, t)
  {
    hide Apply;
    assert [op][1..] == [];
  }

  function WithSubs(p: Perms, id: nat, subs: seq<string>): Perms {
    if subs == [] then p else p.(subs := p.subs[id := subs])
  }

  lemma AddNextSub(p: Perms, id: nat, subs: seq<string>, n: nat)
    requires SubsDistinct(subs) && n < |subs| && id < |p.bits| && !p.bits[id] && !p.all && id !in p.subs
    ensures SetBit(AddSub(WithSubs(p, id, subs[..n]), id, subs[n]), id, false) == WithSubs(p, id, subs[..n + 1])
  {
    hide Lower;
    var q := WithSubs(p, id, subs[..n]);
    assert SubsOf(q, id) == subs[..n] && !Listed(subs[..n], subs[n]);
    assert subs[..n] + [subs[n]] == subs[..n + 1];
    assert p.bits[id := false] == p.bits;
  }

  /** Subcommands come back in order, one by one. */
  lemma {:induction false} SubRulesMean(p: Perms, t: Table, i: nat, subs: seq<string>)
    requires TableOk(t) && i < |t| && SubsDistinct(subs)
    requires t[i].id < |p.bits| && !p.bits[t[i].id] && !p.all && t[i].id !in p.subs
    ensures ApplyAll(p, SubRules(t[i], subs), t) == Ok(WithSubs(p, t[i].id, subs))
  {
    if subs != [] {
      hide TableOk, Apply, AddSub, SubRule;
      var n, id := |subs| - 1, t[i].id;
      SubRulesMean(p, t, i, subs[..n]);
      var q := WithSubs(p, id, subs[..n]);
      ApplyAppend(p, SubRules(t[i], subs[..n]), [SubRule(t[i], subs[n])], t);
      ApplyOne(q, SubRule(t[i], subs[n]), t);
      SubRuleMeans(q, t, i, subs[n]);
      AddNextSub(p, id, subs, n);
      assert subs[..n + 1] == subs;
    }
  }

  // -------------------------------------------------------------- settling every command

  ghost predicate Seen(t: Table, k: nat, id: nat)
    requires k <= |t|
  {
    exists i :: 0 <= i < k && t[i].id == id
  }

  predicate AllMeansAll(p: Perms) { p.all ==> forall id :: 0 <= id < |p.bits| ==> p.bits[id] }

  /** The first k commands are as described, the others as the categories left them. */
  ghost predicate Settled(r: Perms, p: Perms, fake: Perms, t: Table, k: nat)
    requires k <= |t|
  {
    && |r.bits| == |p.bits| == |fake.bits| == BITS && AllMeansAll(r)
    && (forall id :: 0 <= id < BITS ==> r.bits[id] == if Seen(t, k, id) then p.bits[id] else fake.bits[id])
    && (forall id :: id in r.subs ==> Seen(t, k, id) && id in p.subs && r.subs[id] == p.subs[id])
    && (forall id :: id in p.subs && Seen(t, k, id) ==> id in r.subs)
  }

  /** One command settled: its bit and its subcommands. */
  function Settle(r: Perms, p: Perms, id: nat): Perms
    requires id < |r.bits|
  {
    var q := if Bit(p, id) != r.bits[id] then ResetSubs(SetBit(r, id, Bit(p, id)), id) else r;
    if Bit(p, id) then q else WithSubs(q, id, SubsOf(p, id))
  }

  lemma NewId(t: Table, k: nat)
    requires TableOk(t) && k < |t|
    ensures !Seen(t, k, t[k].id) && forall id :: Seen(t, k + 1, id) <==> Seen(t, k, id) || id == t[k].id
  {
    assert t[k].id == t[k].id;
    forall id | Seen(t, k, id) || id == t[k].id ensures Seen(t, k + 1, id) {
    }
  }

  lemma SettleBits(r: Perms, p: Perms, fake: Perms, t: Table, k: nat)
    requires TableOk(t) && PermsOk(p, t) && k < |t| && Settled(r, p, fake, t, k)
    ensures t[k].id < BITS && t[k].id !in r.subs && r.bits[t[k].id] == Bit(fake, t[k].id)
    ensures SubsDistinct(SubsOf(p, t[k].id)) && (Bit(p, t[k].id) ==> SubsOf(p, t[k].id) == [])
  {
    NewId(t, k);
    assert t[k].id < RESERVED;
  }

  lemma FixMeans(r: Perms, p: Perms, fake: Perms, t: Table, k: nat)
    requires TableOk(t) && PermsOk(p, t) && k < |t| && Settled(r, p, fake, t, k)
    ensures t[k].id < |r.bits| && ApplyAll(r, CommandFix(p, fake, t[k]), t) == Ok(Settle(r, p, t[k].id))
  {
    var c := t[k];
    var first := if Bit(p, c.id) != Bit(fake, c.id) then [BitRule(c, Bit(p, c.id))] else [];
    var second := if !Bit(p, c.id) then SubRules(c, SubsOf(p, c.id)) else [];
    assert CommandFix(p, fake, c) == first + second;
    SettleBits(r, p, fake, t, k);
    var q := if Bit(p, c.id) != r.bits[c.id] then ResetSubs(SetBit(r, c.id, Bit(p, c.id)), c.id) else r;
    hide TableOk, PermsOk, Apply, SubRules, SubsDistinct, CommandFix;
    assert ApplyAll(r, first, t) == Ok(q) by {
      if first != [] {
        ApplyOne(r, BitRule(c, Bit(p, c.id)), t);
        BitRuleMeans(r, t, k, Bit(p, c.id));
      }
    }
    ApplyAppend(r, first, second, t);
    if !Bit(p, c.id) {
      SubRulesMean(q, t, k, SubsOf(p, c.id));
    }
  }

  lemma SettleShape(r: Perms, p: Perms, id: nat)
    requires id < |r.bits| && id !in r.subs && AllMeansAll(r)
    ensures var q := Settle(r, p, id);
            && q.bits == r.bits[id := Bit(p, id)] && AllMeansAll(q)
            && q.subs == if Bit(p, id) then r.subs else WithSubs(r, id, SubsOf(p, id)).subs
  {
    assert r.subs - {id} == r.subs;
    assert r.bits[id := r.bits[id]] == r.bits;
  }

  lemma SettleKeepsBits(r: Perms, q: Perms, p: Perms, fake: Perms, t: Table, k: nat)
    requires k < |t| && t[k].id < |r.bits| == |p.bits| == |fake.bits| == BITS && q.bits == r.bits[t[k].id := Bit(p, t[k].id)]
    requires forall id :: 0 <= id < BITS ==> r.bits[id] == if Seen(t, k, id) then p.bits[id] else fake.bits[id]
    requires forall id :: Seen(t, k + 1, id) <==> Seen(t, k, id) || id == t[k].id
    ensures forall id :: 0 <= id < BITS ==> q.bits[id] == if Seen(t, k + 1, id) then p.bits[id] else fake.bits[id]
  {
    hide Seen;
  }

  lemma SettleKeepsSubs(r: Perms, q: Perms, p: Perms, t: Table, k: nat)
    requires k < |t| && (t[k].id in p.subs ==> p.subs[t[k].id] != [] && !Bit(p, t[k].id))
    requires q.subs == if Bit(p, t[k].id) then r.subs else WithSubs(r, t[k].id, SubsOf(p, t[k].id)).subs
    requires forall id :: id in r.subs ==> Seen(t, k, id) && id in p.subs && r.subs[id] == p.subs[id]
    requires forall id :: id in p.subs && Seen(t, k, id) ==> id in r.subs
    requires forall id :: Seen(t, k + 1, id) <==> Seen(t, k, id) || id == t[k].id
    ensures forall id :: id in q.subs ==> Seen(t, k + 1, id) && id in p.subs && q.subs[id] == p.subs[id]
    ensures forall id :: id in p.subs && Seen(t, k + 1, id) ==> id in q.subs
  {
    hide Seen;
  }

  lemma SettleKeeps(r: Perms, p: Perms, fake: Perms, t: Table, k: nat)
    requires TableOk(t) && PermsOk(p, t) && k < |t| && Settled(r, p, fake, t, k)
    ensures t[k].id < |r.bits| && Settled(Settle(r, p, t[k].id), p, fake, t, k + 1)
  {
    var id := t[k].id;
    SettleBits(r, p, fake, t, k);
    SettleShape(r, p, id);
    NewId(t, k);
    assert id in p.subs ==> p.subs[id] != [] && !Bit(p, id);
    hide TableOk, PermsOk, Seen, SubsDistinct, Settle, AllMeansAll;
    SettleKeepsBits(r, Settle(r, p, id), p, fake, t, k);
    SettleKeepsSubs(r, Settle(r, p, id), p, t, k);
  }

  lemma FixesNone(r: Perms, p: Perms, fake: Perms, t: Table)
    ensures ApplyAll(r, CommandFixes(p, fake, t[..0]), t) == Ok(r)
  {
  }

  lemma FixesNext(p: Perms, fake: Perms, t: Table, k: nat)
    requires k < |t|
    ensures CommandFixes(p, fake, t[..k + 1]) == CommandFixes(p, fake, t[..k]) + CommandFix(p, fake, t[k])
  {
    hide CommandFix;
    assert t[..k + 1][..k] == t[..k];
  }

  lemma {:induction false} FixesMean(r: Perms, p: Perms, fake: Perms, t: Table, k: nat) returns (q: Perms)
    requires TableOk(t) && PermsOk(p, t) && k <= |t| && Settled(r, p, fake, t, 0)
    ensures ApplyAll(r, CommandFixes(p, fake, t[..k]), t) == Ok(q) && Settled(q, p, fake, t, k)
  {
    hide TableOk, PermsOk, Settled, CommandFix, CommandFixes, ApplyAll, Settle;
    if k == 0 {
      q := r;
      FixesNone(r, p, fake, t);
    } else {
      q := FixesMean(r, p, fake, t, k - 1);
      FixMeans(q, p, fake, t, k - 1);
      SettleKeeps(q, p, fake, t, k - 1);
      FixesNext(p, fake, t, k - 1);
      ApplyAppend(r, CommandFixes(p, fake, t[..k - 1]), CommandFix(p, fake, t[k - 1]), t);
      q := Settle(q, p, t[k - 1].id);
    }
  }

  // ------------------------------------------------------------------------ categories

  predicate Lowercase(s: string) { forall i :: 0 <= i < |s| ==> 'a' <= s[i] <= 'z' }

  lemma LowercaseLower(s: string)
    requires Lowercase(s)
    ensures Lower(s) == s
  {
  }

  lemma CategoryNames()
    ensures forall i :: 0 <= i < |CATEGORIES| ==> Lowercase(CATEGORIES[i]) && CATEGORIES[i] != "all"
  {
  }

  lemma CategoryRuleMeans(q: Perms, t: Table, cat: string, value: bool)
    requires cat in CATEGORIES
    ensures Apply(q, (if value then "+@" else "-@") + cat, t) == Ok(SetCategory(q, t, cat, value))
    ensures (forall c :: c in t ==> c.id < |q.bits|) ==> CategorySet(q, SetCategory(q, t, cat, value), t, cat, value)
  {
    if forall c :: c in t ==> c.id < |q.bits| { CategoryExact(q, t, cat, value); }
    hide CategorySet;
    CategoryNames();
    LowercaseLower(cat);
    var op := (if value then "+@" else "-@") + cat;
    var l := Lower(op);
    assert op[2..] == cat;
    assert l[2..] == Lower(cat) && l[0] == op[0];
    assert "+@all"[2..] == "all" && "-@all"[2..] == "all";
    hide Lower;
  }

  lemma {:induction false} CategoriesMean(p: Perms, t: Table, q: Perms, cats: seq<string>)
    requires forall c :: c in cats ==> c in CATEGORIES
    ensures ApplyAll(q, CategoryRules(p, t, cats), t) == Ok(Categories(p, t, q, cats))
  {
    if cats != [] {
      hide Apply, SetCategory, Worthwhile;
      var n := |cats| - 1;
      var cat, q' := cats[n], Categories(p, t, q, cats[..n]);
      CategoriesMean(p, t, q, cats[..n]);
      if Worthwhile(p, t, cat) {
        ApplyAppend(q, CategoryRules(p, t, cats[..n]), [CategoryRule(p, cat)], t);
        ApplyOne(q', CategoryRule(p, cat), t);
        CategoryRuleMeans(q', t, cat, !Bit(p, RESERVED));
      } else {
        assert CategoryRules(p, t, cats) == CategoryRules(p, t, cats[..n]);
      }
    }
  }

  /** Categories touch command bits only and leave no subcommands. */
  ghost predicate Coarse(q: Perms, t: Table, value: bool) {
    && |q.bits| == BITS && q.subs == map[] && AllMeansAll(q)
    && forall id :: 0 <= id < BITS && !IsId(t, id) ==> q.bits[id] == value
  }

  lemma {:induction false} SetCategoryCoarse(q: Perms, t: Table, k: nat, cat: string, on: bool, value: bool)
    requires Coarse(q, t, value) && k <= |t|
    ensures Coarse(SetCategory(q, t[..k], cat, on), t, value)
  {
    if k > 0 {
      SetCategoryCoarse(q, t, k - 1, cat, on, value);
      assert t[..k][..k - 1] == t[..k - 1];
      var q', c := SetCategory(q, t[..k - 1], cat, on), t[k - 1];
      assert IsId(t, c.id);
      assert q'.subs - {c.id} == q'.subs;
    }
  }

  lemma {:induction false} CategoriesCoarse(p: Perms, t: Table, q: Perms, cats: seq<string>, value: bool)
    requires Coarse(q, t, value)
    ensures Coarse(Categories(p, t, q, cats), t, value)
  {
    if cats != [] {
      hide Coarse, SetCategory, Worthwhile;
      CategoriesCoarse(p, t, q, cats[..|cats| - 1], value);
      assert t[..|t|] == t;
      SetCategoryCoarse(Categories(p, t, q, cats[..|cats| - 1]), t, |t|, cats[|cats| - 1], !Bit(p, RESERVED), value);
    }
  }

  // ---------------------------------------------------------------- command round trip

  lemma BaseMeans(q: Perms, p: Perms, t: Table)
    ensures Apply(q, BaseRule(p), t) == Ok(Uniform(Bit(p, RESERVED)))
  {
    assert Lower("+@all") == "+@all" && Lower("-@all") == "-@all";
  }

  lemma GuessCoarse(p: Perms, t: Table)
    ensures Coarse(Guess(p, t), t, Bit(p, RESERVED))
  {
    CategoriesCoarse(p, t, Uniform(Bit(p, RESERVED)), CATEGORIES, Bit(p, RESERVED));
  }

  /** The bitmap the describer predicts is the user's: its sanity check never fails. */
  lemma SettledIsEqual(q: Perms, p: Perms, t: Table)
    requires PermsOk(p, t) && Settled(q, p, Guess(p, t), t, |t|)
    ensures q.bits == p.bits && q.subs == p.subs
  {
    GuessCoarse(p, t);
    hide Guess, SubsDistinct;
    forall id: nat ensures Seen(t, |t|, id) == IsId(t, id) {
      if IsId(t, id) {
        var c :| c in t && c.id == id;
        var i :| 0 <= i < |t| && t[i] == c;
      }
    }
  }

  predicate EveryBit(p: Perms) { forall id :: 0 <= id < |p.bits| ==> p.bits[id] }

  lemma {:induction false} CountNone(p: Perms, t: Table, cat: string)
    requires EveryBit(p) && forall i :: 0 <= i < |t| ==> t[i].id < |p.bits|
    ensures CountOn(p, t, cat, false) == 0
  {
    if t != [] { CountNone(p, t[..|t| - 1], cat); }
  }

  lemma {:induction false} NoCategories(p: Perms, t: Table, q: Perms, cats: seq<string>)
    requires |p.bits| == BITS && EveryBit(p) && forall i :: 0 <= i < |t| ==> t[i].id < BITS
    ensures CategoryRules(p, t, cats) == [] && Categories(p, t, q, cats) == q
  {
    if cats != [] {
      CountNone(p, t, cats[|cats| - 1]);
      NoCategories(p, t, q, cats[..|cats| - 1]);
    }
  }

  lemma {:induction false} NoFixes(p: Perms, t: Table, k: nat)
    requires PermsOk(p, t) && EveryBit(p) && k <= |t| && forall i :: 0 <= i < |t| ==> t[i].id < BITS
    ensures CommandFixes(p, Uniform(true), t[..k]) == []
  {
    if k > 0 {
      NoFixes(p, t, k - 1);
      assert t[..k][..k - 1] == t[..k - 1] && Bit(p, t[k - 1].id) && Bit(Uniform(true), t[k - 1].id);
    }
  }

  /** A user with every bit set is described by +@all alone. */
  lemma EveryBitRules(p: Perms, t: Table)
    requires TableOk(t) && PermsOk(p, t) && EveryBit(p)
    ensures CommandRules(p, t) == ["+@all"]
  {
    assert Bit(p, RESERVED);
    NoCategories(p, t, Uniform(true), CATEGORIES);
    NoFixes(p, t, |t|);
    assert t[..|t|] == t;
  }

  /** Applied to any user, the command rules rebuild bitmap and subcommands; ALLCOMMANDS is set iff every bit is. */
  lemma CommandRoundTrip(p: Perms, q: Perms, t: Table)
    requires TableOk(t) && PermsOk(p, t)
    ensures var r := ApplyAll(q, CommandRules(p, t), t);
            r.Ok? && r.value.bits == p.bits && r.value.subs == p.subs && (r.value.all <==> EveryBit(p))
  {
    hide TableOk, Apply, CategoryRules, CommandFixes, Categories, CATEGORIES;
    BaseMeans(q, p, t);
    ApplyOne(q, BaseRule(p), t);
    var base := Uniform(Bit(p, RESERVED));
    var cats, fixes := CategoryRules(p, t, CATEGORIES), CommandFixes(p, Guess(p, t), t);
    ApplyAppend(q, [BaseRule(p)], cats, t);
    CategoriesMean(p, t, base, CATEGORIES);
    ApplyAppend(q, [BaseRule(p)] + cats, fixes, t);
    GuessCoarse(p, t);
    var r := FixesMean(Guess(p, t), p, Guess(p, t), t, |t|);
    assert t[..|t|] == t;
    SettledIsEqual(r, p, t);
    if EveryBit(p) {
      EveryBitRules(p, t);
    }
  }

  // ----------------------------------------------------------------- access round trip

  lemma {:induction false} SetAllAppend(u: User, a: seq<string>, b: seq<string>, w: World)
    requires SetAll(u, a, w).Ok?
    ensures SetAll(u, a + b, w) == SetAll(SetAll(u, a, w).value, b, w)
    decreases |a|
  {
    hide SetUser;
    if a == [] {
      assert a + b == b;
    } else {
      assert (a + b)[1..] == a[1..] + b;
      SetAllAppend(SetUser(u, a[0], w).value, a[1..], b, w);
    }
  }

  lemma SetOne(u: User, op: string, w: World)
    ensures SetAll(u, [op], w) == SetUser(u, op, w)
  {
    hide SetUser;
    assert [op][1..] == [];
  }

  lemma HashMeans(u: User, h: string, w: World)
    requires IsHash(h) && h !in u.access.passwords
    ensures SetUser(u, "#" + h, w) == Ok(u.(access := u.access.(passwords := u.access.passwords + [h], nopass := false)))
  {
    var op := "#" + h;
    LowerStart(op);
    assert op[1..] == h && Lower(op)[0] == '#';
    hide Lower;
  }

  lemma PatternMeans(u: User, p: string, w: World)
    requires PatternOk(p) && p !in u.access.patterns && !u.access.allkeys
    ensures SetUser(u, "~" + p, w) == Ok(u.(access := u.access.(patterns := u.access.patterns + [p])))
  {
    var op := "~" + p;
    LowerStart(op);
    assert op[1..] == p && Lower(op)[0] == '~';
    assert Lower(op) != "~*" by {
      if |op| == 2 { assert Lower(op)[1] == LowerChar(op[1]); }
    }
    hide Lower, HasSpaces;
  }

  lemma {:induction false} HashesMean(u: User, xs: seq<string>, w: World)
    requires Distinct(xs) && (forall h :: h in xs ==> IsHash(h))
    requires u.access.passwords == [] && !u.access.nopass
    ensures SetAll(u, Prefixed("#", xs), w) == Ok(u.(access := u.access.(passwords := xs)))
  {
    if xs != [] {
      hide SetUser, IsHash;
      var n := |xs| - 1;
      HashesMean(u, xs[..n], w);
      var v := u.(access := u.access.(passwords := xs[..n]));
      SetAllAppend(u, Prefixed("#", xs[..n]), ["#" + xs[n]], w);
      SetOne(v, "#" + xs[n], w);
      assert xs[n] !in xs[..n];
      HashMeans(v, xs[n], w);
      assert xs[..n] + [xs[n]] == xs;
    }
  }

  lemma {:induction false} PatternsMean(u: User, xs: seq<string>, w: World)
    requires Distinct(xs) && (forall p :: p in xs ==> PatternOk(p))
    requires u.access.patterns == [] && !u.access.allkeys
    ensures SetAll(u, Prefixed("~", xs), w) == Ok(u.(access := u.access.(patterns := xs)))
  {
    if xs != [] {
      hide SetUser, PatternOk;
      var n := |xs| - 1;
      PatternsMean(u, xs[..n], w);
      var v := u.(access := u.access.(patterns := xs[..n]));
      SetAllAppend(u, Prefixed("~", xs[..n]), ["~" + xs[n]], w);
      SetOne(v, "~" + xs[n], w);
      assert xs[n] !in xs[..n];
      PatternMeans(v, xs[n], w);
      assert xs[..n] + [xs[n]] == xs;
    }
  }

  lemma FlagsMean(u: User, w: World)
    ensures SetUser(u, "on", w) == Ok(u.(access := u.access.(on := true, off := false)))
    ensures SetUser(u, "off", w) == Ok(u.(access := u.access.(off := true, on := false)))
    ensures SetUser(u, "nopass", w) == Ok(u.(access := u.access.(nopass := true, passwords := [])))
    ensures SetUser(u, "~*", w) == Ok(u.(access := u.access.(allkeys := true, patterns := [])))
  {
    assert Lower("on") == "on" && Lower("off") == "off" && Lower("nopass") == "nopass" && Lower("~*") == "~*";
    hide Lower;
  }

  function FlagRules(a: Access): seq<string> {
    (if a.on then ["on"] else []) + (if a.off then ["off"] else []) + (if a.nopass then ["nopass"] else [])
  }

  lemma FlagRulesMean(a: Access, w: World)
    requires AccessOk(a)
    ensures SetAll(Fresh, FlagRules(a), w) == Ok(Fresh.(access := NoAccess.(on := a.on, off := a.off, nopass := a.nopass)))
  {
    hide SetUser;
    var one := if a.on then "on" else "off";
    var u := Fresh.(access := NoAccess.(on := a.on, off := a.off));
    FlagsMean(Fresh, w);
    FlagsMean(u, w);
    SetOne(Fresh, one, w);
    if a.nopass {
      assert FlagRules(a) == [one] + ["nopass"];
      SetAllAppend(Fresh, [one], ["nopass"], w);
      SetOne(u, "nopass", w);
    } else {
      assert FlagRules(a) == [one];
    }
  }

  /** The access rules rebuild flags, passwords and patterns from a fresh user. */
  lemma AccessRoundTrip(a: Access, w: World)
    requires AccessOk(a)
    ensures SetAll(Fresh, AccessRules(a), w) == Ok(Fresh.(access := a))
  {
    var flags, hashes := FlagRules(a), Prefixed("#", a.passwords);
    var keys := if a.allkeys then ["~*"] else Prefixed("~", a.patterns);
    assert AccessRules(a) == flags + hashes + keys;
    FlagRulesMean(a, w);
    var u := Fresh.(access := NoAccess.(on := a.on, off := a.off, nopass := a.nopass));
    var v := u.(access := u.access.(passwords := a.passwords));
    hide SetUser, IsHash, PatternOk, AccessRules, FlagRules;
    SetAllAppend(Fresh, flags, hashes, w);
    if a.nopass {
      assert hashes == [];
    } else {
      HashesMean(u, a.passwords, w);
    }
    SetAllAppend(Fresh, flags + hashes, keys, w);
    if a.allkeys {
      FlagsMean(v, w);
      SetOne(v, "~*", w);
    } else {
      PatternsMean(v, a.patterns, w);
    }
  }

  // ---------------------------------------------------------------------- main results

  lemma {:induction false} CommandRulesOnly(u: User, ops: seq<string>, w: World)
    requires ApplyAll(u.perms, ops, w.table).Ok?
    ensures SetAll(u, ops, w) == Ok(u.(perms := ApplyAll(u.perms, ops, w.table).value))
    decreases |ops|
  {
    hide SetPerms, Lower;
    if ops != [] {
      CommandRulesOnly(u.(perms := Apply(u.perms, ops[0], w.table).value), ops[1..], w);
    }
  }

  /** What ACLCheckCommandPerm grants: a command, or one of its subcommands. */
  ghost predicate Permits(p: Perms, id: nat, sub: string) {
    p.all || Bit(p, id) || Listed(SubsOf(p, id), sub)
  }

  /**
   * Round trip: for every sound user the described rules, applied to a fresh user, are all
   * accepted and rebuild it: the same flags, passwords, patterns, bitmap and subcommands;
   * ALLCOMMANDS may only come back where every bit is set, so the permissions are the same.
   */
  lemma RoundTrip(u: User, w: World)
    requires WorldOk(w) && UserOk(u, w.table)
    ensures var r := SetAll(Fresh, Rules(u, w.table), w);
            && r.Ok? && r.value.access == u.access
            && r.value.perms.bits == u.perms.bits && r.value.perms.subs == u.perms.subs
            && (r.value.perms.all <==> EveryBit(u.perms))
            && forall id: nat, sub :: id < BITS ==> (Permits(r.value.perms, id, sub) <==> Permits(u.perms, id, sub))
  {
    hide SetUser, AccessOk, TableOk, AccessRules, CommandRules, ApplyAll, IsHash, Listed;
    AccessRoundTrip(u.access, w);
    var v := Fresh.(access := u.access);
    CommandRoundTrip(u.perms, v.perms, w.table);
    SetAllAppend(Fresh, AccessRules(u.access), CommandRules(u.perms, w.table), w);
    CommandRulesOnly(v, CommandRules(u.perms, w.table), w);
  }

  /** Every user that rules can make is described faithfully. */
  lemma ReachableRoundTrip(ops: seq<string>, w: World)
    requires WorldOk(w) && SetAll(Fresh, ops, w).Ok?
    ensures var u := SetAll(Fresh, ops, w).value;
            var r := SetAll(Fresh, Rules(u, w.table), w);
            && r.Ok? && r.value.access == u.access
            && r.value.perms.bits == u.perms.bits && r.value.perms.subs == u.perms.subs
  {
    hide SetAll, UserOk, Rules, WorldOk;
    FreshOk(w.table);
    SetAllOk(Fresh, ops, w);
    RoundTrip(SetAll(Fresh, ops, w).value, w);
  }
}
