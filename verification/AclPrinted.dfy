/** Which rules ACL LIST prints for the commands of a user. */
module AclPrinted {
  import opened AclUser
  import opened AclRules
  import opened AclDescribe

  /** The commands of a category, of modules too, that the user may or may not run. */
  function Members(p: Perms, t: Table, cat: string, on: bool): set<Cmd> {
    set c | c in t && cat in c.cats && Bit(p, c.id) == on
  }

  lemma {:induction false} CountIs(p: Perms, t: Table, cat: string, on: bool)
    requires forall i, j :: 0 <= i < j < |t| ==> t[i] != t[j]
    ensures CountOn(p, t, cat, on) == |Members(p, t, cat, on)|
  {
    hide Bit;
    if t == [] {
      assert Members(p, t, cat, on) == {};
    } else {
      var n := |t| - 1;
      CountIs(p, t[..n], cat, on);
      MembersNext(p, t[..n], t[n], cat, on);
      assert t == t[..n] + [t[n]];
    }
  }

  lemma MembersNext(p: Perms, rest: Table, c: Cmd, cat: string, on: bool)
    requires c !in rest
    ensures |Members(p, rest + [c], cat, on)|
         == |Members(p, rest, cat, on)| + if cat in c.cats && Bit(p, c.id) == on then 1 else 0
  {
    hide Bit;
    assert Members(p, rest + [c], cat, on) ==
           Members(p, rest, cat, on) + if cat in c.cats && Bit(p, c.id) == on then {c} else {};
  }

  /** Most commands of the category are not what the first rule makes of them. */
  predicate MostDiffer(p: Perms, t: Table, cat: string) {
    var base := Bit(p, RESERVED);
    |Members(p, t, cat, !base)| > |Members(p, t, cat, base)|
  }

  lemma WorthwhileIs(p: Perms, t: Table, cat: string)
    requires TableOk(t)
    ensures Worthwhile(p, t, cat) <==> MostDiffer(p, t, cat)
  {
    forall i, j | 0 <= i < j < |t| ensures t[i] != t[j] {
      assert t[i].name != t[j].name;
    }
    hide TableOk;
    CountIs(p, t, cat, true);
    CountIs(p, t, cat, false);
  }

  lemma {:induction false} RulesOf(p: Perms, t: Table, cats: seq<string>, cat: string)
    ensures CategoryRule(p, cat) in CategoryRules(p, t, cats) <==> cat in cats && Worthwhile(p, t, cat)
  {
    if cats != [] {
      var n := |cats| - 1;
      RulesOf(p, t, cats[..n], cat);
      assert cats == cats[..n] + [cats[n]];
      if CategoryRule(p, cats[n]) == CategoryRule(p, cat) {
        assert CategoryRule(p, cat)[2..] == cat && CategoryRule(p, cats[n])[2..] == cats[n];
      }
    }
  }

  /** A category is printed exactly if most of its commands are not what the first rule makes of them. */
  lemma CategoryPrinted(p: Perms, t: Table, cat: string)
    requires TableOk(t) && cat in CATEGORIES
    ensures (if Bit(p, RESERVED) then "-@" else "+@") + cat in CategoryRules(p, t, CATEGORIES) <==> MostDiffer(p, t, cat)
  {
    hide CategoryRules, Worthwhile, MostDiffer, TableOk;
    WorthwhileIs(p, t, cat);
    RulesOf(p, t, CATEGORIES, cat);
  }

  /** A printed category names the command. */
  predicate Covered(p: Perms, t: Table, cats: seq<string>, c: Cmd) {
    exists cat :: cat in cats && Worthwhile(p, t, cat) && Belongs(c, cat)
  }

  lemma {:induction false} GuessOf(p: Perms, t: Table, q: Perms, cats: seq<string>, c: Cmd)
    requires TableOk(t) && c in t && |q.bits| > RESERVED
    ensures Bit(Categories(p, t, q, cats), c.id) == if Covered(p, t, cats, c) then !Bit(p, RESERVED) else Bit(q, c.id)
  {
    if cats == [] {
      assert !Covered(p, t, cats, c);
    } else {
      var n := |cats| - 1;
      var before := Categories(p, t, q, cats[..n]);
      GuessOf(p, t, q, cats[..n], c);
      hide Worthwhile;
      assert cats == cats[..n] + [cats[n]];
      assert Covered(p, t, cats, c) <==> Covered(p, t, cats[..n], c) || (Worthwhile(p, t, cats[n]) && Belongs(c, cats[n]));
      forall d | d in t ensures d.id < |before.bits| {
        var i :| 0 <= i < |t| && t[i] == d;
      }
      OwnHit(t, cats[n], c);
      hide TableOk, Covered, Belongs;
      CategoryExact(before, t, cats[n], !Bit(p, RESERVED));
    }
  }

  lemma OwnHit(t: Table, cat: string, c: Cmd)
    requires TableOk(t) && c in t
    ensures Hit(t, cat, c.id) <==> Belongs(c, cat)
  {
    forall d | d in t && d.id == c.id ensures d == c {
      SameId(t, c, d);
    }
  }

  lemma {:induction false} FixOf(p: Perms, fake: Perms, t: Table, c: Cmd)
    requires forall d :: d in t ==> d.name == c.name ==> d == c
    requires forall d :: d in t ==> NameOk(d.name)
    requires NameOk(c.name)
    ensures BitRule(c, Bit(p, c.id)) in CommandFixes(p, fake, t) <==> c in t && Bit(p, c.id) != Bit(fake, c.id)
  {
    if t != [] {
      var n := |t| - 1;
      FixOf(p, fake, t[..n], c);
      assert t == t[..n] + [t[n]];
      FixHas(p, fake, t[n], c);
      hide NameOk;
    }
  }

  lemma FixHas(p: Perms, fake: Perms, d: Cmd, c: Cmd)
    requires NameOk(c.name) && NameOk(d.name) && (d.name == c.name ==> d == c)
    ensures BitRule(c, Bit(p, c.id)) in CommandFix(p, fake, d) <==> d == c && Bit(p, c.id) != Bit(fake, c.id)
  {
    var op := BitRule(c, Bit(p, c.id));
    assert op[1..] == c.name && BitRule(d, Bit(p, d.id))[1..] == d.name;
    assert '|' !in c.name;
    if op in SubRules(d, SubsOf(p, d.id)) {
      SubHasBar(d, SubsOf(p, d.id), op);
    }
    assert op !in SubRules(d, SubsOf(p, d.id));
  }

  lemma {:induction false} SubHasBar(d: Cmd, subs: seq<string>, op: string)
    requires op in SubRules(d, subs)
    ensures op != "" && '|' in op[1..]
  {
    if subs != [] {
      var n := |subs| - 1;
      if op == SubRule(d, subs[n]) {
        assert op[1..] == d.name + "|" + subs[n];
        assert op[1..][|d.name|] == '|';
      } else {
        SubHasBar(d, subs[..n], op);
      }
    }
  }

  /** A command is printed exactly if it is not what the first rule and the printed categories make of it. */
  lemma CommandPrinted(p: Perms, t: Table, c: Cmd)
    requires TableOk(t) && c in t
    ensures BitRule(c, Bit(p, c.id)) in CommandFixes(p, Guess(p, t), t) <==>
              (Bit(p, c.id) != Bit(p, RESERVED)) != (exists cat :: cat in CATEGORIES && MostDiffer(p, t, cat) && Belongs(c, cat))
  {
    forall d | d in t ensures NameOk(d.name) && (d.name == c.name ==> d == c) {
      var i :| 0 <= i < |t| && t[i] == d;
      var j :| 0 <= j < |t| && t[j] == c;
      assert i < j ==> t[i].name != t[j].name;
      assert j < i ==> t[j].name != t[i].name;
    }
    FixOf(p, Guess(p, t), t, c);
    var q := Uniform(Bit(p, RESERVED));
    GuessOf(p, t, q, CATEGORIES, c);
    forall cat ensures Worthwhile(p, t, cat) <==> MostDiffer(p, t, cat) {
      WorthwhileIs(p, t, cat);
    }
    hide Worthwhile, MostDiffer, Belongs, CommandFixes, BitRule, Categories, NameOk, TableOk;
  }
}
