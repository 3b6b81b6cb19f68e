/** All users as a value: what loading a text makes of them and what saving writes. */
module AclBook {
  import opened Options
  import opened Text
  import opened AclUser
  import opened AclDescribe
  import opened AclText

  type Book = map<string, User>

  const DEFAULT_RULES := ["+@all", "~*", "on", "nopass"]

  /** What ACLInitDefaultUser makes. */
  function InitialDefault(): User {
    User(Access(true, false, true, true, [], []), Uniform(true))
  }

  /** One line; None when it is malformed or one of its rules is refused. */
  function LoadLine(book: Book, line: Line, w: World): Option<Book> {
    match line
    case Blank => Some(book)
    case Malformed => None
    case UserLine(name, rules) =>
      match SetAll(Fresh, rules, w)
      case Ok(u) => Some(book[name := u])
      case Err(_) => None
  }

  /** A whole file: every line must load. */
  function LoadAll(book: Book, lines: seq<string>, w: World): Option<Book> {
    if lines == [] then Some(book)
    else
      var n := |lines| - 1;
      match LoadAll(book, lines[..n], w)
      case None => None
      case Some(b) => LoadLine(b, ParseLine(lines[n]), w)
  }

  lemma InitialDefaultIs(w: World)
    ensures SetAll(Fresh, DEFAULT_RULES, w) == Ok(InitialDefault())
  {
    var all := Fresh.(perms := Uniform(true));
    var keys := all.(access := all.access.(allkeys := true));
    var on := keys.(access := keys.access.(on := true, off := false));
    assert DEFAULT_RULES == ["+@all"] + ["~*"] + ["on"] + ["nopass"];
    assert SetUser(Fresh, "+@all", w) == Ok(all) by { assert Lower("+@all") == "+@all"; }
    hide SetUser, Uniform;
    FlagsMean(all, w);
    FlagsMean(keys, w);
    FlagsMean(on, w);
    SetOne(Fresh, "+@all", w);
    SetAllAppend(Fresh, ["+@all"], ["~*"], w);
    SetOne(all, "~*", w);
    SetAllAppend(Fresh, ["+@all"] + ["~*"], ["on"], w);
    SetOne(keys, "on", w);
    SetAllAppend(Fresh, ["+@all"] + ["~*"] + ["on"], ["nopass"], w);
    SetOne(on, "nopass", w);
  }

  ghost predicate Sound(b: Book, t: Table) { forall n :: n in b ==> UserOk(b[n], t) }

  // ------------------------------------------------------------------ what loading gives

  /** The line refuses to load. */
  predicate Fails(line: string, w: World) {
    match ParseLine(line)
    case Blank => false
    case Malformed => true
    case UserLine(_, rules) => SetAll(Fresh, rules, w).Err?
  }

  predicate LineFor(line: string, name: string) { ParseLine(line).UserLine? && ParseLine(line).name == name }

  /** Line i is the last one about the user. */
  predicate LastLine(lines: seq<string>, name: string, i: nat) {
    i < |lines| && LineFor(lines[i], name) && forall k :: i < k < |lines| ==> !LineFor(lines[k], name)
  }

  /** What a load makes: the last line of each name counts, a name without a line is as before. */
  ghost predicate LastLinesHold(start: Book, b: Book, lines: seq<string>, w: World) {
    && (forall name, i: nat :: LastLine(lines, name, i) ==>
          name in b && SetAll(Fresh, ParseLine(lines[i]).rules, w) == Ok(b[name]))
    && (forall name :: (forall i :: 0 <= i < |lines| ==> !LineFor(lines[i], name)) ==>
          (name in b <==> name in start) && (name in b ==> b[name] == start[name]))
  }

  /** A load fails if and only if a line does; otherwise the last lines hold. */
  lemma {:induction false} LoadAllExact(start: Book, lines: seq<string>, w: World)
    ensures LoadAll(start, lines, w).None? <==> exists i :: 0 <= i < |lines| && Fails(lines[i], w)
    ensures LoadAll(start, lines, w).Some? ==> LastLinesHold(start, LoadAll(start, lines, w).value, lines, w)
  {
    hide ParseLine, SetAll;
    if lines != [] {
      var n := |lines| - 1;
      LoadAllExact(start, lines[..n], w);
      assert lines == lines[..n] + [lines[n]];
      if LoadAll(start, lines, w).Some? {
        LastLinesNext(start, LoadAll(start, lines[..n], w).value, LoadAll(start, lines, w).value, lines, w);
      }
    }
  }

  lemma LastLinesNext(start: Book, b: Book, b': Book, lines: seq<string>, w: World)
    requires lines != [] && LastLinesHold(start, b, lines[..|lines| - 1], w)
    requires LoadLine(b, ParseLine(lines[|lines| - 1]), w) == Some(b')
    ensures LastLinesHold(start, b', lines, w)
  {
    hide ParseLine, SetAll;
    var n := |lines| - 1;
    var before, last := lines[..n], lines[n];
    forall name, i: nat | LastLine(lines, name, i)
      ensures name in b' && SetAll(Fresh, ParseLine(lines[i]).rules, w) == Ok(b'[name])
    {
      if i < n { assert LastLine(before, name, i); }
    }
    forall name | forall i :: 0 <= i < |lines| ==> !LineFor(lines[i], name)
      ensures (name in b' <==> name in start) && (name in b' ==> b'[name] == start[name])
    {
      assert !LineFor(last, name);
      assert forall i :: 0 <= i < |before| ==> !LineFor(before[i], name) by {
        forall i | 0 <= i < |before| ensures !LineFor(before[i], name) { assert before[i] == lines[i]; }
      }
    }
  }

  // ------------------------------------------------------------- what a file can bring

  /** Every subcommand allowed by a rule that is clean can be carried. */
  lemma SetCategorySubs(p: Perms, t: Table, cat: string, value: bool)
    ensures forall id :: id in SetCategory(p, t, cat, value).subs ==> id in p.subs && SetCategory(p, t, cat, value).subs[id] == p.subs[id]
  {
  }

  lemma RuleCarries(u: User, op: string, w: World)
    requires SubsCarried(u.perms) && Clean(op) && SetUser(u, op, w).Ok?
    ensures SubsCarried(SetUser(u, op, w).value.perms)
  {
    hide Lower, Lookup, SetAccess, Carried;
    var v := SetUser(u, op, w).value;
    if op != "" && IsCommandRule(op) {
      if Lower(op) in {"allcommands", "+@all", "nocommands", "-@all"} {
      } else if |op| > 1 && op[1] == '@' {
        SetCategorySubs(u.perms, w.table, Lower(op[2..]), op[0] == '+');
      } else if op[0] == '+' && '|' in op {
        var name, bar := op[1..], Bar(op[1..]);
        var sub := if bar < |name| then name[bar + 1..] else "";
        SuffixCarried(op, name, bar);
      }
    }
  }

  lemma SuffixCarried(op: string, name: string, bar: nat)
    requires Clean(op) && op != "" && name == op[1..] && bar < |name| && name[bar + 1..] != ""
    ensures Carried(name[bar + 1..])
  {
    var sub := name[bar + 1..];
    assert sub == op[bar + 2..];
  }

  lemma {:induction false} RulesCarry(u: User, ops: seq<string>, w: World)
    requires SubsCarried(u.perms) && (forall x :: x in ops ==> Clean(x)) && SetAll(u, ops, w).Ok?
    ensures SubsCarried(SetAll(u, ops, w).value.perms)
    decreases |ops|
  {
    hide SetUser, SubsCarried, Clean;
    if ops != [] {
      RuleCarries(u, ops[0], w);
      RulesCarry(SetUser(u, ops[0], w).value, ops[1..], w);
    }
  }

  ghost predicate AllCarried(b: Book) { forall n :: n in b ==> SubsCarried(b[n].perms) }

  lemma {:induction false} LinesCarry(start: Book, lines: seq<string>, w: World)
    requires AllCarried(start) && (forall x :: x in lines ==> '\n' !in x) && LoadAll(start, lines, w).Some?
    ensures AllCarried(LoadAll(start, lines, w).value)
  {
    hide ParseLine, SetAll, SubsCarried;
    if lines != [] {
      var n := |lines| - 1;
      LinesCarry(start, lines[..n], w);
      var line := ParseLine(lines[n]);
      if line.UserLine? {
        assert lines[n] in lines;
        RulesClean(lines[n]);
        assert SubsCarried(Fresh.perms) by { assert Fresh.perms.subs == map[]; FreshCarried(); }
        RulesCarry(Fresh, line.rules, w);
      }
    }
  }

  lemma FreshCarried()
    ensures SubsCarried(Fresh.perms) && SubsCarried(InitialDefault().perms)
  {
  }

  // -------------------------------------------------------------------- the file as text

  const InitialBook: Book := map["default" := InitialDefault()]

  /** ACLLoadFromFile as a function: the text is cut at newlines, the users start anew. */
  function LoadText(text: string, w: World): Option<Book> { LoadAll(InitialBook, Split(text, '\n'), w) }

  /** No file can bring a subcommand that no line can carry. */
  lemma LoadedCarried(text: string, w: World)
    requires LoadText(text, w).Some?
    ensures AllCarried(LoadText(text, w).value)
  {
    hide SubsCarried, InitialDefault;
    FreshCarried();
    LinesCarry(InitialBook, Split(text, '\n'), w);
  }

  ghost predicate Enumerates(names: seq<string>, keys: set<string>) {
    (forall n :: n in names <==> n in keys) && forall i, j :: 0 <= i < j < |names| ==> names[i] != names[j]
  }

  /** ACLSaveToFile: one line a user. */
  function SavedText(b: Book, names: seq<string>, t: Table): string
    requires forall n :: n in names ==> n in b
  {
    if names == [] then ""
    else
      var k := |names| - 1;
      SavedText(b, names[..k], t) + LineOf(names[k], b[names[k]], t) + "\n"
  }

  function LinesOf(b: Book, names: seq<string>, t: Table): (r: seq<string>)
    requires forall n :: n in names ==> n in b
    ensures |r| == |names|
  {
    seq(|names|, i requires 0 <= i < |names| => LineOf(names[i], b[names[i]], t))
  }

  lemma {:induction false} JoinPush(xs: seq<string>, x: string, sep: char)
    ensures Join(xs + [""], sep) + x + [sep] == Join(xs + [x, ""], sep)
  {
    if xs == [] {
      assert [x, ""][1..] == [""];
    } else {
      assert (xs + [""])[1..] == xs[1..] + [""] && (xs + [x, ""])[1..] == xs[1..] + [x, ""];
      JoinPush(xs[1..], x, sep);
    }
  }

  lemma {:induction false} SavedIsJoined(b: Book, names: seq<string>, t: Table)
    requires forall n :: n in names ==> n in b
    ensures SavedText(b, names, t) == Join(LinesOf(b, names, t) + [""], '\n')
  {
    hide LineOf, Join;
    if names == [] {
      assert LinesOf(b, names, t) + [""] == [""];
      JoinNothing('\n');
    } else {
      var k := |names| - 1;
      SavedIsJoined(b, names[..k], t);
      var xs, x := LinesOf(b, names[..k], t), LineOf(names[k], b[names[k]], t);
      assert LinesOf(b, names, t) + [""] == xs + [x, ""];
      JoinPush(xs, x, '\n');
    }
  }

  lemma JoinNothing(sep: char)
    ensures Join([""], sep) == ""
  {
  }

  /** The same user: the same rights, whether or not they are kept under the ALLCOMMANDS flag. */
  predicate SameUser(a: User, b: User) {
    a.access == b.access && a.perms.bits == b.perms.bits && a.perms.subs == b.perms.subs && (a.perms.all <==> EveryBit(b.perms))
  }

  predicate SameBook(a: Book, b: Book) { a.Keys == b.Keys && forall n :: n in b ==> SameUser(a[n], b[n]) }

  /** The saved lines are found again, each as the line of its user. */
  lemma SavedLines(b: Book, names: seq<string>, w: World)
    requires WorldOk(w) && Sound(b, w.table) && AllCarried(b)
    requires (forall n :: n in names ==> n in b) && names != [] && forall n :: n in b ==> !HasSpaces(n)
    ensures Split(SavedText(b, names, w.table), '\n') == LinesOf(b, names, w.table) + [""]
    ensures forall i :: 0 <= i < |names| ==>
              ParseLine(LinesOf(b, names, w.table)[i]) == UserLine(names[i], Rules(b[names[i]], w.table))
  {
    hide LineOf, ParseLine, Split, UserOk, SubsCarried, Rules, HasSpaces;
    var t := w.table;
    var xs := LinesOf(b, names, t);
    forall i | 0 <= i < |names|
      ensures '\n' !in xs[i] && ParseLine(xs[i]) == UserLine(names[i], Rules(b[names[i]], t))
    {
      assert names[i] in names;
      SavedLine(names[i], b[names[i]], t);
    }
    SavedIsJoined(b, names, t);
    SplitExact(xs + [""], '\n');
  }

  lemma LastIsBlank()
    ensures ParseLine("") == Blank
  {
  }

  lemma SameAgain(u: User, w: World)
    requires WorldOk(w) && UserOk(u, w.table)
    ensures var r := SetAll(Fresh, Rules(u, w.table), w); r.Ok? && SameUser(r.value, u)
  {
    hide SetAll, Rules, WorldOk, UserOk;
    RoundTrip(u, w);
  }

  /** Each line but the last, which is empty, holds the rules of its user. */
  ghost predicate Written(lines: seq<string>, b: Book, names: seq<string>, t: Table)
    requires forall n :: n in names ==> n in b
  {
    && |lines| == |names| + 1 && ParseLine(lines[|names|]) == Blank
    && forall i :: 0 <= i < |names| ==> ParseLine(lines[i]) == UserLine(names[i], Rules(b[names[i]], t))
  }

  lemma WrittenLoads(lines: seq<string>, b: Book, names: seq<string>, w: World)
    requires WorldOk(w) && Sound(b, w.table) && (forall n :: n in names ==> n in b) && Written(lines, b, names, w.table)
    ensures LoadAll(InitialBook, lines, w).Some?
    ensures LastLinesHold(InitialBook, LoadAll(InitialBook, lines, w).value, lines, w)
  {
    hide ParseLine, UserOk, Rules, SetAll, LoadAll, WorldOk, SameUser, LastLinesHold;
    forall i | 0 <= i < |lines| ensures !Fails(lines[i], w) {
      if i < |names| {
        assert names[i] in names;
        SameAgain(b[names[i]], w);
      }
    }
    LoadAllExact(InitialBook, lines, w);
  }

  lemma WrittenHolds(lines: seq<string>, b: Book, r: Book, names: seq<string>, w: World, n: string)
    requires WorldOk(w) && Sound(b, w.table) && Enumerates(names, b.Keys) && Written(lines, b, names, w.table)
    requires LastLinesHold(InitialBook, r, lines, w) && n in b
    ensures n in r && SameUser(r[n], b[n])
  {
    hide ParseLine, UserOk, Rules, SetAll, WorldOk, SameUser;
    var i: nat :| i < |names| && names[i] == n;
    assert LastLine(lines, n, i);
    SameAgain(b[n], w);
  }

  lemma WrittenOnly(lines: seq<string>, b: Book, r: Book, names: seq<string>, w: World, n: string)
    requires Enumerates(names, b.Keys) && Written(lines, b, names, w.table) && "default" in b
    requires LastLinesHold(InitialBook, r, lines, w) && n !in b
    ensures n !in r
  {
    hide ParseLine, Rules, SetAll;
    forall i | 0 <= i < |lines| ensures !LineFor(lines[i], n) {
      if i < |names| { assert names[i] in names; }
    }
  }

  /** A book whose users can all be carried loads as itself. */
  lemma SavedLoads(b: Book, names: seq<string>, w: World)
    requires WorldOk(w) && Sound(b, w.table) && AllCarried(b) && "default" in b
    requires Enumerates(names, b.Keys) && forall n :: n in b ==> !HasSpaces(n)
    ensures var r := LoadText(SavedText(b, names, w.table), w); r.Some? && SameBook(r.value, b)
  {
    hide ParseLine, Split, AllCarried, Sound, Rules, HasSpaces, LoadAll, LinesOf, WorldOk, SameUser, LastLinesHold, SavedText;
    assert names != [] by { assert "default" in names; }
    var lines := LinesOf(b, names, w.table) + [""];
    SavedLines(b, names, w);
    LastIsBlank();
    assert Written(lines, b, names, w.table);
    WrittenLoads(lines, b, names, w);
    var r := LoadAll(InitialBook, lines, w).value;
    forall n | n in b ensures n in r && SameUser(r[n], b[n]) { WrittenHolds(lines, b, r, names, w, n); }
    forall n | n !in b ensures n !in r { WrittenOnly(lines, b, r, names, w, n); }
    assert r.Keys == b.Keys;
  }

  /**
   * Saving and loading gives the users back exactly when every subcommand they allow can be
   * carried by a line: no space and no newline in it, no tab or return at its end. The rule
   * language checks none of this.
   */
  lemma SavedFileExact(b: Book, names: seq<string>, w: World)
    requires WorldOk(w) && Sound(b, w.table) && "default" in b
    requires Enumerates(names, b.Keys) && forall n :: n in b ==> !HasSpaces(n)
    ensures var r := LoadText(SavedText(b, names, w.table), w);
            r.Some? && SameBook(r.value, b) <==> AllCarried(b)
  {
    hide LoadText, SavedText, UserOk, HasSpaces, WorldOk;
    var r := LoadText(SavedText(b, names, w.table), w);
    if AllCarried(b) {
      SavedLoads(b, names, w);
    }
    if r.Some? && SameBook(r.value, b) {
      LoadedCarried(SavedText(b, names, w.table), w);
      forall n | n in b ensures SubsCarried(b[n].perms) {
        assert SameUser(r.value[n], b[n]) && n in r.value;
      }
    }
  }

  // -------------------------------------------------------------- rules a file cannot carry

  /** What one subcommand rule makes of a fresh user. */
  lemma OneSubcommand(w: World, c: Cmd, sub: string) returns (u: User)
    requires WorldOk(w) && w.table == [c] && sub != ""
    ensures SetAll(Fresh, [SubRule(c, sub)], w) == Ok(u) && UserOk(u, w.table)
    ensures u.perms.subs == map[c.id := [sub]] && !Bit(u.perms, c.id)
  {
    var rule := SubRule(c, sub);
    SetOne(Fresh, rule, w);
    assert Fresh.perms.subs == map[] && !Listed([], sub);
    SubRuleMeans(Fresh.perms, w.table, 0, sub);
    FreshOk(w.table);
    SetUserOk(Fresh, rule, w);
    u := SetUser(Fresh, rule, w).value;
    assert AddSub(Fresh.perms, c.id, sub).subs == map[c.id := [] + [sub]];
    assert [] + [sub] == [sub];
  }

  /** A subcommand with a space: accepted as a rule, torn apart by the file. */
  lemma SpaceInSubcommand(w: World, c: Cmd) returns (u: User)
    requires WorldOk(w) && w.table == [c] && c.name == "debug"
    ensures SetAll(Fresh, ["+debug|a b"], w) == Ok(u)
    ensures var b := map["default" := u]; var r := LoadText(SavedText(b, ["default"], w.table), w);
            r.None? || !SameBook(r.value, b)
  {
    hide LoadText, SavedText, SetAll, UserOk, WorldOk, SameUser;
    assert SubRule(c, "a b") == "+debug|a b";
    u := OneSubcommand(w, c, "a b");
    var b := map["default" := u];
    assert ' ' == "a b"[1] && !Carried("a b");
    assert !Carried(u.perms.subs[c.id][0]);
    assert !SubsCarried(b["default"].perms);
    SavedFileExact(b, ["default"], w);
  }

  lemma PiecesFirst(x: string, b: string, sep: char)
    requires sep !in x
    ensures Pieces(x + [sep] + b, sep) == [x] + Pieces(b, sep)
  {
    hide Head;
    var s := x + [sep] + b;
    assert s == x + ([sep] + b);
    HeadOf(x, [sep] + b, sep);
    assert s[..|x|] == x && s[|x| + 1..] == b;
  }

  lemma PiecesWhole(x: string, sep: char)
    requires sep !in x
    ensures Pieces(x, sep) == [x]
  {
    hide Head;
    assert x + "" == x;
    HeadOf(x, "", sep);
  }

  lemma {:induction false} PiecesAppend(a: string, b: string, sep: char)
    ensures Pieces(a + [sep] + b, sep) == Pieces(a, sep) + Pieces(b, sep)
    decreases |a|
  {
    hide Pieces, Head;
    var n := Head(a, sep);
    if n == |a| {
      assert a[..n] == a;
      PiecesFirst(a, b, sep);
      PiecesWhole(a, sep);
    } else {
      var rest := a[n + 1..];
      PiecesAppend(rest, b, sep);
      assert a + [sep] + b == a[..n] + [sep] + (rest + [sep] + b);
      assert a == a[..n] + [sep] + rest;
      PiecesFirst(a[..n], rest + [sep] + b, sep);
      PiecesFirst(a[..n], rest, sep);
    }
  }

  /** A text with a line "b" is refused. */
  lemma TornLine(a: string, w: World)
    ensures LoadText(a + "\n" + "b" + "\n", w).None?
  {
    var text := a + "\n" + "b" + "\n";
    assert text == a + "\n" + "b\n" && "b\n" == "b" + "\n" + "";
    PiecesAppend(a, "b\n", '\n');
    PiecesAppend("b", "", '\n');
    var lines := Split(text, '\n');
    assert lines == Pieces(a, '\n') + (Pieces("b", '\n') + Pieces("", '\n'));
    assert lines[|Pieces(a, '\n')|] == "b";
    assert ParseLine("b").Malformed?;
    assert Fails("b", w);
    LoadAllExact(InitialBook, lines, w);
  }

  /** A subcommand with a newline: accepted as a rule, and the saved file is refused. */
  lemma NewlineInSubcommand(w: World, c: Cmd) returns (u: User)
    requires WorldOk(w) && w.table == [c] && c.name == "debug"
    ensures SetAll(Fresh, ["+debug|a\nb"], w) == Ok(u)
    ensures LoadText(SavedText(map["default" := u], ["default"], w.table), w) == None
  {
    hide LoadText, SetAll, UserOk, WorldOk, Guess, CategoryRules, AccessRules;
    var rule := SubRule(c, "a\nb");
    assert rule == "+debug|a\nb";
    u := OneSubcommand(w, c, "a\nb");
    var b := map["default" := u];
    LastRule(u, c);
    var rules := Rules(u, w.table);
    assert rules[|rules| - 1] == rule;
    assert rule == "+debug|a" + "\nb";
    JoinLast(rules, ' ', "+debug|a", "\nb");
    var front :| Join(rules, ' ') == front + "\nb";
    var text := SavedText(b, ["default"], w.table);
    assert ["default"][..0] == [];
    assert text == SavedText(b, [], w.table) + LineOf("default", u, w.table) + "\n";
    assert text == ("user default " + front) + "\n" + "b" + "\n";
    TornLine("user default " + front, w);
  }

  /** The rules of the only command come last. */
  lemma LastRule(u: User, c: Cmd)
    requires c.id in u.perms.subs && |u.perms.subs[c.id]| == 1 && !Bit(u.perms, c.id)
    ensures Rules(u, [c]) != [] && Rules(u, [c])[|Rules(u, [c])| - 1] == SubRule(c, u.perms.subs[c.id][0])
  {
  }

  lemma {:induction false} JoinLast(xs: seq<string>, sep: char, x: string, y: string)
    requires xs != [] && xs[|xs| - 1] == x + y
    ensures exists front :: Join(xs, sep) == front + y
  {
    if |xs| == 1 {
      assert Join(xs, sep) == x + y;
    } else {
      JoinLast(xs[1..], sep, x, y);
      var front :| Join(xs[1..], sep) == front + y;
      assert Join(xs, sep) == (xs[0] + [sep] + front) + y;
    }
  }
}
