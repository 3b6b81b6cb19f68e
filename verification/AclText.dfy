/** Rules as text: how descriptions are joined and how ACL file lines are taken apart. */
module AclText {
  import opened Text
  import opened AclUser
  import opened AclDescribe

  // ------------------------------------------------------------------ joining, splitting

  function Join(xs: seq<string>, sep: char): string {
    if xs == [] then "" else if |xs| == 1 then xs[0] else xs[0] + [sep] + Join(xs[1..], sep)
  }

  /** The part before the first separator. */
  function Head(s: string, sep: char): (n: nat)
    ensures n <= |s| && (n < |s| ==> s[n] == sep) && sep !in s[..n]
  {
    if s == "" || s[0] == sep then 0
    else
      var n := Head(s[1..], sep);
      assert s[..n + 1] == [s[0]] + s[1..][..n];
      1 + n
  }

  function Pieces(s: string, sep: char): (r: seq<string>)
    ensures r != [] && forall x :: x in r ==> sep !in x
    decreases |s|
  {
    var n := Head(s, sep);
    if n == |s| then
      assert s[..n] == s;
      [s]
    else [s[..n]] + Pieces(s[n + 1..], sep)
  }

  /** sdssplitlen: nothing at all for the empty string. */
  function Split(s: string, sep: char): (r: seq<string>)
    ensures forall x :: x in r ==> sep !in x
  {
    if s == "" then [] else Pieces(s, sep)
  }

  lemma {:induction false} HeadOf(x: string, rest: string, sep: char)
    requires sep !in x && (rest == "" || rest[0] == sep)
    ensures Head(x + rest, sep) == |x|
  {
    var s := x + rest;
    if x == "" {
      assert s == rest;
    } else {
      assert s[1..] == x[1..] + rest && s[0] == x[0];
      HeadOf(x[1..], rest, sep);
    }
  }

  lemma {:induction false} PiecesJoin(xs: seq<string>, sep: char)
    requires xs != [] && forall x :: x in xs ==> sep !in x
    ensures Pieces(Join(xs, sep), sep) == xs
  {
    hide Head;
    if |xs| == 1 {
      assert xs[0] + "" == xs[0];
      HeadOf(xs[0], "", sep);
      assert xs == [xs[0]];
    } else {
      var tail := Join(xs[1..], sep);
      var s := Join(xs, sep);
      assert s == xs[0] + ([sep] + tail);
      HeadOf(xs[0], [sep] + tail, sep);
      assert s[..|xs[0]|] == xs[0] && s[|xs[0]| + 1..] == tail;
      PiecesJoin(xs[1..], sep);
      assert [xs[0]] + xs[1..] == xs;
    }
  }

  /** Joined words split into the same words exactly when none contains the separator. */
  lemma SplitExact(xs: seq<string>, sep: char)
    requires xs != [] && xs != [""]
    ensures Split(Join(xs, sep), sep) == xs <==> forall x :: x in xs ==> sep !in x
  {
    hide Pieces;
    JoinEmpty(xs, sep);
    if forall x :: x in xs ==> sep !in x {
      PiecesJoin(xs, sep);
    }
  }

  lemma JoinEmpty(xs: seq<string>, sep: char)
    ensures Join(xs, sep) == "" ==> xs == [] || xs == [""]
  {
    if |xs| > 1 {
      assert |Join(xs, sep)| > 0;
    }
  }

  // ------------------------------------------------------------------------- trimming

  const BLANKS := {' ', '\t', '\r', '\n'}
  const TABS := {'\t', '\r', '\n'}

  function TrimLeft(s: string, cs: set<char>): string {
    if s != "" && s[0] in cs then TrimLeft(s[1..], cs) else s
  }

  function TrimRight(s: string, cs: set<char>): string {
    if s != "" && s[|s| - 1] in cs then TrimRight(s[..|s| - 1], cs) else s
  }

  /** sdstrim */
  function Trim(s: string, cs: set<char>): string { TrimRight(TrimLeft(s, cs), cs) }

  predicate Tight(s: string, cs: set<char>) { s != "" && s[0] !in cs && s[|s| - 1] !in cs }

  lemma TrimTight(s: string, cs: set<char>)
    requires Tight(s, cs)
    ensures Trim(s, cs) == s
  {
  }

  lemma {:induction false} TrimRightEnds(s: string, cs: set<char>)
    ensures TrimRight(s, cs) == "" || TrimRight(s, cs)[|TrimRight(s, cs)| - 1] !in cs
  {
    if s != "" && s[|s| - 1] in cs { TrimRightEnds(s[..|s| - 1], cs); }
  }

  function TrimAll(xs: seq<string>): (r: seq<string>)
    ensures |r| == |xs|
  {
    seq(|xs|, i requires 0 <= i < |xs| => Trim(xs[i], TABS))
  }

  // ---------------------------------------------------------------------- lines of a file

  /** sdstrim takes off what is in the set at both ends, and nothing else. */
  lemma TrimExact(s: string, cs: set<char>) returns (i: nat, j: nat)
    ensures i <= j <= |s| && Trim(s, cs) == s[i..j] && (i == j || Tight(s[i..j], cs))
    ensures forall k :: 0 <= k < i || j <= k < |s| ==> s[k] in cs
  {
    i := LeftExact(s, cs);
    var n := RightExact(s[i..], cs);
    j := i + n;
    assert s[i..][..n] == s[i..j];
    forall k | j <= k < |s| ensures s[k] in cs {
      assert s[i..][k - i] == s[k];
    }
  }

  lemma {:induction false} LeftExact(s: string, cs: set<char>) returns (i: nat)
    ensures i <= |s| && TrimLeft(s, cs) == s[i..] && (i == |s| || s[i] !in cs)
    ensures forall k :: 0 <= k < i ==> s[k] in cs
  {
    if s != "" && s[0] in cs {
      i := LeftExact(s[1..], cs);
      forall k | 0 < k <= i ensures s[k] in cs {
        assert s[1..][k - 1] == s[k];
      }
      i := i + 1;
    } else {
      i := 0;
    }
  }

  lemma {:induction false} RightExact(s: string, cs: set<char>) returns (j: nat)
    ensures j <= |s| && TrimRight(s, cs) == s[..j] && (j == 0 || s[j - 1] !in cs)
    ensures forall k :: j <= k < |s| ==> s[k] in cs
  {
    if s != "" && s[|s| - 1] in cs {
      j := RightExact(s[..|s| - 1], cs);
    } else {
      j := |s|;
    }
  }

  datatype Line = Blank | Malformed | UserLine(name: string, rules: seq<string>)

  /** One line of the ACL file up to the point where its rules are tried. */
  function ParseLine(line: string): Line {
    var l := Trim(line, BLANKS);
    if l == "" then Blank
    else
      var argv := Split(l, ' ');
      if |argv| < 2 || argv[0] != "user" then Malformed
      else if HasSpaces(argv[1]) then Malformed
      else UserLine(argv[1], TrimAll(argv[2..]))
  }

  /** The line ACLSaveToFile writes for a user. */
  function LineOf(name: string, u: User, t: Table): string { "user " + name + " " + Join(Rules(u, t), ' ') }

  /** A subcommand the line can carry. */
  predicate Carried(sub: string) { sub != "" && ' ' !in sub && '\n' !in sub && sub[|sub| - 1] !in TABS }

  predicate SubsCarried(p: Perms) {
    forall id :: id in p.subs ==> forall i :: 0 <= i < |p.subs[id]| ==> Carried(p.subs[id][i])
  }

  /** A rule the line can carry. */
  predicate Word(s: string) { ' ' !in s && '\n' !in s && Tight(s, TABS) }

  predicate Words(xs: seq<string>) { forall x :: x in xs ==> Word(x) }

  // --------------------------------------------------------- which rules a line can carry

  predicate Unblank(x: string) { forall c :: c in x ==> c !in BLANKS }

  lemma NoSpaces(x: string)
    requires !HasSpaces(x)
    ensures Unblank(x)
  {
    forall c | c in x ensures c !in BLANKS {
      var i :| 0 <= i < |x| && x[i] == c;
      assert !IsSpace(x[i]);
    }
  }

  /** A sign or marker followed by a text without blanks. */
  lemma MarkedWord(mark: string, x: string)
    requires mark in {"+", "-", "#", "~", "+@", "-@"} && Unblank(x)
    ensures Word(mark + x)
  {
    var s := mark + x;
    assert forall i :: 0 <= i < |s| ==> s[i] == if i < |mark| then mark[i] else x[i - |mark|];
    forall i | 0 <= i < |s| ensures s[i] !in BLANKS {
      if i >= |mark| { assert x[i - |mark|] in x; }
    }
  }

  lemma SubRuleWord(c: Cmd, sub: string)
    requires NameOk(c.name) && sub != ""
    ensures Word(SubRule(c, sub)) <==> Carried(sub)
  {
    var s := SubRule(c, sub);
    NoSpaces(c.name);
    assert s == "+" + c.name + "|" + sub;
    assert s[|s| - 1] == sub[|sub| - 1];
    assert forall x :: x in s <==> x == '+' || x in c.name || x == '|' || x in sub;
  }

  lemma {:induction false} SubRulesWords(c: Cmd, subs: seq<string>)
    requires NameOk(c.name) && forall i :: 0 <= i < |subs| ==> Carried(subs[i])
    ensures Words(SubRules(c, subs))
  {
    if subs != [] {
      hide NameOk, Word, SubRule;
      SubRulesWords(c, subs[..|subs| - 1]);
      SubRuleWord(c, subs[|subs| - 1]);
    }
  }

  lemma {:induction false} SubRulesHave(c: Cmd, subs: seq<string>, i: nat)
    requires i < |subs|
    ensures SubRule(c, subs[i]) in SubRules(c, subs)
  {
    if i < |subs| - 1 {
      SubRulesHave(c, subs[..|subs| - 1], i);
    }
  }

  lemma FixWords(p: Perms, fake: Perms, c: Cmd)
    requires NameOk(c.name) && SubsCarried(p)
    ensures Words(CommandFix(p, fake, c))
  {
    NoSpaces(c.name);
    MarkedWord("+", c.name);
    MarkedWord("-", c.name);
    hide Word, NameOk, Carried;
    SubRulesWords(c, SubsOf(p, c.id));
  }

  lemma {:induction false} FixesWords(p: Perms, fake: Perms, t: Table)
    requires SubsCarried(p) && forall i :: 0 <= i < |t| ==> NameOk(t[i].name)
    ensures Words(CommandFixes(p, fake, t))
  {
    if t != [] {
      hide NameOk, SubsCarried, Word, CommandFix;
      FixesWords(p, fake, t[..|t| - 1]);
      FixWords(p, fake, t[|t| - 1]);
    }
  }

  lemma {:induction false} CategoryWords(p: Perms, t: Table, cats: seq<string>)
    requires forall c :: c in cats ==> Lowercase(c)
    ensures Words(CategoryRules(p, t, cats))
  {
    if cats != [] {
      CategoryWords(p, t, cats[..|cats| - 1]);
      var cat := cats[|cats| - 1];
      LowercaseWord(cat);
      MarkedWord("+@", cat);
      MarkedWord("-@", cat);
    }
  }

  lemma LowercaseWord(s: string)
    requires Lowercase(s)
    ensures Unblank(s)
  {
  }

  lemma {:induction false} PrefixedWords(mark: string, xs: seq<string>)
    requires mark in {"#", "~"} && forall x :: x in xs ==> Unblank(x)
    ensures Words(Prefixed(mark, xs))
  {
    if xs != [] {
      hide Word, Unblank;
      PrefixedWords(mark, xs[..|xs| - 1]);
      MarkedWord(mark, xs[|xs| - 1]);
    }
  }

  lemma AccessWords(a: Access)
    requires AccessOk(a)
    ensures Words(AccessRules(a))
  {
    assert Words(FlagRules(a));
    MarkedWord("~", "*");
    assert "~" + "*" == "~*";
    forall x | x in a.passwords ensures Unblank(x) { HashClean(x); }
    forall x | x in a.patterns ensures Unblank(x) { NoSpaces(x); }
    hide Word, AccessOk;
    PrefixedWords("#", a.passwords);
    PrefixedWords("~", a.patterns);
    assert AccessRules(a) == FlagRules(a) + Prefixed("#", a.passwords) + (if a.allkeys then ["~*"] else Prefixed("~", a.patterns));
  }

  lemma HashClean(h: string)
    requires IsHash(h)
    ensures Unblank(h)
  {
  }

  lemma BaseWord(p: Perms)
    ensures Word(BaseRule(p))
  {
  }

  lemma RulesWords(u: User, t: Table)
    requires TableOk(t) && UserOk(u, t) && SubsCarried(u.perms)
    ensures Words(Rules(u, t))
  {
    AccessWords(u.access);
    CategoryNames();
    CategoryWords(u.perms, t, CATEGORIES);
    FixesWords(u.perms, Guess(u.perms, t), t);
    BaseWord(u.perms);
    hide Word, AccessRules, CategoryRules, CommandFixes, TableOk, UserOk;
  }

  lemma {:induction false} FixesHave(p: Perms, fake: Perms, t: Table, i: nat, rule: string)
    requires i < |t| && rule in CommandFix(p, fake, t[i])
    ensures rule in CommandFixes(p, fake, t)
  {
    hide CommandFix;
    if i < |t| - 1 {
      FixesHave(p, fake, t[..|t| - 1], i, rule);
    }
  }

  /** A sound user whose rules are all words has only subcommands a line can carry. */
  lemma WordsCarried(u: User, t: Table)
    requires TableOk(t) && UserOk(u, t) && Words(Rules(u, t))
    ensures SubsCarried(u.perms)
  {
    var p := u.perms;
    forall id, k | id in p.subs && 0 <= k < |p.subs[id]| ensures Carried(p.subs[id][k]) {
      var c :| c in t && c.id == id;
      var i :| 0 <= i < |t| && t[i] == c;
      var rule := SubRule(c, p.subs[id][k]);
      SubRulesHave(c, p.subs[id], k);
      assert rule in CommandFix(p, Guess(p, t), c);
      FixesHave(p, Guess(p, t), t, i, rule);
      assert rule in Rules(u, t);
      SubRuleWord(c, p.subs[id][k]);
    }
  }

  // ------------------------------------------------------------------------ main result

  lemma JoinTwo(a: string, b: string, xs: seq<string>, sep: char)
    requires xs != []
    ensures Join([a, b] + xs, sep) == a + [sep] + (b + [sep] + Join(xs, sep))
  {
    assert ([a, b] + xs)[1..] == [b] + xs && ([b] + xs)[1..] == xs;
  }

  lemma {:induction false} JoinEnds(xs: seq<string>, sep: char)
    requires xs != [] && xs[|xs| - 1] != ""
    ensures var s, last := Join(xs, sep), xs[|xs| - 1]; s != "" && s[|s| - 1] == last[|last| - 1]
  {
    if |xs| > 1 {
      JoinEnds(xs[1..], sep);
    }
  }

  lemma TrimAllWords(xs: seq<string>)
    requires Words(xs)
    ensures TrimAll(xs) == xs
  {
    forall i | 0 <= i < |xs| ensures Trim(xs[i], TABS) == xs[i] {
      assert Word(xs[i]);
      TrimTight(xs[i], TABS);
    }
  }

  /** Words survive the way through the file. */
  lemma WordsParse(name: string, rules: seq<string>)
    requires !HasSpaces(name) && rules != [] && Words(rules)
    ensures ParseLine("user " + name + " " + Join(rules, ' ')) == UserLine(name, rules)
  {
    var words := ["user", name] + rules;
    var line := "user " + name + " " + Join(rules, ' ');
    JoinTwo("user", name, rules, ' ');
    assert line == Join(words, ' ');
    assert Word(rules[|rules| - 1]);
    assert words[|words| - 1] == rules[|rules| - 1];
    JoinEnds(words, ' ');
    assert line[0] == 'u' && Tight(line, BLANKS);
    TrimTight(line, BLANKS);
    forall x | x in words ensures ' ' !in x {
      if x in rules { assert Word(x); } else if x == name { NoSpaces(name); }
    }
    SplitExact(words, ' ');
    assert words[2..] == rules;
    TrimAllWords(rules);
  }

  /** A line of words names a user exactly if it has at least two, the first is "user" and the second a name. */
  lemma LineExact(words: seq<string>)
    requires words != [] && Words(words)
    ensures ParseLine(Join(words, ' ')) ==
              if |words| >= 2 && words[0] == "user" && !HasSpaces(words[1]) then UserLine(words[1], words[2..]) else Malformed
  {
    var line := Join(words, ' ');
    assert Word(words[0]) && Word(words[|words| - 1]);
    JoinEnds(words, ' ');
    assert line[0] == words[0][0];
    TrimTight(line, BLANKS);
    forall x | x in words ensures ' ' !in x {
      assert Word(x);
    }
    SplitExact(words, ' ');
    hide Split, Trim, Join, HasSpaces;
    if |words| >= 2 {
      TrimAllWords(words[2..]);
    }
  }

  lemma {:induction false} TrimRightPart(s: string, cs: set<char>)
    ensures forall c :: c in TrimRight(s, cs) ==> c in s
  {
    if s != "" && s[|s| - 1] in cs { TrimRightPart(s[..|s| - 1], cs); }
  }

  lemma {:induction false} TrimLeftPart(s: string, cs: set<char>)
    ensures forall c :: c in TrimLeft(s, cs) ==> c in s
  {
    if s != "" && s[0] in cs { TrimLeftPart(s[1..], cs); }
  }

  lemma {:induction false} JoinChars(xs: seq<string>, sep: char, c: char)
    requires c != sep && forall x :: x in xs ==> c !in x
    ensures c !in Join(xs, sep)
  {
    if |xs| > 1 { JoinChars(xs[1..], sep, c); }
  }

  /** A line of rules it can carry is one line, and is parsed into the user's rules. */
  lemma SavedLine(name: string, u: User, t: Table)
    requires TableOk(t) && UserOk(u, t) && !HasSpaces(name) && SubsCarried(u.perms)
    ensures '\n' !in LineOf(name, u, t)
    ensures ParseLine(LineOf(name, u, t)) == UserLine(name, Rules(u, t))
  {
    hide Rules, TableOk, UserOk, ParseLine;
    var rules := Rules(u, t);
    RulesStart(u, t);
    RulesWords(u, t);
    WordsParse(name, rules);
    NoSpaces(name);
    JoinChars(rules, ' ', '\n');
    assert LineOf(name, u, t) == "user " + name + " " + Join(rules, ' ');
  }

  // -------------------------------------------------------------- what a line can bring

  /** A text that came out of a line as one word. */
  predicate Clean(s: string) { ' ' !in s && '\n' !in s && (s == "" || s[|s| - 1] !in TABS) }

  lemma TrimmedClean(s: string)
    requires ' ' !in s && '\n' !in s
    ensures Clean(Trim(s, TABS))
  {
    var l := TrimLeft(s, TABS);
    TrimLeftPart(s, TABS);
    TrimRightPart(l, TABS);
    TrimRightEnds(l, TABS);
  }

  lemma {:induction false} PiecesPart(s: string, sep: char, c: char)
    requires c !in s
    ensures forall x :: x in Pieces(s, sep) ==> c !in x
    decreases |s|
  {
    var n := Head(s, sep);
    if n < |s| { PiecesPart(s[n + 1..], sep, c); }
  }

  /** Every rule of a line without a newline is clean. */
  lemma RulesClean(line: string)
    requires '\n' !in line && ParseLine(line).UserLine?
    ensures forall x :: x in ParseLine(line).rules ==> Clean(x)
  {
    hide Clean, Pieces;
    var l := Trim(line, BLANKS);
    TrimLeftPart(line, BLANKS);
    TrimRightPart(TrimLeft(line, BLANKS), BLANKS);
    PiecesPart(l, ' ', '\n');
    var argv := Split(l, ' ');
    var rules := ParseLine(line).rules;
    forall x | x in rules ensures Clean(x) {
      var i :| 0 <= i < |rules| && rules[i] == x;
      assert argv[i + 2] in argv;
      TrimmedClean(argv[i + 2]);
    }
  }

  /** Every rule starts with one of its markers or keywords. */
  lemma RulesStart(u: User, t: Table)
    ensures Rules(u, t) != [] && forall x :: x in Rules(u, t) ==> x != "" && x[0] !in TABS
  {
    AccessStart(u.access);
    CategoryStart(u.perms, t, CATEGORIES);
    FixesStart(u.perms, Guess(u.perms, t), t);
    hide AccessRules, CategoryRules, CommandFixes, Guess;
  }

  lemma AccessStart(a: Access)
    ensures forall x :: x in AccessRules(a) ==> x != "" && x[0] !in TABS
  {
    PrefixedStart("#", a.passwords);
    PrefixedStart("~", a.patterns);
    hide Prefixed;
  }

  lemma {:induction false} PrefixedStart(mark: string, xs: seq<string>)
    requires mark != ""
    ensures forall x :: x in Prefixed(mark, xs) ==> x != "" && x[0] == mark[0]
  {
    if xs != [] { PrefixedStart(mark, xs[..|xs| - 1]); }
  }

  lemma {:induction false} CategoryStart(p: Perms, t: Table, cats: seq<string>)
    ensures forall x :: x in CategoryRules(p, t, cats) ==> x != "" && (x[0] == '+' || x[0] == '-')
  {
    if cats != [] { CategoryStart(p, t, cats[..|cats| - 1]); }
  }

  lemma {:induction false} SubRulesStart(c: Cmd, subs: seq<string>)
    ensures forall x :: x in SubRules(c, subs) ==> x != "" && x[0] == '+'
  {
    if subs != [] { SubRulesStart(c, subs[..|subs| - 1]); }
  }

  lemma {:induction false} FixesStart(p: Perms, fake: Perms, t: Table)
    ensures forall x :: x in CommandFixes(p, fake, t) ==> x != "" && (x[0] == '+' || x[0] == '-')
  {
    if t != [] {
      FixesStart(p, fake, t[..|t| - 1]);
      SubRulesStart(t[|t| - 1], SubsOf(p, t[|t| - 1].id));
    }
  }
}
