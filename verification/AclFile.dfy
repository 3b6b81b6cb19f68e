/** The set of users: ACL SETUSER and ACL LOAD change all they were asked to or nothing. */
module AclFile {
  import opened Options
  import opened Text
  import opened AclUser
  import opened AclDescribe
  import opened AclText
  import opened AclBook
  import opened AclStore

  lemma SoundSubs(u: User, t: Table)
    requires TableOk(t) && UserOk(u, t)
    ensures SubsSound(u.perms.subs)
  {
    forall id | id in u.perms.subs ensures id < BITS {
      var c :| c in t && c.id == id;
    }
  }

  predicate Injective(users: map<string, Account>) {
    forall m, n :: m in users && n in users && m != n ==> users[m] != users[n]
  }

  lemma InjectiveWith(users: map<string, Account>, name: string, u: Account)
    requires Injective(users) && u !in users.Values
    ensures Injective(users[name := u])
  {
    forall n | n in users ensures users[n] != u {
      assert users[n] in users.Values;
    }
  }

  lemma OthersDiffer(users: map<string, Account>, name: string)
    requires Injective(users) && name in users
    ensures forall n :: n in users && n != name ==> users[n] != users[name]
  {
  }

  lemma SoundWith(b: Book, name: string, u: User, t: Table)
    requires Sound(b, t) && UserOk(u, t)
    ensures Sound(b[name := u], t)
  {
    hide UserOk;
  }

  predicate Named(names: set<string>) { forall n :: n in names ==> !HasSpaces(n) }

  lemma {:induction false} LoadNames(start: Book, lines: seq<string>, w: World)
    requires Named(start.Keys) && LoadAll(start, lines, w).Some?
    ensures Named(LoadAll(start, lines, w).value.Keys)
  {
    hide SetAll, HasSpaces, Trim, Split, TrimAll;
    if lines != [] {
      LoadNames(start, lines[..|lines| - 1], w);
    }
  }

  lemma DefaultNamed()
    ensures Named(InitialBook.Keys)
  {
  }

  lemma UserPermsOk(u: User, w: World)
    requires WorldOk(w) && UserOk(u, w.table)
    ensures TableOk(w.table) && PermsOk(u.perms, w.table)
  {
  }

  function BookOf(users: map<string, Account>): Book
    reads users.Values
  {
    map n | n in users :: users[n].View()
  }

  lemma LoadLineSound(b: Book, line: Line, w: World)
    requires WorldOk(w) && Sound(b, w.table)
    ensures LoadLine(b, line, w).Some? ==> Sound(LoadLine(b, line, w).value, w.table)
  {
    hide SetAll, UserOk, WorldOk;
    if line.UserLine? {
      FreshOk(w.table);
      SetAllOk(Fresh, line.rules, w);
    }
  }

  /** ACLInitDefaultUser */
  method NewDefault(w: World) returns (u: Account)
    requires WorldOk(w)
    ensures fresh(u) && u.View() == InitialDefault() && UserOk(u.View(), w.table)
  {
    hide SetAll, UserOk, WorldOk;
    u := new Account();
    InitialDefaultIs(w);
    FreshOk(w.table);
    SetAllOk(Fresh, DEFAULT_RULES, w);
    var _ := u.SetRules(DEFAULT_RULES, w);
  }

  method NewStage(w: World) returns (staged: map<string, Account>)
    requires WorldOk(w)
    ensures Injective(staged) && Sound(BookOf(staged), w.table) && fresh(staged.Values)
    ensures BookOf(staged) == InitialBook && "default" in staged
  {
    hide UserOk, WorldOk, InitialDefault;
    var nd := NewDefault(w);
    staged := map["default" := nd];
  }

  /** Every line tried on a fake user first and, as long as there was no error, applied to the staged set. */
  method LoadLines(start: map<string, Account>, lines: seq<string>, w: World) returns (r: Option<map<string, Account>>)
    requires WorldOk(w) && Injective(start) && Sound(BookOf(start), w.table) && "default" in start
    modifies start.Values
    ensures var loaded := LoadAll(old(BookOf(start)), lines, w);
            && r.Some? == loaded.Some?
            && (r.Some? ==> BookOf(r.value) == loaded.value && Injective(r.value) && "default" in r.value
                            && Sound(loaded.value, w.table)
                            && forall n :: n in r.value ==> r.value[n] in start.Values || fresh(r.value[n]))
  {
    hide UserOk, WorldOk, LoadLine, ParseLine, Injective;
    var staged, errors := start, false;
    var fake := new Account();
    for i := 0 to |lines|
      invariant fake !in staged.Values && fresh(fake)
      invariant forall n :: n in staged ==> staged[n] in start.Values || fresh(staged[n])
      invariant Injective(staged) && "default" in staged
      invariant errors <==> LoadAll(old(BookOf(start)), lines[..i], w).None?
      invariant !errors ==> BookOf(staged) == LoadAll(old(BookOf(start)), lines[..i], w).value
      invariant Sound(BookOf(staged), w.table)
    {
      assert lines[..i + 1][..i] == lines[..i];
      staged, errors := LoadOne(staged, ParseLine(lines[i]), fake, errors, w);
    }
    assert lines[..|lines|] == lines;
    r := if errors then None else Some(staged);
  }

  /** Rules on a temporary user: what comes out is sound again. */
  method TryOn(temp: Account, rules: seq<string>, w: World) returns (r: Option<Error>)
    requires WorldOk(w) && UserOk(temp.View(), w.table)
    modifies temp
    ensures r == match SetAll(old(temp.View()), rules, w) case Ok(_) => None case Err(e) => Some(e)
    ensures r.None? ==> temp.View() == SetAll(old(temp.View()), rules, w).value && UserOk(temp.View(), w.table)
  {
    hide SetAll, UserOk, WorldOk;
    SetAllOk(temp.View(), rules, w);
    r := temp.SetRules(rules, w);
  }

  /** One line: tried on the fake user and, as long as there was no error, applied. */
  method LoadOne(staged: map<string, Account>, line: Line, fake: Account, failed: bool, w: World)
    returns (after: map<string, Account>, errors: bool)
    requires WorldOk(w) && Injective(staged) && fake !in staged.Values && Sound(BookOf(staged), w.table)
    modifies staged.Values, fake
    ensures errors <==> failed || LoadLine(old(BookOf(staged)), line, w).None?
    ensures BookOf(after) == if errors then old(BookOf(staged)) else LoadLine(old(BookOf(staged)), line, w).value
    ensures Injective(after) && fake !in after.Values && Sound(BookOf(after), w.table)
    ensures forall n :: n in staged ==> n in after
    ensures forall n :: n in after ==> after[n] in staged.Values || fresh(after[n])
  {
    hide UserOk, WorldOk, SetAll, Injective, Sound;
    LoadLineSound(BookOf(staged), line, w);
    after, errors := staged, failed;
    match line {
      case Blank =>
      case Malformed => errors := true;
      case UserLine(name, rules) =>
        var e := TryRules(fake, rules, w);
        assert BookOf(staged) == old(BookOf(staged));
        if e.Some? {
          errors := true;
        } else if !errors {
          after := Restart(staged, name, rules, fake, w);
        }
    }
  }

  method TryRules(fake: Account, rules: seq<string>, w: World) returns (e: Option<Error>)
    modifies fake
    ensures e == match SetAll(Fresh, rules, w) case Ok(_) => None case Err(e) => Some(e)
  {
    hide SetAll, SetUser;
    ResetIsFresh(fake.View(), w);
    var _ := fake.SetRule("reset", w);
    e := fake.SetRules(rules, w);
  }

  /** The rules that passed are applied to the user itself, created or reset; none can be refused now. */
  method Restart(staged: map<string, Account>, name: string, rules: seq<string>, fake: Account, w: World)
    returns (after: map<string, Account>)
    requires Injective(staged) && SetAll(Fresh, rules, w).Ok? && fake !in staged.Values
    modifies staged.Values
    ensures Injective(after) && after.Keys == staged.Keys + {name} && fake !in after.Values
    ensures BookOf(after) == old(BookOf(staged))[name := SetAll(Fresh, rules, w).value]
    ensures forall n :: n in after ==> after[n] in staged.Values || fresh(after[n])
  {
    hide SetAll, Injective, BookOf;
    after := CreateOrReset(staged, name, w);
    ApplyAgain(after, name, rules, w);
    UpdatedTwice(old(BookOf(staged)), name, Fresh, SetAll(Fresh, rules, w).value);
  }

  lemma UpdatedTwice(b: Book, name: string, u: User, v: User)
    ensures b[name := u][name := v] == b[name := v]
  {
  }

  method ApplyAgain(users: map<string, Account>, name: string, rules: seq<string>, w: World)
    requires Injective(users) && name in users && users[name].View() == Fresh && SetAll(Fresh, rules, w).Ok?
    modifies users[name]
    ensures BookOf(users) == old(BookOf(users))[name := SetAll(Fresh, rules, w).value]
  {
    hide SetAll, SetUser;
    var e := users[name].SetRules(rules, w);
    assert e.None?;
    assert BookOf(users) == old(BookOf(users))[name := users[name].View()];
  }

  method CreateOrReset(staged: map<string, Account>, name: string, w: World) returns (after: map<string, Account>)
    requires Injective(staged)
    modifies staged.Values
    ensures Injective(after) && after.Keys == staged.Keys + {name}
    ensures BookOf(after) == old(BookOf(staged))[name := Fresh] && after[name].View() == Fresh
    ensures forall n :: n in after ==> after[n] in staged.Values || fresh(after[n])
  {
    hide SetUser;
    after := staged;
    if name in staged {
      ResetIsFresh(staged[name].View(), w);
      var _ := staged[name].SetRule("reset", w);
    } else {
      var u := new Account();
      after := staged[name := u];
    }
    assert BookOf(after) == old(BookOf(staged))[name := Fresh];
  }

  lemma ResetIsFresh(u: User, w: World)
    ensures SetUser(u, "reset", w) == Ok(Fresh)
  {
    assert Lower("reset") == "reset";
  }

  class Users {
    var users: map<string, Account>
    var defaultUser: Account

    ghost predicate Valid(t: Table)
      reads this, users.Values
    {
      && "default" in users && users["default"] == defaultUser && Injective(users)
      && Sound(BookOf(users), t) && Named(users.Keys)
    }

    /** ACLInit */
    constructor (w: World)
      requires WorldOk(w)
      ensures Valid(w.table) && fresh(defaultUser) && BookOf(users) == InitialBook
    {
      var u := NewDefault(w);
      users, defaultUser := map["default" := u], u;
    }

    /** What a SETUSER starts from: the user's rules, or those of a new user. */
    function Current(name: string): User
      reads this, users.Values
    {
      if name in users then users[name].View() else Fresh
    }

    /** The SETUSER branch of aclCommand. */
    method SetUserCommand(name: string, rules: seq<string>, w: World) returns (r: Option<Error>)
      requires WorldOk(w) && Valid(w.table)
      modifies this`users, users.Values
      ensures Valid(w.table) && defaultUser == old(defaultUser)
      ensures r == if HasSpaces(name) then Some(EINVAL)
                   else match SetAll(old(Current(name)), rules, w) case Ok(_) => None case Err(e) => Some(e)
      ensures r.None? ==> BookOf(users) == old(BookOf(users))[name := SetAll(old(Current(name)), rules, w).value]
      ensures r.Some? ==> BookOf(users) == old(BookOf(users))
      ensures forall n :: n in old(users) ==> n in users && users[n] == old(users[n])
    {
      hide SetAll, UserOk, WorldOk, Injective, Sound, HasSpaces;
      if HasSpaces(name) { return Some(EINVAL); }
      var temp := Stage(name, w);
      r := TryOn(temp, rules, w);
      if r.None? { Commit(name, temp, w); }
    }

    /** A temporary user with the rules the named one has so far. */
    method Stage(name: string, w: World) returns (temp: Account)
      requires WorldOk(w) && Valid(w.table)
      ensures fresh(temp) && temp.View() == Current(name)
      ensures UserOk(temp.View(), w.table)
    {
      hide UserOk, WorldOk, Injective;
      FreshOk(w.table);
      temp := new Account();
      if name in users {
        SoundSubsAt(users, name, w);
        temp.CopyFrom(users[name]);
      }
    }

    method AddUser(name: string, w: World)
      requires Valid(w.table) && name !in users && !HasSpaces(name)
      modifies this`users
      ensures Valid(w.table) && name in users && fresh(users[name]) && users == old(users)[name := users[name]]
      ensures BookOf(users) == old(BookOf(users))[name := Fresh]
    {
      hide UserOk, Injective, Sound;
      var u := new Account();
      FreshOk(w.table);
      SoundWith(BookOf(users), name, Fresh, w.table);
      InjectiveWith(users, name, u);
      users := users[name := u];
      assert BookOf(users) == old(BookOf(users))[name := Fresh];
    }

    method Overwrite(name: string, temp: Account, w: World)
      requires WorldOk(w) && Valid(w.table) && name in users && UserOk(temp.View(), w.table) && temp !in users.Values
      modifies users[name]
      ensures Valid(w.table) && BookOf(users) == old(BookOf(users))[name := temp.View()] && temp.View() == old(temp.View())
    {
      hide UserOk, WorldOk, Injective, Sound;
      SoundSubsOf(temp.View(), w);
      SoundWith(BookOf(users), name, temp.View(), w.table);
      OthersDiffer(users, name);
      users[name].CopyFrom(temp);
      assert BookOf(users) == old(BookOf(users))[name := temp.View()];
    }

    /** The named user, created if need be, becomes what the temporary one is. */
    method Commit(name: string, temp: Account, w: World)
      requires WorldOk(w) && Valid(w.table) && UserOk(temp.View(), w.table) && temp !in users.Values && !HasSpaces(name)
      modifies this`users, users.Values
      ensures Valid(w.table) && defaultUser == old(defaultUser)
      ensures BookOf(users) == old(BookOf(users))[name := temp.View()] && temp.View() == old(temp.View())
      ensures forall n :: n in old(users) ==> n in users && users[n] == old(users[n])
    {
      hide UserOk, WorldOk, Injective, Sound, BookOf;
      if name !in users { AddUser(name, w); }
      Overwrite(name, temp, w);
    }

    /**
     * ACLLoadFromFile: the lines are loaded into a new set of users; one error and it is thrown
     * away. Otherwise it replaces the old set, except that the default user stays the same object.
     */
    method LoadFromFile(text: string, w: World) returns (ok: bool)
      requires WorldOk(w) && Valid(w.table)
      modifies this`users, defaultUser
      ensures Valid(w.table) && defaultUser == old(defaultUser)
      ensures var lines := Split(text, '\n'); ok <==> forall i :: 0 <= i < |lines| ==> !Fails(lines[i], w)
      ensures if ok then LastLinesHold(InitialBook, BookOf(users), Split(text, '\n'), w)
              else BookOf(users) == old(BookOf(users))
      ensures ok ==> LoadText(text, w) == Some(BookOf(users))
      ensures if ok then forall n :: n in users && n != "default" ==> fresh(users[n]) else users == old(users)
    {
      hide LoadAll, UserOk, WorldOk, InitialDefault, Injective, Sound, Named, LastLinesHold, Fails;
      var lines := Split(text, '\n');
      LoadAllExact(InitialBook, lines, w);
      var staged := NewStage(w);
      var fine := LoadLines(staged, lines, w);
      ok := fine.Some?;
      if !ok { return; }
      DefaultNamed();
      LoadNames(InitialBook, lines, w);
      assert BookOf(fine.value).Keys == fine.value.Keys;
      Adopt(fine.value, w);
    }

    /** ACLSaveToFile: one line a user, in whatever order the users come. */
    method SaveToFile(w: World) returns (text: string, ghost names: seq<string>)
      requires WorldOk(w) && Valid(w.table)
      ensures Enumerates(names, users.Keys) && text == SavedText(BookOf(users), names, w.table)
    {
      hide UserOk, WorldOk, Injective, LineOf;
      text, names := "", [];
      var left := users.Keys;
      while left != {}
        invariant left <= users.Keys && Enumerates(names, users.Keys - left)
        invariant forall n :: n in names ==> n in users
        invariant text == SavedText(BookOf(users), names, w.table)
      {
        var n :| n in left;
        text := AppendUser(text, names, n, w);
        names, left := names + [n], left - {n};
      }
    }

    method AppendUser(text: string, ghost names: seq<string>, n: string, w: World) returns (out: string)
      requires WorldOk(w) && Valid(w.table) && n in users && forall m :: m in names ==> m in users
      requires text == SavedText(BookOf(users), names, w.table)
      ensures out == SavedText(BookOf(users), names + [n], w.table)
    {
      hide UserOk, WorldOk, Injective, Rules;
      SoundSubsAt(users, n, w);
      UserPermsOk(users[n].View(), w);
      var descr := users[n].Describe(w);
      out := text + ("user " + n + " " + descr) + "\n";
      assert (names + [n])[..|names|] == names;
      assert BookOf(users)[n] == users[n].View();
    }

    /** The staged set takes over; the default user is copied into the old object. */
    method Adopt(staged: map<string, Account>, w: World)
      requires WorldOk(w) && Injective(staged) && "default" in staged && Sound(BookOf(staged), w.table)
      requires defaultUser !in staged.Values && Named(staged.Keys)
      modifies this`users, defaultUser
      ensures Valid(w.table) && BookOf(users) == old(BookOf(staged)) && users == staged["default" := defaultUser]
    {
      hide UserOk, WorldOk, Injective, Sound;
      SoundSubsAt(staged, "default", w);
      InjectiveWith(staged, "default", defaultUser);
      defaultUser.CopyFrom(staged["default"]);
      users := staged["default" := defaultUser];
      assert BookOf(users) == BookOf(staged);
    }
  }

  lemma SoundSubsOf(u: User, w: World)
    requires WorldOk(w) && UserOk(u, w.table)
    ensures SubsSound(u.perms.subs)
  {
    SoundSubs(u, w.table);
  }

  lemma SoundSubsAt(users: map<string, Account>, name: string, w: World)
    requires WorldOk(w) && Sound(BookOf(users), w.table) && name in users
    ensures SubsSound(users[name].subs) && UserOk(users[name].View(), w.table)
  {
    assert BookOf(users)[name] == users[name].View();
    SoundSubsOf(users[name].View(), w);
  }
}
