/** The options of SET: which lists of arguments are accepted, and with what effect. */
module AofOptions {
  import opened Options
  import opened AofFeed

  datatype SetOption = Nx | Xx | Keep | Ex(time: string) | Px(time: string)

  /** The arguments spell these options, in any case. */
  predicate Spells(args: seq<string>, opts: seq<SetOption>)
    decreases |opts|
  {
    if opts == [] then args == []
    else
      match opts[0]
      case Nx => args != [] && OptionName(args[0]) == "nx" && Spells(args[1..], opts[1..])
      case Xx => args != [] && OptionName(args[0]) == "xx" && Spells(args[1..], opts[1..])
      case Keep => args != [] && OptionName(args[0]) == "keepttl" && Spells(args[1..], opts[1..])
      case Ex(t) => |args| > 1 && OptionName(args[0]) == "ex" && args[1] == t && Spells(args[2..], opts[1..])
      case Px(t) => |args| > 1 && OptionName(args[0]) == "px" && args[1] == t && Spells(args[2..], opts[1..])
  }

  predicate InSeconds(opts: seq<SetOption>) { exists i :: 0 <= i < |opts| && opts[i].Ex? }

  predicate InMillis(opts: seq<SetOption>) { exists i :: 0 <= i < |opts| && opts[i].Px? }

  /** NX excludes XX, and KEEPTTL, EX and PX exclude each other. */
  predicate Compatible(opts: seq<SetOption>) {
    && !(Nx in opts && Xx in opts)
    && !(Keep in opts && InSeconds(opts)) && !(Keep in opts && InMillis(opts)) && !(InSeconds(opts) && InMillis(opts))
  }

  /** The last expire time given. */
  function LastTime(opts: seq<SetOption>): Expiry {
    if opts == [] then Never
    else
      match opts[|opts| - 1]
      case Ex(t) => Seconds(t)
      case Px(t) => Millis(t)
      case _ => LastTime(opts[..|opts| - 1])
  }

  function FlagsOf(opts: seq<SetOption>): SetFlags { SetFlags(Nx in opts, Xx in opts, Keep in opts, LastTime(opts)) }

  /** One more option. */
  lemma CompatibleNext(opts: seq<SetOption>, o: SetOption)
    requires Compatible(opts)
    ensures var f := FlagsOf(opts);
            Compatible(opts + [o]) <==>
              match o
              case Nx => !f.xx
              case Xx => !f.nx
              case Keep => f.expiry.Never?
              case Ex(_) => !f.keep && !f.expiry.Millis?
              case Px(_) => !f.keep && !f.expiry.Seconds?
  {
    var more := opts + [o];
    assert more[|opts|] == o && forall i :: 0 <= i < |opts| ==> more[i] == opts[i];
    LastTimeIs(opts);
    UnitsNext(opts, o);
  }

  lemma UnitsNext(opts: seq<SetOption>, o: SetOption)
    ensures InSeconds(opts + [o]) <==> InSeconds(opts) || o.Ex?
    ensures InMillis(opts + [o]) <==> InMillis(opts) || o.Px?
  {
    var more := opts + [o];
    assert more[|opts|] == o && forall i :: 0 <= i < |opts| ==> more[i] == opts[i];
  }

  lemma {:induction false} LastTimeIs(opts: seq<SetOption>)
    requires Compatible(opts)
    ensures LastTime(opts).Seconds? <==> InSeconds(opts)
    ensures LastTime(opts).Millis? <==> InMillis(opts)
  {
    if opts != [] {
      var rest, o := opts[..|opts| - 1], opts[|opts| - 1];
      assert opts == rest + [o];
      UnitsNext(rest, o);
      LastTimeIs(rest);
    }
  }

  lemma FlagsNext(opts: seq<SetOption>, o: SetOption)
    ensures var f := FlagsOf(opts);
            FlagsOf(opts + [o]) ==
              match o
              case Nx => f.(nx := true)
              case Xx => f.(xx := true)
              case Keep => f.(keep := true)
              case Ex(t) => f.(expiry := Seconds(t))
              case Px(t) => f.(expiry := Millis(t))
  {
    assert (opts + [o])[..|opts|] == opts;
  }

  /** The first option and how many arguments it takes. */
  function Token(args: seq<string>): (r: Option<(SetOption, nat)>)
    ensures r.Some? ==> 1 <= r.value.1 <= |args|
  {
    if args == [] then None
    else if OptionName(args[0]) == "nx" then Some((Nx, 1))
    else if OptionName(args[0]) == "xx" then Some((Xx, 1))
    else if OptionName(args[0]) == "keepttl" then Some((Keep, 1))
    else if |args| > 1 && OptionName(args[0]) == "ex" then Some((Ex(args[1]), 2))
    else if |args| > 1 && OptionName(args[0]) == "px" then Some((Px(args[1]), 2))
    else None
  }

  lemma SpellsFirst(args: seq<string>, opts: seq<SetOption>)
    requires args != []
    ensures Spells(args, opts) <==>
              && opts != [] && Token(args).Some? && Token(args).value.0 == opts[0]
              && Spells(args[Token(args).value.1..], opts[1..])
  {
    hide OptionName;
    NamesDiffer();
  }

  lemma NamesDiffer()
    ensures "nx" != "xx" && "nx" != "keepttl" && "nx" != "ex" && "nx" != "px"
    ensures "xx" != "keepttl" && "xx" != "ex" && "xx" != "px" && "keepttl" != "ex" && "keepttl" != "px" && "ex" != "px"
  {
    assert "nx"[0] == 'n' && "xx"[0] == 'x' && "keepttl"[0] == 'k' && "ex"[0] == 'e' && "px"[0] == 'p';
  }

  lemma ReadsFirst(args: seq<string>, before: seq<SetOption>, g: SetFlags)
    requires args != [] && Compatible(before)
    ensures ReadsOptions(args, FlagsOf(before), g) <==>
              && Token(args).Some? && Compatible(before + [Token(args).value.0])
              && ReadsOptions(args[Token(args).value.1..], FlagsOf(before + [Token(args).value.0]), g)
  {
    hide OptionName, Compatible, FlagsOf;
    NamesDiffer();
    if Token(args).Some? {
      CompatibleNext(before, Token(args).value.0);
      FlagsNext(before, Token(args).value.0);
    }
  }

  lemma CompatiblePrefix(opts: seq<SetOption>, more: seq<SetOption>)
    requires Compatible(opts + more)
    ensures Compatible(opts)
  {
    assert forall i :: 0 <= i < |opts| ==> (opts + more)[i] == opts[i];
  }

  /** The options still to come, after those before. */
  ghost predicate Fits(args: seq<string>, before: seq<SetOption>, opts: seq<SetOption>, g: SetFlags) {
    Spells(args, opts) && Compatible(before + opts) && g == FlagsOf(before + opts)
  }

  lemma {:induction false} ReadsFrom(args: seq<string>, before: seq<SetOption>, g: SetFlags)
    requires Compatible(before)
    ensures ReadsOptions(args, FlagsOf(before), g) <==> exists opts :: Fits(args, before, opts, g)
    decreases |args|
  {
    hide OptionName, Compatible, FlagsOf;
    if args == [] {
      assert before + [] == before && (Fits(args, before, [], g) <==> FlagsOf(before) == g);
      assert forall opts :: Spells(args, opts) ==> opts == [];
    } else {
      ReadsFirst(args, before, g);
      hide ReadsOptions, Spells;
      var token := Token(args);
      if token.Some? && Compatible(before + [token.value.0]) {
        ReadsFrom(args[token.value.1..], before + [token.value.0], g);
      }
      forall opts ensures Fits(args, before, opts, g) <==>
                            && opts != [] && token.Some? && token.value.0 == opts[0]
                            && Compatible(before + [opts[0]]) && Fits(args[token.value.1..], before + [opts[0]], opts[1..], g)
      {
        FitsFirst(args, before, opts, g);
      }
      hide Fits, Token;
      if token.Some? && Compatible(before + [token.value.0]) {
        var o, rest := token.value.0, args[token.value.1..];
        if more :| Fits(rest, before + [o], more, g) {
          assert ([o] + more)[1..] == more && Fits(args, before, [o] + more, g);
        }
      }
    }
  }

  lemma FitsFirst(args: seq<string>, before: seq<SetOption>, opts: seq<SetOption>, g: SetFlags)
    requires args != []
    ensures Fits(args, before, opts, g) <==>
              && opts != [] && Token(args).Some? && Token(args).value.0 == opts[0]
              && Compatible(before + [opts[0]]) && Fits(args[Token(args).value.1..], before + [opts[0]], opts[1..], g)
  {
    SpellsFirst(args, opts);
    hide Compatible, FlagsOf, Spells, Token;
    if opts != [] {
      assert before + [opts[0]] + opts[1..] == before + opts;
      if Compatible(before + opts) {
        CompatiblePrefix(before + [opts[0]], opts[1..]);
      }
    }
  }

  /**
   * SET accepts its arguments exactly if they spell compatible options, in any order and with any
   * repetitions; then the flags are those that occur, and the expire time is the last one given.
   */
  lemma OptionsExact(args: seq<string>, g: SetFlags)
    ensures ReadsOptions(args, NoFlags, g) <==> exists opts :: Spells(args, opts) && Compatible(opts) && g == FlagsOf(opts)
  {
    assert FlagsOf([]) == NoFlags;
    ReadsFrom(args, [], g);
    hide ReadsOptions, Spells, Compatible, FlagsOf;
    forall opts ensures Fits(args, [], opts, g) <==> Spells(args, opts) && Compatible(opts) && g == FlagsOf(opts) {
      assert [] + opts == opts;
    }
    hide Fits;
  }

  /** The loop of setCommand; none for a syntax error. */
  method ReadOptions(args: seq<string>) returns (r: Option<SetFlags>)
    ensures forall g :: ReadsOptions(args, NoFlags, g) <==> r == Some(g)
  {
    var f, j := NoFlags, 0;
    while j < |args|
      invariant j <= |args|
      invariant forall g :: ReadsOptions(args, NoFlags, g) <==> ReadsOptions(args[j..], f, g)
    {
      var a := OptionName(args[j]);
      assert args[j..][0] == args[j] && args[j..][1..] == args[j + 1..];
      assert j + 1 < |args| ==> args[j..][1] == args[j + 1] && args[j..][2..] == args[j + 2..];
      NamesDiffer();
      hide OptionName;
      if a == "nx" && !f.xx {
        f := f.(nx := true);
      } else if a == "xx" && !f.nx {
        f := f.(xx := true);
      } else if a == "keepttl" && f.expiry.Never? {
        f := f.(keep := true);
      } else if a == "ex" && !f.keep && !f.expiry.Millis? && j + 1 < |args| {
        f, j := f.(expiry := Seconds(args[j + 1])), j + 1;
      } else if a == "px" && !f.keep && !f.expiry.Seconds? && j + 1 < |args| {
        f, j := f.(expiry := Millis(args[j + 1])), j + 1;
      } else {
        return None;
      }
      j := j + 1;
    }
    r := Some(f);
  }
}
