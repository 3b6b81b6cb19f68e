/** The clock is read when a command sets an expire time and again when it is written to the log. */
module AofClock {
  import opened AofFormat
  import opened AofLoader
  import opened AofReplay
  import opened AofFeed

  /** The expire time a command sets relative to the clock. */
  function Relative(cmd: Command, f: SetFlags): (e: Expiry)
    ensures !e.Never? ==> |cmd| >= 3
  {
    if IsNamed(cmd, "expire", 3) || IsNamed(cmd, "setex", 4) then Seconds(cmd[2])
    else if IsNamed(cmd, "pexpire", 3) || IsNamed(cmd, "psetex", 4) then Millis(cmd[2])
    else if |cmd| > 3 && Name(cmd) == "set" then f.expiry
    else Never
  }

  /** The two readings, neither giving the number that stands for no expire time. */
  predicate Clocks(cmd: Command, f: SetFlags, now: int, fed: int, delay: nat) {
    && now <= fed <= now + delay
    && (now == fed || Relative(cmd, f).Never?
        || (When(Relative(cmd, f), now) != NO_EXPIRE && When(Relative(cmd, f), fed) != NO_EXPIRE))
  }

  predicate NearTimes(x: int, y: int, delay: nat) {
    x == y || (x != NO_EXPIRE && y != NO_EXPIRE && x <= y <= x + delay)
  }

  predicate NearEntry(a: Entry, b: Entry, delay: nat) {
    a.value == b.value && NearTimes(a.expire, b.expire, delay)
  }

  /** The same keys and values, and expire times in b that are never earlier and at most `delay` later. */
  predicate Near(a: Data, b: Data, delay: nat) {
    a.Keys == b.Keys && forall k :: k in a ==> NearEntry(a[k], b[k], delay)
  }

  lemma NearNow(a: Data, b: Data)
    ensures Near(a, b, 0) <==> a == b
  {
    if Near(a, b, 0) {
      forall k | k in a ensures a[k] == b[k] {
        assert NearEntry(a[k], b[k], 0);
      }
    }
  }

  lemma NearSelf(a: Data, delay: nat)
    ensures Near(a, a, delay)
  {
  }

  /** What the uninterpreted commands do to a dataset does not depend on its exact expire times. */
  ghost predicate Steady(other: Other, delay: nat) {
    forall a, b, db, cmd :: Near(a, b, delay) ==> Near(other(a, db, cmd), other(b, db, cmd), delay)
  }

  /** With one reading that asks nothing of them. */
  lemma SteadyNow(other: Other)
    ensures Steady(other, 0)
  {
    forall a, b, db, cmd | Near(a, b, 0) ensures Near(other(a, db, cmd), other(b, db, cmd), 0) {
      NearNow(a, b);
      NearSelf(other(a, db, cmd), 0);
    }
  }

  // ---------------------------------------------------------------------- one command

  /** The two effects differ in the one expire time, by the difference of the readings. */
  lemma TwoReadings(d: Data, db: nat, cmd: Command, f: SetFlags, now: int, fed: int, other: Other)
    ensures var a, b := Live(d, db, cmd, f, now, other), Live(d, db, cmd, f, fed, other);
            if Relative(cmd, f).Never? then a == b
            else
              var at := (db, cmd[1]);
              if at in a then b == a[at := a[at].(expire := a[at].expire + fed - now)] else a == b == d
  {
    hide Exec, Name;
    var e := Relative(cmd, f);
    if !e.Never? {
      assert When(e, fed) == When(e, now) + fed - now;
    }
  }

  /**
   * Replaying what is written gives the dataset if and only if the clock stood still, no relative
   * expire time was set, or the key was not there.
   */
  lemma ReplayExact(p: Place, cmd: Command, f: SetFlags, now: int, fed: int, other: Other)
    requires Accepted(cmd, f) && !Conflicts(cmd)
    ensures var live := Live(p.data, p.db, cmd, f, now, other);
            var replayed := Replay(p, Translate(cmd, fed), other).data;
            && (Relative(cmd, f).Never? ==> replayed == live)
            && (!Relative(cmd, f).Never? ==>
                  var at := (p.db, cmd[1]);
                  && (at !in live ==> replayed == live)
                  && (at in live ==> replayed == live[at := live[at].(expire := live[at].expire + fed - now)])
                  && (replayed == live <==> now == fed || at !in live))
  {
    hide Live, Replay, Translate, Accepted, Conflicts, Relative;
    TranslateFaithful(p, cmd, f, fed, other);
    TwoReadings(p.data, p.db, cmd, f, now, fed, other);
    var live := Live(p.data, p.db, cmd, f, now, other);
    if !Relative(cmd, f).Never? && (p.db, cmd[1]) in live && now != fed {
      var at := (p.db, cmd[1]);
      assert live[at := live[at].(expire := live[at].expire + fed - now)][at].expire != live[at].expire;
    }
  }

  /** EXPIRE k 10, written a millisecond later. */
  lemma ClockMoves(other: Other)
    ensures var p := Place(map[(0, "k") := Entry(Str("v"), NO_EXPIRE)], 0);
            var cmd := ["EXPIRE", "k", "10"];
            Replay(p, Translate(cmd, 1), other).data != Live(p.data, 0, cmd, NoFlags, 0, other)
  {
    var p := Place(map[(0, "k") := Entry(Str("v"), NO_EXPIRE)], 0);
    var cmd := ["EXPIRE", "k", "10"];
    assert Text.Lower("EXPIRE") == "expire";
    assert (0, "k") in Live(p.data, 0, cmd, NoFlags, 0, other) && Relative(cmd, NoFlags) == Seconds("10");
    hide Live, Replay, Translate;
    ReplayExact(p, cmd, NoFlags, 0, 1, other);
  }

  // ----------------------------------------------------------------- near datasets stay near

  lemma BuildNear(a: Data, b: Data, at: (nat, string), name: string, args: seq<string>, delay: nat)
    requires Near(a, b, delay)
    ensures Near(Build(a, at, name, args), Build(b, at, name, args), delay)
  {
    hide PutPairs, EmptyFor;
    if at in a {
      assert NearEntry(a[at], b[at], delay);
      AddedNear(a[at], b[at], name, args, delay);
    } else {
      var e := Entry(EmptyFor(name), NO_EXPIRE);
      AddedNear(e, e, name, args, delay);
    }
    hide Added;
  }

  lemma AddedNear(a: Entry, b: Entry, name: string, args: seq<string>, delay: nat)
    requires NearEntry(a, b, delay)
    ensures NearEntry(Added(a, name, args), Added(b, name, args), delay)
  {
    hide PutPairs;
  }

  lemma ExecNear(a: Data, b: Data, db: nat, cmd: Command, other: Other, delay: nat)
    requires Near(a, b, delay) && Steady(other, delay)
    ensures Near(Exec(a, db, cmd, other), Exec(b, db, cmd, other), delay)
  {
    hide Name, Build, NearEntry, IsMulti, IsExec;
    if cmd == [] || IsMulti(cmd) || IsExec(cmd) {
    } else if |cmd| == 3 && Name(cmd) == "set" {
      SetNear(a, b, (db, cmd[1]), cmd[2], NO_EXPIRE, NO_EXPIRE, delay);
    } else if |cmd| == 3 && Name(cmd) == "pexpireat" {
      ExpireNear(a, b, (db, cmd[1]), Decimal.Atoi(cmd[2]), Decimal.Atoi(cmd[2]), delay);
    } else if Builds(cmd) {
      BuildNear(a, b, (db, cmd[1]), Name(cmd), cmd[2..], delay);
    } else {
      assert Near(other(a, db, cmd), other(b, db, cmd), delay);
    }
  }

  lemma SetNear(a: Data, b: Data, at: (nat, string), text: string, x: int, y: int, delay: nat)
    requires Near(a, b, delay) && NearTimes(x, y, delay)
    ensures Near(SetString(a, at, text, x), SetString(b, at, text, y), delay)
  {
  }

  lemma ExpireNear(a: Data, b: Data, at: (nat, string), x: int, y: int, delay: nat)
    requires Near(a, b, delay) && NearTimes(x, y, delay)
    ensures Near(SetExpire(a, at, x), SetExpire(b, at, y), delay)
  {
    if at in a { assert NearEntry(a[at], b[at], delay); }
  }

  /** One command in two near datasets, at two near times. */
  lemma LiveNear(a: Data, b: Data, db: nat, cmd: Command, f: SetFlags, now: int, fed: int, other: Other, delay: nat)
    requires Near(a, b, delay) && Steady(other, delay) && Clocks(cmd, f, now, fed, delay)
    ensures Near(Live(a, db, cmd, f, now, other), Live(b, db, cmd, f, fed, other), delay)
  {
    hide Near, Steady, Exec, SetExpire, SetString, Name;
    var e := Relative(cmd, f);
    assert When(e, fed) == When(e, now) + if e.Never? then 0 else fed - now;
    if IsNamed(cmd, "expire", 3) || IsNamed(cmd, "pexpire", 3) {
      ExpireNear(a, b, (db, cmd[1]), When(e, now), When(e, fed), delay);
    } else if IsNamed(cmd, "expireat", 3) {
      var x := When(Seconds(cmd[2]), 0);
      ExpireNear(a, b, (db, cmd[1]), x, x, delay);
    } else if IsNamed(cmd, "setex", 4) || IsNamed(cmd, "psetex", 4) {
      SetNear(a, b, (db, cmd[1]), cmd[3], When(e, now), When(e, fed), delay);
    } else if |cmd| > 3 && Name(cmd) == "set" && !f.expiry.Never? {
      SetNear(a, b, (db, cmd[1]), cmd[2], When(e, now), When(e, fed), delay);
    } else {
      ExecNear(a, b, db, cmd, other, delay);
    }
  }
}
