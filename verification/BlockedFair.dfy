/** Which client gets which element: in the order they blocked, from the end each asked for. */
module BlockedFair {
  import opened Options
  import opened Blocked

  function WaitsAt(s: State, k: Key): seq<nat> { if k in s.waiting then s.waiting[k] else [] }

  predicate Left(s: State, k: Key, ws: seq<nat>) {
    if ws == [] then k !in s.waiting else k in s.waiting && s.waiting[k] == ws
  }

  // ---------------------------------------------------------------------------- one turn

  /** The target of a BRPOPLPUSH holds something that is no list. */
  predicate WrongTarget(s: State, target: Option<Key>) {
    target.Some? && target.value in s.data && !s.data[target.value].Lst?
  }

  function ItemsAt(data: map<Key, Obj>, k: Key): seq<Elem> {
    if k in data && data[k].Lst? then data[k].items else []
  }

  /**
   * One turn: the first client gets the first element for BLPOP and the last one for BRPOP and
   * BRPOPLPUSH, which pushes it in front of the target; with a wrong target the data stay as they were.
   */
  lemma ServeOneExact(s: State, k: Key)
    requires CanServe(s, k, 1) && s.data[k].items != []
    ensures var s', c, cl, items := ServeOne(s, k), s.waiting[k][0], First(s, k), s.data[k].items;
            var e := if cl.side.Head? then items[0] else items[|items| - 1];
            var rest := if cl.side.Head? then items[1..] else items[..|items| - 1];
            && s'.served == s.served + [Service(c, k, e, !WrongTarget(s, cl.target))]
            && s'.handed == s.handed + (if cl.target.None? then [e] else [])
            && s'.data == (if WrongTarget(s, cl.target) then s.data
                           else if cl.target.None? then s.data[k := Lst(rest)]
                           else if cl.target.value == k then s.data[k := Lst([e] + rest)]
                           else s.data[k := Lst(rest)][cl.target.value := Lst([e] + ItemsAt(s.data, cl.target.value))])
  {
    hide Leave;
    var items, side, target := s.data[k].items, First(s, k).side, First(s, k).target;
    var rest := Shorter(items, side);
    assert Pushed(rest, side, Popped(items, side)) == items;
    assert s.data[k := Lst(rest)][k := Lst(items)] == s.data;
    assert [Popped(items, side)] + [] == [Popped(items, side)];
    if target == Some(k) {
      var o := Lst([Popped(items, side)] + rest);
      assert s.data[k := Lst(rest)][k := o] == s.data[k := o];
    }
  }

  /** That client waits for nothing any more, and the others stay as they are. */
  lemma ServeOneLeaves(s: State, k: Key)
    requires CanServe(s, k, 1) && s.data[k].items != []
    ensures var s', c := ServeOne(s, k), s.waiting[k][0];
            && c in s'.clients && !Blocking(s'.clients[c]) && s'.clients[c].keys == {} && s'.clients[c].target.None?
            && s'.clients[c].queued && s'.blocked == s.blocked - 1
            && (forall j :: j in s'.waiting ==> c !in s'.waiting[j])
            && s'.clients.Keys == s.clients.Keys
            && (forall d :: d in s.clients && d != c ==> s'.clients[d] == s.clients[d])
  {
    hide Without;
  }

  // ---------------------------------------------------------------------------- one key

  /** The client waits for a list, and its element goes to it or to another list than k. */
  predicate Takes(s: State, c: nat, k: Key) {
    && c in s.clients && s.clients[c].kind.OnList?
    && !WrongTarget(s, s.clients[c].target) && s.clients[c].target != Some(k)
  }

  predicate AllTake(s: State, k: Key) {
    forall i :: 0 <= i < |WaitsAt(s, k)| ==> Takes(s, WaitsAt(s, k)[i], k)
  }

  function SideOf(s: State, c: nat): Side { if c in s.clients then s.clients[c].side else Head }

  function Sides(s: State, ws: seq<nat>): (r: seq<Side>)
    ensures |r| == |ws|
  {
    seq(|ws|, i requires 0 <= i < |ws| => SideOf(s, ws[i]))
  }

  /** How many of the first m take from the head. */
  function Heads(sides: seq<Side>, m: nat): (h: nat)
    requires m <= |sides|
    ensures h <= m
  {
    if m == 0 then 0 else Heads(sides, m - 1) + if sides[m - 1].Head? then 1 else 0
  }

  lemma {:induction false} HeadsFirst(sides: seq<Side>, m: nat)
    requires 0 < m <= |sides|
    ensures Heads(sides, m) == (if sides[0].Head? then 1 else 0) + Heads(sides[1..], m - 1)
  {
    if m > 1 { HeadsFirst(sides, m - 1); }
  }

  /** What the i-th client gets. */
  function Share(items: seq<Elem>, sides: seq<Side>, i: nat): Elem
    requires i < |sides| && i < |items|
  {
    var h := Heads(sides, i);
    if sides[i].Head? then items[h] else items[|items| - 1 - (i - h)]
  }

  /** What is left when m have got theirs. */
  function Rest(items: seq<Elem>, sides: seq<Side>, m: nat): seq<Elem>
    requires m <= |sides| && m <= |items|
  {
    var h := Heads(sides, m);
    items[h..|items| - (m - h)]
  }

  lemma ShareNext(items: seq<Elem>, sides: seq<Side>, i: nat)
    requires 0 < i < |sides| && i < |items|
    ensures Share(items, sides, i) == Share(Shorter(items, sides[0]), sides[1..], i - 1)
  {
    HeadsFirst(sides, i);
  }

  lemma RestNext(items: seq<Elem>, sides: seq<Side>, m: nat)
    requires 0 < m <= |sides| && m <= |items|
    ensures Rest(items, sides, m) == Rest(Shorter(items, sides[0]), sides[1..], m - 1)
  {
    HeadsFirst(sides, m);
  }

  function Least(a: nat, b: nat): nat { if a < b then a else b }

  /** From s to s' the first m of ws got their shares of the items, in order, and the others kept their places. */
  predicate Shared(s: State, s': State, k: Key, ws: seq<nat>, items: seq<Elem>, sides: seq<Side>, m: nat) {
    && m <= |ws| == |sides| && m <= |items|
    && |s'.served| == |s.served| + m && s'.served[..|s.served|] == s.served
    && (forall i :: 0 <= i < m ==> s'.served[|s.served| + i] == Service(ws[i], k, Share(items, sides, i), true))
    && Left(s', k, ws[m..]) && k in s'.data && s'.data[k] == Lst(Rest(items, sides, m))
  }

  lemma ServeOneTakes(s: State, k: Key, local: seq<Key>)
    requires Inv(s, local) && CanServe(s, k, 1) && s.data[k].items != [] && AllTake(s, k)
    ensures var s', ws, items := ServeOne(s, k), s.waiting[k], s.data[k].items;
            && AllTake(s', k) && Left(s', k, ws[1..])
            && k in s'.data && s'.data[k] == Lst(Shorter(items, SideOf(s, ws[0])))
            && s'.served == s.served + [Service(ws[0], k, Popped(items, SideOf(s, ws[0])), true)]
            && Sides(s', ws[1..]) == Sides(s, ws[1..])
  {
    var ws := s.waiting[k];
    assert Takes(s, WaitsAt(s, k)[0], k) && Distinct(ws);
    ServeOneExact(s, k);
    ServeOneLeaves(s, k);
    ServeOneOk(s, k, local);
    hide ServeOne, Inv, CanServe;
    var s' := ServeOne(s, k);
    forall i | 0 <= i < |ws| - 1 ensures ws[1..][i] in s'.clients && s'.clients[ws[1..][i]] == s.clients[ws[i + 1]] {
      assert Takes(s, WaitsAt(s, k)[i + 1], k) && ws[1..][i] == ws[i + 1] != ws[0];
    }
    forall i | 0 <= i < |WaitsAt(s', k)| ensures Takes(s', WaitsAt(s', k)[i], k) {
      assert WaitsAt(s', k) == ws[1..] && Takes(s, WaitsAt(s, k)[i + 1], k);
    }
  }

  lemma SharedNext(s: State, s1: State, s': State, k: Key, ws: seq<nat>, items: seq<Elem>, sides: seq<Side>, m: nat)
    requires ws != [] && items != [] && |sides| == |ws|
    requires s1.served == s.served + [Service(ws[0], k, Popped(items, sides[0]), true)]
    requires Shared(s1, s', k, ws[1..], Shorter(items, sides[0]), sides[1..], m)
    ensures Shared(s, s', k, ws, items, sides, m + 1)
  {
    hide Share, Rest;
    assert ws[1..][m..] == ws[m + 1..];
    RestNext(items, sides, m + 1);
    assert s'.served[..|s.served|] == s'.served[..|s1.served|][..|s.served|];
    forall i | 0 <= i < m + 1 ensures s'.served[|s.served| + i] == Service(ws[i], k, Share(items, sides, i), true) {
      if i == 0 {
        assert s'.served[|s.served|] == s'.served[..|s1.served|][|s.served|];
        FirstShare(items, sides);
      } else {
        ShareNext(items, sides, i);
        assert s'.served[|s1.served| + (i - 1)] == Service(ws[1..][i - 1], k, Share(Shorter(items, sides[0]), sides[1..], i - 1), true);
      }
    }
  }

  lemma FirstShare(items: seq<Elem>, sides: seq<Side>)
    requires items != [] && sides != []
    ensures Share(items, sides, 0) == Popped(items, sides[0])
  {
  }

  lemma SharedNone(s: State, k: Key, local: seq<Key>)
    requires Inv(s, local) && k in s.data && s.data[k].Lst?
    ensures Shared(s, s, k, WaitsAt(s, k), s.data[k].items, Sides(s, WaitsAt(s, k)), 0)
  {
    if k in s.waiting { FirstKnown(s, k); }
    var ws, items := WaitsAt(s, k), s.data[k].items;
    assert ws[0..] == ws && items[0..|items|] == items && s.served[..|s.served|] == s.served;
  }

  lemma LoopTurn(s: State, k: Key, n: nat, local: seq<Key>)
    requires Inv(s, local) && CanServe(s, k, n) && AllTake(s, k) && n > 0 && s.data[k].items != []
    ensures Inv(ServeOne(s, k), local) && CanServe(ServeOne(s, k), k, n - 1)
    ensures ServeLoop(s, k, n, local) == ServeLoop(ServeOne(s, k), k, n - 1, local)
  {
    assert Takes(s, WaitsAt(s, k)[0], k);
    ServeTurn(s, k, n, local);
    hide Inv, ServeOne;
  }

  lemma LoopStops(s: State, k: Key, n: nat, local: seq<Key>)
    requires Inv(s, local) && CanServe(s, k, n) && AllTake(s, k) && (n == 0 || s.data[k].items == [])
    ensures ServeLoop(s, k, n, local) == s
  {
    if n > 0 { assert Takes(s, WaitsAt(s, k)[0], k); }
  }

  /**
   * First come, first served: as many as there are elements are taken up, in the order they
   * blocked, each with the next element from its end; the others keep their places.
   */
  lemma {:induction false} Fifo(s: State, k: Key, n: nat, local: seq<Key>)
    requires Inv(s, local) && CanServe(s, k, n) && AllTake(s, k)
    ensures Shared(s, ServeLoop(s, k, n, local), k, WaitsAt(s, k), s.data[k].items, Sides(s, WaitsAt(s, k)),
                   Least(n, |s.data[k].items|))
    decreases n
  {
    hide Inv, ServeOne, ServeLoop, AllTake, Shared, Sides, Left, Shorter;
    if n > 0 && s.data[k].items != [] {
      LoopTurn(s, k, n, local);
      ServeOneTakes(s, k, local);
      var s1, ws, items := ServeOne(s, k), s.waiting[k], s.data[k].items;
      var sides := Sides(s, ws);
      ShorterBy(items, SideOf(s, ws[0]));
      Fifo(s1, k, n - 1, local);
      SidesRest(s, ws);
      LeftWaits(s1, k, ws[1..]);
      SharedNext(s, s1, ServeLoop(s, k, n, local), k, ws, items, sides, Least(n - 1, |s1.data[k].items|));
    } else {
      LoopStops(s, k, n, local);
      SharedNone(s, k, local);
    }
  }

  lemma ShorterBy(items: seq<Elem>, side: Side)
    requires items != []
    ensures |Shorter(items, side)| == |items| - 1
  {
  }

  lemma SidesRest(s: State, ws: seq<nat>)
    requires ws != []
    ensures Sides(s, ws)[1..] == Sides(s, ws[1..]) && Sides(s, ws)[0] == SideOf(s, ws[0])
  {
  }

  lemma LeftWaits(s: State, k: Key, ws: seq<nat>)
    requires Left(s, k, ws)
    ensures WaitsAt(s, k) == ws
  {
  }

  /** Handling a ready list does this, and drops the list if nothing is left. */
  lemma HandleKeyShares(s: State, local: seq<Key>)
    requires Inv(s, local) && local != [] && local[0] in s.data && s.data[local[0]].Lst? && AllTake(s, local[0])
    ensures var s', k := HandleKey(s, local), local[0];
            var ws, items := WaitsAt(s, k), s.data[k].items;
            var sides, m := Sides(s, ws), Least(|ws|, |items|);
            && (k in s'.data <==> Rest(items, sides, m) != [])
            && Shared(s, s'.(data := s'.data[k := Lst(Rest(items, sides, m))]), k, ws, items, sides, m)
            && (k in s'.data ==> s'.data[k] == Lst(Rest(items, sides, m)))
  {
    hide HandleKey, Inv, AllTake, Shared, Rest, Heads, Sides;
    var r := HandleKeyLoop(s, local);
    var k := local[0];
    SharedItems(s, r, k, WaitsAt(s, k), s.data[k].items, Sides(s, WaitsAt(s, k)), Least(|WaitsAt(s, k)|, |s.data[k].items|));
    assert r.data[k := r.data[k]] == r.data;
    assert (r.data - {k})[k := r.data[k]] == r.data;
  }

  lemma SharedItems(s: State, r: State, k: Key, ws: seq<nat>, items: seq<Elem>, sides: seq<Side>, m: nat)
    requires Shared(s, r, k, ws, items, sides, m)
    ensures m <= |sides| && m <= |items| && k in r.data && r.data[k] == Lst(Rest(items, sides, m))
  {
  }

  lemma HandleKeyLoop(s: State, local: seq<Key>) returns (r: State)
    requires Inv(s, local) && local != [] && local[0] in s.data && s.data[local[0]].Lst? && AllTake(s, local[0])
    ensures var k := local[0]; var ws, items := WaitsAt(s, k), s.data[k].items;
            && Shared(s, r, k, ws, items, Sides(s, ws), Least(|ws|, |items|))
            && k in r.data && r.data[k].Lst?
            && HandleKey(s, local) == if r.data[k].items == [] then r.(data := r.data - {k}) else r
  {
    UnreadyOk(s, local);
    var s0, k := s.(readySet := s.readySet - {local[0]}), local[0];
    var ws := WaitsAt(s, k);
    if k in s0.waiting { FirstKnown(s0, k); }
    hide IndexOk, ReadyAgrees, AllTake, Sides, ServeLoop;
    SameTakes(s, s0, k);
    Fifo(s0, k, |ws|, local[1..]);
    r := ServeLoop(s0, k, |ws|, local[1..]);
    hide Rest, Share, Heads, Left;
  }

  lemma SameTakes(s: State, s0: State, k: Key)
    requires s0 == s.(readySet := s0.readySet) && AllTake(s, k)
    ensures AllTake(s0, k) && WaitsAt(s0, k) == WaitsAt(s, k) && Sides(s0, WaitsAt(s, k)) == Sides(s, WaitsAt(s, k))
  {
    var ws := WaitsAt(s, k);
    forall i | 0 <= i < |ws| ensures Takes(s0, ws[i], k) {
      assert Takes(s, WaitsAt(s, k)[i], k);
    }
  }
}
