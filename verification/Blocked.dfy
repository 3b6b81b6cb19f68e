/**
 * Clients blocked on keys: the two-way index between clients and keys, the ready keys,
 * and serving clients blocked for list elements. A key stands for a database and a name.
 * The lists and their nodes are those of BlockedLists.
 */
module Blocked {
  import opened Options

  type Key = string
  type Elem = string

  datatype Side = Head | Tail

  /** OnOther: blocked for a sorted set, a stream or a module key. */
  datatype Kind = NotBlocked | OnList | OnOther

  /** keys: the keys the client waits for. */
  datatype Client = Client(kind: Kind, keys: set<Key>, target: Option<Key>, side: Side, queued: bool)

  datatype Obj = Lst(items: seq<Elem>) | OtherObj

  /** A client was taken up for an element of a key; `done` unless its target has the wrong type. */
  datatype Service = Service(client: nat, key: Key, elem: Elem, done: bool)

  /**
   * waiting: the clients of each key in the order they blocked; unblocked: clients to process again;
   * served: the services so far, in order; handed: the elements that left the lists for a client.
   */
  datatype State = State(
    waiting: map<Key, seq<nat>>, clients: map<nat, Client>, blocked: int,
    readyList: seq<Key>, readySet: set<Key>, unblocked: seq<nat>,
    data: map<Key, Obj>, served: seq<Service>, handed: seq<Elem>)

  // ------------------------------------------------------------------------ invariant

  predicate Blocking(c: Client) { !c.kind.NotBlocked? }

  predicate WaitsFor(c: nat, k: Key, clients: map<nat, Client>) {
    c in clients && k in clients[c].keys
  }

  /** Everyone in a key's list is a client waiting for that key. */
  predicate Listed(waiting: map<Key, seq<nat>>, clients: map<nat, Client>) {
    forall k, i :: k in waiting && 0 <= i < |waiting[k]| ==> WaitsFor(waiting[k][i], k, clients)
  }

  /** Every key a client waits for has that client in its list. */
  predicate Stored(waiting: map<Key, seq<nat>>, clients: map<nat, Client>) {
    forall c, k :: c in clients && k in clients[c].keys ==> k in waiting && c in waiting[k]
  }

  predicate Distinct<T(==)>(xs: seq<T>) { forall i, j :: 0 <= i < j < |xs| ==> xs[i] != xs[j] }

  /** No list is empty, and no client is in one twice. */
  predicate Lists(waiting: map<Key, seq<nat>>) {
    forall k :: k in waiting ==> waiting[k] != [] && Distinct(waiting[k])
  }

  /** A client is flagged blocked exactly while it waits for some key. */
  predicate Flagged(clients: map<nat, Client>) {
    forall c :: c in clients ==> (Blocking(clients[c]) <==> clients[c].keys != {})
  }

  function BlockedSet(clients: map<nat, Client>): set<nat> { set c | c in clients && Blocking(clients[c]) }

  /** The set of ready keys is exactly the set of queued ones, each queued once. */
  predicate ReadyAgrees(queue: seq<Key>, readySet: set<Key>) {
    Distinct(queue) && readySet == set k | k in queue
  }

  /** A client is in the queue of unblocked clients exactly while it is flagged so, and once. */
  predicate QueueAgrees(clients: map<nat, Client>, unblocked: seq<nat>) {
    && Distinct(unblocked)
    && (forall c :: c in unblocked ==> c in clients)
    && (forall c :: c in clients ==> (clients[c].queued <==> c in unblocked))
  }

  predicate IndexOk(s: State) {
    && Listed(s.waiting, s.clients) && Stored(s.waiting, s.clients) && Lists(s.waiting)
    && Flagged(s.clients) && s.blocked == |BlockedSet(s.clients)|
    && QueueAgrees(s.clients, s.unblocked)
  }

  /** `local` is the part of the ready keys already taken off the server's list. */
  predicate Inv(s: State, local: seq<Key>) {
    IndexOk(s) && ReadyAgrees(local + s.readyList, s.readySet)
  }

  // ------------------------------------------------------------------------- blocking

  /** One key of blockForKeys; a key the client already waits for is skipped. */
  function AddKey(s: State, c: nat, k: Key): State
    requires c in s.clients
  {
    if k in s.clients[c].keys then s
    else
      var ws := if k in s.waiting then s.waiting[k] else [];
      s.(waiting := s.waiting[k := ws + [c]],
         clients := s.clients[c := s.clients[c].(keys := s.clients[c].keys + {k})])
  }

  function AddKeys(s: State, c: nat, keys: seq<Key>): (r: State)
    requires c in s.clients
    ensures c in r.clients
  {
    if keys == [] then s else AddKey(AddKeys(s, c, keys[..|keys| - 1]), c, keys[|keys| - 1])
  }

  /** blockForKeys and blockClient */
  function Block(s: State, c: nat, kind: Kind, keys: seq<Key>, target: Option<Key>, side: Side): State
    requires c in s.clients
  {
    var s := AddKeys(s, c, keys);
    s.(clients := s.clients[c := s.clients[c].(kind := kind, target := target, side := side)], blocked := s.blocked + 1)
  }

  // ----------------------------------------------------------------------- unblocking

  function Without(ws: seq<nat>, c: nat): (r: seq<nat>)
    ensures forall w :: w in r <==> w in ws && w != c
  {
    if ws == [] then []
    else
      var r := Without(ws[..|ws| - 1], c);
      var w := ws[|ws| - 1];
      assert forall x :: x in ws <==> x in ws[..|ws| - 1] || x == w;
      if w == c then r else r + [w]
  }

  /** unblockClientWaitingData: the client leaves every list, and empty lists are removed. */
  function Leave(waiting: map<Key, seq<nat>>, c: nat): map<Key, seq<nat>> {
    map k | k in waiting && Without(waiting[k], c) != [] :: Without(waiting[k], c)
  }

  /** unblockClient for a client waiting for keys. */
  function Unblock(s: State, c: nat): State
    requires c in s.clients
  {
    var cl := s.clients[c];
    s.(waiting := Leave(s.waiting, c),
       clients := s.clients[c := cl.(kind := NotBlocked, keys := {}, target := None, queued := true)],
       blocked := s.blocked - 1,
       unblocked := if cl.queued then s.unblocked else s.unblocked + [c])
  }

  /** One client taken off the queue by processUnblockedClients. */
  function TakeUnblocked(s: State): State
    requires s.unblocked != [] && s.unblocked[0] in s.clients
  {
    var c := s.unblocked[0];
    s.(unblocked := s.unblocked[1..], clients := s.clients[c := s.clients[c].(queued := false)])
  }

  // ----------------------------------------------------------------------- ready keys

  /** signalKeyAsReady */
  function Signal(s: State, k: Key): State {
    if k !in s.waiting || k in s.readySet then s
    else s.(readyList := s.readyList + [k], readySet := s.readySet + {k})
  }

  // -------------------------------------------------------------------------- serving

  function Rotated(ws: seq<nat>): seq<nat> { if |ws| <= 1 then ws else ws[1..] + [ws[0]] }

  function Popped(items: seq<Elem>, side: Side): Elem
    requires items != []
  {
    if side.Head? then items[0] else items[|items| - 1]
  }

  function Shorter(items: seq<Elem>, side: Side): seq<Elem>
    requires items != []
  {
    if side.Head? then items[1..] else items[..|items| - 1]
  }

  function Pushed(items: seq<Elem>, side: Side, e: Elem): seq<Elem> {
    if side.Head? then [e] + items else items + [e]
  }

  /** serveClientBlockedOnList: hands the element out or pushes it to the target; a wrong target undoes the pop. */
  function Deliver(s: State, k: Key, c: nat, target: Option<Key>, side: Side, e: Elem): State
    requires k in s.data && s.data[k].Lst?
  {
    if target.None? then s.(served := s.served + [Service(c, k, e, true)], handed := s.handed + [e])
    else
      var d := target.value;
      if d !in s.data then
        Signal(s.(data := s.data[d := Lst([e])]), d).(served := s.served + [Service(c, k, e, true)])
      else if s.data[d].Lst? then
        s.(data := s.data[d := Lst([e] + s.data[d].items)], served := s.served + [Service(c, k, e, true)])
      else
        s.(data := s.data[k := Lst(Pushed(s.data[k].items, side, e))],
           served := s.served + [Service(c, k, e, false)])
  }

  predicate CanServe(s: State, k: Key, n: nat) {
    && k in s.data && s.data[k].Lst?
    && (n > 0 ==> k in s.waiting && |s.waiting[k]| >= n && s.waiting[k][0] in s.clients)
  }

  /** The first client of the list. */
  function First(s: State, k: Key): Client
    requires CanServe(s, k, 1)
  {
    s.clients[s.waiting[k][0]]
  }

  /** One turn of the serving loop for a client blocked for a list. */
  function ServeOne(s: State, k: Key): State
    requires CanServe(s, k, 1) && s.data[k].items != []
  {
    var c, cl, items := s.waiting[k][0], First(s, k), s.data[k].items;
    Deliver(Unblock(s.(data := s.data[k := Lst(Shorter(items, cl.side))]), c), k, c, cl.target, cl.side,
            Popped(items, cl.side))
  }

  // ------------------------------------------------------------- the index is kept: blocking

  /** While a client is being blocked it waits for keys without the flag. */
  predicate PartlyOk(s: State, c: nat) {
    && c in s.clients && !Blocking(s.clients[c])
    && Listed(s.waiting, s.clients) && Stored(s.waiting, s.clients) && Lists(s.waiting)
    && (forall d :: d in s.clients && d != c ==> (Blocking(s.clients[d]) <==> s.clients[d].keys != {}))
    && QueueAgrees(s.clients, s.unblocked)
  }

  lemma AddKeyListed(s: State, c: nat, k: Key)
    requires c in s.clients && k !in s.clients[c].keys && Listed(s.waiting, s.clients)
    ensures Listed(AddKey(s, c, k).waiting, AddKey(s, c, k).clients)
  {
  }

  lemma AddKeyStored(s: State, c: nat, k: Key)
    requires c in s.clients && k !in s.clients[c].keys && Stored(s.waiting, s.clients)
    ensures Stored(AddKey(s, c, k).waiting, AddKey(s, c, k).clients)
  {
    var s' := AddKey(s, c, k);
    assert s'.waiting[k][|s'.waiting[k]| - 1] == c;
  }

  lemma AddKeyOk(s: State, c: nat, k: Key)
    requires PartlyOk(s, c)
    ensures var s' := AddKey(s, c, k);
            PartlyOk(s', c) && k in s'.clients[c].keys && BlockedSet(s'.clients) == BlockedSet(s.clients)
            && s'.clients[c] == s.clients[c].(keys := s'.clients[c].keys)
  {
    if k !in s.clients[c].keys {
      AddKeyListed(s, c, k);
      AddKeyStored(s, c, k);
      hide Listed, Stored;
    }
  }

  lemma {:induction false} AddKeysOk(s: State, c: nat, keys: seq<Key>)
    requires PartlyOk(s, c)
    ensures var s' := AddKeys(s, c, keys);
            PartlyOk(s', c) && (keys != [] ==> s'.clients[c].keys != {}) && BlockedSet(s'.clients) == BlockedSet(s.clients)
            && s'.blocked == s.blocked && s'.clients[c].queued == s.clients[c].queued
  {
    if keys != [] {
      hide PartlyOk;
      AddKeysOk(s, c, keys[..|keys| - 1]);
      assert PartlyOk(AddKeys(s, c, keys[..|keys| - 1]), c);
      AddKeyOk(AddKeys(s, c, keys[..|keys| - 1]), c, keys[|keys| - 1]);
    }
  }

  /** Changing what does not concern the keys leaves the index alone. */
  lemma SameKeys(s: State, c: nat, cl: Client)
    requires c in s.clients && cl.keys == s.clients[c].keys
    ensures Listed(s.waiting, s.clients) ==> Listed(s.waiting, s.clients[c := cl])
    ensures Stored(s.waiting, s.clients) ==> Stored(s.waiting, s.clients[c := cl])
  {
  }

  /** The flag and the count make a client that waits for keys a blocked one. */
  lemma FlagOk(p: State, c: nat, kind: Kind, target: Option<Key>, side: Side)
    requires PartlyOk(p, c) && p.clients[c].keys != {} && !kind.NotBlocked? && p.blocked == |BlockedSet(p.clients)|
    ensures IndexOk(p.(clients := p.clients[c := p.clients[c].(kind := kind, target := target, side := side)],
                       blocked := p.blocked + 1))
  {
    var cl := p.clients[c].(kind := kind, target := target, side := side);
    SameKeys(p, c, cl);
    hide Listed, Stored, Lists;
    assert BlockedSet(p.clients[c := cl]) == BlockedSet(p.clients) + {c};
  }

  /** Blocking a client keeps the index. */
  lemma BlockOk(s: State, c: nat, kind: Kind, keys: seq<Key>, target: Option<Key>, side: Side)
    requires IndexOk(s) && c in s.clients && !Blocking(s.clients[c]) && !kind.NotBlocked? && keys != []
    ensures IndexOk(Block(s, c, kind, keys, target, side))
  {
    hide Listed, Stored, Lists, BlockedSet, AddKeys;
    AddKeysOk(s, c, keys);
    FlagOk(AddKeys(s, c, keys), c, kind, target, side);
  }

  // ----------------------------------------------------------- the index is kept: unblocking

  lemma {:induction false} WithoutDistinct(ws: seq<nat>, c: nat)
    requires Distinct(ws)
    ensures Distinct(Without(ws, c))
  {
    if ws != [] {
      var n := |ws| - 1;
      WithoutDistinct(ws[..n], c);
      var r := Without(ws[..n], c);
      forall i | 0 <= i < |r| ensures r[i] != ws[n] {
        assert r[i] in ws[..n];
      }
    }
  }

  lemma LeaveLists(waiting: map<Key, seq<nat>>, c: nat)
    requires Lists(waiting)
    ensures Lists(Leave(waiting, c))
  {
    hide Without, Distinct;
    forall k | k in Leave(waiting, c) ensures Distinct(Leave(waiting, c)[k]) {
      WithoutDistinct(waiting[k], c);
    }
  }

  lemma LeaveListed(waiting: map<Key, seq<nat>>, clients: map<nat, Client>, c: nat, cl: Client)
    requires Listed(waiting, clients)
    ensures Listed(Leave(waiting, c), clients[c := cl])
  {
    hide Without;
    var left := Leave(waiting, c);
    forall k, i | k in left && 0 <= i < |left[k]| ensures WaitsFor(left[k][i], k, clients[c := cl]) {
      var w := left[k][i];
      assert w in Without(waiting[k], c);
      var j :| 0 <= j < |waiting[k]| && waiting[k][j] == w;
      assert WaitsFor(waiting[k][j], k, clients);
    }
  }

  lemma LeaveStored(waiting: map<Key, seq<nat>>, clients: map<nat, Client>, c: nat, cl: Client)
    requires Stored(waiting, clients) && cl.keys == {}
    ensures Stored(Leave(waiting, c), clients[c := cl])
  {
    hide Without;
    var left, cs := Leave(waiting, c), clients[c := cl];
    forall d, k | d in cs && k in cs[d].keys ensures k in left && d in left[k] {
      assert d != c && d in Without(waiting[k], c);
    }
  }

  /** Unblocking a client keeps the index, and one client fewer is blocked. */
  lemma UnblockOk(s: State, c: nat)
    requires IndexOk(s) && c in s.clients && Blocking(s.clients[c])
    ensures IndexOk(Unblock(s, c)) && Unblock(s, c).blocked == s.blocked - 1 >= 0
  {
    var s' := Unblock(s, c);
    LeaveLists(s.waiting, c);
    LeaveListed(s.waiting, s.clients, c, s'.clients[c]);
    LeaveStored(s.waiting, s.clients, c, s'.clients[c]);
    hide Listed, Stored, Lists, Leave;
    assert BlockedSet(s'.clients) == BlockedSet(s.clients) - {c} && c in BlockedSet(s.clients);
  }

  lemma TakeUnblockedOk(s: State)
    requires IndexOk(s) && s.unblocked != []
    ensures s.unblocked[0] in s.clients && IndexOk(TakeUnblocked(s))
    ensures var s', c := TakeUnblocked(s), s.unblocked[0];
            && !s'.clients[c].queued && s'.clients.Keys == s.clients.Keys
            && (forall d :: d in s.clients && d != c ==> s'.clients[d] == s.clients[d])
            && (forall d :: d in s'.unblocked <==> d in s.unblocked && d != c)
  {
    var c := s.unblocked[0];
    var cl := s.clients[c].(queued := false);
    SameKeys(s, c, cl);
    hide Listed, Stored, Lists;
    assert BlockedSet(s.clients[c := cl]) == BlockedSet(s.clients);
  }

  // ------------------------------------------------------------- the index is kept: serving

  lemma {:induction false} WithoutHead(ws: seq<nat>)
    requires ws != [] && forall j :: 0 < j < |ws| ==> ws[j] != ws[0]
    ensures Without(ws, ws[0]) == ws[1..]
  {
    var n := |ws| - 1;
    if n > 0 {
      WithoutHead(ws[..n]);
      assert ws[..n][1..] + [ws[n]] == ws[1..];
    } else {
      assert ws[..0] == [];
    }
  }

  /** Unblocking the first client of a key leaves the others, in their order. */
  lemma HeadLeaves(s: State, k: Key)
    requires IndexOk(s) && k in s.waiting
    ensures var ws := s.waiting[k]; var left := Leave(s.waiting, ws[0]);
            && (k in left <==> |ws| > 1) && (|ws| > 1 ==> left[k] == ws[1..])
  {
    var ws := s.waiting[k];
    assert Distinct(ws);
    WithoutHead(ws);
  }

  lemma RotateOk(s: State, k: Key)
    requires IndexOk(s) && k in s.waiting
    ensures IndexOk(s.(waiting := s.waiting[k := Rotated(s.waiting[k])]))
  {
    var ws, r := s.waiting[k], Rotated(s.waiting[k]);
    assert forall w :: w in r <==> w in ws by {
      if |ws| > 1 { assert ws == [ws[0]] + ws[1..]; }
    }
    var s' := s.(waiting := s.waiting[k := r]);
    assert Listed(s'.waiting, s'.clients) by {
      forall i | 0 <= i < |r| ensures r[i] in ws {}
    }
    assert Stored(s'.waiting, s'.clients);
  }

  lemma SignalOk(s: State, k: Key, local: seq<Key>)
    requires Inv(s, local)
    ensures Inv(Signal(s, k), local)
  {
    hide IndexOk;
    SignalIndex(s, k);
    if k in s.waiting && k !in s.readySet {
      assert local + (s.readyList + [k]) == (local + s.readyList) + [k];
    }
  }

  lemma SignalIndex(s: State, k: Key)
    ensures IndexOk(s) ==> IndexOk(Signal(s, k))
  {
    hide Listed, Stored, Lists, Flagged, QueueAgrees;
  }

  lemma DeliverOk(s: State, k: Key, c: nat, target: Option<Key>, side: Side, e: Elem, local: seq<Key>)
    requires Inv(s, local) && k in s.data && s.data[k].Lst?
    ensures var s' := Deliver(s, k, c, target, side, e);
            && Inv(s', local) && s'.waiting == s.waiting && s'.blocked == s.blocked && s'.clients == s.clients
            && k in s'.data && s'.data[k].Lst?
  {
    hide Listed, Stored, Lists, Flagged, QueueAgrees, ReadyAgrees, BlockedSet;
    if target.Some? && target.value !in s.data {
      SignalOk(s.(data := s.data[target.value := Lst([e])]), target.value, local);
    }
  }

  /** One client served: one fewer is blocked and the list of the key is one shorter. */
  lemma ServeOneOk(s: State, k: Key, local: seq<Key>)
    requires Inv(s, local) && CanServe(s, k, 1) && s.data[k].items != [] && Blocking(First(s, k))
    ensures var s' := ServeOne(s, k); var ws := s.waiting[k];
            && Inv(s', local) && s'.blocked == s.blocked - 1 >= 0
            && k in s'.data && s'.data[k].Lst?
            && (k in s'.waiting <==> |ws| > 1) && (|ws| > 1 ==> s'.waiting[k] == ws[1..])
  {
    var c, cl, items := s.waiting[k][0], First(s, k), s.data[k].items;
    var s0 := s.(data := s.data[k := Lst(Shorter(items, cl.side))]);
    assert IndexOk(s0);
    UnblockOk(s0, c);
    HeadLeaves(s0, k);
    hide IndexOk, ReadyAgrees, Leave;
    DeliverOk(Unblock(s0, c), k, c, cl.target, cl.side, Popped(items, cl.side), local);
  }

  // --------------------------------------------------------------------- serving a key

  /** The loop over the clients that were in the list when the key was taken up. */
  function ServeLoop(s: State, k: Key, n: nat, local: seq<Key>): State
    requires Inv(s, local) && CanServe(s, k, n)
    decreases n
  {
    if n == 0 then s
    else if !First(s, k).kind.OnList? then
      var s' := s.(waiting := s.waiting[k := Rotated(s.waiting[k])]);
      RotateTurn(s, k, n, local);
      ServeLoop(s', k, n - 1, local)
    else if s.data[k].items == [] then s
    else
      ServeTurn(s, k, n, local);
      ServeLoop(ServeOne(s, k), k, n - 1, local)
  }

  lemma RotateTurn(s: State, k: Key, n: nat, local: seq<Key>)
    requires Inv(s, local) && CanServe(s, k, n) && n > 0
    ensures var s' := s.(waiting := s.waiting[k := Rotated(s.waiting[k])]);
            Inv(s', local) && CanServe(s', k, n - 1)
  {
    RotateOk(s, k);
    var s' := s.(waiting := s.waiting[k := Rotated(s.waiting[k])]);
    FirstKnown(s', k);
    hide IndexOk;
  }

  /** The list a turn looks at is never empty and never freed. */
  lemma ServeTurn(s: State, k: Key, n: nat, local: seq<Key>)
    requires Inv(s, local) && CanServe(s, k, n) && n > 0 && s.data[k].items != [] && First(s, k).kind.OnList?
    ensures Inv(ServeOne(s, k), local) && CanServe(ServeOne(s, k), k, n - 1) && ServeOne(s, k).blocked == s.blocked - 1
  {
    ServeOneOk(s, k, local);
    var s' := ServeOne(s, k);
    hide ServeOne;
    if n > 1 {
      FirstKnown(s', k);
    }
  }

  lemma FirstKnown(s: State, k: Key)
    requires IndexOk(s) && k in s.waiting
    ensures s.waiting[k] != [] && s.waiting[k][0] in s.clients
  {
    assert s.waiting[k] != [];
    assert WaitsFor(s.waiting[k][0], k, s.clients);
  }

  /** A served loop unblocks clients or changes nothing the outer loops count. */
  lemma {:induction false} ServeLoopOk(s: State, k: Key, n: nat, local: seq<Key>)
    requires Inv(s, local) && CanServe(s, k, n)
    ensures var s' := ServeLoop(s, k, n, local);
            && Inv(s', local) && k in s'.data && s'.data[k].Lst?
            && (s'.blocked < s.blocked || (s'.blocked == s.blocked && s'.readyList == s.readyList))
    decreases n
  {
    hide Inv, ServeOne, Rotated;
    if n > 0 {
      if !First(s, k).kind.OnList? {
        RotateTurn(s, k, n, local);
        ServeLoopOk(s.(waiting := s.waiting[k := Rotated(s.waiting[k])]), k, n - 1, local);
      } else if s.data[k].items != [] {
        ServeTurn(s, k, n, local);
        ServeLoopOk(ServeOne(s, k), k, n - 1, local);
      }
    }
  }

  /** serveClientsBlockedOnListKey, with the removal of an emptied list. */
  function ServeKey(s: State, k: Key, local: seq<Key>): State
    requires Inv(s, local) && k in s.data && s.data[k].Lst?
  {
    var n := if k in s.waiting then |s.waiting[k]| else 0;
    if k in s.waiting then FirstKnown(s, k); Emptied(s, k, n, local) else Emptied(s, k, n, local)
  }

  function Emptied(s: State, k: Key, n: nat, local: seq<Key>): State
    requires Inv(s, local) && CanServe(s, k, n)
  {
    ServeLoopOk(s, k, n, local);
    var s' := ServeLoop(s, k, n, local);
    if s'.data[k].items == [] then s'.(data := s'.data - {k}) else s'
  }

  lemma ServeKeyOk(s: State, k: Key, local: seq<Key>)
    requires Inv(s, local) && k in s.data && s.data[k].Lst?
    ensures var s' := ServeKey(s, k, local);
            && Inv(s', local)
            && (s'.blocked < s.blocked || (s'.blocked == s.blocked && s'.readyList == s.readyList))
  {
    var n := if k in s.waiting then |s.waiting[k]| else 0;
    if k in s.waiting { FirstKnown(s, k); }
    ServeLoopOk(s, k, n, local);
    hide ServeLoop, Listed, Stored, Lists, Flagged, QueueAgrees, ReadyAgrees, BlockedSet;
  }

  // ------------------------------------------------------------- handling the ready keys

  /** One key of the local list: off the set, and its clients served if it holds a list. */
  function HandleKey(s: State, local: seq<Key>): State
    requires Inv(s, local) && local != []
  {
    UnreadyOk(s, local);
    var s' := s.(readySet := s.readySet - {local[0]});
    if local[0] in s.data && s.data[local[0]].Lst? then ServeKey(s', local[0], local[1..]) else s'
  }

  lemma UnreadyOk(s: State, local: seq<Key>)
    requires Inv(s, local) && local != []
    ensures Inv(s.(readySet := s.readySet - {local[0]}), local[1..])
  {
    hide Listed, Stored, Lists, Flagged, QueueAgrees, BlockedSet;
    var q := local + s.readyList;
    assert q == [local[0]] + (local[1..] + s.readyList);
    assert local[1..] + s.readyList == q[1..];
    assert forall i :: 0 < i < |q| ==> q[i] != q[0];
  }

  lemma HandleKeyOk(s: State, local: seq<Key>)
    requires Inv(s, local) && local != []
    ensures var s' := HandleKey(s, local);
            && Inv(s', local[1..]) && s'.blocked >= 0
            && (s'.blocked < s.blocked || (s'.blocked == s.blocked && s'.readyList == s.readyList))
  {
    UnreadyOk(s, local);
    var s0 := s.(readySet := s.readySet - {local[0]});
    if local[0] in s.data && s.data[local[0]].Lst? {
      ServeKeyOk(s0, local[0], local[1..]);
    }
    hide ServeKey;
  }

  /**
   * handleClientsBlockedOnKeys: takes the server's list over, works it off, and starts again
   * while serving clients made more keys ready. It ends because every such round unblocks a
   * client.
   */
  function HandleAll(s: State, local: seq<Key>): State
    requires Inv(s, local)
    decreases s.blocked, |local| + |s.readyList|, |s.readyList|
  {
    if local != [] then
      HandleKeyOk(s, local);
      HandleAll(HandleKey(s, local), local[1..])
    else if s.readyList != [] then
      TakeOverOk(s);
      HandleAll(s.(readyList := []), s.readyList)
    else s
  }

  lemma TakeOverOk(s: State)
    requires Inv(s, [])
    ensures Inv(s.(readyList := []), s.readyList) && s.blocked >= 0
  {
    hide Listed, Stored, Lists, Flagged, QueueAgrees, BlockedSet;
    assert [] + s.readyList == s.readyList == s.readyList + [];
  }

  /** When it is done no ready key is left and the index is intact. */
  lemma {:induction false} HandleAllOk(s: State, local: seq<Key>)
    requires Inv(s, local)
    ensures var s' := HandleAll(s, local);
            Inv(s', []) && s'.readyList == [] && s'.readySet == {} && s'.blocked <= s.blocked
    decreases s.blocked, |local| + |s.readyList|, |s.readyList|
  {
    if local != [] {
      HandleKeyOk(s, local);
      hide HandleKey, IndexOk;
      HandleAllOk(HandleKey(s, local), local[1..]);
    } else if s.readyList != [] {
      TakeOverOk(s);
      hide IndexOk;
      HandleAllOk(s.(readyList := []), s.readyList);
    } else {
      hide IndexOk;
      assert [] + s.readyList == [];
    }
  }

  // ---------------------------------------------------------------------- conservation

  function Items(o: Obj): multiset<Elem> { if o.Lst? then multiset(o.items) else multiset{} }

  /** All elements of all lists. */
  ghost function Total(data: map<Key, Obj>): multiset<Elem>
    decreases |data|
  {
    if data == map[] then multiset{}
    else
      var k :| k in data;
      assert k in data.Keys && |data - {k}| < |data| by { Smaller(data, k); }
      Items(data[k]) + Total(data - {k})
  }

  lemma Smaller(data: map<Key, Obj>, k: Key)
    requires k in data
    ensures |data - {k}| < |data|
  {
    assert (data - {k}).Keys == data.Keys - {k};
    assert |data.Keys| == |data| && |(data - {k}).Keys| == |data - {k}|;
  }

  lemma {:induction false} TotalAt(data: map<Key, Obj>, k: Key)
    requires k in data
    ensures Total(data) == Items(data[k]) + Total(data - {k})
    decreases |data|
  {
    var j: Key :| j in data && Total(data) == Items(data[j]) + Total(data - {j});
    if j != k {
      hide Items, Total;
      Smaller(data, j);
      Smaller(data, k);
      TotalAt(data - {j}, k);
      TotalAt(data - {k}, j);
      assert data - {j} - {k} == data - {k} - {j};
      Swapped(Items(data[j]), Items(data[k]), Total(data - {j} - {k}));
    }
  }

  lemma Swapped(a: multiset<Elem>, b: multiset<Elem>, c: multiset<Elem>)
    ensures a + (b + c) == b + (a + c)
  {
  }

  lemma TotalSet(data: map<Key, Obj>, k: Key, o: Obj)
    ensures Total(data[k := o]) == Items(o) + Total(data - {k})
    ensures k !in data ==> Total(data - {k}) == Total(data)
  {
    TotalAt(data[k := o], k);
    assert data[k := o] - {k} == data - {k};
    assert k !in data ==> data - {k} == data;
  }

  ghost function Everything(s: State): multiset<Elem> { Total(s.data) + multiset(s.handed) }

  lemma PopConserves(items: seq<Elem>, side: Side)
    requires items != []
    ensures multiset(items) == multiset(Shorter(items, side)) + multiset{Popped(items, side)}
  {
    assert items == [items[0]] + items[1..] && items == items[..|items| - 1] + [items[|items| - 1]];
  }

  lemma DeliverConserves(s: State, k: Key, c: nat, target: Option<Key>, side: Side, e: Elem)
    requires k in s.data && s.data[k].Lst?
    ensures Everything(Deliver(s, k, c, target, side, e)) == Everything(s) + multiset{e}
  {
    hide Total;
    if target.Some? {
      var d := target.value;
      if d !in s.data {
        TotalSet(s.data, d, Lst([e]));
        assert multiset([e]) == multiset{e};
      } else if s.data[d].Lst? {
        TotalAt(s.data, d);
        TotalSet(s.data, d, Lst([e] + s.data[d].items));
      } else {
        TotalAt(s.data, k);
        TotalSet(s.data, k, Lst(Pushed(s.data[k].items, side, e)));
      }
    }
  }

  lemma ServeOneConserves(s: State, k: Key)
    requires CanServe(s, k, 1) && s.data[k].items != []
    ensures Everything(ServeOne(s, k)) == Everything(s)
  {
    hide Total, Deliver, Leave;
    var c, cl, items := s.waiting[k][0], First(s, k), s.data[k].items;
    var s0 := s.(data := s.data[k := Lst(Shorter(items, cl.side))]);
    PopConserves(items, cl.side);
    TotalAt(s.data, k);
    TotalSet(s.data, k, Lst(Shorter(items, cl.side)));
    DeliverConserves(Unblock(s0, c), k, c, cl.target, cl.side, Popped(items, cl.side));
  }

  lemma {:induction false} ServeLoopConserves(s: State, k: Key, n: nat, local: seq<Key>)
    requires Inv(s, local) && CanServe(s, k, n)
    ensures Everything(ServeLoop(s, k, n, local)) == Everything(s)
    decreases n
  {
    if n > 0 {
      if !First(s, k).kind.OnList? {
        RotateTurn(s, k, n, local);
        ServeLoopConserves(s.(waiting := s.waiting[k := Rotated(s.waiting[k])]), k, n - 1, local);
      } else if s.data[k].items != [] {
        ServeTurn(s, k, n, local);
        ServeOneConserves(s, k);
        hide Inv, ServeOne, Everything;
        ServeLoopConserves(ServeOne(s, k), k, n - 1, local);
      }
    }
  }

  lemma ServeKeyConserves(s: State, k: Key, local: seq<Key>)
    requires Inv(s, local) && k in s.data && s.data[k].Lst?
    ensures Everything(ServeKey(s, k, local)) == Everything(s)
  {
    var n := if k in s.waiting then |s.waiting[k]| else 0;
    if k in s.waiting { FirstKnown(s, k); }
    ServeLoopOk(s, k, n, local);
    ServeLoopConserves(s, k, n, local);
    var s' := ServeLoop(s, k, n, local);
    hide ServeLoop, Inv, Total;
    TotalAt(s'.data, k);
    assert s'.data[k].items == [] ==> multiset(s'.data[k].items) == multiset{};
  }

  /** No element is lost or doubled: what leaves a list is handed to a client or is in another list. */
  lemma {:induction false} HandleAllConserves(s: State, local: seq<Key>)
    requires Inv(s, local)
    ensures Everything(HandleAll(s, local)) == Everything(s)
    decreases s.blocked, |local| + |s.readyList|, |s.readyList|
  {
    if local != [] {
      HandleKeyOk(s, local);
      UnreadyOk(s, local);
      if local[0] in s.data && s.data[local[0]].Lst? {
        ServeKeyConserves(s.(readySet := s.readySet - {local[0]}), local[0], local[1..]);
      }
      var s' := HandleKey(s, local);
      assert Everything(s') == Everything(s);
      hide Inv, HandleKey, Everything;
      HandleAllConserves(s', local[1..]);
    } else if s.readyList != [] {
      TakeOverOk(s);
      HandleAllConserves(s.(readyList := []), s.readyList);
    }
  }
}
