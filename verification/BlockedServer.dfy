/** blocked.c in place: the dictionaries, lists and counters of the server as fields. */
module BlockedServer {
  import opened Options
  import opened Blocked
  import opened BlockedLists
  import opened BlockedRuns
  import opened BlockedWakeup

  /** The lists after a client left those of the keys in `done`. */
  function Leaving(waiting: map<Key, seq<nat>>, c: nat, done: set<Key>): map<Key, seq<nat>> {
    map k | k in waiting && (k in done ==> Without(waiting[k], c) != []) ::
      if k in done then Without(waiting[k], c) else waiting[k]
  }

  lemma LeaveOne(waiting: map<Key, seq<nat>>, c: nat, done: set<Key>, k: Key)
    requires k in waiting && k !in done
    ensures var now, l := Leaving(waiting, c, done), Without(waiting[k], c);
            k in now && now[k] == waiting[k]
            && Leaving(waiting, c, done + {k}) == if l == [] then now - {k} else now[k := l]
  {
    hide Without;
  }

  lemma LeavingNone(waiting: map<Key, seq<nat>>, c: nat)
    ensures Leaving(waiting, c, {}) == waiting
  {
  }

  lemma LeavingAll(s: State, c: nat)
    requires IndexOk(s) && c in s.clients
    ensures Leaving(s.waiting, c, s.clients[c].keys) == Leave(s.waiting, c)
  {
    var done := s.clients[c].keys;
    forall k | k in s.waiting && k !in done ensures Without(s.waiting[k], c) == s.waiting[k] != [] {
      forall i | 0 <= i < |s.waiting[k]| ensures s.waiting[k][i] != c {
        assert WaitsFor(s.waiting[k][i], k, s.clients);
      }
      WithoutAbsent(s.waiting[k], c);
      assert s.waiting[k] != [];
    }
    hide Without;
  }

  /** A client is in the list of each key it waits for. */
  lemma InItsLists(s: State, c: nat, k: Key)
    requires IndexOk(s) && c in s.clients && k in s.clients[c].keys
    ensures k in s.waiting && c in s.waiting[k]
  {
  }

  lemma PartlyKnown(s: State, c: nat)
    requires PartlyOk(s, c)
    ensures c in s.clients
  {
  }

  lemma NotListed(s: State, c: nat, k: Key)
    requires PartlyOk(s, c) && k !in s.clients[c].keys && k in s.waiting
    ensures c !in s.waiting[k]
  {
    forall i | 0 <= i < |s.waiting[k]| ensures s.waiting[k][i] != c {
      assert WaitsFor(s.waiting[k][i], k, s.clients);
    }
  }

  /** The first key found is not looked for again. */
  lemma {:induction false} FirstStays(data: map<Key, Obj>, keys: seq<Key>, j: nat)
    requires j <= |keys| && FirstKey(data, keys[..j]).Some?
    ensures FirstKey(data, keys) == FirstKey(data, keys[..j])
  {
    if j < |keys| {
      var front := keys[..|keys| - 1];
      assert front[..j] == keys[..j];
      FirstStays(data, front, j);
    } else {
      assert keys[..j] == keys;
    }
  }

  class Server {
    const waits: WaitLists
    var clients: map<nat, Client>
    var blocked: int
    var readyList: seq<Key>
    var readySet: set<Key>
    var unblocked: seq<nat>
    var data: map<Key, Obj>
    var served: seq<Service>
    var handed: seq<Elem>

    ghost predicate Valid()
      reads this, waits, waits.repr
    {
      waits.Valid() && this !in waits.repr
    }

    ghost function View(): State
      reads this, waits
    {
      State(Clients(waits.nodes), clients, blocked, readyList, readySet, unblocked, data, served, handed)
    }

    /** A server without clients and keys. */
    constructor ()
      ensures Valid() && fresh(waits) && fresh(waits.repr) && Inv(View(), [])
      ensures clients == map[] && data == map[] && waits.nodes == map[] && served == [] && readyList == [] && unblocked == []
    {
      waits := new WaitLists();
      clients, blocked, readyList, readySet, unblocked := map[], 0, [], {}, [];
      data, served, handed := map[], [], [];
    }

    /** blockForKeys */
    method BlockForKeys(c: nat, kind: Kind, keys: seq<Key>, target: Option<Key>, side: Side)
      requires Valid() && IndexOk(View()) && c in clients && !Blocking(clients[c]) && !kind.NotBlocked? && keys != []
      modifies this`clients, this`blocked, waits, waits.repr
      ensures Valid() && fresh(waits.repr - old(waits.repr))
      ensures View() == Block(old(View()), c, kind, keys, target, side) && IndexOk(View())
    {
      hide AddKey, WaitLists.Valid;
      ghost var s := View();
      BlockOk(s, c, kind, keys, target, side);
      assert PartlyOk(s, c);
      hide IndexOk, PartlyOk;
      for j := 0 to |keys|
        invariant Valid() && fresh(waits.repr - old(waits.repr))
        invariant c in clients && View() == AddKeys(s, c, keys[..j])
      {
        assert keys[..j + 1][..j] == keys[..j];
        AddKeysOk(s, c, keys[..j]);
        BlockForKey(c, keys[j]);
      }
      assert keys[..|keys|] == keys;
      clients := clients[c := clients[c].(kind := kind, target := target, side := side)];
      blocked := blocked + 1;
    }

    /** One key: the client goes to the tail of its list, where it stores its node. */
    method BlockForKey(c: nat, k: Key)
      requires Valid() && PartlyOk(View(), c)
      modifies this`clients, waits, waits.repr
      ensures Valid() && fresh(waits.repr - old(waits.repr))
      ensures View() == AddKey(old(View()), c, k) && c in clients
    {
      hide PartlyOk, WaitLists.Valid;
      assert c in clients by { PartlyKnown(View(), c); }
      if k !in clients[c].keys {
        Known(waits.nodes, k);
        if k in waits.nodes { NotListed(View(), c, k); }
        waits.Append(k, c);
        clients := clients[c := clients[c].(keys := clients[c].keys + {k})];
      }
    }

    /** unblockClientWaitingData: each stored node is deleted from its list; the lists are all there. */
    method UnblockWaitingData(c: nat)
      requires Valid() && IndexOk(View()) && c in clients
      modifies waits, waits.repr
      ensures Valid() && fresh(waits.repr - old(waits.repr))
      ensures Clients(waits.nodes) == Leave(old(Clients(waits.nodes)), c)
    {
      hide IndexOk, Leaving, Leave, Without, WaitLists.Valid, Clients;
      ghost var s := View();
      var keys := clients[c].keys;
      var left := keys;
      LeavingAll(s, c);
      LeavingNone(s.waiting, c);
      assert keys - left == {};
      while left != {}
        invariant Valid() && waits.repr == old(waits.repr)
        invariant left <= keys && Clients(waits.nodes) == Leaving(s.waiting, c, keys - left)
        decreases |left|
      {
        var k :| k in left;
        ghost var done := keys - left;
        InItsLists(s, c, k);
        LeaveOne(s.waiting, c, done, k);
        Known(waits.nodes, k);
        waits.Remove(k, c);
        left := left - {k};
        assert keys - left == done + {k};
      }
      assert keys - {} == keys;
    }

    /** unblockClient for a client that waits for keys. */
    method UnblockClient(c: nat)
      requires Valid() && IndexOk(View()) && c in clients && Blocking(clients[c])
      modifies this`clients, this`blocked, this`unblocked, waits, waits.repr
      ensures Valid() && fresh(waits.repr - old(waits.repr))
      ensures View() == Unblock(old(View()), c) && IndexOk(View())
    {
      hide IndexOk, WaitLists.Valid;
      UnblockOk(View(), c);
      UnblockWaitingData(c);
      blocked := blocked - 1;
      var queued := clients[c].queued;
      clients := clients[c := clients[c].(kind := NotBlocked, keys := {}, target := None, queued := true)];
      if !queued {
        unblocked := unblocked + [c];
      }
    }

    /** signalKeyAsReady */
    method SignalKeyAsReady(k: Key)
      requires waits.Valid()
      modifies this`readyList, this`readySet
      ensures View() == Signal(old(View()), k)
    {
      Known(waits.nodes, k);
      waits.KeysAgree();
      hide WaitLists.Valid;
      if k !in waits.lists { return; }
      if k in readySet { return; }
      readyList := readyList + [k];
      readySet := readySet + {k};
    }

    /** serveClientBlockedOnList, and the undo of the pop when it fails. */
    method ServeClient(c: nat, k: Key, target: Option<Key>, side: Side, e: Elem)
      requires waits.Valid() && this !in waits.repr && k in data && data[k].Lst?
      modifies this`data, this`readyList, this`readySet, this`served, this`handed
      ensures View() == Deliver(old(View()), k, c, target, side, e)
    {
      hide WaitLists.Valid;
      var done := true;
      if target.None? {
        handed := handed + [e];
      } else if target.value !in data {
        data := data[target.value := Lst([])];
        SignalKeyAsReady(target.value);
        data := data[target.value := Lst([e])];
      } else if data[target.value].Lst? {
        data := data[target.value := Lst([e] + data[target.value].items)];
      } else {
        data := data[k := Lst(Pushed(data[k].items, side, e))];
        done := false;
      }
      served := served + [Service(c, k, e, done)];
    }

    /** serveClientsBlockedOnListKey: the list of clients is never empty or gone when it is looked at. */
    method ServeListKey(k: Key, ghost local: seq<Key>)
      requires Valid() && Inv(View(), local) && k in data && data[k].Lst?
      modifies this, waits, waits.repr
      ensures Valid() && fresh(waits.repr - old(waits.repr))
      ensures View() == ServeKey(old(View()), k, local) && Inv(View(), local)
    {
      hide WaitLists.Valid;
      ghost var s := View();
      ServeKeyOk(s, k, local);
      Known(waits.nodes, k);
      waits.KeysAgree();
      if k in waits.lists {
        FirstKnown(s, k);
        var numclients := waits.Length(k);
        ServeLoopOk(s, k, numclients, local);
        ServeClients(k, numclients, local);
      }
      hide Inv, ServeLoop;
      if data[k].items == [] {
        data := data - {k};
      }
    }

    method ServeClients(k: Key, n: nat, ghost local: seq<Key>)
      requires Valid() && Inv(View(), local) && CanServe(View(), k, n)
      modifies this, waits, waits.repr
      ensures Valid() && fresh(waits.repr - old(waits.repr))
      ensures View() == ServeLoop(old(View()), k, n, local)
    {
      hide Inv, ServeOne, WaitLists.Valid;
      var numclients := n;
      while numclients > 0
        invariant Valid() && fresh(waits.repr - old(waits.repr))
        invariant Inv(View(), local) && CanServe(View(), k, numclients)
        invariant ServeLoop(old(View()), k, n, local) == ServeLoop(View(), k, numclients, local)
      {
        ghost var s := View();
        Known(waits.nodes, k);
        var c := waits.First(k);
        if !clients[c].kind.OnList? {
          RotateTurn(s, k, numclients, local);
          waits.RotateClients(k);
        } else if data[k].items == [] {
          break;
        } else {
          ServeTurn(s, k, numclients, local);
          ServeFirst(k, local);
        }
        numclients := numclients - 1;
      }
    }

    /** Pop, unblock, serve. */
    method ServeFirst(k: Key, ghost local: seq<Key>)
      requires Valid() && Inv(View(), local) && CanServe(View(), k, 1) && data[k].items != []
      requires Blocked.First(View(), k).kind.OnList?
      modifies this, waits, waits.repr
      ensures Valid() && fresh(waits.repr - old(waits.repr))
      ensures View() == ServeOne(old(View()), k)
    {
      hide WaitLists.Valid;
      Known(waits.nodes, k);
      var c := waits.First(k);
      var receiver := clients[c];
      var e := Popped(data[k].items, receiver.side);
      data := data[k := Lst(Shorter(data[k].items, receiver.side))];
      UnblockClient(c);
      ServeClient(c, k, receiver.target, receiver.side, e);
    }

    /** A list that is there is popped at once; an error leaves everything as it is. */
    method PopAtOnce(c: nat, k: Key, target: Option<Key>, side: Side)
      requires waits.Valid() && this !in waits.repr && k in data && data[k].Lst? && data[k].items != []
      modifies this`data, this`readyList, this`readySet, this`served, this`handed
      ensures View() == PopNow(old(View()), c, k, target, side)
    {
      hide WaitLists.Valid, Deliver;
      if target.Some? && target.value in data && !data[target.value].Lst? { return; }
      ghost var s := View();
      var e := Popped(data[k].items, side);
      data := data[k := Lst(Shorter(data[k].items, side))];
      ServeClient(c, k, target, side, e);
      if k in data && data[k] == Lst([]) { data := data - {k}; }
    }

    /** blockingPopGenericCommand: the first key that holds something decides; else the client blocks. */
    method BlockingPopCommand(c: nat, keys: seq<Key>, side: Side)
      requires Valid() && IndexOk(View()) && c in clients && !Blocking(clients[c]) && keys != []
      modifies this, waits, waits.repr
      ensures Valid() && fresh(waits.repr - old(waits.repr))
      ensures View() == BlockingPop(old(View()), c, keys, side)
    {
      hide WaitLists.Valid, IndexOk;
      for j := 0 to |keys|
        invariant FirstKey(data, keys[..j]) == None && View() == old(View())
        invariant Valid() && waits.repr == old(waits.repr)
      {
        assert keys[..j + 1][..j] == keys[..j];
        if keys[j] in data && data[keys[j]] != Lst([]) {
          FirstStays(data, keys, j + 1);
          if data[keys[j]].Lst? {
            PopAtOnce(c, keys[j], None, side);
          }
          return;
        }
      }
      assert keys[..|keys|] == keys;
      BlockForKeys(c, OnList, keys, None, side);
    }

    /** handleClientsBlockedOnKeys */
    method HandleClientsBlockedOnKeys()
      requires Valid() && Inv(View(), [])
      modifies this, waits, waits.repr
      ensures Valid() && fresh(waits.repr - old(waits.repr))
      ensures View() == HandleAll(old(View()), []) && Inv(View(), []) && readyList == [] && readySet == {}
      ensures Alert(old(View())) ==> Served(View())
    {
      hide WaitLists.Valid, AlertBut, Served;
      ghost var s := View();
      HandleAllOk(s, []);
      if Alert(s) { NoLostWakeUp(s, []); }
      while readyList != []
        invariant Valid() && fresh(waits.repr - old(waits.repr))
        invariant Inv(View(), []) && HandleAll(s, []) == HandleAll(View(), [])
        decreases blocked, |readyList|
      {
        TakeOverOk(View());
        var l := readyList;
        ghost var before := blocked;
        readyList := [];
        while l != []
          invariant Valid() && fresh(waits.repr - old(waits.repr))
          invariant Inv(View(), l) && HandleAll(s, []) == HandleAll(View(), l)
          invariant 0 <= blocked < before || (blocked == before && readyList == [])
          decreases blocked, |l|
        {
          HandleReady(l);
          l := l[1..];
        }
      }
    }

    /** The first key of the local list. */
    method HandleReady(l: seq<Key>)
      requires Valid() && Inv(View(), l) && l != []
      modifies this, waits, waits.repr
      ensures Valid() && fresh(waits.repr - old(waits.repr))
      ensures View() == HandleKey(old(View()), l) && Inv(View(), l[1..])
      ensures 0 <= blocked < old(blocked) || (blocked == old(blocked) && readyList == old(readyList))
    {
      hide WaitLists.Valid;
      HandleKeyOk(View(), l);
      UnreadyOk(View(), l);
      readySet := readySet - {l[0]};
      if l[0] in data && data[l[0]].Lst? {
        ServeListKey(l[0], l[1..]);
      }
    }
  }
}
