/**
 * The lists of clients blocked for a key, on the heap: a doubly linked list a key, and for each
 * client and key the address of the client's node in that list.
 */
module BlockedLists {
  import opened AdList
  import opened Blocked

  type Nodes = map<Key, seq<Node<nat>>>
  type Places = map<(nat, Key), Node<nat>>

  function Values(nodes: seq<Node<nat>>): (r: seq<nat>)
    ensures |r| == |nodes| && forall i :: 0 <= i < |nodes| ==> r[i] == nodes[i].value
  {
    seq(|nodes|, i requires 0 <= i < |nodes| => nodes[i].value)
  }

  /** The clients of each key, in the order of its list. */
  function Clients(nodes: Nodes): map<Key, seq<nat>> { map k | k in nodes :: Values(nodes[k]) }

  /** Lists of different keys have no node in common. */
  ghost predicate Apart(nodes: Nodes) {
    forall j, k, x :: j in nodes && k in nodes && x in nodes[j] && x in nodes[k] ==> j == k
  }

  ghost predicate PlaceOf(places: Places, k: Key, x: Node<nat>) {
    (x.value, k) in places && places[(x.value, k)] == x
  }

  /** Each node is the one its client stored for the key, and nothing else is stored. */
  ghost predicate Placed(nodes: Nodes, places: Places) {
    && (forall k, x :: k in nodes && x in nodes[k] ==> PlaceOf(places, k, x))
    && (forall p :: p in places ==> p.1 in nodes && places[p] in nodes[p.1] && places[p].value == p.0)
  }

  ghost predicate Consistent(nodes: Nodes, places: Places) { Apart(nodes) && Placed(nodes, places) }

  // -------------------------------------------------------------- what an operation does

  lemma NewKey(nodes: Nodes, places: Places, k: Key)
    requires Consistent(nodes, places) && k !in nodes
    ensures Consistent(nodes[k := []], places)
  {
  }

  lemma MoreNodes(nodes: Nodes, places: Places, k: Key, x: Node<nat>)
    requires Consistent(nodes, places) && k in nodes && x.value !in Values(nodes[k])
    requires forall j :: j in nodes ==> x !in nodes[j]
    ensures Consistent(nodes[k := nodes[k] + [x]], places[(x.value, k) := x])
  {
    var nodes' := nodes[k := nodes[k] + [x]];
    var places' := places[(x.value, k) := x];
    forall j, y | j in nodes' && y in nodes'[j] ensures PlaceOf(places', j, y) {
      if j != k || y != x {
        assert y in nodes[j] && PlaceOf(places, j, y);
        if j == k {
          var i :| 0 <= i < |nodes[k]| && nodes[k][i] == y;
          assert Values(nodes[k])[i] == y.value;
        }
      }
    }
  }

  lemma FewerNodes(nodes: Nodes, places: Places, k: Key, i: nat)
    requires Consistent(nodes, places) && k in nodes && i < |nodes[k]| && DistinctNodes(nodes[k])
    ensures var x := nodes[k][i];
            Consistent(nodes[k := Dropped(nodes[k], i)], places - {(x.value, k)})
  {
    var x := nodes[k][i];
    var left := Dropped(nodes[k], i);
    assert forall y :: y in left <==> y in nodes[k] && y != x;
    var nodes', places' := nodes[k := left], places - {(x.value, k)};
    forall j, y | j in nodes' && y in nodes'[j] ensures PlaceOf(places', j, y) {
      assert y in nodes[j] && PlaceOf(places, j, y) && PlaceOf(places, k, x);
    }
  }

  lemma SameNodes(nodes: Nodes, places: Places, k: Key, xs: seq<Node<nat>>)
    requires Consistent(nodes, places) && k in nodes && forall x :: x in xs <==> x in nodes[k]
    ensures Consistent(nodes[k := xs], places)
  {
  }

  lemma NoKey(nodes: Nodes, places: Places, k: Key)
    requires Consistent(nodes, places) && k in nodes && nodes[k] == []
    ensures Consistent(nodes - {k}, places)
  {
  }

  // ------------------------------------------------------------- and to the clients

  lemma ClientsWith(nodes: Nodes, k: Key, xs: seq<Node<nat>>)
    ensures Clients(nodes[k := xs]) == Clients(nodes)[k := Values(xs)]
  {
  }

  lemma ClientsWithout(nodes: Nodes, k: Key)
    ensures Clients(nodes - {k}) == Clients(nodes) - {k}
  {
  }

  lemma ValuesPush(xs: seq<Node<nat>>, x: Node<nat>)
    ensures Values(xs + [x]) == Values(xs) + [x.value]
  {
  }

  lemma ValuesTurned(xs: seq<Node<nat>>)
    ensures Values(Turned(xs)) == Rotated(Values(xs))
  {
  }

  /** A client has one node in the list of a key. */
  lemma OneNodeEach(nodes: Nodes, places: Places, k: Key)
    requires Placed(nodes, places) && k in nodes && DistinctNodes(nodes[k])
    ensures Distinct(Values(nodes[k]))
  {
    var xs := nodes[k];
    forall i, j | 0 <= i < j < |xs| ensures Values(xs)[i] != Values(xs)[j] {
      assert xs[i] in xs && xs[j] in xs && PlaceOf(places, k, xs[i]) && PlaceOf(places, k, xs[j]);
    }
  }

  /** So deleting the node of a client is removing the client. */
  lemma {:induction false} DroppedIsWithout(ws: seq<nat>, at: nat)
    requires at < |ws| && Distinct(ws)
    ensures ws[..at] + ws[at + 1..] == Without(ws, ws[at])
  {
    var n := |ws| - 1;
    if at == n {
      WithoutAbsent(ws[..n], ws[n]);
      assert ws[n + 1..] == [];
    } else {
      DroppedIsWithout(ws[..n], at);
      assert ws[..at] + ws[at + 1..] == (ws[..n][..at] + ws[..n][at + 1..]) + [ws[n]];
    }
  }

  lemma {:induction false} WithoutAbsent(ws: seq<nat>, c: nat)
    requires c !in ws
    ensures Without(ws, c) == ws
  {
    if ws != [] {
      WithoutAbsent(ws[..|ws| - 1], c);
      assert ws[..|ws| - 1] + [ws[|ws| - 1]] == ws;
    }
  }

  lemma ValuesDropped(nodes: Nodes, places: Places, k: Key, at: nat)
    requires Placed(nodes, places) && k in nodes && at < |nodes[k]| && DistinctNodes(nodes[k])
    ensures Values(Dropped(nodes[k], at)) == Without(Values(nodes[k]), nodes[k][at].value)
  {
    var xs := nodes[k];
    OneNodeEach(nodes, places, k);
    DroppedIsWithout(Values(xs), at);
    assert Values(Dropped(xs, at)) == Values(xs)[..at] + Values(xs)[at + 1..];
  }

  // ------------------------------------------------------------------------- on the heap

  type Table = map<Key, List<nat>>

  ghost predicate Owned(nodes: seq<Node<nat>>, repr: set<object>) { forall x :: x in nodes ==> x in repr }

  /** The list is intact and has these nodes. */
  ghost predicate Holds(l: List<nat>, nodes: seq<Node<nat>>)
    reads l, nodes
  {
    l.nodes == nodes && l.Valid()
  }

  /** Each key has its own list, intact and with its nodes, all of them among `repr`. */
  ghost predicate AllHold(lists: Table, nodes: Nodes, repr: set<object>)
    reads repr
  {
    && lists.Keys == nodes.Keys
    && (forall j, k :: j in lists && k in lists && j != k ==> lists[j] != lists[k])
    && forall k :: k in lists ==> lists[k] in repr && Owned(nodes[k], repr) && Holds(lists[k], nodes[k])
  }

  lemma NotShared(nodes: Nodes, j: Key, k: Key)
    requires Apart(nodes) && j in nodes && k in nodes && j != k
    ensures forall x :: x in nodes[j] ==> x !in nodes[k]
  {
  }

  method NewList(lists: Table, ghost nodes: Nodes, ghost repr: set<object>, k: Key) returns (l: List<nat>)
    requires AllHold(lists, nodes, repr) && k !in lists
    ensures fresh(l) && AllHold(lists[k := l], nodes[k := []], repr + {l})
  {
    hide DistinctNodes;
    l := new List();
    forall j | j in lists ensures Holds(lists[j], nodes[j]) {
      var ns := nodes[j];
      assert old(Holds(lists[j], ns));
      assert forall i :: 0 <= i < |ns| ==> old(LinkedAt(ns, i));
      assert forall i :: 0 <= i < |ns| ==> LinkedAt(ns, i);
    }
    hide Holds;
  }

  /** Appending to the list of one key leaves the others alone. */
  method PushTail(lists: Table, ghost nodes: Nodes, ghost repr: set<object>, k: Key, c: nat) returns (x: Node<nat>)
    requires AllHold(lists, nodes, repr) && Apart(nodes) && k in lists
    modifies lists[k], nodes[k]
    ensures fresh(x) && x.value == c && AllHold(lists, nodes[k := nodes[k] + [x]], repr + {x})
    ensures forall j :: j in nodes ==> x !in nodes[j]
  {
    hide DistinctNodes, Apart;
    x := lists[k].AddNodeTail(c);
    forall j | j in lists && j != k ensures Holds(lists[j], nodes[j]) {
      NotShared(nodes, j, k);
      var ns := nodes[j];
      assert old(Holds(lists[j], ns));
      assert forall i :: 0 <= i < |ns| ==> ns[i] in ns;
      assert forall i :: 0 <= i < |ns| ==> old(LinkedAt(ns, i));
      assert forall i :: 0 <= i < |ns| ==> LinkedAt(ns, i);
    }
    assert Holds(lists[k], nodes[k] + [x]);
    hide Holds;
  }

  /** The nodes without the one at a place. */
  function Dropped(xs: seq<Node<nat>>, at: nat): (r: seq<Node<nat>>)
    requires at < |xs|
    ensures forall x :: x in r ==> x in xs
  {
    xs[..at] + xs[at + 1..]
  }

  /** Deleting a node of the list of one key leaves the others alone. */
  method DeleteNode(lists: Table, ghost nodes: Nodes, ghost repr: set<object>, k: Key, x: Node<nat>, ghost at: nat)
    requires AllHold(lists, nodes, repr) && Apart(nodes) && k in lists && at < |nodes[k]| && nodes[k][at] == x
    modifies lists[k], nodes[k]
    ensures AllHold(lists, nodes[k := Dropped(nodes[k], at)], repr)
  {
    hide DistinctNodes, Apart;
    lists[k].DelNode(x, at);
    assert Holds(lists[k], Dropped(nodes[k], at));
    hide Dropped;
    forall j | j in lists && j != k ensures Holds(lists[j], nodes[j]) {
      NotShared(nodes, j, k);
      var ns := nodes[j];
      assert old(Holds(lists[j], ns));
      assert forall i :: 0 <= i < |ns| ==> ns[i] in ns;
      assert forall i :: 0 <= i < |ns| ==> old(LinkedAt(ns, i));
      assert forall i :: 0 <= i < |ns| ==> LinkedAt(ns, i);
    }
    hide Holds;
  }

  function Turned(xs: seq<Node<nat>>): (r: seq<Node<nat>>)
    ensures (forall x :: x in r ==> x in xs) && (forall x :: x in xs ==> x in r)
  {
    if |xs| <= 1 then xs
    else
      assert xs == [xs[0]] + xs[1..];
      xs[1..] + [xs[0]]
  }

  /** Rotating the list of one key leaves the others alone. */
  method RotateList(lists: Table, ghost nodes: Nodes, ghost repr: set<object>, k: Key)
    requires AllHold(lists, nodes, repr) && Apart(nodes) && k in lists
    modifies lists[k], nodes[k]
    ensures AllHold(lists, nodes[k := Turned(nodes[k])], repr)
  {
    hide DistinctNodes, Apart;
    lists[k].RotateHeadToTail();
    assert Holds(lists[k], Turned(nodes[k]));
    hide Turned;
    forall j | j in lists && j != k ensures Holds(lists[j], nodes[j]) {
      NotShared(nodes, j, k);
      var ns := nodes[j];
      assert old(Holds(lists[j], ns));
      assert forall i :: 0 <= i < |ns| ==> ns[i] in ns;
      assert forall i :: 0 <= i < |ns| ==> old(LinkedAt(ns, i));
      assert forall i :: 0 <= i < |ns| ==> LinkedAt(ns, i);
    }
    hide Holds;
  }

  class WaitLists {
    /** blocking_keys, and the node each client stored for each of its keys. */
    var lists: Table
    var places: Places
    ghost var nodes: Nodes
    ghost var repr: set<object>

    ghost predicate Valid()
      reads this, repr
    {
      this !in repr && AllHold(lists, nodes, repr) && Consistent(nodes, places)
    }

    constructor ()
      ensures Valid() && fresh(repr) && nodes == map[]
    {
      lists, places, nodes, repr := map[], map[], map[], {};
    }

    /** An empty list for a key that has none. */
    method MakeList(k: Key)
      requires Valid() && k !in nodes
      modifies this
      ensures Valid() && fresh(repr - old(repr)) && nodes == old(nodes)[k := []]
    {
      NewKey(nodes, places, k);
      assert lists.Keys == nodes.Keys;
      hide Consistent, AllHold;
      var l := NewList(lists, nodes, repr, k);
      lists, nodes, repr := lists[k := l], nodes[k := []], repr + {l};
    }

    /** The client goes to the tail of the list and stores its node. */
    method AppendTo(k: Key, c: nat)
      requires Valid() && k in nodes && c !in Values(nodes[k])
      modifies this, repr
      ensures Valid() && fresh(repr - old(repr))
      ensures exists x: Node<nat> :: x.value == c && nodes == old(nodes)[k := old(nodes)[k] + [x]]
    {
      hide AllHold, Consistent, Apart, Owned, DistinctNodes, Values;
      Inside(k);
      var x := PushTail(lists, nodes, repr, k, c);
      MoreNodes(nodes, places, k, x);
      ghost var more := nodes[k := nodes[k] + [x]];
      places, nodes, repr := places[(c, k) := x], more, repr + {x};
    }

    lemma Inside(k: Key)
      requires Valid() && k in nodes
      ensures k in lists && lists[k] in repr && Owned(nodes[k], repr) && lists.Keys == nodes.Keys
      ensures Apart(nodes) && DistinctNodes(nodes[k])
    {
    }

    lemma KeysAgree()
      requires Valid()
      ensures lists.Keys == nodes.Keys
    {
    }

    lemma ListAt(k: Key)
      requires Valid() && k in nodes
      ensures k in lists && lists[k].nodes == nodes[k] && lists[k].Valid()
    {
    }

    /** The stored node stands where the client is in the list. */
    method Find(k: Key, c: nat) returns (x: Node<nat>, ghost at: nat)
      requires Valid() && k in nodes && c in Values(nodes[k])
      ensures at < |nodes[k]| && nodes[k][at] == x && x.value == c
    {
      at :| at < |nodes[k]| && nodes[k][at].value == c;
      assert nodes[k][at] in nodes[k] && PlaceOf(places, k, nodes[k][at]);
      x := places[(c, k)];
    }

    /** listDelNode of the node the client stored. */
    method Delete(k: Key, c: nat) returns (ghost at: nat)
      requires Valid() && k in nodes && c in Values(nodes[k])
      modifies this, repr
      ensures Valid() && repr == old(repr)
      ensures at < |old(nodes)[k]| && old(nodes)[k][at].value == c
      ensures nodes == old(nodes)[k := Dropped(old(nodes)[k], at)]
    {
      hide AllHold, Consistent, Apart, Owned, Dropped, DistinctNodes, Values;
      Inside(k);
      var x;
      x, at := Find(k, c);
      FewerNodes(nodes, places, k, at);
      ghost var fewer := nodes[k := Dropped(nodes[k], at)];
      DeleteNode(lists, nodes, repr, k, x, at);
      places, nodes := places - {(c, k)}, fewer;
    }

    /** A list without nodes is freed. */
    method FreeIfEmpty(k: Key)
      requires Valid() && k in nodes
      modifies this
      ensures Valid() && repr == old(repr)
      ensures nodes == if old(nodes)[k] == [] then old(nodes) - {k} else old(nodes)
    {
      ListAt(k);
      if lists[k].len == 0 {
        NoKey(nodes, places, k);
        FewerLists(lists, nodes, repr, k);
        hide Consistent, AllHold;
        lists, nodes := lists - {k}, nodes - {k};
      }
    }

    /** listRotateHeadToTail of the list of a key. */
    method Rotate(k: Key)
      requires Valid() && k in nodes
      modifies this, repr
      ensures Valid() && repr == old(repr) && nodes == old(nodes)[k := Turned(old(nodes)[k])]
    {
      hide AllHold, Consistent, Apart, Owned, Turned, DistinctNodes;
      Inside(k);
      ghost var turned := nodes[k := Turned(nodes[k])];
      SameNodes(nodes, places, k, Turned(nodes[k]));
      RotateList(lists, nodes, repr, k);
      nodes := turned;
    }

    /** The client joins the key's list, made if need be. */
    method Append(k: Key, c: nat)
      requires Valid() && (k in nodes ==> c !in Values(nodes[k]))
      modifies this, repr
      ensures Valid() && fresh(repr - old(repr))
      ensures Clients(nodes) == old(Clients(nodes))[k := (if k in old(nodes) then old(Clients(nodes))[k] else []) + [c]]
    {
      hide AllHold, Consistent, Clients, Values;
      ghost var before := nodes;
      Known(nodes, k);
      KeysAgree();
      if k !in lists {
        NoValues();
        MakeList(k);
      }
      ghost var xs := nodes[k];
      AppendTo(k, c);
      ghost var x: Node<nat> :| x.value == c && nodes == (if k in before then before else before[k := []])[k := xs + [x]];
      assert nodes == before[k := xs + [x]];
      ClientsWith(before, k, xs + [x]);
      ValuesPush(xs, x);
    }

    /** The client leaves the key's list, which is freed when nobody is left. */
    method Remove(k: Key, c: nat)
      requires Valid() && k in nodes && c in Values(nodes[k])
      modifies this, repr
      ensures Valid() && repr == old(repr)
      ensures var left := Without(old(Clients(nodes))[k], c);
              Clients(nodes) == if left == [] then old(Clients(nodes)) - {k} else old(Clients(nodes))[k := left]
    {
      hide AllHold, Apart, Placed, Clients, Values, Without, Dropped;
      Inside(k);
      ghost var before, ps := nodes, places;
      ghost var at := Delete(k, c);
      FreeIfEmpty(k);
      ValuesDropped(before, ps, k, at);
      RemovedClients(before, nodes, k, Dropped(before[k], at));
    }

    /** The first client becomes the last. */
    method RotateClients(k: Key)
      requires Valid() && k in nodes
      modifies this, repr
      ensures Valid() && repr == old(repr)
      ensures Clients(nodes) == old(Clients(nodes))[k := Rotated(old(Clients(nodes))[k])]
    {
      hide AllHold, Consistent, Clients, Values, Turned, Rotated;
      ghost var before := nodes;
      Rotate(k);
      Known(before, k);
      ClientsWith(before, k, Turned(before[k]));
      ValuesTurned(before[k]);
    }

    /** listFirst */
    method First(k: Key) returns (c: nat)
      requires Valid() && k in nodes && nodes[k] != []
      ensures c == Values(nodes[k])[0]
    {
      ListAt(k);
      c := lists[k].head.value;
    }

    /** listLength */
    method Length(k: Key) returns (n: nat)
      requires Valid() && k in nodes
      ensures n == |nodes[k]|
    {
      ListAt(k);
      n := lists[k].len;
    }
  }

  lemma FewerLists(lists: Table, nodes: Nodes, repr: set<object>, k: Key)
    requires AllHold(lists, nodes, repr) && k in lists
    ensures AllHold(lists - {k}, nodes - {k}, repr)
  {
    hide Holds;
  }

  lemma Known(nodes: Nodes, k: Key)
    ensures k in Clients(nodes) <==> k in nodes
    ensures k in nodes ==> Clients(nodes)[k] == Values(nodes[k])
  {
  }

  lemma NoValues()
    ensures Values([]) == []
  {
  }

  lemma RemovedClients(before: Nodes, after: Nodes, k: Key, left: seq<Node<nat>>)
    requires k in before && after == if left == [] then before[k := left] - {k} else before[k := left]
    ensures Clients(after) == if Values(left) == [] then Clients(before) - {k} else Clients(before)[k := Values(left)]
    ensures k in Clients(before) && Clients(before)[k] == Values(before[k])
  {
  }
}
