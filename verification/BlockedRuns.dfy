/** Commands that block, push, overwrite and remove, in any order: when somebody can sleep on a list. */
module BlockedRuns {
  import opened Options
  import opened Blocked
  import opened BlockedFair
  import opened BlockedWakeup

  predicate NothingBefore(data: map<Key, Obj>, keys: seq<Key>, i: nat)
    requires i <= |keys|
  {
    forall j :: 0 <= j < i ==> keys[j] !in data || data[keys[j]] == Lst([])
  }

  /** BLPOP and BRPOP look for the first key that holds something. */
  function FirstKey(data: map<Key, Obj>, keys: seq<Key>): (r: Option<Key>)
    ensures r.Some? ==> r.value in data && data[r.value] != Lst([])
    ensures r.Some? ==> exists i :: 0 <= i < |keys| && keys[i] == r.value && NothingBefore(data, keys, i)
    ensures r.None? ==> NothingBefore(data, keys, |keys|)
  {
    if keys == [] then None
    else
      var r := FirstKey(data, keys[..|keys| - 1]);
      var k := keys[|keys| - 1];
      if r.Some? then r else if k in data && data[k] != Lst([]) then Some(k) else None
  }

  /** An emptied list is removed. */
  function Swept(s: State, k: Key): State {
    if k in s.data && s.data[k] == Lst([]) then s.(data := s.data - {k}) else s
  }

  /** The list is there: pop from it, as a client served at once. */
  function PopNow(s: State, c: nat, k: Key, target: Option<Key>, side: Side): State
    requires k in s.data && s.data[k].Lst? && s.data[k].items != []
  {
    if WrongTarget(s, target) then s
    else
      var items := s.data[k].items;
      Swept(Deliver(s.(data := s.data[k := Lst(Shorter(items, side))]), k, c, target, side, Popped(items, side)), k)
  }

  /** What is left of the list, the target getting the element at its head. */
  function Moved(data: map<Key, Obj>, k: Key, target: Option<Key>, e: Elem, rest: seq<Elem>): map<Key, Obj> {
    if target.None? then data[k := Lst(rest)]
    else if target.value == k then data[k := Lst([e] + rest)]
    else data[k := Lst(rest)][target.value := Lst([e] + ItemsAt(data, target.value))]
  }

  /** The first or last element is handed out or moved to the head of the target, and the key is gone exactly if
      nothing is left; with a target of the wrong type nothing happens. */
  lemma PopNowExact(s: State, c: nat, k: Key, target: Option<Key>, side: Side)
    requires k in s.data && s.data[k].Lst? && s.data[k].items != []
    ensures var s', items := PopNow(s, c, k, target, side), s.data[k].items;
            var e := if side.Head? then items[0] else items[|items| - 1];
            var rest := if side.Head? then items[1..] else items[..|items| - 1];
            && (WrongTarget(s, target) ==> s' == s)
            && (!WrongTarget(s, target) ==>
                  && s'.served == s.served + [Service(c, k, e, true)]
                  && s'.handed == s.handed + (if target.None? then [e] else [])
                  && s'.clients == s.clients && s'.waiting == s.waiting
                  && s'.data == Moved(s.data, k, target, e, rest) - if rest == [] && target != Some(k) then {k} else {})
  {
    var items := s.data[k].items;
    var e, rest := Popped(items, side), Shorter(items, side);
    if !WrongTarget(s, target) {
      DeliverExact(s, c, k, target, side, e, rest);
      hide Deliver, Moved, Popped, Shorter;
      var s1 := Deliver(s.(data := s.data[k := Lst(rest)]), k, c, target, side, e);
      MovedAt(s.data, k, target, e, rest);
      assert s1.data - {} == s1.data;
    }
  }

  lemma DeliverExact(s: State, c: nat, k: Key, target: Option<Key>, side: Side, e: Elem, rest: seq<Elem>)
    requires !WrongTarget(s, target) && k in s.data && s.data[k].Lst?
    ensures var s' := Deliver(s.(data := s.data[k := Lst(rest)]), k, c, target, side, e);
            && s'.served == s.served + [Service(c, k, e, true)]
            && s'.handed == s.handed + (if target.None? then [e] else [])
            && s'.clients == s.clients && s'.waiting == s.waiting && s'.data == Moved(s.data, k, target, e, rest)
  {
    assert [e] + [] == [e];
    if target == Some(k) {
      assert s.data[k := Lst(rest)][k := Lst([e] + rest)] == s.data[k := Lst([e] + rest)];
    }
  }

  lemma MovedAt(data: map<Key, Obj>, k: Key, target: Option<Key>, e: Elem, rest: seq<Elem>)
    ensures var data' := Moved(data, k, target, e, rest);
            k in data' && data'[k] == Lst(if target == Some(k) then [e] + rest else rest)
  {
  }

  /** blockingPopGenericCommand; a key that holds no list is an error. */
  function BlockingPop(s: State, c: nat, keys: seq<Key>, side: Side): State
    requires c in s.clients
  {
    var k := FirstKey(s.data, keys);
    if k.None? then Block(s, c, OnList, keys, None, side)
    else if s.data[k.value].Lst? then PopNow(s, c, k.value, None, side)
    else s
  }

  /** brpoplpushCommand; its assertion that a list has an element is the last test. */
  function BlockingMove(s: State, c: nat, k: Key, target: Key): State
    requires c in s.clients
  {
    if k !in s.data then Block(s, c, OnList, [k], Some(target), Tail)
    else if s.data[k].Lst? && s.data[k].items != [] then PopNow(s, c, k, Some(target), Tail)
    else s
  }

  /** dbAdd; `signals` for the types somebody can block for. */
  function Add(s: State, k: Key, o: Obj, signals: bool): State {
    var s' := s.(data := s.data[k := o]);
    if signals then Signal(s', k) else s'
  }

  datatype Op =
    | Connect(c: nat)
    | Pop(c: nat, keys: seq<Key>, side: Side)
    | Move(c: nat, k: Key, target: Key)
    | Push(k: Key, items: seq<Elem>)
    | Replace(k: Key, items: seq<Elem>)
    | SetKey(k: Key, o: Obj, signals: bool)
    | Remove(k: Key)
    | TimeOut(c: nat)
    | Resume
    | Handle

  /**
   * Push: the new contents of a list that got elements; Replace: of one that lost some; SetKey: any
   * key is set to any object, overwriting what it holds.
   */
  function Step(s: State, op: Op): State
    requires Enabled(s, op)
  {
    match op
    case Connect(c) => s.(clients := s.clients[c := Client(NotBlocked, {}, None, Head, false)])
    case Pop(c, keys, side) => BlockingPop(s, c, keys, side)
    case Move(c, k, target) => BlockingMove(s, c, k, target)
    case Push(k, items) =>
      if k !in s.data then Add(s, k, Lst(items), true)
      else if s.data[k].Lst? then s.(data := s.data[k := Lst(items)])
      else s
    case Replace(k, items) => Swept(s.(data := s.data[k := Lst(items)]), k)
    case SetKey(k, o, signals) => if k !in s.data then Add(s, k, o, signals) else s.(data := s.data[k := o])
    case Remove(k) => s.(data := s.data - {k})
    case TimeOut(c) => Unblock(s, c)
    case Resume => TakeUnblocked(s)
    case Handle => HandleAll(s, [])
  }

  /** What pushes, pops, overwriting and removal do to the keys: one key changes, an emptied list is gone, and
      somebody is told exactly if the key was not there before. */
  lemma StepExact(s: State, op: Op, j: Key)
    requires Enabled(s, op) && (op.Push? || op.Replace? || op.SetKey? || op.Remove?)
    ensures var s' := Step(s, op);
            && s'.clients == s.clients && s'.waiting == s.waiting && s'.served == s.served && s'.handed == s.handed
            && (j != op.k ==> (j in s'.data <==> j in s.data) && (j in s.data ==> s'.data[j] == s.data[j]))
            && (op.Push? ==> op.k in s'.data && s'.data[op.k] ==
                               if op.k in s.data && !s.data[op.k].Lst? then s.data[op.k] else Lst(op.items))
            && (op.Replace? ==> (op.k in s'.data <==> op.items != []) && (op.items != [] ==> s'.data[op.k] == Lst(op.items)))
            && (op.SetKey? ==> op.k in s'.data && s'.data[op.k] == op.o)
            && (op.Remove? ==> op.k !in s'.data)
            && (s'.readySet != s.readySet ==> op.k !in s.data && (op.Push? || (op.SetKey? && op.signals)))
  {
  }

  predicate Enabled(s: State, op: Op) {
    match op
    case Connect(c) => c !in s.clients && c !in s.unblocked
    case Pop(c, keys, _) => c in s.clients && !Blocking(s.clients[c]) && keys != []
    case Move(c, _, _) => c in s.clients && !Blocking(s.clients[c])
    case Push(_, items) => items != []
    case Replace(k, _) => k in s.data && s.data[k].Lst?
    case SetKey(_, o, signals) => o != Lst([]) && (o.Lst? ==> signals)
    case Remove(_) => true
    case TimeOut(c) => c in s.clients && Blocking(s.clients[c])
    case Resume => s.unblocked != [] && s.unblocked[0] in s.clients
    case Handle => Inv(s, [])
  }

  /** BLPOP and BRPOP take from the first key that holds something, or block on exactly the keys named. */
  lemma PopExact(s: State, c: nat, keys: seq<Key>, side: Side)
    requires Flagged(s.clients) && Enabled(s, Pop(c, keys, side))
    ensures var s', first := Step(s, Pop(c, keys, side)), FirstKey(s.data, keys);
            && (first.None? ==> s'.clients[c].kind.OnList? && s'.clients[c].keys == (set k | k in keys)
                                && s'.clients[c].target.None? && s'.clients[c].side == side && s'.data == s.data)
            && (first.Some? && !s.data[first.value].Lst? ==> s' == s)
            && (first.Some? && s.data[first.value].Lst? ==> Popped1(s, s', c, first.value, None, side))
  {
    hide Block, PopNow;
    var first := FirstKey(s.data, keys);
    if first.None? {
      BlockExact(s, c, keys, None, side);
    } else if s.data[first.value].Lst? {
      PopNowExact(s, c, first.value, None, side);
    }
  }

  /** BRPOPLPUSH moves from the key, or blocks on it alone. */
  lemma MoveExact(s: State, c: nat, k: Key, target: Key)
    requires Flagged(s.clients) && Enabled(s, Move(c, k, target))
    ensures var s' := Step(s, Move(c, k, target));
            && (k !in s.data ==> s'.clients[c].kind.OnList? && s'.clients[c].keys == {k}
                                 && s'.clients[c].target == Some(target) && s'.clients[c].side.Tail? && s'.data == s.data)
            && (k in s.data && (!s.data[k].Lst? || s.data[k].items == [] || WrongTarget(s, Some(target))) ==> s' == s)
            && (k in s.data && s.data[k].Lst? && s.data[k].items != [] && !WrongTarget(s, Some(target)) ==>
                  Popped1(s, s', c, k, Some(target), Tail))
  {
    hide Block, PopNow;
    if k !in s.data {
      BlockExact(s, c, [k], Some(target), Tail);
    } else if s.data[k].Lst? && s.data[k].items != [] {
      PopNowExact(s, c, k, Some(target), Tail);
    }
  }

  /** The client got one element of the key, from its side. */
  predicate Popped1(s: State, s': State, c: nat, k: Key, target: Option<Key>, side: Side)
    requires k in s.data && s.data[k].Lst? && s.data[k].items != []
  {
    var items := s.data[k].items;
    var e := if side.Head? then items[0] else items[|items| - 1];
    var rest := if side.Head? then items[1..] else items[..|items| - 1];
    && s'.served == s.served + [Service(c, k, e, true)]
    && s'.handed == s.handed + (if target.None? then [e] else [])
    && s'.clients == s.clients && s'.waiting == s.waiting
    && s'.data == Moved(s.data, k, target, e, rest) - if rest == [] && target != Some(k) then {k} else {}
  }

  lemma {:induction false} KeysAdded(s: State, c: nat, keys: seq<Key>)
    requires c in s.clients
    ensures var s' := AddKeys(s, c, keys);
            s'.clients[c].keys == s.clients[c].keys + (set k | k in keys) && s'.data == s.data
  {
    if keys != [] {
      var n := |keys| - 1;
      KeysAdded(s, c, keys[..n]);
      assert keys == keys[..n] + [keys[n]];
    }
  }

  lemma BlockExact(s: State, c: nat, keys: seq<Key>, target: Option<Key>, side: Side)
    requires c in s.clients && s.clients[c].keys == {}
    ensures var s' := Block(s, c, OnList, keys, target, side);
            && c in s'.clients && s'.clients[c].kind.OnList? && s'.clients[c].keys == (set k | k in keys)
            && s'.clients[c].target == target && s'.clients[c].side == side && s'.data == s.data
  {
    KeysAdded(s, c, keys);
    hide AddKeys;
  }

  /** A client whose time is over waits for nothing, and has got nothing. */
  lemma TimeOutExact(s: State, c: nat)
    requires Enabled(s, TimeOut(c))
    ensures var s' := Step(s, TimeOut(c));
            && c in s'.clients && !Blocking(s'.clients[c]) && s'.clients[c].keys == {} && s'.clients[c].target.None?
            && (forall j :: j in s'.waiting ==> c !in s'.waiting[j])
            && s'.data == s.data && s'.served == s.served && s'.blocked == s.blocked - 1
  {
    hide Without;
  }

  // --------------------------------------------------------------------- every step keeps it

  ghost predicate RunInv(s: State) { Inv(s, []) && Filled(s) }

  lemma SignalAlert(s: State, k: Key)
    requires AlertBut(s, Some(k))
    ensures Alert(Signal(s, k))
  {
    var s' := Signal(s, k);
    forall j, c | IsList(s'.data, j) && Sleeps(s', c, j) ensures j in s'.readySet {
      assert Sleeps(s, c, j);
    }
  }

  lemma AddAlert(s: State, k: Key, o: Obj, signals: bool)
    requires Alert(s) && k !in s.data && (o.Lst? ==> signals)
    ensures Alert(Add(s, k, o, signals))
  {
    var s' := s.(data := s.data[k := o]);
    forall j, c | IsList(s'.data, j) && Sleeps(s', c, j) && j != k ensures j in s'.readySet {
      assert Sleeps(s, c, j) && IsList(s.data, j);
    }
    if signals {
      SignalAlert(s', k);
    }
  }

  /** Lists that stay lists wake nobody new. */
  lemma SameListsAlert(s: State, s': State)
    requires Alert(s) && s'.waiting == s.waiting && s'.clients == s.clients && s.readySet <= s'.readySet
    requires forall j :: IsList(s'.data, j) ==> IsList(s.data, j)
    ensures Alert(s')
  {
    forall j, c | IsList(s'.data, j) && Sleeps(s', c, j) ensures j in s'.readySet {
      assert Sleeps(s, c, j) && IsList(s.data, j);
    }
  }

  lemma DeliverAlert(s: State, k: Key, c: nat, target: Option<Key>, side: Side, e: Elem)
    requires k in s.data && s.data[k].Lst? && Alert(s)
    ensures Alert(Deliver(s, k, c, target, side, e))
  {
    var s' := Deliver(s, k, c, target, side, e);
    if target.Some? && target.value !in s.data {
      AddAlert(s, target.value, Lst([e]), true);
      SameListsAlert(Add(s, target.value, Lst([e]), true), s');
    } else {
      SameListsAlert(s, s');
    }
  }

  lemma PopNowAlert(s: State, c: nat, k: Key, target: Option<Key>, side: Side)
    requires k in s.data && s.data[k].Lst? && s.data[k].items != [] && Alert(s)
    ensures Alert(PopNow(s, c, k, target, side))
  {
    if !WrongTarget(s, target) {
      var items := s.data[k].items;
      var s1 := s.(data := s.data[k := Lst(Shorter(items, side))]);
      SameListsAlert(s, s1);
      DeliverAlert(s1, k, c, target, side, Popped(items, side));
      var s2 := Deliver(s1, k, c, target, side, Popped(items, side));
      hide AlertBut, Deliver;
      SweptAlert(s2, k);
    }
  }

  lemma SweptAlert(s: State, k: Key)
    requires Alert(s)
    ensures Alert(Swept(s, k))
  {
    SameListsAlert(s, Swept(s, k));
  }

  lemma PopNowOk(s: State, c: nat, k: Key, target: Option<Key>, side: Side)
    requires k in s.data && s.data[k].Lst? && s.data[k].items != [] && RunInv(s)
    ensures RunInv(PopNow(s, c, k, target, side))
  {
    if !WrongTarget(s, target) {
      var items := s.data[k].items;
      var s1 := s.(data := s.data[k := Lst(Shorter(items, side))]);
      assert IndexOk(s1);
      hide IndexOk, ReadyAgrees;
      DeliverOk(s1, k, c, target, side, Popped(items, side), []);
      assert FilledBut(Deliver(s1, k, c, target, side, Popped(items, side)).data, Some(k));
    }
  }

  lemma AddKeysSame(s: State, c: nat, keys: seq<Key>)
    requires c in s.clients
    ensures var s' := AddKeys(s, c, keys);
            && s' == s.(waiting := s'.waiting, clients := s'.clients) && s'.clients.Keys == s.clients.Keys
            && s'.clients[c].kind == s.clients[c].kind
            && (forall d :: d in s.clients && d != c ==> s'.clients[d] == s.clients[d])
            && (forall j :: (j in s.waiting ==> j in s'.waiting) && (j in s'.waiting && j !in keys ==> j in s.waiting))
            && (forall j, d :: j in s'.waiting && d in s'.waiting[j] ==> (j in s.waiting && d in s.waiting[j]) || (d == c && j in keys))
  {
    if keys != [] {
      AddKeysSame(s, c, keys[..|keys| - 1]);
    }
  }

  /** A client that blocks for keys that hold nothing sleeps on no list. */
  lemma BlockAlert(s: State, c: nat, kind: Kind, keys: seq<Key>, target: Option<Key>, side: Side)
    requires c in s.clients && Alert(s) && forall i :: 0 <= i < |keys| ==> keys[i] !in s.data
    requires !s.clients[c].kind.OnList? && (forall j :: j in s.waiting ==> c !in s.waiting[j])
    ensures Alert(Block(s, c, kind, keys, target, side))
  {
    AddKeysSame(s, c, keys);
    hide AddKeys;
    var s' := Block(s, c, kind, keys, target, side);
    forall j, d | IsList(s'.data, j) && Sleeps(s', d, j) ensures j in s'.readySet {
      assert j !in keys;
      assert d != c;
      assert Sleeps(s, d, j);
    }
  }

  lemma NotWaiting(s: State, c: nat)
    requires IndexOk(s) && c in s.clients && !Blocking(s.clients[c])
    ensures forall j :: j in s.waiting ==> c !in s.waiting[j]
  {
    forall j | j in s.waiting ensures c !in s.waiting[j] {
      forall i | 0 <= i < |s.waiting[j]| ensures s.waiting[j][i] != c {
        assert WaitsFor(s.waiting[j][i], j, s.clients);
      }
    }
  }

  lemma UnblockAlert(s: State, c: nat)
    requires c in s.clients && Alert(s)
    ensures Alert(Unblock(s, c))
  {
    hide Without;
    var s' := Unblock(s, c);
    forall j, d | IsList(s'.data, j) && Sleeps(s', d, j) ensures j in s'.readySet {
      assert Sleeps(s, d, j);
    }
  }

  lemma ClientAlert(s: State, c: nat, cl: Client, queue: seq<nat>)
    requires Alert(s) && (cl.kind.OnList? ==> c in s.clients && s.clients[c].kind.OnList?)
    ensures Alert(s.(clients := s.clients[c := cl], unblocked := queue))
  {
    var s' := s.(clients := s.clients[c := cl], unblocked := queue);
    forall j, d | IsList(s'.data, j) && Sleeps(s', d, j) ensures j in s'.readySet {
      assert Sleeps(s, d, j);
    }
  }

  /** The key holds something else, somebody sleeps on it, and it is set to a list without a word. */
  ghost predicate Silent(s: State, op: Op) {
    && op.SetKey? && op.o.Lst? && op.k in s.data && !s.data[op.k].Lst? && op.k !in s.readySet
    && exists c :: Sleeps(s, c, op.k)
  }

  /** Overwriting keeps every sleeper's list ready if and only if it is not silent. */
  lemma SetKeyExact(s: State, op: Op)
    requires Alert(s) && op.SetKey? && Enabled(s, op)
    ensures Alert(Step(s, op)) <==> !Silent(s, op)
  {
    var s', k := Step(s, op), op.k;
    if k !in s.data {
      AddAlert(s, k, op.o, op.signals);
    } else if Silent(s, op) {
      var c :| Sleeps(s, c, k);
      assert IsList(s'.data, k) && Sleeps(s', c, k);
    } else {
      forall j, c | IsList(s'.data, j) && Sleeps(s', c, j) ensures j in s'.readySet {
        assert Sleeps(s, c, j);
        assert j != k ==> IsList(s.data, j);
      }
    }
  }

  lemma StepAlert(s: State, op: Op)
    requires RunInv(s) && Alert(s) && Enabled(s, op) && !Silent(s, op)
    ensures Alert(Step(s, op)) && (op.Handle? ==> Served(Step(s, op)))
  {
    match op
    case Connect(c) => ClientAlert(s, c, Client(NotBlocked, {}, None, Head, false), s.unblocked);
    case Pop(c, keys, side) =>
      var k := FirstKey(s.data, keys);
      if k.None? {
        NotWaiting(s, c);
        BlockAlert(s, c, OnList, keys, None, side);
      } else if s.data[k.value].Lst? {
        PopNowAlert(s, c, k.value, None, side);
      }
    case Move(c, k, target) =>
      if k !in s.data {
        NotWaiting(s, c);
        BlockAlert(s, c, OnList, [k], Some(target), Tail);
      } else if s.data[k].Lst? && s.data[k].items != [] {
        PopNowAlert(s, c, k, Some(target), Tail);
      }
    case Push(k, items) =>
      if k !in s.data { AddAlert(s, k, Lst(items), true); }
      else { SameListsAlert(s, Step(s, op)); }
    case Replace(k, items) => SameListsAlert(s, Step(s, op));
    case SetKey(_, _, _) => SetKeyExact(s, op);
    case Remove(k) => SameListsAlert(s, Step(s, op));
    case TimeOut(c) => UnblockAlert(s, c);
    case Resume => ClientAlert(s, s.unblocked[0], s.clients[s.unblocked[0]].(queued := false), s.unblocked[1..]);
    case Handle => NoLostWakeUp(s, []);
  }

  lemma BlockSame(s: State, c: nat, kind: Kind, keys: seq<Key>, target: Option<Key>, side: Side)
    requires c in s.clients
    ensures var s' := Block(s, c, kind, keys, target, side);
            s'.data == s.data && s'.readyList == s.readyList && s'.readySet == s.readySet
  {
    AddKeysSame(s, c, keys);
  }

  lemma BlockRuns(s: State, c: nat, keys: seq<Key>, target: Option<Key>, side: Side)
    requires RunInv(s) && c in s.clients && !Blocking(s.clients[c]) && keys != []
    ensures RunInv(Block(s, c, OnList, keys, target, side))
  {
    BlockOk(s, c, OnList, keys, target, side);
    BlockSame(s, c, OnList, keys, target, side);
    hide Block, IndexOk;
  }

  lemma ConnectOk(s: State, c: nat)
    requires IndexOk(s) && c !in s.clients
    ensures IndexOk(s.(clients := s.clients[c := Client(NotBlocked, {}, None, Head, false)]))
  {
    var s' := s.(clients := s.clients[c := Client(NotBlocked, {}, None, Head, false)]);
    assert BlockedSet(s'.clients) == BlockedSet(s.clients);
    forall k, i | k in s'.waiting && 0 <= i < |s'.waiting[k]| ensures WaitsFor(s'.waiting[k][i], k, s'.clients) {
      assert WaitsFor(s.waiting[k][i], k, s.clients);
    }
  }

  lemma StepInv(s: State, op: Op)
    requires RunInv(s) && Alert(s) && Enabled(s, op)
    ensures RunInv(Step(s, op))
  {
    hide Listed, Stored, Lists, Flagged, QueueAgrees, ReadyAgrees, BlockedSet;
    match op
    case Connect(c) => ConnectOk(s, c);
    case Pop(c, keys, side) =>
      var k := FirstKey(s.data, keys);
      if k.None? {
        BlockRuns(s, c, keys, None, side);
      } else if s.data[k.value].Lst? {
        PopNowOk(s, c, k.value, None, side);
      }
    case Move(c, k, target) =>
      if k !in s.data {
        BlockRuns(s, c, [k], Some(target), Tail);
      } else if s.data[k].Lst? && s.data[k].items != [] {
        PopNowOk(s, c, k, Some(target), Tail);
      }
    case Push(k, items) => SignalOk(s.(data := s.data[k := Lst(items)]), k, []);
    case Replace(k, items) =>
    case SetKey(k, o, signals) => SignalOk(s.(data := s.data[k := o]), k, []);
    case Remove(k) =>
    case TimeOut(c) => UnblockOk(s, c);
    case Resume => TakeUnblockedOk(s);
    case Handle =>
      HandleAllOk(s, []);
      NoLostWakeUp(s, []);
  }

  // ------------------------------------------------------------------------------ whole runs

  ghost predicate IsRun(states: seq<State>, ops: seq<Op>) {
    && |states| == |ops| + 1
    && forall i :: 0 <= i < |ops| ==> Enabled(states[i], ops[i]) && states[i + 1] == Step(states[i], ops[i])
  }

  /** A server without clients, whatever it stores. */
  ghost predicate Started(s: State) {
    s == State(map[], map[], 0, [], {}, [], s.data, s.served, s.handed) && Filled(s)
  }

  lemma StartedOk(s: State)
    requires Started(s)
    ensures RunInv(s) && Alert(s)
  {
    assert [] + s.readyList == [];
  }

  lemma {:induction false} RunAlert(states: seq<State>, ops: seq<Op>, i: nat)
    requires IsRun(states, ops) && Started(states[0]) && i < |states|
    requires forall j :: 0 <= j < |ops| ==> !Silent(states[j], ops[j])
    ensures RunInv(states[i]) && Alert(states[i])
  {
    hide RunInv, AlertBut, Silent, Step, Started, Enabled;
    if i == 0 {
      StartedOk(states[0]);
    } else {
      RunAlert(states, ops, i - 1);
      assert Enabled(states[i - 1], ops[i - 1]) && states[i - 1 + 1] == Step(states[i - 1], ops[i - 1]);
      StepInv(states[i - 1], ops[i - 1]);
      StepAlert(states[i - 1], ops[i - 1]);
    }
  }

  /**
   * In every run in which no list silently replaces something else, nobody sleeps on a list once
   * the ready keys have been handled, and no empty list is stored.
   */
  lemma NobodySleeps(states: seq<State>, ops: seq<Op>, i: nat)
    requires IsRun(states, ops) && Started(states[0]) && i < |ops| && ops[i].Handle?
    requires forall j :: 0 <= j < |ops| ==> !Silent(states[j], ops[j])
    ensures Served(states[i + 1]) && Filled(states[i + 1])
  {
    RunAlert(states, ops, i);
    RunAlert(states, ops, i + 1);
    hide Started, AlertBut, Silent, Inv, FilledBut, Served;
    assert states[i + 1] == Step(states[i], ops[i]);
    StepAlert(states[i], ops[i]);
  }

  // ------------------------------------------------------------------------- the run that shows it

  const Nobody := State(map[], map[], 0, [], {}, [], map[], [], [])

  /** Client 1 blocks on k, SET makes k a string, and SORT with STORE overwrites it with a list. */
  const SilentOps := [Connect(1), Pop(1, ["k"], Head), SetKey("k", OtherObj, false), SetKey("k", Lst(["x"]), true), Handle]

  function Asleep(data: map<Key, Obj>): State {
    Nobody.(waiting := map["k" := [1]], clients := map[1 := Client(OnList, {"k"}, None, Head, false)], blocked := 1, data := data)
  }

  function SilentStates(): seq<State> {
    [Nobody, Nobody.(clients := map[1 := Client(NotBlocked, {}, None, Head, false)]), Asleep(map[]),
     Asleep(map["k" := OtherObj]), Asleep(map["k" := Lst(["x"])]), Asleep(map["k" := Lst(["x"])])]
  }

  lemma AsleepInv(data: map<Key, Obj>)
    ensures Inv(Asleep(data), []) && HandleAll(Asleep(data), []) == Asleep(data)
  {
    var s := Asleep(data);
    assert BlockedSet(s.clients) == {1};
    assert Listed(s.waiting, s.clients) && Stored(s.waiting, s.clients);
    assert [] + s.readyList == [];
  }

  lemma BlocksOnK(s: State)
    requires s == SilentStates()[1]
    ensures Step(s, SilentOps[1]) == Asleep(map[])
  {
    var keys := ["k"];
    assert FirstKey(map[], []) == None && keys[..0] == [];
    assert FirstKey(map[], keys) == None;
    assert AddKeys(s, 1, []) == s;
    assert AddKeys(s, 1, keys) == AddKey(s, 1, "k");
    assert [] + [1] == [1] && {} + {"k"} == {"k"};
  }

  predicate Goes(s: State, op: Op, s': State) { Enabled(s, op) && s' == Step(s, op) }

  lemma SilentSteps()
    ensures var states, ops := SilentStates(), SilentOps;
            && Goes(states[0], ops[0], states[1]) && Goes(states[1], ops[1], states[2])
            && Goes(states[2], ops[2], states[3]) && Goes(states[3], ops[3], states[4])
  {
    BlocksOnK(SilentStates()[1]);
    hide Inv, HandleAll, BlockingPop, Sleeps;
  }

  lemma OneSilent()
    ensures var states, ops := SilentStates(), SilentOps;
            && !Silent(states[0], ops[0]) && !Silent(states[1], ops[1]) && !Silent(states[2], ops[2])
            && Silent(states[3], ops[3]) && !Silent(states[4], ops[4])
  {
    assert Sleeps(SilentStates()[3], 1, "k");
  }

  /** The client sleeps on while its list holds an element and no key is ready. */
  lemma SilentSleeps()
    ensures IsRun(SilentStates(), SilentOps) && Started(Nobody)
    ensures forall j :: 0 <= j < |SilentOps| ==> (Silent(SilentStates()[j], SilentOps[j]) <==> j == 3)
    ensures var s := SilentStates()[5]; Sleeps(s, 1, "k") && s.data["k"] == Lst(["x"]) && s.readyList == []
  {
    SilentSteps();
    OneSilent();
    AsleepInv(map["k" := Lst(["x"])]);
    assert Goes(SilentStates()[4], SilentOps[4], SilentStates()[5]);
    FiveSteps(SilentStates(), SilentOps);
    hide IsRun, Inv, HandleAll, Silent, Goes;
  }

  lemma FiveSteps(states: seq<State>, ops: seq<Op>)
    requires |states| == 6 && |ops| == 5
    requires forall i :: i in {0, 1, 2, 3, 4} ==> Goes(states[i], ops[i], states[i + 1])
    ensures IsRun(states, ops)
  {
    hide Enabled, Step;
    forall i | 0 <= i < |ops| ensures Enabled(states[i], ops[i]) && states[i + 1] == Step(states[i], ops[i]) {
      assert i in {0, 1, 2, 3, 4} && Goes(states[i], ops[i], states[i + 1]);
    }
  }
}
