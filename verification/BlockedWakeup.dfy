/** No lost wake-up: no client sleeps on a list that has an element for it. */
module BlockedWakeup {
  import opened Options
  import opened Blocked
  import opened BlockedFair

  /** The client waits for an element of a list at k. */
  predicate Sleeps(s: State, c: nat, k: Key) {
    k in s.waiting && c in s.waiting[k] && c in s.clients && s.clients[c].kind.OnList?
  }

  predicate IsList(data: map<Key, Obj>, k: Key) { k in data && data[k].Lst? }

  /** Every list somebody sleeps on is ready, k perhaps excepted. */
  ghost predicate AlertBut(s: State, but: Option<Key>) {
    forall k, c :: IsList(s.data, k) && Sleeps(s, c, k) && but != Some(k) ==> k in s.readySet
  }

  ghost predicate Alert(s: State) { AlertBut(s, None) }

  /** No key holds an empty list, k perhaps excepted. */
  ghost predicate FilledBut(data: map<Key, Obj>, but: Option<Key>) {
    forall k :: IsList(data, k) && but != Some(k) ==> data[k].items != []
  }

  ghost predicate Filled(s: State) { FilledBut(s.data, None) }

  /** Nobody sleeps on a list. */
  ghost predicate Served(s: State) { forall k, c :: IsList(s.data, k) ==> !Sleeps(s, c, k) }

  // ------------------------------------------------------------------------ serving one client

  lemma ServeOneSleeps(s: State, k: Key, c: nat, j: Key)
    requires CanServe(s, k, 1) && s.data[k].items != [] && Sleeps(ServeOne(s, k), c, j)
    ensures Sleeps(s, c, j) && c != s.waiting[k][0]
  {
    ServeOneLeaves(s, k);
    hide Without;
  }

  /** A list that comes up is signalled if anybody waits for it. */
  lemma ServeOneReady(s: State, k: Key, j: Key)
    requires CanServe(s, k, 1) && s.data[k].items != []
    requires IsList(ServeOne(s, k).data, j) && j in ServeOne(s, k).waiting
    ensures IsList(s.data, j) || j in ServeOne(s, k).readySet
    ensures s.readySet <= ServeOne(s, k).readySet
  {
    hide Without;
  }

  lemma ServeOneKeys(s: State, k: Key)
    requires CanServe(s, k, 1) && s.data[k].items != []
    ensures s.readySet <= ServeOne(s, k).readySet
    ensures FilledBut(s.data, Some(k)) ==> FilledBut(ServeOne(s, k).data, Some(k))
  {
    hide Leave;
  }

  lemma ServeOneAlert(s: State, k: Key)
    requires CanServe(s, k, 1) && s.data[k].items != [] && AlertBut(s, Some(k))
    ensures AlertBut(ServeOne(s, k), Some(k))
  {
    hide ServeOne;
    var s' := ServeOne(s, k);
    forall j, c | IsList(s'.data, j) && Sleeps(s', c, j) && Some(k) != Some(j) ensures j in s'.readySet {
      ServeOneSleeps(s, k, c, j);
      ServeOneReady(s, k, j);
    }
  }

  // ------------------------------------------------------------------------------ one key

  /** From place n on nobody in the list of k waits for a list. */
  predicate OthersFrom(s: State, k: Key, n: nat) {
    forall i :: n <= i < |WaitsAt(s, k)| ==> WaitsAt(s, k)[i] in s.clients && !s.clients[WaitsAt(s, k)[i]].kind.OnList?
  }

  lemma RotateOthers(s: State, k: Key, n: nat)
    requires CanServe(s, k, n) && n > 0 && !First(s, k).kind.OnList? && OthersFrom(s, k, n)
    ensures OthersFrom(s.(waiting := s.waiting[k := Rotated(s.waiting[k])]), k, n - 1)
  {
    var ws, s' := s.waiting[k], s.(waiting := s.waiting[k := Rotated(s.waiting[k])]);
    forall i | n - 1 <= i < |WaitsAt(s', k)|
      ensures WaitsAt(s', k)[i] in s'.clients && !s'.clients[WaitsAt(s', k)[i]].kind.OnList?
    {
      if i < |ws| - 1 {
        assert WaitsAt(s', k)[i] == WaitsAt(s, k)[i + 1];
      } else {
        assert WaitsAt(s', k)[i] == ws[0];
      }
    }
  }

  lemma RotateAlert(s: State, k: Key)
    requires k in s.waiting && AlertBut(s, Some(k))
    ensures AlertBut(s.(waiting := s.waiting[k := Rotated(s.waiting[k])]), Some(k))
  {
    var s' := s.(waiting := s.waiting[k := Rotated(s.waiting[k])]);
    forall j, c | IsList(s'.data, j) && Sleeps(s', c, j) && Some(k) != Some(j) ensures j in s'.readySet {
      assert Sleeps(s, c, j);
    }
  }

  lemma ServeOthers(s: State, k: Key, n: nat, local: seq<Key>)
    requires Inv(s, local) && CanServe(s, k, n) && n > 0 && s.data[k].items != [] && First(s, k).kind.OnList?
    requires OthersFrom(s, k, n)
    ensures OthersFrom(ServeOne(s, k), k, n - 1)
  {
    ServeOneOk(s, k, local);
    ServeOneLeaves(s, k);
    var s', ws := ServeOne(s, k), s.waiting[k];
    assert Distinct(ws);
    hide ServeOne, Inv;
    forall i | n - 1 <= i < |WaitsAt(s', k)|
      ensures WaitsAt(s', k)[i] in s'.clients && !s'.clients[WaitsAt(s', k)[i]].kind.OnList?
    {
      assert WaitsAt(s', k)[i] == WaitsAt(s, k)[i + 1] != ws[0];
    }
  }

  predicate Done(s: State, k: Key) { IsList(s.data, k) && (s.data[k].items == [] || OthersFrom(s, k, 0)) }

  /** The loop stops at an empty list or when nobody sleeps on it. */
  lemma {:induction false} ServeLoopWakes(s: State, k: Key, n: nat, local: seq<Key>)
    requires Inv(s, local) && CanServe(s, k, n) && AlertBut(s, Some(k)) && OthersFrom(s, k, n)
    ensures AlertBut(ServeLoop(s, k, n, local), Some(k)) && Done(ServeLoop(s, k, n, local), k)
    ensures FilledBut(s.data, Some(k)) ==> FilledBut(ServeLoop(s, k, n, local).data, Some(k))
    decreases n
  {
    hide Inv, ServeOne, Rotated, AlertBut, FilledBut, OthersFrom;
    if n > 0 {
      if !First(s, k).kind.OnList? {
        RotateTurn(s, k, n, local);
        RotateAlert(s, k);
        RotateOthers(s, k, n);
        ServeLoopWakes(s.(waiting := s.waiting[k := Rotated(s.waiting[k])]), k, n - 1, local);
      } else if s.data[k].items != [] {
        ServeTurn(s, k, n, local);
        ServeOneAlert(s, k);
        ServeOneKeys(s, k);
        ServeOthers(s, k, n, local);
        ServeLoopWakes(ServeOne(s, k), k, n - 1, local);
      }
    }
  }

  lemma DoneAlert(s: State, k: Key)
    requires AlertBut(s, Some(k)) && Done(s, k)
    ensures var r := if s.data[k].items == [] then s.(data := s.data - {k}) else s;
            Alert(r) && (FilledBut(s.data, Some(k)) ==> Filled(r))
  {
    var r := if s.data[k].items == [] then s.(data := s.data - {k}) else s;
    forall j, c | IsList(r.data, j) && Sleeps(r, c, j) ensures j in r.readySet {
      assert IsList(s.data, j) && Sleeps(s, c, j);
      if OthersFrom(s, k, 0) { NoneSleeps(s, k, c); }
    }
  }

  lemma NoneSleeps(s: State, k: Key, c: nat)
    requires OthersFrom(s, k, 0)
    ensures !Sleeps(s, c, k)
  {
    if k in s.waiting {
      forall i | 0 <= i < |s.waiting[k]| ensures s.waiting[k][i] == c ==> c in s.clients && !s.clients[c].kind.OnList? {
        assert WaitsAt(s, k)[i] == s.waiting[k][i];
      }
    }
  }

  lemma HandleKeyAlert(s: State, local: seq<Key>)
    requires Inv(s, local) && local != [] && Alert(s)
    ensures Alert(HandleKey(s, local)) && (Filled(s) ==> Filled(HandleKey(s, local)))
  {
    UnreadyOk(s, local);
    var s0, k := s.(readySet := s.readySet - {local[0]}), local[0];
    UnreadyAlert(s, k);
    if IsList(s.data, k) {
      var n := |WaitsAt(s0, k)|;
      if k in s0.waiting { FirstKnown(s0, k); }
      hide IndexOk, ReadyAgrees, ServeLoop, AlertBut, FilledBut;
      ServeLoopWakes(s0, k, n, local[1..]);
      DoneAlert(ServeLoop(s0, k, n, local[1..]), k);
    }
  }

  lemma UnreadyAlert(s: State, k: Key)
    requires Alert(s)
    ensures var s0 := s.(readySet := s.readySet - {k});
            && AlertBut(s0, Some(k)) && (!IsList(s.data, k) ==> Alert(s0))
            && (Filled(s) ==> Filled(s0) && FilledBut(s0.data, Some(k)))
  {
    var s0 := s.(readySet := s.readySet - {k});
    forall j, c | IsList(s0.data, j) && Sleeps(s0, c, j) && j != k ensures j in s0.readySet {
      assert Sleeps(s, c, j);
    }
  }

  /** If every list somebody sleeps on is ready, handling the ready keys leaves nobody asleep on a list. */
  lemma {:induction false} NoLostWakeUp(s: State, local: seq<Key>)
    requires Inv(s, local) && Alert(s)
    ensures Served(HandleAll(s, local)) && Alert(HandleAll(s, local)) && (Filled(s) ==> Filled(HandleAll(s, local)))
    decreases s.blocked, |local| + |s.readyList|, |s.readyList|
  {
    if local != [] {
      HandleKeyOk(s, local);
      HandleKeyAlert(s, local);
      hide HandleKey, Inv, AlertBut, FilledBut, Served;
      NoLostWakeUp(HandleKey(s, local), local[1..]);
    } else if s.readyList != [] {
      TakeOverOk(s);
      assert AlertBut(s.(readyList := []), None) by {
        forall j, c | IsList(s.data, j) && Sleeps(s.(readyList := []), c, j) ensures j in s.readySet {
          assert Sleeps(s, c, j);
        }
      }
      hide Inv, AlertBut, FilledBut, Served;
      NoLostWakeUp(s.(readyList := []), s.readyList);
    } else {
      assert [] + s.readyList == [];
    }
  }
}
