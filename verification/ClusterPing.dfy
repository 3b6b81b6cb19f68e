/** What one PING, PONG or MEET changes, field by field, read off the node that receives it. */
module ClusterPing {
  import opened Options
  import opened ClusterNode

  /** Slot j goes to the sender: a master claims it under an epoch above that of its owner. */
  predicate Takes(n: Node, h: Header, j: Slot) {
    && h.slaveof.None? && h.sender != n.me && j in h.slots && j !in n.importing
    && OwnerOf(n, j) != Some(h.sender)
    && (j in n.owner ==> PeerOf(n, n.owner[j]).configEpoch < SeenConfigEpoch(n, h))
  }

  /** A master that turns out to be a replica has no slots. */
  predicate Releases(n: Node, h: Header, j: Slot) {
    h.slaveof.Some? && PeerOf(n, h.sender).role == Master && OwnerOf(n, j) == Some(h.sender)
  }

  /** The sender is a master with our own configEpoch, nothing newer is recorded for it, and its name is greater. */
  predicate Collides(n: Node, h: Header) {
    && Myself(n).role == Master && h.slaveof.None? && h.sender > n.me
    && SeenConfigEpoch(n, h) == Myself(n).configEpoch >= PeerOf(n, h.sender).configEpoch
  }

  /** All slots of the master this node watches go to the sender. */
  predicate Demotes(n: Node, h: Header) {
    && CurMaster(n).Some?
    && (exists j :: j in n.owner && n.owner[j] == CurMaster(n).value)
    && (forall j :: j in n.owner && n.owner[j] == CurMaster(n).value ==> Takes(n, h, j))
  }

  lemma UnknownSender(n: Node, h: Header)
    requires n.me in n.peers && h.sender !in n.peers
    ensures ProcessPing(n, h) == (n, None)
  {
  }

  /** The node before the claim of the header is applied. */
  function Switched(n: Node, h: Header): (r: Node)
    requires h.sender in n.peers
    ensures r.me == n.me && r.peers.Keys == n.peers.Keys
  {
    SwitchRole(NoteEpochs(n, h), h)
  }

  lemma SwitchedOwners(n: Node, h: Header, j: Slot)
    requires h.sender in n.peers
    ensures OwnerOf(Switched(n, h), j) == if Releases(n, h, j) then None else OwnerOf(n, j)
    ensures Switched(n, h).importing == n.importing
  {
  }

  lemma SwitchedPeers(n: Node, h: Header, k: NodeId)
    requires h.sender in n.peers && k in n.peers
    ensures var p, q := n.peers[k], Switched(n, h).peers[k];
            if k != h.sender then q == p
            else
              && q.configEpoch == MaxNat(p.configEpoch, SeenConfigEpoch(n, h))
              && (h.slaveof.None? ==> q.role == Master && (p.role == Master || q.slaveof == None))
              && (h.slaveof.Some? ==> q.role == if p.role == Master then Slave else p.role)
              && (h.slaveof.Some? ==> q.slaveof == if h.slaveof.value in n.peers then h.slaveof else p.slaveof)
  {
    assert MaxNat(n.peers[k].configEpoch, 0) == n.peers[k].configEpoch;
  }

  lemma ClaimTakes(n: Node, h: Header, j: Slot)
    requires n.me in n.peers && h.sender in n.peers && h.slaveof.None?
    ensures Takes(n, h, j) <==> h.sender != n.me && j in Moved(Switched(n, h), h.sender, SeenConfigEpoch(n, h), h.slots)
  {
    SwitchedOwners(n, h, j);
    if j in n.owner && n.owner[j] in n.peers {
      SwitchedPeers(n, h, n.owner[j]);
    }
    hide Switched;
  }

  /** What the claim does to the table and to this node. */
  lemma ClaimApplied(n: Node, h: Header, j: Slot)
    requires n.me in n.peers && h.sender in n.peers
    ensures var r := ApplyClaim(Switched(n, h), h, SeenConfigEpoch(n, h));
            OwnerOf(r, j) == if Takes(n, h, j) then Some(h.sender) else if Releases(n, h, j) then None else OwnerOf(n, j)
  {
    SwitchedOwners(n, h, j);
    SwitchedPeers(n, h, h.sender);
    if h.slaveof.None? {
      ClaimTakes(n, h, j);
    }
    hide Switched;
  }

  lemma DemotesIs(n: Node, h: Header)
    requires n.me in n.peers && h.sender in n.peers && h.slaveof.None? && h.sender != n.me
    ensures Demotes(n, h) <==> LosesAll(Switched(n, h), h.sender, SeenConfigEpoch(n, h), h.slots)
  {
    var n2 := Switched(n, h);
    SwitchedPeers(n, h, n.me);
    assert n2.owner == n.owner;
    assert CurMaster(n2) == CurMaster(n);
    hide Switched;
    if CurMaster(n).Some? {
      var cur := CurMaster(n).value;
      assert Bitmap(n2, cur) == Bitmap(n, cur);
      forall j | j in n.owner && n.owner[j] == cur
        ensures Takes(n, h, j) <==> j in Moved(n2, h.sender, SeenConfigEpoch(n, h), h.slots)
      {
        ClaimTakes(n, h, j);
      }
      hide Takes, Moved;
      if j: Slot :| j in n.owner && n.owner[j] == cur {
        assert j in Bitmap(n, cur);
      }
    }
  }

  lemma ClaimPeers(n: Node, h: Header, k: NodeId)
    requires n.me in n.peers && h.sender in n.peers && k in n.peers
    ensures var q, r := Switched(n, h), ApplyClaim(Switched(n, h), h, SeenConfigEpoch(n, h));
            && r.me == n.me && r.peers.Keys == n.peers.Keys && r.importing <= n.importing
            && (k != n.me ==> r.peers[k] == q.peers[k])
            && (h.sender == n.me ==> r.peers[k] == q.peers[k])
            && (h.sender != n.me && k == n.me ==> r.peers[k].configEpoch == n.peers[k].configEpoch)
            && (h.sender != n.me && k == n.me && !Demotes(n, h) ==> r.peers[k] == n.peers[k])
            && (h.sender != n.me && k == n.me && Demotes(n, h) ==> r.peers[k].slaveof == Some(h.sender) && r.peers[k].role != Master)
  {
    var q := Switched(n, h);
    SwitchedPeers(n, h, h.sender);
    SwitchedPeers(n, h, n.me);
    assert q.me == n.me && q.importing == n.importing && q.peers.Keys == n.peers.Keys;
    if h.slaveof.None? && h.sender != n.me {
      DemotesIs(n, h);
      NotDirty(q, h, SeenConfigEpoch(n, h));
    }
    assert h.slaveof.Some? ==> !Demotes(n, h) && q.peers[h.sender].role != Master;
    hide Switched, SetMaster, Demotes, Moved, Rebind, LosesAll;
  }

  lemma NotDirty(n: Node, h: Header, epoch: nat)
    requires h.sender in n.peers && n.peers[h.sender].role == Master
    ensures LosesAll(n, h.sender, epoch, h.slots) ==> DirtySlots(n, h)
  {
    if Bitmap(n, h.sender) == h.slots {
      assert Moved(n, h.sender, epoch, h.slots) == {};
    }
  }

  /** Nothing that carries our own configEpoch can demote us. */
  lemma CollisionKeepsRole(n: Node, h: Header)
    requires Myself(n).role == Master && SeenConfigEpoch(n, h) <= Myself(n).configEpoch
    ensures !Demotes(n, h)
  {
    forall j | j in n.owner && n.owner[j] == n.me ensures !Takes(n, h, j) {
    }
    hide Takes;
  }

  lemma CollisionIs(n: Node, h: Header)
    requires n.me in n.peers && h.sender in n.peers
    ensures var n3 := ApplyClaim(Switched(n, h), h, SeenConfigEpoch(n, h));
            FixCollision(n3, h, SeenConfigEpoch(n, h)) == if Collides(n, h) then NextConfigEpoch(n3) else n3
  {
    ClaimPeers(n, h, n.me);
    ClaimPeers(n, h, h.sender);
    SwitchedPeers(n, h, n.me);
    SwitchedPeers(n, h, h.sender);
    if Myself(n).role == Master && SeenConfigEpoch(n, h) <= Myself(n).configEpoch {
      CollisionKeepsRole(n, h);
    }
    hide Switched, ApplyClaim, Demotes, NextConfigEpoch;
  }

  /**
   * The slot table: a slot changes hands exactly if it is claimed by a master under an epoch above
   * its owner's, and is released exactly if its owner turned replica.
   */
  lemma PingOwners(n: Node, h: Header, j: Slot)
    requires n.me in n.peers && h.sender in n.peers
    ensures OwnerOf(ProcessPing(n, h).0, j)
         == if Takes(n, h, j) then Some(h.sender) else if Releases(n, h, j) then None else OwnerOf(n, j)
  {
    ClaimApplied(n, h, j);
    hide ApplyClaim, NoteEpochs, SwitchRole, Takes, Releases;
  }

  /** The epochs: this node's own move exactly in a collision, the sender's up to what it announces. */
  lemma PingEpochs(n: Node, h: Header, k: NodeId)
    requires n.me in n.peers && h.sender in n.peers && k in n.peers
    ensures var r, current := ProcessPing(n, h).0, MaxNat(n.currentEpoch, SeenCurrentEpoch(n, h));
            && r.currentEpoch == (if Collides(n, h) then current + 1 else current)
            && r.peers.Keys == n.peers.Keys
            && r.peers[k].configEpoch == if k == n.me && Collides(n, h) then current + 1
                                         else if k == h.sender then MaxNat(n.peers[k].configEpoch, SeenConfigEpoch(n, h))
                                         else n.peers[k].configEpoch
  {
    CollisionIs(n, h);
    ClaimPeers(n, h, k);
    SwitchedPeers(n, h, k);
    hide ApplyClaim, NoteEpochs, SwitchRole, Collides, Demotes, FixCollision;
  }

  /** The roles: the sender has the one it announces, this node is a replica of it exactly if it lost all slots. */
  lemma PingRoles(n: Node, h: Header, k: NodeId)
    requires n.me in n.peers && h.sender in n.peers && k in n.peers && h.sender != n.me
    ensures var p, q := n.peers[k], ProcessPing(n, h).0.peers[k];
            if k == h.sender then
              && (h.slaveof.None? ==> q.role == Master && (p.role == Master || q.slaveof == None))
              && (h.slaveof.Some? ==> q.role == if p.role == Master then Slave else p.role)
              && (h.slaveof.Some? ==> q.slaveof == if h.slaveof.value in n.peers then h.slaveof else p.slaveof)
            else if k == n.me && Demotes(n, h) then q.role != Master && q.slaveof == Some(h.sender)
            else q.role == p.role && q.slaveof == p.slaveof
  {
    CollisionIs(n, h);
    ClaimPeers(n, h, k);
    SwitchedPeers(n, h, k);
    hide ApplyClaim, NoteEpochs, SwitchRole, Collides, Demotes, FixCollision;
  }

  // ------------------------------------------------------------------------- the answer

  /** Slot i is claimed under an epoch older than that of its owner. */
  predicate Stale(n: Node, h: Header, i: Slot) {
    i in h.slots && i in n.owner && n.owner[i] != h.sender && PeerOf(n, n.owner[i]).configEpoch > SeenConfigEpoch(n, h)
  }

  /** Slot i is the first such slot, and its owner is reported with the epoch and the slots it has here. */
  predicate Reports(n: Node, r: Node, h: Header, b: Body, i: Slot) {
    && Stale(n, h, i) && (forall k: Slot :: k < i ==> !Stale(n, h, k))
    && b == Update(n.owner[i], PeerOf(n, n.owner[i]).configEpoch, Bitmap(r, n.owner[i]))
  }

  lemma {:induction false} FirstStale(n: Node, h: Header, epoch: nat, j: nat)
    requires j <= CLUSTER_SLOTS && StaleOwner(n, h, epoch, j).Some?
    ensures exists i: Slot :: IsFirst(n, h, epoch, j, i) && Some(n.owner[i]) == StaleOwner(n, h, epoch, j)
    decreases CLUSTER_SLOTS - j
  {
    if j < CLUSTER_SLOTS {
      if IsFirst(n, h, epoch, j, j) {
      } else {
        FirstStale(n, h, epoch, j + 1);
        var i: Slot :| IsFirst(n, h, epoch, j + 1, i) && Some(n.owner[i]) == StaleOwner(n, h, epoch, j + 1);
        assert IsFirst(n, h, epoch, j, i);
      }
    }
  }

  predicate Newer(n: Node, h: Header, epoch: nat, i: Slot) {
    i in h.slots && i in n.owner && n.owner[i] != h.sender && PeerOf(n, n.owner[i]).configEpoch > epoch
  }

  predicate IsFirst(n: Node, h: Header, epoch: nat, j: nat, i: Slot) {
    j <= i && Newer(n, h, epoch, i) && forall k: Slot :: j <= k < i ==> !Newer(n, h, epoch, k)
  }

  lemma StaleStays(n: Node, h: Header, i: Slot)
    requires n.me in n.peers && h.sender in n.peers
    ensures var n3 := ApplyClaim(Switched(n, h), h, SeenConfigEpoch(n, h));
            && (Newer(n3, h, SeenConfigEpoch(n, h), i) <==> Stale(n, h, i))
            && (Stale(n, h, i) ==> n3.owner[i] == n.owner[i] && PeerOf(n3, n.owner[i]).configEpoch == PeerOf(n, n.owner[i]).configEpoch)
  {
    ClaimApplied(n, h, i);
    if i in n.owner && n.owner[i] in n.peers {
      ClaimPeers(n, h, n.owner[i]);
      SwitchedPeers(n, h, n.owner[i]);
    }
    ClaimPeers(n, h, n.me);
    hide ApplyClaim, Switched, Demotes;
  }

  /** A replica's claim is looked at only if it differs from what its master has here. */
  predicate Looked(n: Node, r: Node, h: Header)
    requires h.sender in n.peers
  {
    || h.slaveof.None?
    || var master := if h.slaveof.value in n.peers then h.slaveof else n.peers[h.sender].slaveof;
       master.Some? && Bitmap(r, master.value) != h.slots
  }

  lemma CleanClaim(n: Node, h: Header, i: Slot)
    requires h.sender in n.peers && h.slaveof.None? && !DirtySlots(Switched(n, h), h)
    ensures !Stale(n, h, i)
  {
    SwitchedPeers(n, h, h.sender);
    SwitchedOwners(n, h, i);
    hide Switched;
    assert i in h.slots ==> i in Bitmap(Switched(n, h), h.sender);
  }

  lemma DirtyIs(n: Node, h: Header)
    requires n.me in n.peers && h.sender in n.peers && h.slaveof.Some?
    ensures DirtySlots(Switched(n, h), h) <==> Looked(n, ApplyClaim(Switched(n, h), h, SeenConfigEpoch(n, h)), h)
  {
    SwitchedPeers(n, h, h.sender);
    hide Switched;
  }

  /** The owner an UPDATE reports, if there is one to send. */
  function Reported(n: Node, h: Header): Option<NodeId>
    requires n.me in n.peers && h.sender in n.peers
  {
    if DirtySlots(Switched(n, h), h)
    then StaleOwner(ApplyClaim(Switched(n, h), h, SeenConfigEpoch(n, h)), h, SeenConfigEpoch(n, h), 0) else None
  }

  lemma ReplyIs(n: Node, h: Header)
    requires n.me in n.peers && h.sender in n.peers
    ensures var n3 := ApplyClaim(Switched(n, h), h, SeenConfigEpoch(n, h)); var (r, reply) := ProcessPing(n, h);
            && r.owner == n3.owner && n3.me == n.me
            && reply == if Reported(n, h).Some? then Some((BuildHeader(n3), BuildUpdate(n3, Reported(n, h).value))) else None
  {
    hide ApplyClaim, NoteEpochs, SwitchRole, FixCollision, DirtySlots, StaleOwner, BuildHeader, BuildUpdate;
  }

  lemma ReportedExact(n: Node, h: Header)
    requires n.me in n.peers && h.sender in n.peers
    ensures var n3 := ApplyClaim(Switched(n, h), h, SeenConfigEpoch(n, h));
            Reported(n, h).Some? <==> Looked(n, n3, h) && exists i: Slot :: Stale(n, h, i)
  {
    var epoch := SeenConfigEpoch(n, h);
    var n3 := ApplyClaim(Switched(n, h), h, epoch);
    if h.slaveof.Some? {
      DirtyIs(n, h);
    }
    forall i: Slot ensures Newer(n3, h, epoch, i) <==> Stale(n, h, i) {
      StaleStays(n, h, i);
    }
    if h.slaveof.None? && !DirtySlots(Switched(n, h), h) {
      forall i: Slot ensures !Stale(n, h, i) {
        CleanClaim(n, h, i);
      }
    }
    hide ApplyClaim, Switched, DirtySlots, Stale, Looked;
    NewerExists(n3, h, epoch);
  }

  lemma NewerExists(n: Node, h: Header, epoch: nat)
    ensures StaleOwner(n, h, epoch, 0).Some? <==> exists i: Slot :: Newer(n, h, epoch, i)
  {
    if StaleOwner(n, h, epoch, 0).Some? {
      FirstStale(n, h, epoch, 0);
    }
    hide StaleOwner;
  }

  /**
   * An UPDATE goes back exactly if some claimed slot has a newer owner here; it reports the owner of
   * the first one.
   */
  lemma PingReply(n: Node, h: Header)
    requires n.me in n.peers && h.sender in n.peers
    ensures var (r, reply) := ProcessPing(n, h);
            && (reply.Some? <==> Looked(n, r, h) && exists i: Slot :: Stale(n, h, i))
            && (reply.Some? ==> reply.value.0.sender == n.me && exists i: Slot :: Reports(n, r, h, reply.value.1, i))
  {
    ReplyIs(n, h);
    ReportedExact(n, h);
    var n3 := ApplyClaim(Switched(n, h), h, SeenConfigEpoch(n, h));
    var (r, reply) := ProcessPing(n, h);
    assert Looked(n, n3, h) == Looked(n, r, h) by { hide ApplyClaim, ProcessPing; }
    hide ApplyClaim, Switched, Looked, ProcessPing, Stale;
    if reply.Some? {
      ReportsFirst(n, r, h);
    }
  }

  lemma ReportsFirst(n: Node, r: Node, h: Header)
    requires n.me in n.peers && h.sender in n.peers && Reported(n, h).Some?
    requires var n3 := ApplyClaim(Switched(n, h), h, SeenConfigEpoch(n, h)); r.owner == n3.owner
    ensures var n3 := ApplyClaim(Switched(n, h), h, SeenConfigEpoch(n, h));
            exists i: Slot :: Reports(n, r, h, BuildUpdate(n3, Reported(n, h).value), i)
  {
    hide ApplyClaim, Switched, DirtySlots, Stale, StaleOwner;
    var epoch := SeenConfigEpoch(n, h);
    var n3 := ApplyClaim(Switched(n, h), h, epoch);
    FirstStale(n3, h, epoch, 0);
    var i: Slot :| IsFirst(n3, h, epoch, 0, i) && Some(n3.owner[i]) == StaleOwner(n3, h, epoch, 0);
    StaleStays(n, h, i);
    forall k: Slot | k < i ensures !Stale(n, h, k) {
      StaleStays(n, h, k);
      assert !Newer(n3, h, epoch, k);
    }
    assert Reports(n, r, h, BuildUpdate(n3, Reported(n, h).value), i);
  }

  /** A master advertises the slots it has and its own epoch, a replica those of its master. */
  lemma HeaderExact(n: Node, j: Slot)
    ensures var h := BuildHeader(n);
            && (Myself(n).role != Slave || Myself(n).slaveof.None? ==>
                  h.configEpoch == Myself(n).configEpoch && (j in h.slots <==> OwnerOf(n, j) == Some(n.me)))
            && (Myself(n).role == Slave && Myself(n).slaveof.Some? ==>
                  && h.configEpoch == PeerOf(n, Myself(n).slaveof.value).configEpoch
                  && (j in h.slots <==> OwnerOf(n, j) == Myself(n).slaveof))
            && h.slaveof == Myself(n).slaveof
  {
  }
}
