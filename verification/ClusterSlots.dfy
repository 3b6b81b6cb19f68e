/** server.cluster as it is stored: node objects with bitmaps and slot counters, and the three
    slot tables that point to them.  Each operation is proved against ClusterNode's account of it. */
module ClusterSlots {
  import opened Options
  import opened ClusterNode
  import opened SlotBitmap

  lemma NoBits(b: SlotBitmap.Bitmap)
    requires b == seq(BITMAP_BYTES, i => 0)
    ensures Slots(b) == {} && forall j: Slot :: !TestBit(b, j)
  {
  }

  predicate Distinct(nodes: set<Member>) {
    forall n, n' :: n in nodes && n' in nodes && n.name == n'.name ==> n == n'
  }

  type Table = s: seq<Member?> | |s| == CLUSTER_SLOTS witness seq(CLUSTER_SLOTS, i => null)

  predicate Within(s: Table, nodes: set<Member>) {
    forall j: Slot :: s[j] == null || s[j] in nodes
  }

  /** The slot table by node names. */
  function OwnersOf(s: Table): (o: map<Slot, NodeId>)
    ensures forall j: Slot :: j in o <==> s[j] != null
    ensures forall j: Slot :: s[j] != null ==> o[j] == s[j].name
  {
    map j: Slot | 0 <= j < CLUSTER_SLOTS && s[j] != null :: s[j].name
  }

  lemma OwnersWithout(s: Table, s': Table, n: Member, nodes: set<Member>)
    requires Distinct(nodes) && n in nodes && Within(s, nodes)
    requires forall j: Slot :: s'[j] == if s[j] == n then null else s[j]
    ensures OwnersOf(s') == map j | j in OwnersOf(s) && OwnersOf(s)[j] != n.name :: OwnersOf(s)[j]
  {
  }

  lemma OwnersMoved(s: Table, s': Table, n: Member, moved: set<Slot>)
    requires forall j: Slot :: s'[j] == if j in moved then n else s[j]
    ensures OwnersOf(s') == OwnersOf(s) + (map j | j in moved :: n.name)
  {
  }

  lemma OwnersReplaced(s: Table, s': Table, from: Member, to: Member, nodes: set<Member>)
    requires Distinct(nodes) && from in nodes && Within(s, nodes)
    requires forall j: Slot :: s'[j] == if s[j] == from then to else s[j]
    ensures OwnersOf(s') == map j | j in OwnersOf(s) :: if OwnersOf(s)[j] == from.name then to.name else OwnersOf(s)[j]
  {
  }

  class Member {
    const name: NodeId
    var slots: SlotBitmap.Bitmap
    var numslots: nat
    var role: Role
    var slaveof: Member?
    var configEpoch: nat
    var handshake: bool
    var failed: bool
    var votedTime: int

    constructor (name: NodeId, role: Role, handshake: bool)
      ensures this.name == name && this.role == role && this.handshake == handshake
      ensures slots == seq(BITMAP_BYTES, i => 0) && numslots == 0 && slaveof == null && configEpoch == 0
      ensures !failed && votedTime == 0
    {
      this.name, this.role, this.handshake := name, role, handshake;
      slots := seq(BITMAP_BYTES, i => 0);
      numslots, slaveof, configEpoch, failed, votedTime := 0, null, 0, false, 0;
    }

    ghost predicate Counted()
      reads this`slots, this`numslots
    {
      numslots == |Slots(slots)|
    }

    /** clusterNodeSetSlotBit; the result is the old bit. */
    method SetSlotBit(slot: Slot) returns (wasSet: bool)
      requires Counted()
      modifies this`slots, this`numslots
      ensures Counted() && wasSet == old(TestBit(slots, slot))
      ensures slots == SetBit(old(slots), slot) && numslots == old(numslots) + (if wasSet then 0 else 1)
    {
      SetBitSlots(slots, slot);
      wasSet := TestBit(slots, slot);
      slots := SetBit(slots, slot);
      if !wasSet { numslots := numslots + 1; }
    }

    /** clusterNodeClearSlotBit; the result is the old bit. */
    method ClearSlotBit(slot: Slot) returns (wasSet: bool)
      requires Counted()
      modifies this`slots, this`numslots
      ensures Counted() && wasSet == old(TestBit(slots, slot))
      ensures slots == ClearBit(old(slots), slot) && numslots == old(numslots) - (if wasSet then 1 else 0)
    {
      SetBitSlots(slots, slot);
      wasSet := TestBit(slots, slot);
      slots := ClearBit(slots, slot);
      if wasSet {
        assert slot in Slots(old(slots));
        numslots := numslots - 1;
      }
    }
  }

  class Cluster {
    var nodes: set<Member>
    var myself: Member
    var slots: Table
    var importing: Table
    var migrating: Table
    var currentEpoch: nat
    var lastVoteEpoch: nat
    var size: nat
    var authTime: int
    var authEpoch: nat
    var authCount: nat
    var authSent: bool
    var authRank: nat

    /** clusterInit with an empty configuration: this node alone, a master with no slots. */
    constructor (name: NodeId)
      ensures Valid() && fresh(myself) && nodes == {myself} && myself.name == name
      ensures myself.role == Master && myself.slaveof == null && myself.configEpoch == currentEpoch == lastVoteEpoch == 0
      ensures forall j: Slot :: slots[j] == null && importing[j] == null && migrating[j] == null
    {
      var me := new Member(name, Master, false);
      myself := me;
      nodes := {me};
      slots := seq(CLUSTER_SLOTS, i => null);
      importing := seq(CLUSTER_SLOTS, i => null);
      migrating := seq(CLUSTER_SLOTS, i => null);
      currentEpoch, lastVoteEpoch, size := 0, 0, 1;
      authTime, authEpoch, authCount, authSent, authRank := 0, 0, 0, false, 0;
      new;
      NoBits(me.slots);
    }

    /** The tables point only to members of the cluster, which have distinct names. */
    ghost predicate Tables()
      reads this
    {
      && myself in nodes && Distinct(nodes)
      && Within(slots, nodes) && Within(importing, nodes) && Within(migrating, nodes)
    }

    /** slots[j] is n exactly when bit j of n is set, and numslots counts the bits. */
    ghost predicate Inverse()
      reads this`nodes, this`slots, nodes`slots, nodes`numslots
    {
      && (forall n :: n in nodes ==> n.Counted())
      && (forall n, j: Slot :: n in nodes ==> (TestBit(n.slots, j) <==> slots[j] == n))
    }

    ghost predicate Valid()
      reads this, nodes`slots, nodes`numslots
    {
      Tables() && Inverse()
    }

    // ------------------------------------------------------------ the view of ClusterNode

    ghost function PeerView(n: Member): Peer
      reads n`role, n`slaveof, n`configEpoch, n`handshake, n`failed, n`votedTime
    {
      Peer(n.role, if n.slaveof == null then None else Some(n.slaveof.name),
           n.configEpoch, n.handshake, n.failed, n.votedTime)
    }

    ghost function Peers(): (p: map<NodeId, Peer>)
      requires Distinct(nodes)
      reads this`nodes, nodes`role, nodes`slaveof, nodes`configEpoch, nodes`handshake, nodes`failed, nodes`votedTime
      ensures forall n :: n in nodes ==> n.name in p && p[n.name] == PeerView(n)
      ensures forall k :: k in p ==> exists n :: n in nodes && n.name == k
    {
      map n | n in nodes :: n.name := PeerView(n)
    }

    ghost function Importing(): set<Slot>
      reads this`importing
    {
      set j: Slot | 0 <= j < CLUSTER_SLOTS && importing[j] != null
    }

    ghost function View(): Node
      requires Tables()
      reads this, nodes`role, nodes`slaveof, nodes`configEpoch, nodes`handshake, nodes`failed, nodes`votedTime
    {
      Node(myself.name, currentEpoch, lastVoteEpoch, Peers(), OwnersOf(slots),
           Importing(),
           size, authTime, authEpoch, authCount, authSent, authRank)
    }

    /** The stored bitmap is the one read off the slot table. */
    lemma BitmapAgrees(n: Member)
      requires Valid() && n in nodes
      ensures Slots(n.slots) == ClusterNode.Bitmap(View(), n.name)
      ensures n.numslots == |ClusterNode.Bitmap(View(), n.name)|
    {
      forall j: Slot ensures j in Slots(n.slots) <==> j in ClusterNode.Bitmap(View(), n.name) {
      }
    }

    /** clusterAddSlot */
    method AddSlot(n: Member, slot: Slot) returns (ok: bool)
      requires Valid() && n in nodes
      modifies this`slots, n`slots, n`numslots
      ensures Valid()
      ensures ok == (old(slots[slot]) == null)
      ensures slots == if ok then old(slots)[slot := n] else old(slots)
    {
      if slots[slot] != null { return false; }
      var _ := n.SetSlotBit(slot);
      slots := slots[slot := n];
      return true;
    }

    /** clusterDelSlot; its assertion that the owner's bit was set holds. */
    method DelSlot(slot: Slot) returns (ok: bool)
      requires Valid()
      modifies this`slots, nodes`slots, nodes`numslots
      ensures Valid()
      ensures ok == (old(slots[slot]) != null)
      ensures slots == old(slots)[slot := null]
      ensures forall n :: n in nodes ==>
                n.numslots == old(n.numslots) - (if n == old(slots[slot]) then 1 else 0)
    {
      var n := slots[slot];
      if n == null { return false; }
      var wasSet := n.ClearSlotBit(slot);
      assert wasSet;
      slots := slots[slot := null];
      return true;
    }
  
    /** The loop of clusterDelNodeSlots. */
    method DelSlotsOf(n: Member) returns (deleted: nat)
      requires Valid() && n in nodes
      modifies this`slots, nodes`slots, nodes`numslots
      ensures Valid() && deleted + n.numslots == old(n.numslots)
      ensures forall k: Slot :: slots[k] == if old(slots[k]) == n then null else old(slots[k])
    {
      deleted := 0;
      for j := 0 to CLUSTER_SLOTS
        invariant Valid() && deleted + n.numslots == old(n.numslots)
        invariant forall k: Slot :: slots[k] == if k < j && old(slots[k]) == n then null else old(slots[k])
      {
        if TestBit(n.slots, j) {
          var _ := DelSlot(j);
          deleted := deleted + 1;
        }
      }
    }

    /** clusterDelNodeSlots */
    method DelNodeSlots(n: Member) returns (deleted: nat)
      requires Valid() && n in nodes
      modifies this`slots, nodes`slots, nodes`numslots
      ensures Valid() && n.numslots == 0 && deleted == old(n.numslots)
      ensures OwnersOf(slots) == ClusterNode.DelNodeSlots(old(View()), n.name).owner
    {
      deleted := DelSlotsOf(n);
      OwnersWithout(old(slots), slots, n, nodes);
      BitmapAgrees(n);
      hide Peers, Inverse, OwnersOf;
    }

    /** The master of this node, if it has one, is among the nodes. */
    ghost predicate Linked()
      reads this, myself`slaveof
    {
      myself.slaveof != null ==> myself.slaveof in nodes
    }

    /** Slot `j` is taken over by `sender`. */
    method MoveSlot(sender: Member, j: Slot)
      requires Valid() && sender in nodes
      modifies this`slots, nodes`slots, nodes`numslots
      ensures Valid() && slots == old(slots)[j := sender]
      ensures forall n :: n in nodes && n != sender ==> n.numslots <= old(n.numslots)
    {
      var _ := DelSlot(j);
      var _ := AddSlot(sender, j);
    }

    /** The test made for each claimed slot. */
    predicate Takes(sender: Member, epoch: nat, claimed: SlotBitmap.Bitmap, j: Slot)
      requires Tables()
      reads this, nodes`configEpoch
    {
      && TestBit(claimed, j) && slots[j] != sender && importing[j] == null
      && (slots[j] == null || slots[j].configEpoch < epoch)
    }

    lemma TakesAgrees(sender: Member, epoch: nat, claimed: SlotBitmap.Bitmap, j: Slot)
      requires Tables() && sender in nodes
      ensures Takes(sender, epoch, claimed, j) <==> j in Moved(View(), sender.name, epoch, Slots(claimed))
    {
    }

    /** The loop of clusterUpdateSlotsConfigWith: the slots that pass the test go to `sender`;
        tells whether one of them was taken from `cur`. */
    method RebindLoop(sender: Member, epoch: nat, claimed: SlotBitmap.Bitmap, cur: Member?, ghost moved: set<Slot>)
      returns (taken: bool)
      requires Valid() && sender in nodes
      requires forall j: Slot :: Takes(sender, epoch, claimed, j) <==> j in moved
      modifies this`slots, nodes`slots, nodes`numslots
      ensures Valid()
      ensures forall k: Slot :: slots[k] == if k in moved then sender else old(slots[k])
      ensures taken <==> exists k: Slot :: k in moved && old(slots[k]) == cur
      ensures forall n :: n in nodes && n != sender ==> n.numslots <= old(n.numslots)
    {
      hide Inverse;
      taken := false;
      for j := 0 to CLUSTER_SLOTS
        invariant Valid()
        invariant forall k: Slot :: slots[k] == if k < j && k in moved then sender else old(slots[k])
        invariant taken <==> exists k: Slot :: k < j && k in moved && old(slots[k]) == cur
        invariant forall n :: n in nodes && n != sender ==> n.numslots <= old(n.numslots)
      {
        assert slots[j] == old(slots[j]);
        if Takes(sender, epoch, claimed, j) {
          assert j in moved;
          if slots[j] == cur { taken := true; }
          MoveSlot(sender, j);
        }
      }
    }

    ghost function NameOf(n: Member?): Option<NodeId> { if n == null then None else Some(n.name) }

    method RebindSlots(sender: Member, epoch: nat, claimed: SlotBitmap.Bitmap, cur: Member?) returns (taken: bool)
      requires Valid() && sender in nodes && (cur == null || cur in nodes)
      modifies this`slots, nodes`slots, nodes`numslots
      ensures Valid()
      ensures OwnersOf(slots) == Rebind(old(View()), sender.name, epoch, Slots(claimed))
      ensures taken <==> exists j :: j in Moved(old(View()), sender.name, epoch, Slots(claimed))
                                      && OwnerOf(old(View()), j) == NameOf(cur)
      ensures forall n :: n in nodes && n != sender ==> n.numslots <= old(n.numslots)
    {
      ghost var moved := Moved(View(), sender.name, epoch, Slots(claimed));
      forall j: Slot ensures Takes(sender, epoch, claimed, j) <==> j in moved {
        TakesAgrees(sender, epoch, claimed, j);
      }
      taken := RebindLoop(sender, epoch, claimed, cur, moved);
      OwnersMoved(old(slots), slots, sender, moved);
      hide Moved, Takes, Inverse, Peers, OwnersOf;
    }
  
    /** The parts of the view that clusterUpdateSlotsConfigWith may change are those of `r`. */
    ghost predicate Matches(r: Node)
      reads this`slots, this`importing, this`myself, myself
    {
      && OwnersOf(slots) == r.owner && Importing() == r.importing
      && myself.name in r.peers && PeerView(myself) == r.peers[myself.name]
    }

    /** clusterSetMaster, with its two assertions as preconditions. */
    method SetMaster(n: Member, ghost view: Node)
      requires Valid() && n in nodes && n != myself && myself.numslots == 0
      requires Matches(view) && view.me == myself.name
      modifies this`importing, this`migrating, myself`role, myself`slaveof
      ensures Valid()
      ensures Matches(ClusterNode.SetMaster(view, n.name)) && myself.slaveof == n && myself.role != Master
      ensures old(myself.role) == Master ==> forall j: Slot :: importing[j] == null
    {
      hide Inverse;
      if myself.role == Master {
        myself.role := Slave;
        migrating := seq(CLUSTER_SLOTS, i => null);
        importing := seq(CLUSTER_SLOTS, i => null);
      }
      myself.slaveof := n;
    }

    /** The end of clusterUpdateSlotsConfigWith: what it goes on to do after the scan. */
    method ScanClaim(sender: Member, epoch: nat, claimed: SlotBitmap.Bitmap, cur: Member) returns (demote: bool)
      requires Valid() && sender in nodes && sender != myself && cur in nodes
      requires CurMaster(View()) == Some(cur.name)
      modifies this`slots, nodes`slots, nodes`numslots
      ensures Valid()
      ensures OwnersOf(slots) == Rebind(old(View()), sender.name, epoch, Slots(claimed))
      ensures demote <==> LosesAll(old(View()), sender.name, epoch, Slots(claimed))
    {
      ghost var before := View();
      var taken := RebindSlots(sender, epoch, claimed, cur);
      demote := taken && cur.numslots == 0;
      BitmapAgrees(cur);
      ghost var after := before.(owner := OwnersOf(slots));
      assert ClusterNode.Bitmap(after, cur.name) == ClusterNode.Bitmap(View(), cur.name);
      hide Inverse, Peers, Slots, Rebind, Moved, LosesAll;
      LosesAllIs(before, sender.name, epoch, Slots(claimed));
    }

    /**
     * clusterUpdateSlotsConfigWith does to the stored state what its model does to the view,
     * unless the server stops: at the master a replica does not have, or at the assertion that
     * a node about to replicate another has no slots.
     */
    method UpdateSlotsConfigWith(sender: Member, epoch: nat, claimed: SlotBitmap.Bitmap) returns (stopped: bool)
      requires Valid() && Linked() && sender in nodes
      modifies this`slots, nodes`slots, nodes`numslots, this`importing, this`migrating, myself`role, myself`slaveof
      ensures Valid()
      ensures stopped <==> Stops(old(View()), sender.name, epoch, Slots(claimed))
      ensures !stopped ==> Matches(ClusterNode.UpdateSlotsConfigWith(old(View()), sender.name, epoch, Slots(claimed)))
    {
      hide Inverse, Rebind, Moved, Slots, ClusterNode.UpdateSlotsConfigWith, LosesAll;
      ghost var before := View();
      assert Matches(before);
      if sender == myself {
        OwnClaim(before, epoch, Slots(claimed));
        return false;
      }
      var cur := if myself.role == Master then myself else myself.slaveof;
      if cur == null {
        stopped := RebindSlots(sender, epoch, claimed, null);
        WithoutMaster(before, sender.name, epoch, Slots(claimed));
        return;
      }
      var demote := ScanClaim(sender, epoch, claimed, cur);
      ghost var after := before.(owner := OwnersOf(slots));
      assert Matches(after);
      AfterScan(before, sender.name, epoch, Slots(claimed));
      BitmapAgrees(myself);
      assert ClusterNode.Bitmap(after, before.me) == ClusterNode.Bitmap(View(), before.me);
      hide Matches, Peers, OwnersOf, ClusterNode.SetMaster, Tables;
      stopped := demote && myself.numslots != 0;
      if demote && !stopped {
        SetMaster(sender, after);
      }
    }

    // ------------------------------------------------------------ failover

    /** The loop of clusterFailoverReplaceYourMaster: `to` takes every slot of `from`. */
    method MoveAll(from: Member, to: Member)
      requires Valid() && from in nodes && to in nodes && from != to
      modifies this`slots, nodes`slots, nodes`numslots
      ensures Valid()
      ensures forall k: Slot :: slots[k] == if old(slots[k]) == from then to else old(slots[k])
    {
      for j := 0 to CLUSTER_SLOTS
        invariant Valid()
        invariant forall k: Slot :: slots[k] == if k < j && old(slots[k]) == from then to else old(slots[k])
      {
        if TestBit(from.slots, j) {
          MoveSlot(to, j);
        }
      }
    }

    /** A won election: take its epoch, become a master and take over the old master's slots.
        Only a replica that knows its master gets this far. */
    method WinElection()
      requires Valid() && myself.role != Master
      requires myself.slaveof != null && myself.slaveof in nodes && myself.slaveof != myself
      modifies this`slots, nodes`slots, nodes`numslots, myself`role, myself`slaveof, myself`configEpoch
      ensures Valid()
      ensures Matches(TakeOver(old(View())))
    {
      hide Inverse, TakeOver, OwnersOf, Slots, Importing;
      ghost var r := TakeOver(View());
      assert PeerView(myself) == View().peers[myself.name];
      TakesOver(View());
      hide Peers;
      var oldMaster := myself.slaveof;
      assert r.importing == Importing();
      myself.configEpoch := MaxNat(myself.configEpoch, authEpoch);
      ReplaceMaster(oldMaster);
      assert OwnersOf(slots) == r.owner;
    }

    /** clusterFailoverReplaceYourMaster */
    method ReplaceMaster(oldMaster: Member)
      requires Valid() && oldMaster in nodes && oldMaster != myself
      modifies this`slots, nodes`slots, nodes`numslots, myself`role, myself`slaveof
      ensures Valid() && myself.role == Master && myself.slaveof == null
      ensures OwnersOf(slots) == map j | j in old(OwnersOf(slots)) ::
                if old(OwnersOf(slots))[j] == oldMaster.name then myself.name else old(OwnersOf(slots))[j]
    {
      hide Inverse;
      myself.role := Master;
      myself.slaveof := null;
      MoveAll(oldMaster, myself);
      OwnersReplaced(old(slots), slots, oldMaster, myself, nodes);
    }

    // ------------------------------------------------------------ leaving the cluster

    /** clusterDelNode: no table, bitmap or replica refers to the node any more. */
    method DelNode(n: Member)
      requires Valid() && n in nodes && n != myself
      modifies this`nodes, this`slots, this`importing, this`migrating, nodes`slots, nodes`numslots, nodes`slaveof
      ensures Valid() && nodes == old(nodes) - {n}
      ensures forall m :: m in nodes ==> m.slaveof == if old(m.slaveof) == n then null else old(m.slaveof)
      ensures forall j: Slot ::
                && slots[j] == (if old(slots[j]) == n then null else old(slots[j]))
                && importing[j] == (if old(importing[j]) == n then null else old(importing[j]))
                && migrating[j] == (if old(migrating[j]) == n then null else old(migrating[j]))
    {
      DropReferences(n);
      forall m | m in nodes && m.slaveof == n {
        m.slaveof := null;
      }
      nodes := nodes - {n};
    }

    /** The first loop of clusterDelNode. */
    method DropReferences(n: Member)
      requires Valid() && n in nodes
      modifies this`slots, this`importing, this`migrating, nodes`slots, nodes`numslots
      ensures Valid()
      ensures forall j: Slot ::
                && slots[j] == (if old(slots[j]) == n then null else old(slots[j]))
                && importing[j] == (if old(importing[j]) == n then null else old(importing[j]))
                && migrating[j] == (if old(migrating[j]) == n then null else old(migrating[j]))
    {
      hide Inverse;
      for j := 0 to CLUSTER_SLOTS
        invariant Valid()
        invariant forall k: Slot :: slots[k] == if k < j && old(slots[k]) == n then null else old(slots[k])
        invariant forall k: Slot :: importing[k] == if k < j && old(importing[k]) == n then null else old(importing[k])
        invariant forall k: Slot :: migrating[k] == if k < j && old(migrating[k]) == n then null else old(migrating[k])
      {
        if importing[j] == n { importing := importing[j := null]; }
        if migrating[j] == n { migrating := migrating[j := null]; }
        if slots[j] == n { var _ := DelSlot(j); }
      }
    }

    // ------------------------------------------------------------ epochs

    /** clusterGetMaxEpoch */
    method GetMaxEpoch() returns (max: nat)
      requires Valid()
      ensures IsMaxEpoch(View(), max)
    {
      hide Inverse;
      max := 0;
      var todo := nodes;
      while todo != {}
        invariant todo <= nodes
        invariant forall n :: n in nodes - todo ==> n.configEpoch <= max
        invariant max == 0 || exists n :: n in nodes && n.configEpoch == max
      {
        var n :| n in todo;
        if n.configEpoch > max { max := n.configEpoch; }
        todo := todo - {n};
      }
      assert forall k :: k in Peers() ==> Peers()[k].configEpoch <= max;
      if max < currentEpoch { max := currentEpoch; }
      else if max > 0 {
        var n :| n in nodes && n.configEpoch == max;
        assert Peers()[n.name].configEpoch == max;
      }
    }

    /** The last test before granting a vote: no claimed slot is served under a newer epoch. */
    method ClaimNotStale(claimed: SlotBitmap.Bitmap, configEpoch: nat) returns (ok: bool)
      requires Valid()
      ensures ok <==> forall j :: j in Slots(claimed) && j in View().owner ==>
                        PeerOf(View(), View().owner[j]).configEpoch <= configEpoch
    {
      hide Inverse, TestBit;
      for j := 0 to CLUSTER_SLOTS
        invariant forall k: Slot :: k < j && TestBit(claimed, k) && slots[k] != null ==> slots[k].configEpoch <= configEpoch
      {
        if TestBit(claimed, j) && slots[j] != null && slots[j].configEpoch > configEpoch {
          assert j in Slots(claimed) && j in View().owner;
          return false;
        }
      }
      return true;
    }

    /** The tests of clusterSendFailoverAuthIfNeeded, in its order. */
    method Grants(sender: Member, ghost h: Header, requestEpoch: nat, configEpoch: nat, claimed: SlotBitmap.Bitmap,
                  force: bool, now: int, nodeTimeout: nat) returns (granted: bool)
      requires Valid() && sender in nodes && (sender.slaveof != null ==> sender.slaveof in nodes)
      requires h == Header(sender.name, requestEpoch, configEpoch, Slots(claimed), None)
      ensures granted <==> MayVote(View(), h, force, now, nodeTimeout)
      ensures granted ==> sender.slaveof != null
    {
      ghost var n := View();
      BitmapAgrees(myself);
      assert PeerOf(n, sender.name) == PeerView(sender) && Myself(n) == PeerView(myself);
      var master := sender.slaveof;
      assert master != null ==> PeerOf(n, master.name) == PeerView(master);
      hide Inverse, Peers, Slots, OwnersOf, Importing;
      if myself.role == Slave || myself.numslots == 0 { return false; }
      if requestEpoch < currentEpoch || lastVoteEpoch == currentEpoch { return false; }
      if sender.role == Master || master == null || (!master.failed && !force) { return false; }
      if now - master.votedTime < nodeTimeout * 2 { return false; }
      granted := ClaimNotStale(claimed, configEpoch);
    }

    /** clusterSendFailoverAuthIfNeeded: the vote is recorded here and with the candidate's master. */
    method SendFailoverAuthIfNeeded(sender: Member, ghost h: Header, requestEpoch: nat, configEpoch: nat,
                                    claimed: SlotBitmap.Bitmap, force: bool, now: int, nodeTimeout: nat)
      returns (granted: bool)
      requires Valid() && sender in nodes && (sender.slaveof != null ==> sender.slaveof in nodes)
      requires h == Header(sender.name, requestEpoch, configEpoch, Slots(claimed), None)
      modifies this`lastVoteEpoch, nodes`votedTime
      ensures Valid()
      ensures granted <==> MayVote(old(View()), h, force, now, nodeTimeout)
      ensures View() == if granted then CastVote(old(View()), sender.name, now) else old(View())
    {
      hide Inverse, MayVote, Slots, CastVote;
      ghost var n := View();
      granted := Grants(sender, h, requestEpoch, configEpoch, claimed, force, now, nodeTimeout);
      if granted {
        assert PeerOf(n, sender.name).slaveof == Some(sender.slaveof.name);
        RecordVote(sender.slaveof, now);
        PeersCast(n, sender.slaveof.name, now);
        hide Peers, Tables, View;
        CastIs(n, sender.name, now, View());
      }
    }

    method RecordVote(master: Member, now: int)
      requires Valid() && master in nodes
      modifies this`lastVoteEpoch, master`votedTime
      ensures Valid() && View() == old(View()).(lastVoteEpoch := currentEpoch, peers := Peers())
      ensures forall m :: m in nodes ==>
                var p := old(View()).peers[m.name];
                PeerView(m) == if m.name == master.name then p.(votedTime := now) else p
    {
      hide Inverse, Importing, OwnersOf;
      ghost var n := View();
      lastVoteEpoch := currentEpoch;
      master.votedTime := now;
      assert Tables();
      hide Tables, Within;
      forall m | m in nodes
        ensures PeerView(m) == if m.name == master.name then n.peers[m.name].(votedTime := now) else n.peers[m.name]
      {
        assert n.peers[m.name] == old(PeerView(m));
      }
      hide Peers;
    }

    /** The peers are as before but for the time of one vote. */
    lemma PeersCast(n: Node, master: NodeId, now: int)
      requires Distinct(nodes)
      requires forall k :: k in n.peers <==> exists m :: m in nodes && m.name == k
      requires forall m :: m in nodes ==>
                 PeerView(m) == if m.name == master then n.peers[m.name].(votedTime := now) else n.peers[m.name]
      ensures Peers().Keys == n.peers.Keys
      ensures forall k :: k in n.peers ==>
                Peers()[k] == if k == master then n.peers[k].(votedTime := now) else n.peers[k]
    {
    }

    /** clusterBumpConfigEpochWithoutConsensus */
    method BumpConfigEpoch() returns (bumped: bool, max: nat)
      requires Valid()
      modifies this`currentEpoch, myself`configEpoch
      ensures Valid() && IsMaxEpoch(old(View()), max)
      ensures bumped <==> old(myself.configEpoch) == 0 || old(myself.configEpoch) != max
      ensures if bumped then myself.configEpoch == currentEpoch == old(currentEpoch) + 1
              else currentEpoch == old(currentEpoch) && myself.configEpoch == old(myself.configEpoch)
    {
      hide Inverse, IsMaxEpoch, Peers, OwnersOf, Importing;
      max := GetMaxEpoch();
      bumped := myself.configEpoch == 0 || myself.configEpoch != max;
      if bumped {
        currentEpoch := currentEpoch + 1;
        myself.configEpoch := currentEpoch;
      }
    }

    // ------------------------------------------------------------ administration

    /** CLUSTER SETSLOT slot NODE n, where the slot holds `keys` keys. */
    method SetSlotNode(slot: Slot, n: Member, keys: nat) returns (ok: bool)
      requires Valid() && n in nodes
      modifies this`slots, this`importing, this`migrating, nodes`slots, nodes`numslots, this`currentEpoch, myself`configEpoch
      ensures Valid()
      ensures ok <==> old(myself.role) != Slave && (old(slots[slot]) == myself && n != myself ==> keys == 0)
      ensures slots == if ok then old(slots)[slot := n] else old(slots)
      ensures importing == if ok && n == myself then old(importing)[slot := null] else old(importing)
      ensures migrating == if ok && keys == 0 then old(migrating)[slot := null] else old(migrating)
      ensures if ok && n == myself && old(importing[slot]) != null then Bumped(old(View()), old(myself.configEpoch))
              else currentEpoch == old(currentEpoch) && myself.configEpoch == old(myself.configEpoch)
    {
      hide Inverse, Peers, OwnersOf, Importing, Bumped;
      if myself.role == Slave || (slots[slot] == myself && n != myself && keys != 0) { return false; }
      CloseMarks(slot, n == myself, keys);
      MoveSlot(n, slot);
      return true;
    }

    /** The slot is migrated no more when it has no keys, and imported no more when this node gets it. */
    method CloseMarks(slot: Slot, mine: bool, keys: nat)
      requires Valid()
      modifies this`importing, this`migrating, this`currentEpoch, myself`configEpoch
      ensures Valid()
      ensures importing == if mine then old(importing)[slot := null] else old(importing)
      ensures migrating == if keys == 0 then old(migrating)[slot := null] else old(migrating)
      ensures if mine && old(importing[slot]) != null then Bumped(old(View()), old(myself.configEpoch))
              else currentEpoch == old(currentEpoch) && myself.configEpoch == old(myself.configEpoch)
    {
      hide Inverse, Peers, OwnersOf, Importing, Bumped;
      if keys == 0 && migrating[slot] != null {
        migrating := migrating[slot := null];
      }
      if mine {
        CloseImport(slot);
      }
    }

    /** The own configEpoch is the greatest known one, or is raised beyond all of them. */
    ghost predicate Bumped(n: Node, own: nat)
      reads this`currentEpoch, this`myself, myself`configEpoch
    {
      exists max: nat :: IsMaxEpoch(n, max) &&
        if own == 0 || own != max then myself.configEpoch == currentEpoch == n.currentEpoch + 1
        else currentEpoch == n.currentEpoch && myself.configEpoch == own
    }

    /** An imported slot is closed under a new epoch, so that the new owner propagates. */
    method CloseImport(slot: Slot)
      requires Valid()
      modifies this`importing, this`currentEpoch, myself`configEpoch
      ensures Valid() && importing == old(importing)[slot := null]
      ensures old(importing[slot]) == null ==>
                currentEpoch == old(currentEpoch) && myself.configEpoch == old(myself.configEpoch)
      ensures old(importing[slot]) != null ==> Bumped(old(View()), old(myself.configEpoch))
    {
      if importing[slot] != null {
        var _, max := BumpConfigEpoch();
        importing := importing[slot := null];
      }
    }

    /** CLUSTER REPLICATE, where this node holds `keys` keys; a replica with slots meets an assertion. */
    method Replicate(n: Member, keys: nat) returns (ok: bool, stopped: bool)
      requires Valid() && n in nodes
      modifies this`importing, this`migrating, myself`role, myself`slaveof
      ensures Valid()
      ensures ok || stopped <==> && n != myself && old(n.role) != Slave
                                 && (old(myself.role) == Master ==> myself.numslots == 0 && keys == 0)
      ensures stopped <==> (ok || stopped) && myself.numslots != 0
      ensures Matches(if ok then ClusterNode.SetMaster(old(View()), n.name) else old(View()))
      ensures ok ==> myself.slaveof == n && myself.role != Master
      ensures ok && old(myself.role) == Master ==> forall j: Slot :: importing[j] == null
    {
      hide Inverse, Peers;
      ok, stopped := false, false;
      if n == myself || n.role == Slave { return; }
      if myself.role == Master && (myself.numslots != 0 || keys != 0) { return; }
      if myself.numslots != 0 { return false, true; }
      SetMaster(n, View());
      ok := true;
    }

    /**
     * CLUSTER REPLICATE of a node in handshake, which clusterCron deletes when it does not answer in
     * time: a replica without a master, which any claim to a free slot stops.
     */
    method LoseMaster(n: Member)
      requires Valid() && n in nodes && n != myself && n.handshake && n.role != Slave
      requires myself.role == Master && myself.numslots == 0
      modifies this`nodes, this`slots, this`importing, this`migrating, nodes`slots, nodes`numslots, nodes`slaveof, myself`role
      ensures Valid() && nodes == old(nodes) - {n} && CurMaster(View()) == None
      ensures forall j: Slot :: slots[j] == if old(slots[j]) == n then null else old(slots[j])
      ensures forall sender, epoch: nat, j: Slot ::
                sender in nodes && sender != myself && slots[j] == null ==> Stops(View(), sender.name, epoch, {j})
    {
      hide Inverse, Matches, Peers;
      var ok, stopped := Replicate(n, 0);
      assert ok;
      DelNode(n);
      ghost var v := View();
      assert v.peers[myself.name] == PeerView(myself);
      assert v.importing == {};
      hide Importing, Stops;
      forall sender, epoch: nat, j: Slot | sender in nodes && sender != myself && slots[j] == null
        ensures Stops(v, sender.name, epoch, {j})
      {
        FreeSlotStops(v, sender.name, epoch, j);
      }
    }

    /** CLUSTER ADDSLOTS and DELSLOTS take all of their arguments or none. */
    method AddOrDelSlots(args: seq<Slot>, del: bool) returns (ok: bool)
      requires Valid()
      modifies this`slots, this`importing, nodes`slots, nodes`numslots
      ensures Valid()
      ensures ok <==> && (forall i, k :: 0 <= i < k < |args| ==> args[i] != args[k])
                      && forall i :: 0 <= i < |args| ==> (old(slots[args[i]]) == null <==> !del)
      ensures !ok ==> slots == old(slots) && importing == old(importing)
      ensures ok ==> forall j: Slot ::
                && slots[j] == (if j in args then (if del then null else myself) else old(slots[j]))
                && importing[j] == (if j in args then null else old(importing[j]))
    {
      hide Inverse;
      for i := 0 to |args|
        invariant forall k :: 0 <= k < i ==> (slots[args[k]] == null <==> !del)
        invariant forall k, l :: 0 <= k < l < i ==> args[k] != args[l]
      {
        if (slots[args[i]] == null) == del { return false; }
        if args[i] in args[..i] { return false; }
      }
      for j := 0 to CLUSTER_SLOTS
        invariant Valid()
        invariant forall k: Slot :: k >= j ==> slots[k] == old(slots[k]) && importing[k] == old(importing[k])
        invariant forall k: Slot :: k < j ==>
                    && slots[k] == (if k in args then (if del then null else myself) else old(slots[k]))
                    && importing[k] == (if k in args then null else old(importing[k]))
      {
        if j in args {
          importing := importing[j := null];
          var done;
          if del { done := DelSlot(j); } else { done := AddSlot(myself, j); }
          assert done;
        }
      }
      return true;
    }
  }

  /** What a won election does to the node's own entry and to the slot table. */
  lemma TakesOver(n: Node)
    requires n.me in n.peers
    ensures var p := n.peers[n.me];
            var r := TakeOver(n);
            var steps := p.role != Master && p.slaveof.Some?;
            && r.importing == n.importing && n.me in r.peers
            && r.peers[n.me] == p.(configEpoch := MaxNat(p.configEpoch, n.authEpoch),
                                   role := if steps then Master else p.role,
                                   slaveof := if steps then None else p.slaveof)
            && r.owner == if steps then map j | j in n.owner :: if n.owner[j] == p.slaveof.value then n.me else n.owner[j]
                          else n.owner
  {
  }

  lemma CastIs(n: Node, candidate: NodeId, now: int, r: Node)
    requires r == n.(lastVoteEpoch := n.currentEpoch, peers := r.peers) && r.peers.Keys == n.peers.Keys
    requires var master := PeerOf(n, candidate).slaveof;
             forall k :: k in n.peers ==>
               r.peers[k] == if Some(k) == master then n.peers[k].(votedTime := now) else n.peers[k]
    ensures r == CastVote(n, candidate, now)
  {
    assert r.peers == CastVote(n, candidate, now).peers;
  }

  lemma OwnClaim(n: Node, epoch: nat, slots: set<Slot>)
    requires n.me in n.peers
    ensures ClusterNode.UpdateSlotsConfigWith(n, n.me, epoch, slots) == n
  {
  }

  /** A replica without a master is offered a free slot, or one that holds slots loses its master's last one. */
  ghost predicate Stops(n: Node, sender: NodeId, epoch: nat, slots: set<Slot>) {
    && sender != n.me
    && match CurMaster(n)
       case None => exists j :: j in Moved(n, sender, epoch, slots) && j !in n.owner
       case Some(_) => LosesAll(n, sender, epoch, slots)
                       && exists j :: j in ClusterNode.Bitmap(n, n.me) && j !in Moved(n, sender, epoch, slots)
  }

  lemma FreeSlotStops(n: Node, sender: NodeId, epoch: nat, j: Slot)
    requires CurMaster(n) == None && sender != n.me && j !in n.owner && j !in n.importing
    ensures Stops(n, sender, epoch, {j})
  {
    assert j in Moved(n, sender, epoch, {j});
  }

  /** Node 0 replicates node 1 and was given slot 8; node 2 claims the one slot of node 1. */
  lemma SlotsHeldStop()
    ensures var peer := Peer(Master, None, 0, false, false, 0);
            var peers := map[0 := Peer(Slave, Some(1), 0, false, false, 0), 1 := peer, 2 := peer];
            Stops(Node(0, 1, 0, peers, map[7 := 1, 8 := 0], {}, 0, 0, 0, 0, false, 0), 2, 1, {7})
  {
    var peer := Peer(Master, None, 0, false, false, 0);
    var peers := map[0 := Peer(Slave, Some(1), 0, false, false, 0), 1 := peer, 2 := peer];
    var n := Node(0, 1, 0, peers, map[7 := 1, 8 := 0], {}, 0, 0, 0, 0, false, 0);
    assert CurMaster(n) == Some(1) && 7 in ClusterNode.Bitmap(n, 1);
    assert Moved(n, 2, 1, {7}) == {7};
    assert 8 in ClusterNode.Bitmap(n, 0);
  }

  /** Node 0 is a replica that knows no master; node 2 claims a free slot. */
  lemma NoMasterStops()
    ensures var peers := map[0 := Peer(Slave, None, 0, false, false, 0), 2 := Peer(Master, None, 0, false, false, 0)];
            Stops(Node(0, 1, 0, peers, map[], {}, 0, 0, 0, 0, false, 0), 2, 1, {7})
  {
    var peers := map[0 := Peer(Slave, None, 0, false, false, 0), 2 := Peer(Master, None, 0, false, false, 0)];
    var n := Node(0, 1, 0, peers, map[], {}, 0, 0, 0, 0, false, 0);
    assert CurMaster(n) == None && 7 in Moved(n, 2, 1, {7});
  }

  lemma WithoutMaster(n: Node, sender: NodeId, epoch: nat, slots: set<Slot>)
    requires n.me in n.peers && sender != n.me && CurMaster(n) == None
    ensures ClusterNode.UpdateSlotsConfigWith(n, sender, epoch, slots) == n.(owner := Rebind(n, sender, epoch, slots))
  {
  }

  lemma AfterScan(n: Node, sender: NodeId, epoch: nat, slots: set<Slot>)
    requires n.me in n.peers && sender != n.me && CurMaster(n).Some?
    ensures var n1 := n.(owner := Rebind(n, sender, epoch, slots));
            && ClusterNode.UpdateSlotsConfigWith(n, sender, epoch, slots)
               == (if LosesAll(n, sender, epoch, slots) then ClusterNode.SetMaster(n1, sender) else n1)
            && (Stops(n, sender, epoch, slots) <==> LosesAll(n, sender, epoch, slots) && ClusterNode.Bitmap(n1, n.me) != {})
  {
    LosesAllIs(n, sender, epoch, slots);
    var n1 := n.(owner := Rebind(n, sender, epoch, slots));
    assert forall j :: j in ClusterNode.Bitmap(n1, n.me) <==> j in ClusterNode.Bitmap(n, n.me) && j !in Moved(n, sender, epoch, slots);
  }
}
