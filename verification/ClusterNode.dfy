/** One node's view of a Redis Cluster, and what each cluster-bus handler does to it.

    A node keeps a table of the peers it knows (itself included), the slot table, two
    epochs of its own and the state of its current failover attempt.  Slot bitmaps are
    read off the slot table; ClusterSlots proves that the stored bitmaps agree with it.
  */
module ClusterNode {
  import opened Options

  const CLUSTER_SLOTS := 16384

  /** Node names are compared with memcmp, which is a total order on fixed-size names. */
  type NodeId = nat

  type Slot = s: int | 0 <= s < CLUSTER_SLOTS

  /** The MASTER and SLAVE flags; a node met by a handshake has neither yet. */
  datatype Role = Master | Slave | NoRole

  datatype Peer = Peer(
    role: Role,
    slaveof: Option<NodeId>,
    configEpoch: nat,
    handshake: bool,
    failed: bool,
    votedTime: int)

  datatype Node = Node(
    me: NodeId,
    currentEpoch: nat,
    lastVoteEpoch: nat,
    peers: map<NodeId, Peer>,
    owner: map<Slot, NodeId>,
    importing: set<Slot>,
    size: nat,
    authTime: int,
    authEpoch: nat,
    authCount: nat,
    authSent: bool,
    authRank: nat)

  /** The part of clusterMsg that every packet carries. */
  datatype Header = Header(
    sender: NodeId,
    currentEpoch: nat,
    configEpoch: nat,
    slots: set<Slot>,
    slaveof: Option<NodeId>)

  datatype Body =
    | Ping
    | AuthRequest(force: bool)
    | AuthAck
    | Update(about: NodeId, configEpoch: nat, slots: set<Slot>)

  // ---------------------------------------------------------------- lookups

  const UnknownPeer := Peer(NoRole, None, 0, false, false, 0)

  function PeerOf(n: Node, id: NodeId): Peer {
    if id in n.peers then n.peers[id] else UnknownPeer
  }

  function Myself(n: Node): Peer {
    PeerOf(n, n.me)
  }

  function OwnerOf(n: Node, j: Slot): Option<NodeId> {
    if j in n.owner then Some(n.owner[j]) else None
  }

  /** The slots bitmap of node `id`. */
  function Bitmap(n: Node, id: NodeId): set<Slot> {
    set j | j in n.owner && n.owner[j] == id
  }

  function MaxNat(a: nat, b: nat): nat {
    if a < b then b else a
  }

  // ---------------------------------------------------------------- epoch discipline

  /** Nothing a node records is newer than its own currentEpoch. */
  predicate Bounded(n: Node) {
    && n.lastVoteEpoch <= n.currentEpoch
    && n.authEpoch <= n.currentEpoch
    && forall id :: id in n.peers ==> n.peers[id].configEpoch <= n.currentEpoch
  }

  predicate HeaderBounded(h: Header) {
    h.configEpoch <= h.currentEpoch
  }

  predicate BodyBounded(h: Header, b: Body) {
    b.Update? ==> b.configEpoch <= h.currentEpoch
  }

  /** What no handler but the vote and the failover attempt may touch. */
  predicate SameElection(n: Node, r: Node) {
    && r.lastVoteEpoch == n.lastVoteEpoch
    && r.authEpoch == n.authEpoch
    && r.authCount == n.authCount
    && r.authSent == n.authSent
  }

  /** currentEpoch never moves back. */
  predicate Forward(n: Node, r: Node) {
    r.me == n.me && n.currentEpoch <= r.currentEpoch
  }

  /** The same peers are known, the same ones of them still in handshake. */
  predicate SamePeers(n: Node, r: Node) {
    && r.peers.Keys == n.peers.Keys
    && forall k :: k in n.peers ==> r.peers[k].handshake == n.peers[k].handshake
  }

  predicate KeepsBound(n: Node, r: Node) {
    Bounded(n) ==> Bounded(r)
  }

  // ---------------------------------------------------------------- building packets

  /** A replica advertises its master's slots and epoch, a master its own. */
  function Advertised(n: Node): NodeId {
    if Myself(n).role == Slave && Myself(n).slaveof.Some? then Myself(n).slaveof.value else n.me
  }

  function BuildHeader(n: Node): (h: Header)
    ensures h.sender == n.me && h.currentEpoch == n.currentEpoch
    ensures Bounded(n) ==> HeaderBounded(h)
  {
    Header(n.me, n.currentEpoch, PeerOf(n, Advertised(n)).configEpoch,
           Bitmap(n, Advertised(n)), Myself(n).slaveof)
  }

  function BuildUpdate(n: Node, about: NodeId): (b: Body)
    ensures b.Update?
    ensures Bounded(n) ==> BodyBounded(BuildHeader(n), b)
  {
    Update(about, PeerOf(n, about).configEpoch, Bitmap(n, about))
  }

  // ---------------------------------------------------------------- epochs in a header

  predicate Trusted(n: Node, h: Header) {
    h.sender in n.peers && !n.peers[h.sender].handshake
  }

  /** The epochs the rest of packet processing sees: zero unless the sender is trusted. */
  function SeenCurrentEpoch(n: Node, h: Header): nat {
    if Trusted(n, h) then h.currentEpoch else 0
  }

  function SeenConfigEpoch(n: Node, h: Header): nat {
    if Trusted(n, h) then h.configEpoch else 0
  }

  function NoteEpochs(n: Node, h: Header): (r: Node)
    ensures r.owner == n.owner && r.importing == n.importing && SamePeers(n, r)
    ensures Forward(n, r)
    ensures HeaderBounded(h) ==> KeepsBound(n, r)
    ensures SameElection(n, r)
    ensures Trusted(n, h) ==>
              h.currentEpoch <= r.currentEpoch && h.configEpoch <= r.peers[h.sender].configEpoch
    ensures r.currentEpoch == MaxNat(n.currentEpoch, SeenCurrentEpoch(n, h))
  {
    if Trusted(n, h) then
      var p := n.peers[h.sender];
      n.(currentEpoch := MaxNat(n.currentEpoch, h.currentEpoch),
         peers := n.peers[h.sender := p.(configEpoch := MaxNat(p.configEpoch, h.configEpoch))])
    else n
  }

  // ---------------------------------------------------------------- roles

  function SetNodeAsMaster(n: Node, id: NodeId): (r: Node)
    requires id in n.peers
    ensures Forward(n, r) && KeepsBound(n, r) && SameElection(n, r)
    ensures SamePeers(n, r) && r.peers[id].role == Master
    ensures r.owner == n.owner && r.currentEpoch == n.currentEpoch
    ensures forall k :: k in n.peers ==> r.peers[k].configEpoch == n.peers[k].configEpoch
  {
    if n.peers[id].role == Master then n
    else n.(peers := n.peers[id := n.peers[id].(role := Master, slaveof := None)])
  }

  /** clusterSetMaster: this node becomes a replica of `id`. */
  function SetMaster(n: Node, id: NodeId): (r: Node)
    requires n.me in n.peers
    ensures Forward(n, r) && KeepsBound(n, r) && SameElection(n, r)
    ensures SamePeers(n, r) && r.owner == n.owner && r.currentEpoch == n.currentEpoch
    ensures forall k :: k in n.peers ==> r.peers[k].configEpoch == n.peers[k].configEpoch
    ensures r.peers[n.me].slaveof == Some(id) && r.peers[n.me].role != Master
    ensures forall k :: k in n.peers && k != n.me ==> r.peers[k] == n.peers[k]
  {
    var p := n.peers[n.me];
    n.(importing := if p.role == Master then {} else n.importing,
       peers := n.peers[n.me := p.(role := if p.role == Master then Slave else p.role,
                                   slaveof := Some(id))])
  }

  function DelNodeSlots(n: Node, id: NodeId): (r: Node)
    ensures Forward(n, r) && KeepsBound(n, r) && SameElection(n, r)
    ensures Bitmap(r, id) == {} && r.peers == n.peers && r.currentEpoch == n.currentEpoch
    ensures forall k :: k != id ==> Bitmap(r, k) == Bitmap(n, k)
  {
    n.(owner := map j | j in n.owner && n.owner[j] != id :: n.owner[j])
  }

  /** The role announced in a PING, PONG or MEET replaces the recorded one. */
  function SwitchRole(n: Node, h: Header): (r: Node)
    requires h.sender in n.peers
    ensures Forward(n, r) && KeepsBound(n, r) && SameElection(n, r)
    ensures SamePeers(n, r) && r.currentEpoch == n.currentEpoch
    ensures forall k :: k in n.peers ==> r.peers[k].configEpoch == n.peers[k].configEpoch
    ensures h.slaveof.None? ==> r == SetNodeAsMaster(n, h.sender)
    ensures h.slaveof.Some? ==> r.peers[h.sender].role != Master
    ensures h.slaveof.Some? && h.slaveof.value in n.peers ==> r.peers[h.sender].slaveof == h.slaveof
    ensures Bitmap(r, h.sender)
         == if h.slaveof.Some? && n.peers[h.sender].role == Master then {} else Bitmap(n, h.sender)
    ensures forall k :: k != h.sender ==> Bitmap(r, k) == Bitmap(n, k)
  {
    if h.slaveof.None? then SetNodeAsMaster(n, h.sender)
    else
      var wasMaster := n.peers[h.sender].role == Master;
      var n1 := if wasMaster then DelNodeSlots(n, h.sender) else n;
      var p := n1.peers[h.sender].(role := if wasMaster then Slave else n1.peers[h.sender].role);
      var p' := if h.slaveof.value in n1.peers then p.(slaveof := h.slaveof) else p;
      n1.(peers := n1.peers[h.sender := p'])
  }

  // ---------------------------------------------------------------- slots

  /** Slot `j` moves to `sender` when claimed under `epoch`. */
  predicate Rebinds(n: Node, sender: NodeId, epoch: nat, j: Slot) {
    && OwnerOf(n, j) != Some(sender)
    && j !in n.importing
    && (j !in n.owner || PeerOf(n, n.owner[j]).configEpoch < epoch)
  }

  function Moved(n: Node, sender: NodeId, epoch: nat, slots: set<Slot>): set<Slot> {
    set j | j in slots && Rebinds(n, sender, epoch, j)
  }

  function Rebind(n: Node, sender: NodeId, epoch: nat, slots: set<Slot>): map<Slot, NodeId> {
    n.owner + (map j | j in Moved(n, sender, epoch, slots) :: sender)
  }

  /** The master whose slots this node watches: itself, or the one it replicates. */
  function CurMaster(n: Node): Option<NodeId> {
    if Myself(n).role == Master then Some(n.me) else Myself(n).slaveof
  }

  /** The claim takes every slot of the master this node watches, and there are some. */
  predicate LosesAll(n: Node, sender: NodeId, epoch: nat, slots: set<Slot>) {
    var cur := CurMaster(n);
    && sender != n.me && cur.Some?
    && Bitmap(n, cur.value) != {} && Bitmap(n, cur.value) <= Moved(n, sender, epoch, slots)
  }

  /** Some slot of it was taken and none is left: that is, all were taken. */
  lemma LosesAllIs(n: Node, sender: NodeId, epoch: nat, slots: set<Slot>)
    requires sender != n.me
    ensures var n1 := n.(owner := Rebind(n, sender, epoch, slots)); var cur := CurMaster(n);
            LosesAll(n, sender, epoch, slots) <==>
              && (exists j :: j in Moved(n, sender, epoch, slots) && OwnerOf(n, j) == cur)
              && cur.Some? && Bitmap(n1, cur.value) == {}
  {
    var n1 := n.(owner := Rebind(n, sender, epoch, slots));
    var cur := CurMaster(n);
    var moved := Moved(n, sender, epoch, slots);
    if cur.Some? {
      if LosesAll(n, sender, epoch, slots) {
        var j :| j in Bitmap(n, cur.value);
        assert j in moved && OwnerOf(n, j) == cur;
        assert forall k :: k in n1.owner ==> n1.owner[k] != cur.value;
      }
      if Bitmap(n1, cur.value) == {} {
        forall k | k in Bitmap(n, cur.value) ensures k in moved {
          assert k !in Bitmap(n1, cur.value);
        }
        if j: Slot :| j in moved && OwnerOf(n, j) == cur {
          assert j in Bitmap(n, cur.value);
        }
      }
    }
  }

  function UpdateSlotsConfigWith(n: Node, sender: NodeId, epoch: nat, slots: set<Slot>): (r: Node)
    requires n.me in n.peers
    ensures Forward(n, r) && KeepsBound(n, r) && SameElection(n, r)
    ensures SamePeers(n, r) && r.currentEpoch == n.currentEpoch
    ensures forall k :: k in n.peers ==> r.peers[k].configEpoch == n.peers[k].configEpoch
    ensures r.owner == if sender == n.me then n.owner else Rebind(n, sender, epoch, slots)
    ensures r.importing <= n.importing && (Myself(r).role == Master ==> Myself(n).role == Master)
    ensures if LosesAll(n, sender, epoch, slots) then Myself(r).slaveof == Some(sender) && Myself(r).role != Master
            else Myself(r) == Myself(n)
  {
    if sender == n.me then n
    else
      LosesAllIs(n, sender, epoch, slots);
      var n1 := n.(owner := Rebind(n, sender, epoch, slots));
      var cur := CurMaster(n);
      if && (exists j :: j in Moved(n, sender, epoch, slots) && OwnerOf(n, j) == cur)
         && cur.Some? && Bitmap(n1, cur.value) == {}
      then SetMaster(n1, sender)
      else n1
  }

  /** The owner named in the UPDATE sent back to a sender with a stale claim: the owner of
      the first slot, from `j` on, that this node has under a newer configEpoch. */
  function StaleOwner(n: Node, h: Header, epoch: nat, j: nat): (o: Option<NodeId>)
    requires j <= CLUSTER_SLOTS
    ensures o.None? <==>
              forall i: Slot :: j <= i && i in h.slots && i in n.owner && n.owner[i] != h.sender
                ==> PeerOf(n, n.owner[i]).configEpoch <= epoch
    ensures o.Some? ==> PeerOf(n, o.value).configEpoch > epoch && o.value != h.sender
    decreases CLUSTER_SLOTS - j
  {
    if j == CLUSTER_SLOTS then None
    else if && j in h.slots && j in n.owner && n.owner[j] != h.sender
            && PeerOf(n, n.owner[j]).configEpoch > epoch
    then Some(n.owner[j])
    else StaleOwner(n, h, epoch, j + 1)
  }

  // ---------------------------------------------------------------- config epochs without consensus

  function HandleConfigEpochCollision(n: Node, sender: NodeId): (r: Node)
    requires n.me in n.peers
    ensures Forward(n, r) && KeepsBound(n, r) && SameElection(n, r)
    ensures r.owner == n.owner && r.importing == n.importing && SamePeers(n, r)
    ensures r != n ==> sender > n.me && PeerOf(n, sender).configEpoch == Myself(n).configEpoch
    ensures forall k :: k in n.peers && k != n.me ==> r.peers[k] == n.peers[k]
  {
    if || PeerOf(n, sender).configEpoch != Myself(n).configEpoch
       || PeerOf(n, sender).role != Master || Myself(n).role != Master then n
    else if sender <= n.me then n
    else NextConfigEpoch(n)
  }

  /** Take the next epoch as our own configEpoch. */
  function NextConfigEpoch(n: Node): (r: Node)
    requires n.me in n.peers
    ensures Forward(n, r) && KeepsBound(n, r) && SameElection(n, r) && SamePeers(n, r)
    ensures Bounded(n) ==> forall k :: k in n.peers ==> n.peers[k].configEpoch < r.peers[n.me].configEpoch
    ensures r.peers[n.me].configEpoch == r.currentEpoch == n.currentEpoch + 1
    ensures forall k :: k in n.peers && k != n.me ==> r.peers[k] == n.peers[k]
    ensures r.peers[n.me] == n.peers[n.me].(configEpoch := n.currentEpoch + 1)
  {
    n.(currentEpoch := n.currentEpoch + 1,
       peers := n.peers[n.me := n.peers[n.me].(configEpoch := n.currentEpoch + 1)])
  }

  /** clusterGetMaxEpoch gives `m`. */
  predicate IsMaxEpoch(n: Node, m: nat) {
    && n.currentEpoch <= m
    && (forall k :: k in n.peers ==> n.peers[k].configEpoch <= m)
    && (m == n.currentEpoch || exists k :: k in n.peers && n.peers[k].configEpoch == m)
  }

  /** clusterBumpConfigEpochWithoutConsensus, given the value of clusterGetMaxEpoch. */
  function BumpConfigEpoch(n: Node, maxEpoch: nat): (r: Node)
    requires n.me in n.peers
    requires IsMaxEpoch(n, maxEpoch)
    ensures Forward(n, r) && KeepsBound(n, r) && SameElection(n, r) && SamePeers(n, r)
    ensures Bounded(n) ==> forall k :: k in n.peers ==> n.peers[k].configEpoch <= r.peers[n.me].configEpoch
    ensures Bounded(n) && r != n ==>
              forall k :: k in n.peers ==> n.peers[k].configEpoch < r.peers[n.me].configEpoch
  {
    if Myself(n).configEpoch == 0 || Myself(n).configEpoch != maxEpoch
    then NextConfigEpoch(n)
    else n
  }

  // ---------------------------------------------------------------- PING / PONG / MEET and UPDATE

  /** Configuration part of PING, PONG and MEET; the second result is the UPDATE to send back. */
  function ProcessPing(n: Node, h: Header): (r: (Node, Option<(Header, Body)>))
    requires n.me in n.peers
    ensures Forward(n, r.0)
    ensures HeaderBounded(h) ==> KeepsBound(n, r.0)
    ensures SameElection(n, r.0) && SamePeers(n, r.0)
    ensures r.1.Some? ==> r.1.value.0.sender == n.me && r.1.value.1.Update?
    ensures r.1.Some? && Bounded(n) && HeaderBounded(h) ==>
              HeaderBounded(r.1.value.0) && BodyBounded(r.1.value.0, r.1.value.1)
  {
    var epoch := SeenConfigEpoch(n, h);
    var n1 := NoteEpochs(n, h);
    if h.sender !in n.peers then (n1, None)
    else
      var n2 := SwitchRole(n1, h);
      var n3 := ApplyClaim(n2, h, epoch);
      var stale := if DirtySlots(n2, h) then StaleOwner(n3, h, epoch, 0) else None;
      var reply := if stale.Some? then Some((BuildHeader(n3), BuildUpdate(n3, stale.value))) else None;
      (FixCollision(n3, h, epoch), reply)
  }

  /** The sender's claim differs from what we have for it, or for its master. */
  predicate DirtySlots(n: Node, h: Header)
    requires h.sender in n.peers
  {
    var sender := n.peers[h.sender];
    var master := if sender.role == Master then Some(h.sender) else sender.slaveof;
    master.Some? && Bitmap(n, master.value) != h.slots
  }

  /** Comparing bitmaps first, and not scanning when they are equal, changes nothing. */
  lemma SkippedScan(n: Node, sender: NodeId, epoch: nat)
    requires n.me in n.peers
    ensures Rebind(n, sender, epoch, Bitmap(n, sender)) == n.owner
    ensures UpdateSlotsConfigWith(n, sender, epoch, Bitmap(n, sender)) == n
  {
    assert Moved(n, sender, epoch, Bitmap(n, sender)) == {};
  }

  function ApplyClaim(n: Node, h: Header, epoch: nat): (r: Node)
    requires n.me in n.peers && h.sender in n.peers
    ensures Forward(n, r) && KeepsBound(n, r) && SameElection(n, r)
    ensures SamePeers(n, r) && r.currentEpoch == n.currentEpoch && r.importing <= n.importing
    ensures forall k :: k in n.peers ==> r.peers[k].configEpoch == n.peers[k].configEpoch
    ensures n.peers[h.sender].role == Master && h.sender != n.me ==>
              r.owner == Rebind(n, h.sender, epoch, h.slots)
    ensures Myself(r).role == Master ==> Myself(n).role == Master
  {
    SkippedScan(n, h.sender, epoch);
    if n.peers[h.sender].role == Master && DirtySlots(n, h)
    then UpdateSlotsConfigWith(n, h.sender, epoch, h.slots) else n
  }

  function FixCollision(n: Node, h: Header, epoch: nat): (r: Node)
    requires n.me in n.peers
    ensures Forward(n, r) && KeepsBound(n, r) && SameElection(n, r)
    ensures r.owner == n.owner && r.importing == n.importing && SamePeers(n, r)
    ensures Myself(n).role != Master || Myself(n).configEpoch != epoch ==> r == n
  {
    if && Myself(n).role == Master && PeerOf(n, h.sender).role == Master
       && epoch == Myself(n).configEpoch
    then HandleConfigEpochCollision(n, h.sender) else n
  }

  /** UPDATE: `about` now owns `slots` under `epoch`.  Only the presence of the sender is
      checked, not that it has left the handshake. */
  function ProcessUpdate(n: Node, h: Header, about: NodeId, epoch: nat, slots: set<Slot>): (r: Node)
    requires n.me in n.peers
    ensures Forward(n, r)
    ensures HeaderBounded(h) && Trusted(n, h) && epoch <= h.currentEpoch ==> KeepsBound(n, r)
    ensures SameElection(n, r) && SamePeers(n, r)
    ensures r.currentEpoch == MaxNat(n.currentEpoch, SeenCurrentEpoch(n, h))
  {
    var n1 := NoteEpochs(n, h);
    if h.sender !in n1.peers || about !in n1.peers || n1.peers[about].configEpoch >= epoch then n1
    else
      UpdateSlotsConfigWith(NewMaster(n1, about, epoch), about, epoch, slots)
  }

  /** The sender and the reported node are known, and what is recorded of it is older. */
  predicate AcceptsUpdate(n: Node, h: Header, about: NodeId, epoch: nat) {
    && h.sender in n.peers && about in n.peers && n.peers[about].configEpoch < epoch
    && (about == h.sender && !n.peers[about].handshake ==> h.configEpoch < epoch)
  }

  /**
   * What an UPDATE does to the slot table: the reported node has the slots it had and those of the
   * update that are not being imported and were free or held under a smaller epoch; all others stay.
   */
  lemma UpdateExact(n: Node, h: Header, about: NodeId, epoch: nat, slots: set<Slot>, j: Slot)
    requires n.me in n.peers && about != n.me
    ensures var r := ProcessUpdate(n, h, about, epoch, slots);
            var held := if j in n.owner then PeerOf(NoteEpochs(n, h), n.owner[j]).configEpoch else 0;
            OwnerOf(r, j) ==
              if && AcceptsUpdate(n, h, about, epoch) && j in slots && j !in n.importing
                 && (j !in n.owner || held < epoch)
              then Some(about) else OwnerOf(n, j)
  {
    hide KeepsBound, Bounded, SameElection;
  }

  /**
   * What it does to the recorded nodes: a refused one only notes the epochs of its header; an accepted
   * one records the reported node under the new epoch, as no replica, and every other epoch stays.
   */
  lemma UpdateRecords(n: Node, h: Header, about: NodeId, epoch: nat, slots: set<Slot>)
    requires n.me in n.peers
    ensures var r, n1 := ProcessUpdate(n, h, about, epoch, slots), NoteEpochs(n, h);
            && (!AcceptsUpdate(n, h, about, epoch) ==> r == n1)
            && (AcceptsUpdate(n, h, about, epoch) ==> r.peers[about].configEpoch == epoch && r.peers[about].role != Slave)
            && (forall k :: k in n.peers && !(k == about && AcceptsUpdate(n, h, about, epoch)) ==>
                  r.peers[k].configEpoch == n1.peers[k].configEpoch)
            && r.importing <= n.importing && (about != n.me && Myself(r).role == Master ==> Myself(n).role == Master)
  {
    hide KeepsBound, Bounded, SameElection, Rebind, LosesAll;
    var n1 := NoteEpochs(n, h);
    assert AcceptsUpdate(n, h, about, epoch) <==>
             h.sender in n1.peers && about in n1.peers && n1.peers[about].configEpoch < epoch;
  }

  /** An UPDATE about this node itself moves no slot. */
  lemma UpdateAboutMe(n: Node, h: Header, epoch: nat, slots: set<Slot>)
    requires n.me in n.peers
    ensures ProcessUpdate(n, h, n.me, epoch, slots).owner == n.owner
  {
    hide KeepsBound, Bounded, SameElection;
  }

  /** A node reported under a newer epoch is a master, whatever we took it for. */
  function NewMaster(n: Node, about: NodeId, epoch: nat): (r: Node)
    requires about in n.peers
    ensures Forward(n, r) && SameElection(n, r) && SamePeers(n, r) && r.currentEpoch == n.currentEpoch
    ensures r.owner == n.owner && r.importing == n.importing
    ensures r.peers[about].configEpoch == epoch && r.peers[about].role != Slave
    ensures forall k :: k in n.peers && k != about ==> r.peers[k] == n.peers[k]
  {
    var n1 := if n.peers[about].role == Slave then SetNodeAsMaster(n, about) else n;
    n1.(peers := n1.peers[about := n1.peers[about].(configEpoch := epoch)])
  }

  // ---------------------------------------------------------------- votes

  /** All the conditions of clusterSendFailoverAuthIfNeeded, in its order. */
  predicate MayVote(n: Node, h: Header, force: bool, now: int, nodeTimeout: nat) {
    && Myself(n).role != Slave && Bitmap(n, n.me) != {}
    && h.currentEpoch >= n.currentEpoch
    && n.lastVoteEpoch != n.currentEpoch
    && PeerOf(n, h.sender).role != Master
    && var master := PeerOf(n, h.sender).slaveof;
    && master.Some?
    && (PeerOf(n, master.value).failed || force)
    && now - PeerOf(n, master.value).votedTime >= nodeTimeout * 2
    && forall j :: j in h.slots && j in n.owner ==> PeerOf(n, n.owner[j]).configEpoch <= h.configEpoch
  }

  function CastVote(n: Node, candidate: NodeId, now: int): (r: Node)
    ensures Forward(n, r) && KeepsBound(n, r)
    ensures r.lastVoteEpoch == n.currentEpoch == r.currentEpoch && SamePeers(n, r)
    ensures r.authEpoch == n.authEpoch && r.authCount == n.authCount && r.authSent == n.authSent
    ensures forall k :: k in n.peers ==>
              r.peers[k] == if Some(k) == PeerOf(n, candidate).slaveof then n.peers[k].(votedTime := now) else n.peers[k]
  {
    var master := PeerOf(n, candidate).slaveof;
    var n1 := n.(lastVoteEpoch := n.currentEpoch);
    if master.Some? && master.value in n.peers
    then n1.(peers := n.peers[master.value := n.peers[master.value].(votedTime := now)])
    else n1
  }

  /** FAILOVER_AUTH_REQUEST; the second result tells whether an ACK goes out. */
  function ProcessAuthRequest(n: Node, h: Header, force: bool, now: int, nodeTimeout: nat): (r: (Node, bool))
    ensures Forward(n, r.0)
    ensures HeaderBounded(h) ==> KeepsBound(n, r.0)
    ensures SamePeers(n, r.0)
    ensures !r.1 ==> SameElection(n, r.0)
    ensures r.1 ==> && h.sender in n.peers
                    && n.currentEpoch <= r.0.currentEpoch
                    && r.0.lastVoteEpoch == r.0.currentEpoch
                    && n.lastVoteEpoch != r.0.currentEpoch
                    && r.0.currentEpoch <= h.currentEpoch
    ensures r.1 && Trusted(n, h) ==> r.0.currentEpoch == h.currentEpoch
    ensures r.0.authEpoch == n.authEpoch && r.0.authCount == n.authCount && r.0.authSent == n.authSent
  {
    var n1 := NoteEpochs(n, h);
    if h.sender in n1.peers && MayVote(n1, h, force, now, nodeTimeout)
    then (CastVote(n1, h.sender, now), true)
    else (n1, false)
  }

  /**
   * Which requests are granted, told by the state before the request: the vote is cast in the
   * epoch of the request, and what the request itself announces about its sender's epoch does
   * not help its claim.
   */
  lemma GrantExact(n: Node, h: Header, force: bool, now: int, nodeTimeout: nat)
    requires n.me in n.peers && Trusted(n, h)
    ensures var r := ProcessAuthRequest(n, h, force, now, nodeTimeout);
            var master := n.peers[h.sender].slaveof;
            && (r.1 <==>
                && n.peers[n.me].role != Slave && Bitmap(n, n.me) != {}
                && n.currentEpoch <= h.currentEpoch != n.lastVoteEpoch
                && n.peers[h.sender].role != Master && master.Some?
                && (PeerOf(n, master.value).failed || force)
                && now - PeerOf(n, master.value).votedTime >= 2 * nodeTimeout
                && forall j :: j in h.slots && j in n.owner ==> PeerOf(n, n.owner[j]).configEpoch <= h.configEpoch)
            && (r.1 ==> r.0.lastVoteEpoch == h.currentEpoch)
            && (r.1 && master.value in n.peers ==> r.0.peers[master.value].votedTime == now)
  {
  }

  /** Two votes in a row: the epoch has grown, and about the same master two timeouts have passed. */
  lemma VotesApart(n: Node, h: Header, force: bool, now: int, h': Header, force': bool, later: int, nodeTimeout: nat)
    requires n.me in n.peers && Trusted(n, h) && Trusted(n, h')
    requires var m := n.peers[h.sender].slaveof; m == n.peers[h'.sender].slaveof && m.Some? && m.value in n.peers
    requires ProcessAuthRequest(n, h, force, now, nodeTimeout).1
    requires ProcessAuthRequest(ProcessAuthRequest(n, h, force, now, nodeTimeout).0, h', force', later, nodeTimeout).1
    ensures h.currentEpoch < h'.currentEpoch && later - now >= 2 * nodeTimeout
  {
    GrantExact(n, h, force, now, nodeTimeout);
    GrantExact(ProcessAuthRequest(n, h, force, now, nodeTimeout).0, h', force', later, nodeTimeout);
  }

  /** A vote is counted only from a known master with slots, for the attempt's epoch or later. */
  predicate CountsAck(n: Node, h: Header) {
    && h.sender in n.peers
    && n.peers[h.sender].role == Master
    && Bitmap(n, h.sender) != {}
    && SeenCurrentEpoch(n, h) >= n.authEpoch
  }

  function ProcessAck(n: Node, h: Header): (r: Node)
    ensures Forward(n, r)
    ensures HeaderBounded(h) ==> KeepsBound(n, r)
    ensures r.lastVoteEpoch == n.lastVoteEpoch && r.authEpoch == n.authEpoch && r.authSent == n.authSent
    ensures r.authCount == n.authCount + (if CountsAck(n, h) then 1 else 0)
    ensures SamePeers(n, r)
  {
    var n1 := NoteEpochs(n, h);
    if CountsAck(n, h) then n1.(authCount := n1.authCount + 1) else n1
  }

  // ---------------------------------------------------------------- the failover attempt

  /** The clock, the configuration and the replication state clusterHandleSlaveFailover reads. */
  datatype FailoverEnv = FailoverEnv(
    now: int,
    nodeTimeout: nat,
    mfEnd: bool,
    mfCanStart: bool,
    noFailover: bool,
    dataTooOld: bool,
    rank: nat,
    jitter: nat)

  datatype FailoverOutcome = Idle | Scheduled | Requested | Won

  function NeededQuorum(n: Node): nat {
    n.size / 2 + 1
  }

  function AuthTimeout(env: FailoverEnv): int {
    if env.nodeTimeout * 2 < 2000 then 2000 else env.nodeTimeout * 2
  }

  predicate NothingToFailover(n: Node, env: FailoverEnv) {
    var manual := env.mfEnd && env.mfCanStart;
    var master := Myself(n).slaveof;
    || Myself(n).role == Master
    || master.None?
    || (!PeerOf(n, master.value).failed && !manual)
    || (env.noFailover && !manual)
    || Bitmap(n, master.value) == {}
  }

  /** Schedule a new attempt: the tally is cleared, the attempt's epoch is not. */
  function ScheduleElection(n: Node, env: FailoverEnv): (r: Node)
    ensures Forward(n, r) && KeepsBound(n, r) && r.currentEpoch == n.currentEpoch && r.peers == n.peers
    ensures r.authCount == 0 && !r.authSent
    ensures r.authEpoch == n.authEpoch && r.lastVoteEpoch == n.lastVoteEpoch
  {
    n.(authTime := if env.mfEnd then env.now else env.now + 500 + env.jitter + env.rank * 1000,
       authRank := if env.mfEnd then 0 else env.rank,
       authCount := 0,
       authSent := false)
  }

  /** Start the election: a new epoch, and the request that carries it. */
  function RequestVotes(n: Node): (r: Node)
    ensures Forward(n, r) && KeepsBound(n, r)
    ensures r.authEpoch == r.currentEpoch == n.currentEpoch + 1
    ensures Bounded(n) ==> forall k :: k in n.peers ==> n.peers[k].configEpoch < r.authEpoch
    ensures r.authSent && r.authCount == n.authCount && r.lastVoteEpoch == n.lastVoteEpoch
    ensures r.peers == n.peers
  {
    n.(currentEpoch := n.currentEpoch + 1, authEpoch := n.currentEpoch + 1, authSent := true)
  }

  /** clusterFailoverReplaceYourMaster after the configEpoch was raised. */
  function TakeOver(n: Node): (r: Node)
    requires n.me in n.peers
    ensures Forward(n, r) && KeepsBound(n, r) && SameElection(n, r)
    ensures r.currentEpoch == n.currentEpoch && SamePeers(n, r)
    ensures r.peers[n.me].configEpoch == MaxNat(n.peers[n.me].configEpoch, n.authEpoch)
  {
    var oldMaster := Myself(n).slaveof;
    var n1 := n.(peers := n.peers[n.me := n.peers[n.me].(configEpoch := MaxNat(n.peers[n.me].configEpoch, n.authEpoch))]);
    if Myself(n1).role == Master || oldMaster.None? then n1
    else
      var n2 := SetNodeAsMaster(n1, n.me);
      n2.(owner := map j | j in n2.owner :: if n2.owner[j] == oldMaster.value then n.me else n2.owner[j])
  }

  /** The winner is a master and holds exactly its own slots and those of its old master, which has none left. */
  lemma TakeOverSlots(n: Node)
    requires n.me in n.peers && n.peers[n.me].role != Master
    requires n.peers[n.me].slaveof.Some? && n.peers[n.me].slaveof.value != n.me
    ensures var r := TakeOver(n); var m := n.peers[n.me].slaveof.value;
            && r.peers[n.me].role == Master && r.peers[n.me].slaveof == None
            && Bitmap(r, n.me) == Bitmap(n, n.me) + Bitmap(n, m) && Bitmap(r, m) == {}
            && forall k :: k != n.me && k != m ==> Bitmap(r, k) == Bitmap(n, k)
  {
    hide KeepsBound, Bounded;
  }

  /** A new rank computed before the request went out pushes the election further back. */
  function UpdateRank(n: Node, env: FailoverEnv): (r: Node)
    ensures Forward(n, r) && KeepsBound(n, r) && SameElection(n, r) && r.currentEpoch == n.currentEpoch && r.peers == n.peers
    ensures r.size == n.size
  {
    if !n.authSent && !env.mfEnd && env.rank > n.authRank
    then n.(authTime := n.authTime + (env.rank - n.authRank) * 1000, authRank := env.rank)
    else n
  }

  function HandleSlaveFailover(n: Node, env: FailoverEnv): (r: (Node, FailoverOutcome))
    requires n.me in n.peers
    ensures Forward(n, r.0) && KeepsBound(n, r.0) && SamePeers(n, r.0)
    ensures r.0.lastVoteEpoch == n.lastVoteEpoch
    ensures r.1.Idle? ==> SameElection(n, r.0)
    ensures r.1.Scheduled? ==> r.0.authCount == 0 && !r.0.authSent && r.0.authEpoch == n.authEpoch
    ensures r.1.Requested? ==> && !n.authSent && r.0.authSent
                               && r.0.authEpoch == r.0.currentEpoch == n.currentEpoch + 1
                               && r.0.authCount == n.authCount
                               && (Bounded(n) ==> forall k :: k in n.peers ==> n.peers[k].configEpoch < r.0.authEpoch)
    ensures r.1.Won? ==> n.authSent && n.authCount >= NeededQuorum(n) && SameElection(n, r.0)
                         && r.0.peers[n.me].configEpoch >= n.authEpoch
  {
    // auth_age is read once, before failover_auth_time moves
    var authAge := env.now - n.authTime;
    if NothingToFailover(n, env) then (n, Idle)
    else if env.dataTooOld && !(env.mfEnd && env.mfCanStart) then (n, Idle)
    else if authAge > AuthTimeout(env) * 2 then (ScheduleElection(n, env), Scheduled)
    else
      var n1 := UpdateRank(n, env);
      if env.now < n1.authTime then (n1, Idle)
      else if authAge > AuthTimeout(env) then (n1, Idle)
      else if !n1.authSent then (RequestVotes(n1), Requested)
      else if n1.authCount >= NeededQuorum(n1) then (TakeOver(n1), Won)
      else (n1, Idle)
  }

  /** A replica of a master that serves slots, which has failed or is being failed over by hand; by
      itself a replica must be allowed to, and its data recent. */
  predicate MayAttempt(n: Node, env: FailoverEnv)
    requires n.me in n.peers
  {
    var me := n.peers[n.me];
    && me.role != Master && me.slaveof.Some?
    && (exists j :: j in n.owner && n.owner[j] == me.slaveof.value)
    && if env.mfEnd && env.mfCanStart then true
       else PeerOf(n, me.slaveof.value).failed && !env.noFailover && !env.dataTooOld
  }

  /** How long an attempt is good for. */
  function Limit(env: FailoverEnv): nat { if env.nodeTimeout < 1000 then 2000 else 2 * env.nodeTimeout }

  /** By how much a rank that has grown puts the request off. */
  function RankDelay(n: Node, env: FailoverEnv): nat {
    if !n.authSent && !env.mfEnd && n.authRank < env.rank then 1000 * (env.rank - n.authRank) else 0
  }

  /**
   * When an attempt is scheduled, when votes are asked for and when it is won, told by the age of
   * the attempt, and what each does.
   */
  lemma FailoverExact(n: Node, env: FailoverEnv)
    requires n.me in n.peers
    ensures var (r, o) := HandleSlaveFailover(n, env);
            var age, delayed := env.now - n.authTime,
                n.(authTime := n.authTime + RankDelay(n, env), authRank := if RankDelay(n, env) > 0 then env.rank else n.authRank);
            && (o.Scheduled? <==> MayAttempt(n, env) && age > 2 * Limit(env))
            && (o.Requested? <==> MayAttempt(n, env) && !n.authSent && RankDelay(n, env) <= age <= Limit(env))
            && (o.Won? <==> MayAttempt(n, env) && n.authSent && 0 <= age <= Limit(env) && 2 * n.authCount > n.size)
            && (o.Scheduled? ==>
                  r == n.(authTime := if env.mfEnd then env.now else env.now + 500 + env.jitter + 1000 * env.rank,
                          authRank := if env.mfEnd then 0 else env.rank, authCount := 0, authSent := false))
            && (o.Requested? ==>
                  r == delayed.(currentEpoch := n.currentEpoch + 1, authEpoch := n.currentEpoch + 1, authSent := true))
            && (o.Won? ==> r == TakeOver(n))
            && (o.Idle? ==> r == if MayAttempt(n, env) then delayed else n)
  {
    hide TakeOver, KeepsBound, Bounded;
    var me := n.peers[n.me];
    if me.slaveof.Some? {
      assert Bitmap(n, me.slaveof.value) != {} <==> exists j :: j in n.owner && n.owner[j] == me.slaveof.value by {
        SomeSlot(n, me.slaveof.value);
      }
    }
  }

  lemma SomeSlot(n: Node, id: NodeId)
    ensures Bitmap(n, id) != {} <==> exists j :: j in n.owner && n.owner[j] == id
  {
    if j :| j in n.owner && n.owner[j] == id {
      assert j in Bitmap(n, id);
    }
  }

  /** clusterUpdateState: the cluster size is the number of masters with at least one slot. */
  function SlotMasters(n: Node): set<NodeId> {
    set k | k in n.peers && n.peers[k].role == Master && Bitmap(n, k) != {}
  }

  function UpdateState(n: Node): (r: Node)
    ensures Forward(n, r) && KeepsBound(n, r) && SameElection(n, r) && r.currentEpoch == n.currentEpoch && r.peers == n.peers
    ensures r.size == |SlotMasters(r)| && r.owner == n.owner
  {
    assert SlotMasters(n.(size := |SlotMasters(n)|)) == SlotMasters(n);
    n.(size := |SlotMasters(n)|)
  }
}
