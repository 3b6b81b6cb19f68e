/** What the administrator, the failure detector and handshakes change at one node, field by field, and what
    a node answers to a packet. */
module ClusterAdmin {
  import opened Options
  import opened ClusterNode
  import opened ClusterPing
  import opened ClusterElection

  /** Everything but the table of peers and the slots is as it was. */
  predicate Apart(n: Node, r: Node) {
    && r.me == n.me && r.currentEpoch == n.currentEpoch && SameElection(n, r)
    && r.authTime == n.authTime && r.authRank == n.authRank && r.size == n.size && r.importing == n.importing
  }

  /** CLUSTER FORGET, and the end of a handshake that leads to a node already known: nothing refers to the peer. */
  predicate Forgotten(n: Node, peer: NodeId, r: Node) {
    && Apart(n, r) && r.peers.Keys == n.peers.Keys - {peer}
    && (forall j: Slot :: OwnerOf(r, j) == if OwnerOf(n, j) == Some(peer) then None else OwnerOf(n, j))
    && (forall k :: k in r.peers ==>
          && r.peers[k].slaveof == (if n.peers[k].slaveof == Some(peer) then None else n.peers[k].slaveof)
          && r.peers[k] == n.peers[k].(slaveof := r.peers[k].slaveof))
  }

  function NewName(peer: NodeId, name: NodeId, o: Option<NodeId>): Option<NodeId> {
    if o == Some(peer) then Some(name) else o
  }

  /** The peer has left the handshake under its own name, and whatever referred to it follows. */
  predicate Renamed(n: Node, peer: NodeId, name: NodeId, role: Role, r: Node)
    requires peer in n.peers && peer != name
  {
    && Apart(n, r) && r.peers.Keys == n.peers.Keys - {peer} + {name}
    && (forall j: Slot :: OwnerOf(r, j) == NewName(peer, name, OwnerOf(n, j)))
    && r.peers[name] == n.peers[peer].(handshake := false, role := role)
    && (forall k :: k in n.peers && k != peer && k != name ==>
          r.peers[k] == n.peers[k].(slaveof := NewName(peer, name, n.peers[k].slaveof)))
  }

  lemma ForgetExact(n: Node, id: NodeId, peer: NodeId)
    requires n.me in n.peers
    ensures var r := Local(n, Forget(id, peer)); if peer == n.me then r == n else Forgotten(n, peer, r)
  {
  }

  lemma EndHandshakeExact(n: Node, id: NodeId, peer: NodeId, name: NodeId, role: Role)
    requires n.me in n.peers
    ensures var r := Local(n, EndHandshake(id, peer, name, role));
            && (peer in n.peers && peer != n.me && n.peers[peer].handshake && name in n.peers ==> Forgotten(n, peer, r))
            && (peer in n.peers && peer != n.me && n.peers[peer].handshake && name !in n.peers ==>
                  Renamed(n, peer, name, role, r))
            && (peer !in n.peers || peer == n.me || !n.peers[peer].handshake ==> r == n)
  {
  }

  /** A node met or heard of is recorded with epoch 0 and without slots; a known one stays as it is. */
  lemma LearnExact(n: Node, id: NodeId, peer: NodeId, role: Role, handshake: bool, k: NodeId)
    requires n.me in n.peers
    ensures var r := Local(n, Learn(id, peer, role, handshake));
            && r.owner == n.owner && Apart(n, r)
            && (k in r.peers <==> k in n.peers || k == peer)
            && (k in n.peers ==> r.peers[k] == n.peers[k])
            && (k == peer && k !in n.peers ==> r.peers[k] == Peer(role, None, 0, handshake, false, 0))
  {
  }

  /** CLUSTER SET-CONFIG-EPOCH succeeds exactly at a node that knows nobody and has no epoch yet. */
  lemma SetConfigEpochExact(n: Node, id: NodeId, epoch: nat)
    requires n.me in n.peers
    ensures var r := Local(n, SetConfigEpoch(id, epoch));
            if Myself(n).configEpoch == 0 && forall k :: k in n.peers ==> k == n.me then
              && Myself(r) == Myself(n).(configEpoch := epoch) && r.peers.Keys == {n.me} && r.owner == n.owner
              && Apart(n, r.(currentEpoch := n.currentEpoch))
              && r.currentEpoch == if epoch > n.currentEpoch then epoch else n.currentEpoch
            else r == n
  {
    assert n.peers.Keys == {n.me} <==> forall k :: k in n.peers ==> k == n.me;
  }

  /** CLUSTER REPLICATE succeeds exactly if the master is known, another node and no replica, and this
      node has no slots and, as a master, no keys. */
  lemma ReplicateExact(n: Node, id: NodeId, master: NodeId, empty: bool)
    requires n.me in n.peers
    ensures var r := Local(n, Replicate(id, master, empty));
            if && master in n.peers && master != n.me && n.peers[master].role != Slave
               && (forall j: Slot :: OwnerOf(n, j) != Some(n.me)) && (Myself(n).role == Master ==> empty)
            then
              && Myself(r).slaveof == Some(master) && Myself(r).role != Master && r.owner == n.owner
              && Apart(n, r.(importing := n.importing))
              && r.importing == (if Myself(n).role == Master then {} else n.importing)
              && (forall k :: k in n.peers && k != n.me ==> k in r.peers && r.peers[k] == n.peers[k])
            else r == n
  {
    if Bitmap(n, n.me) == {} {
      forall j: Slot ensures OwnerOf(n, j) != Some(n.me) {
        assert j !in Bitmap(n, n.me);
      }
    } else {
      var j :| j in Bitmap(n, n.me);
      assert OwnerOf(n, j) == Some(n.me);
    }
  }

  /** The failure detector marks one peer; ADDSLOTS, DELSLOTS and SETSLOT change the slots and nothing else. */
  lemma MarksExact(n: Node, id: NodeId, peer: NodeId, failed: bool, owner: map<Slot, NodeId>, importing: set<Slot>)
    requires n.me in n.peers
    ensures var r := Local(n, MarkFailed(id, peer, failed));
            && r.owner == n.owner && Apart(n, r) && r.peers.Keys == n.peers.Keys
            && forall k :: k in n.peers ==>
                 r.peers[k] == n.peers[k].(failed := if k == peer then failed else n.peers[k].failed)
    ensures var r := Local(n, Configure(id, owner, importing));
            && r.owner == owner && r.importing == importing && r.peers == n.peers
            && Apart(n, r.(importing := n.importing))
  {
  }

  /** CLUSTER BUMPEPOCH takes a new epoch exactly if the own one is zero or not the greatest known. */
  lemma BumpExact(n: Node, id: NodeId, max: nat)
    requires n.me in n.peers && IsMaxEpoch(n, max)
    ensures var r := Local(n, Bump(id, max));
            if Myself(n).configEpoch == 0 || Myself(n).configEpoch != max then
              && Myself(r).configEpoch == r.currentEpoch == n.currentEpoch + 1 && r.owner == n.owner
              && (forall k :: k in n.peers && k != n.me ==> k in r.peers && r.peers[k] == n.peers[k])
            else r == n
  {
  }

  // ------------------------------------------------------------------------------ answers

  /** A PING is answered by a PONG that is not behind the sender's epoch, and, exactly if the claim is stale, by an UPDATE. */
  lemma PingAnswers(n: Node, m: Msg, now: int, nodeTimeout: nat)
    requires n.me in n.peers && m.hdr.sender in n.peers && m.body.Ping?
    ensures var (r, out) := Receive(n, m, now, nodeTimeout);
            && r == ProcessPing(n, m.hdr).0
            && (forall x :: x in out ==> x.dst == m.hdr.sender && x.hdr.sender == n.me && (x.body.Ping? || x.body.Update?))
            && (exists x :: x in out && x.body.Ping? && x.hdr.currentEpoch == MaxNat(n.currentEpoch, SeenCurrentEpoch(n, m.hdr)))
  {
    hide ProcessPing, NoteEpochs, BuildHeader;
    var (r, out) := Receive(n, m, now, nodeTimeout);
    var pong := Msg(m.hdr.sender, BuildHeader(NoteEpochs(n, m.hdr)), Ping);
    assert pong in out && NoteEpochs(n, m.hdr).me == n.me;
  }

  lemma UpdateAnswered(n: Node, m: Msg, now: int, nodeTimeout: nat)
    requires n.me in n.peers && m.hdr.sender in n.peers && m.body.Ping?
    ensures var (r, out) := Receive(n, m, now, nodeTimeout);
            (exists x :: x in out && x.body.Update?) <==> Looked(n, r, m.hdr) && exists i: Slot :: Stale(n, m.hdr, i)
  {
    PingReply(n, m.hdr);
    hide ProcessPing, Looked, Stale, Reports, NoteEpochs, BuildHeader;
    var reply := ProcessPing(n, m.hdr).1;
    if reply.Some? {
      assert Msg(m.hdr.sender, reply.value.0, reply.value.1) in Receive(n, m, now, nodeTimeout).1;
    }
  }

  /** An UPDATE is applied and not answered. */
  lemma UpdateApplied(n: Node, m: Msg, now: int, nodeTimeout: nat, j: Slot)
    requires n.me in n.peers && m.body.Update? && m.body.about != n.me
    ensures var (r, out) := Receive(n, m, now, nodeTimeout);
            var held := if j in n.owner then PeerOf(NoteEpochs(n, m.hdr), n.owner[j]).configEpoch else 0;
            && out == {}
            && OwnerOf(r, j) ==
                 if && AcceptsUpdate(n, m.hdr, m.body.about, m.body.configEpoch) && j in m.body.slots && j !in n.importing
                    && (j !in n.owner || held < m.body.configEpoch)
                 then Some(m.body.about) else OwnerOf(n, j)
  {
    UpdateExact(n, m.hdr, m.body.about, m.body.configEpoch, m.body.slots, j);
    hide ProcessUpdate;
  }
}
