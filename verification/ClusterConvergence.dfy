/** Slot rebinding converges: once every master's claim has been heard, the slot table depends
    on the claims alone, not on the order, the repetitions or the table one started from, if the
    owners in that table are claimants. */
module ClusterConvergence {
  import opened Options
  import opened ClusterNode

  datatype Claim = Claim(epoch: nat, slots: set<Slot>)

  type Claims = map<NodeId, Claim>

  predicate DistinctEpochs(claims: Claims) {
    forall m, m' :: m in claims && m' in claims && claims[m].epoch == claims[m'].epoch ==> m == m'
  }

  /** A header in which master `h.sender` advertises its claim. */
  predicate Advertises(h: Header, claims: Claims) {
    && h.sender in claims
    && h.configEpoch == claims[h.sender].epoch && h.slots == claims[h.sender].slots
    && h.slaveof.None?
  }

  /** The node knows the claimants, is importing nothing, and has recorded no epoch beyond a claim's. */
  predicate Listening(n: Node, claims: Claims) {
    && n.me in n.peers && n.importing == {}
    && forall m :: m in claims ==>
         m in n.peers && !n.peers[m].handshake && n.peers[m].configEpoch <= claims[m].epoch
  }

  /** Every assigned slot belongs to one of its claimants. */
  predicate OwnersClaim(n: Node, claims: Claims) {
    forall j :: j in n.owner ==> n.owner[j] in claims && j in claims[n.owner[j]].slots
  }

  /** The claims in `heard` have been taken into account: their epochs are recorded and none of
      their slots is left to an owner recorded under a smaller epoch. */
  predicate Heard(n: Node, claims: Claims, heard: set<NodeId>) {
    forall m :: m in heard ==>
      && m in claims && PeerOf(n, m).configEpoch == claims[m].epoch
      && forall j :: j in claims[m].slots ==> HeldBy(n, j, claims[m].epoch)
  }

  predicate HeldBy(n: Node, j: Slot, epoch: nat) {
    j in n.owner && PeerOf(n, n.owner[j]).configEpoch >= epoch
  }

  predicate Settled(n: Node, claims: Claims, heard: set<NodeId>) {
    && Listening(n, claims) && OwnersClaim(n, claims) && Heard(n, claims, heard)
    && (n.me in claims ==> n.me in heard)
  }

  /** What a master's PING does to the slot table and to the recorded epochs. */
  lemma PingEffect(n: Node, h: Header)
    requires n.me in n.peers && h.sender in n.peers && !n.peers[h.sender].handshake
    requires h.sender != n.me && h.slaveof.None?
    requires Myself(n).role == Master ==> Myself(n).configEpoch != h.configEpoch
    ensures var r := ProcessPing(n, h).0;
            var n1 := NoteEpochs(n, h);
            && r.me == n.me && SamePeers(n, r) && r.importing <= n.importing
            && r.owner == Rebind(n1, h.sender, h.configEpoch, h.slots)
            && (Myself(r).role == Master ==> Myself(n).role == Master)
            && forall k :: k in n.peers ==> r.peers[k].configEpoch == n1.peers[k].configEpoch
  {
    var n1 := NoteEpochs(n, h);
    var n2 := SwitchRole(n1, h);
    assert Myself(n2) == Myself(n);
    assert SamePeers(n, n2);
    RebindSame(n1, n2, h.sender, h.configEpoch, h.slots);
    hide ApplyClaim, FixCollision, NoteEpochs, SwitchRole, Rebind;
    var n3 := ApplyClaim(n2, h, h.configEpoch);
    assert ProcessPing(n, h).0 == FixCollision(n3, h, h.configEpoch);
  }

  /** Rebinding looks at owners, importing slots and recorded epochs only. */
  lemma RebindSame(n: Node, n': Node, sender: NodeId, epoch: nat, slots: set<Slot>)
    requires n'.owner == n.owner && n'.importing == n.importing && n'.peers.Keys == n.peers.Keys
    requires forall k :: k in n.peers ==> n'.peers[k].configEpoch == n.peers[k].configEpoch
    ensures Rebind(n', sender, epoch, slots) == Rebind(n, sender, epoch, slots)
  {
    assert Moved(n', sender, epoch, slots) == Moved(n, sender, epoch, slots);
  }

  /** Hearing one more claim. */
  lemma HearClaim(n: Node, claims: Claims, heard: set<NodeId>, h: Header)
    requires DistinctEpochs(claims) && Settled(n, claims, heard)
    requires Advertises(h, claims) && h.sender != n.me
    requires Myself(n).role == Master ==> n.me in claims
    ensures Settled(ProcessPing(n, h).0, claims, heard + {h.sender})
    ensures Myself(ProcessPing(n, h).0).role == Master ==> Myself(n).role == Master
    ensures ProcessPing(n, h).0.me == n.me
  {
    PingEffect(n, h);
    hide ProcessPing;
    var r := ProcessPing(n, h).0;
    HearEffect(n, claims, heard, h, r);
    hide Heard;
    OwnersEffect(n, claims, h, r);
  }

  lemma OwnersEffect(n: Node, claims: Claims, h: Header, r: Node)
    requires Listening(n, claims) && OwnersClaim(n, claims) && Advertises(h, claims)
    requires r.me == n.me && SamePeers(n, r) && r.importing <= n.importing
    requires r.owner == Rebind(NoteEpochs(n, h), h.sender, h.configEpoch, h.slots)
    requires forall k :: k in n.peers ==> r.peers[k].configEpoch == NoteEpochs(n, h).peers[k].configEpoch
    ensures Listening(r, claims) && OwnersClaim(r, claims)
  {
  }

  lemma HearEffect(n: Node, claims: Claims, heard: set<NodeId>, h: Header, r: Node)
    requires Settled(n, claims, heard) && Advertises(h, claims) && h.sender != n.me
    requires r.owner == Rebind(NoteEpochs(n, h), h.sender, h.configEpoch, h.slots) && r.peers.Keys == n.peers.Keys
    requires forall k :: k in n.peers ==> r.peers[k].configEpoch == NoteEpochs(n, h).peers[k].configEpoch
    ensures Heard(r, claims, heard + {h.sender})
  {
    var n1 := NoteEpochs(n, h);
    var heard' := heard + {h.sender};
    forall m | m in heard'
      ensures m in claims && PeerOf(r, m).configEpoch == claims[m].epoch
              && forall j :: j in claims[m].slots ==> HeldBy(r, j, claims[m].epoch)
    {
      forall j | j in claims[m].slots ensures HeldBy(r, j, claims[m].epoch) {
        StillHeld(n, claims, heard, h, m, j);
      }
    }
  }

  lemma StillHeld(n: Node, claims: Claims, heard: set<NodeId>, h: Header, m: NodeId, j: Slot)
    requires Settled(n, claims, heard) && Advertises(h, claims) && h.sender != n.me
    requires m in heard + {h.sender} && j in claims[m].slots
    ensures var n1 := NoteEpochs(n, h);
            var owner := Rebind(n1, h.sender, h.configEpoch, h.slots);
            j in owner && PeerOf(n1, owner[j]).configEpoch >= claims[m].epoch
  {
    var n1 := NoteEpochs(n, h);
    assert PeerOf(n1, h.sender).configEpoch == claims[h.sender].epoch;
    if m in heard {
      assert HeldBy(n, j, claims[m].epoch);
    }
  }

  // ---------------------------------------------------------------- UPDATE packets

  datatype Packet = Packet(h: Header, body: Body)

  /** A master's PING with its claim, or an UPDATE in which any node reports somebody's claim. */
  predicate Truthful(p: Packet, claims: Claims, me: NodeId) {
    && p.h.sender != me
    && match p.body
       case Ping => Advertises(p.h, claims)
       case Update(about, epoch, slots) =>
         && about in claims && epoch == claims[about].epoch && slots == claims[about].slots
         && (p.h.sender in claims ==> p.h.configEpoch == claims[p.h.sender].epoch)
       case _ => false
  }

  function Listen(n: Node, p: Packet): (r: Node)
    requires n.me in n.peers
    ensures r.me == n.me && SamePeers(n, r)
  {
    match p.body
    case Update(about, epoch, slots) => ProcessUpdate(n, p.h, about, epoch, slots)
    case _ => ProcessPing(n, p.h).0
  }

  /** An UPDATE unsettles nothing, whether it is accepted or not. */
  lemma HearUpdate(n: Node, claims: Claims, heard: set<NodeId>, p: Packet)
    requires Settled(n, claims, heard) && Truthful(p, claims, n.me) && p.body.Update?
    requires Myself(n).role == Master ==> n.me in claims
    ensures Settled(Listen(n, p), claims, heard)
    ensures Myself(Listen(n, p)).role == Master ==> Myself(n).role == Master
  {
    var about, epoch, slots := p.body.about, p.body.configEpoch, p.body.slots;
    UpdateRecords(n, p.h, about, epoch, slots);
    if about != n.me {
      forall j: Slot ensures OwnerOf(Listen(n, p), j) == OwnerAfter(n, p, j) {
        UpdateExact(n, p.h, about, epoch, slots, j);
      }
    } else {
      UpdateAboutMe(n, p.h, epoch, slots);
      assert !AcceptsUpdate(n, p.h, about, epoch);
    }
    hide ProcessUpdate;
    UpdateSettles(n, claims, heard, p, Listen(n, p));
  }

  /** Who has slot j then. */
  function OwnerAfter(n: Node, p: Packet, j: Slot): Option<NodeId>
    requires p.body.Update?
  {
    var about, epoch := p.body.about, p.body.configEpoch;
    if && about != n.me && AcceptsUpdate(n, p.h, about, epoch) && j in p.body.slots && j !in n.importing
       && (j !in n.owner || PeerOf(NoteEpochs(n, p.h), n.owner[j]).configEpoch < epoch)
    then Some(about) else OwnerOf(n, j)
  }

  lemma UpdateSettles(n: Node, claims: Claims, heard: set<NodeId>, p: Packet, r: Node)
    requires Settled(n, claims, heard) && Truthful(p, claims, n.me) && p.body.Update?
    requires r.me == n.me && SamePeers(n, r) && r.importing <= n.importing
    requires forall j: Slot :: OwnerOf(r, j) == OwnerAfter(n, p, j)
    requires AcceptsUpdate(n, p.h, p.body.about, p.body.configEpoch) ==> r.peers[p.body.about].configEpoch == p.body.configEpoch
    requires forall k :: k in n.peers && !(k == p.body.about && AcceptsUpdate(n, p.h, p.body.about, p.body.configEpoch)) ==>
               r.peers[k].configEpoch == NoteEpochs(n, p.h).peers[k].configEpoch
    ensures Settled(r, claims, heard)
  {
    UpdateEpochs(n, claims, p, r);
    forall m, j | m in heard && j in claims[m].slots ensures HeldBy(r, j, claims[m].epoch) {
      assert HeldBy(n, j, claims[m].epoch);
      assert OwnerOf(r, j) == OwnerAfter(n, p, j);
    }
    forall j | j in r.owner ensures r.owner[j] in claims && j in claims[r.owner[j]].slots {
      assert OwnerOf(r, j) == OwnerAfter(n, p, j);
    }
  }

  /** The epochs recorded of claimants only grow, and not beyond the claims. */
  lemma UpdateEpochs(n: Node, claims: Claims, p: Packet, r: Node)
    requires Listening(n, claims) && Truthful(p, claims, n.me) && p.body.Update? && r.peers.Keys == n.peers.Keys
    requires AcceptsUpdate(n, p.h, p.body.about, p.body.configEpoch) ==> r.peers[p.body.about].configEpoch == p.body.configEpoch
    requires forall k :: k in n.peers && !(k == p.body.about && AcceptsUpdate(n, p.h, p.body.about, p.body.configEpoch)) ==>
               r.peers[k].configEpoch == NoteEpochs(n, p.h).peers[k].configEpoch
    ensures forall k :: k in n.peers ==> PeerOf(n, k).configEpoch <= PeerOf(NoteEpochs(n, p.h), k).configEpoch <= PeerOf(r, k).configEpoch
    ensures forall m :: m in claims ==> PeerOf(r, m).configEpoch <= claims[m].epoch
  {
  }

  // ---------------------------------------------------------------- whole delivery sequences

  function ListenAll(n: Node, ps: seq<Packet>): Node
    requires n.me in n.peers
    decreases |ps|
  {
    if ps == [] then n else ListenAll(Listen(n, ps[0]), ps[1..])
  }

  /** The masters whose own PING is among the packets. */
  function Senders(ps: seq<Packet>): set<NodeId> {
    set p | p in ps && p.body.Ping? :: p.h.sender
  }

  predicate AllTruthful(ps: seq<Packet>, claims: Claims, me: NodeId) {
    forall p :: p in ps ==> Truthful(p, claims, me)
  }

  function Heard1(p: Packet): set<NodeId> { if p.body.Ping? then {p.h.sender} else {} }

  lemma Rest(ps: seq<Packet>, claims: Claims, me: NodeId)
    requires AllTruthful(ps, claims, me) && ps != []
    ensures Truthful(ps[0], claims, me) && AllTruthful(ps[1..], claims, me)
    ensures Senders(ps) == Heard1(ps[0]) + Senders(ps[1..])
  {
    assert forall p :: p in ps <==> p == ps[0] || p in ps[1..];
  }

  lemma ListenOne(n: Node, claims: Claims, heard: set<NodeId>, p: Packet)
    requires DistinctEpochs(claims) && Settled(n, claims, heard) && Truthful(p, claims, n.me)
    requires Myself(n).role == Master ==> n.me in claims
    ensures Settled(Listen(n, p), claims, heard + Heard1(p))
    ensures Myself(Listen(n, p)).role == Master ==> Myself(n).role == Master
  {
    if p.body.Ping? {
      HearClaim(n, claims, heard, p.h);
    } else {
      HearUpdate(n, claims, heard, p);
      assert heard + {} == heard;
    }
  }

  lemma {:induction false} ListenSettles(n: Node, claims: Claims, heard: set<NodeId>, ps: seq<Packet>)
    requires DistinctEpochs(claims) && Settled(n, claims, heard) && AllTruthful(ps, claims, n.me)
    requires Myself(n).role == Master ==> n.me in claims
    ensures Settled(ListenAll(n, ps), claims, heard + Senders(ps))
    decreases |ps|
  {
    assert n.me in n.peers;
    if ps == [] {
      assert heard + Senders(ps) == heard;
    } else {
      hide Settled, Myself, Truthful, Listen, AllTruthful, Senders, DistinctEpochs, Heard1;
      Rest(ps, claims, n.me);
      ListenOne(n, claims, heard, ps[0]);
      ListenSettles(Listen(n, ps[0]), claims, heard + Heard1(ps[0]), ps[1..]);
      assert heard + Heard1(ps[0]) + Senders(ps[1..]) == heard + Senders(ps);
    }
  }

  predicate HighestClaimant(claims: Claims, j: Slot, m: NodeId) {
    && m in claims && j in claims[m].slots
    && forall k :: k in claims && j in claims[k].slots ==> claims[k].epoch <= claims[m].epoch
  }

  /** When every claim has been heard, a slot is assigned exactly when it is claimed, and then
      to its claimant with the highest epoch. */
  lemma SettledTable(n: Node, claims: Claims, j: Slot)
    requires Settled(n, claims, claims.Keys)
    ensures j in n.owner <==> exists m :: m in claims && j in claims[m].slots
    ensures j in n.owner ==> HighestClaimant(claims, j, n.owner[j])
  {
    forall k | k in claims && j in claims[k].slots
      ensures j in n.owner && claims[k].epoch <= claims[n.owner[j]].epoch
    {
      assert HeldBy(n, j, claims[k].epoch);
    }
  }

  /** Any two nodes, from any two tables whose owners are claimants and by any two delivery orders
      with any repetitions and any UPDATEs in between, end with the same slot table once each has
      heard every claim. */
  lemma Convergence(claims: Claims, n: Node, heard: set<NodeId>, ps: seq<Packet>,
                    n': Node, heard': set<NodeId>, ps': seq<Packet>)
    requires DistinctEpochs(claims)
    requires Settled(n, claims, heard) && AllTruthful(ps, claims, n.me) && heard + Senders(ps) == claims.Keys
    requires Settled(n', claims, heard') && AllTruthful(ps', claims, n'.me) && heard' + Senders(ps') == claims.Keys
    requires Myself(n).role == Master ==> n.me in claims
    requires Myself(n').role == Master ==> n'.me in claims
    ensures ListenAll(n, ps).owner == ListenAll(n', ps').owner
    ensures forall j :: j in ListenAll(n, ps).owner ==> HighestClaimant(claims, j, ListenAll(n, ps).owner[j])
  {
    hide ListenAll, Senders, DistinctEpochs, HeldBy;
    ListenSettles(n, claims, heard, ps);
    ListenSettles(n', claims, heard', ps');
    SameTable(ListenAll(n, ps), ListenAll(n', ps'), claims);
  }

  lemma SameTable(r: Node, r': Node, claims: Claims)
    requires DistinctEpochs(claims) && Settled(r, claims, claims.Keys) && Settled(r', claims, claims.Keys)
    ensures r.owner == r'.owner
    ensures forall j :: j in r.owner ==> HighestClaimant(claims, j, r.owner[j])
  {
    hide Settled, HighestClaimant, DistinctEpochs;
    forall j: Slot
      ensures j in r.owner <==> j in r'.owner
      ensures j in r.owner ==> r.owner[j] == r'.owner[j] && HighestClaimant(claims, j, r.owner[j])
    {
      SettledTable(r, claims, j);
      SettledTable(r', claims, j);
      if j in r.owner {
        OneHighest(claims, j, r.owner[j], r'.owner[j]);
      }
    }
  }

  lemma OneHighest(claims: Claims, j: Slot, m: NodeId, m': NodeId)
    requires DistinctEpochs(claims) && HighestClaimant(claims, j, m) && HighestClaimant(claims, j, m')
    ensures m == m'
  {
  }

  /** A freshly started node with an empty slot table meets the starting condition. */
  lemma EmptyTableSettled(n: Node, claims: Claims)
    requires Listening(n, claims) && n.owner == map[] && n.me !in claims
    ensures Settled(n, claims, {})
  {
  }
}
