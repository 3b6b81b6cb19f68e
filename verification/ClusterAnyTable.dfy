/** Slot rebinding from any slot table: exactly when a slot ends with its highest claimant in every
    order of delivery, and who keeps it otherwise. */
module ClusterAnyTable {
  import opened Options
  import opened ClusterNode
  import opened ClusterConvergence

  function Recorded(n: Node, id: NodeId): nat { PeerOf(n, id).configEpoch }

  /** The node hears the claimants and knows its own claim's epoch. */
  predicate Tuned(n: Node, claims: Claims) {
    && Listening(n, claims)
    && (n.me in claims ==> Recorded(n, n.me) == claims[n.me].epoch)
    && (Myself(n).role == Master ==> n.me in claims)
  }

  /** A node claims the slots its own table gives it. */
  predicate OwnClaim(n: Node, claims: Claims) {
    n.me in claims ==> forall j :: j in claims[n.me].slots <==> OwnerOf(n, j) == Some(n.me)
  }

  /** The epoch an owner is recorded under once every claim is heard. */
  function FinalEpoch(n: Node, claims: Claims, id: NodeId): nat {
    if id in claims then claims[id].epoch else Recorded(n, id)
  }

  /** The owner of the slot, if any, is m or will be recorded under a smaller epoch than m's. */
  predicate Beaten(n: Node, claims: Claims, j: Slot, m: NodeId)
    requires m in claims
  {
    j in n.owner ==> n.owner[j] == m || FinalEpoch(n, claims, n.owner[j]) < claims[m].epoch
  }

  /** The owner is recorded under an epoch no other claim on the slot exceeds. */
  predicate Holds(n: Node, claims: Claims, j: Slot, o: NodeId) {
    && OwnerOf(n, j) == Some(o)
    && forall k :: k in claims && k != o && j in claims[k].slots ==> claims[k].epoch <= Recorded(n, o)
  }

  predicate Claimed(claims: Claims, j: Slot) {
    exists m :: m in claims && j in claims[m].slots
  }

  /** The claim a packet makes the node apply. */
  function Applied(n: Node, p: Packet): Option<NodeId> {
    match p.body
    case Update(about, epoch, _) => if AcceptsUpdate(n, p.h, about, epoch) then Some(about) else None
    case _ => Some(p.h.sender)
  }

  /** One claim or none takes effect: who has slot j then, going by the epochs recorded in r. */
  function NextOwner(n: Node, claims: Claims, r: Node, applied: Option<NodeId>, j: Slot): Option<NodeId> {
    if && applied.Some? && applied.value in claims && j in claims[applied.value].slots
       && (j in n.owner && n.owner[j] != applied.value ==> Recorded(r, n.owner[j]) < claims[applied.value].epoch)
    then applied else OwnerOf(n, j)
  }

  /** What hearing a packet does to the table and the recorded epochs. */
  ghost predicate Hears(n: Node, claims: Claims, r: Node, applied: Option<NodeId>) {
    && r.me == n.me && Tuned(r, claims)
    && (applied.Some? ==> applied.value in claims && Recorded(r, applied.value) == claims[applied.value].epoch)
    && (forall k :: k in claims ==> Recorded(n, k) <= Recorded(r, k))
    && (forall j :: j in n.owner && n.owner[j] !in claims ==> Recorded(r, n.owner[j]) == Recorded(n, n.owner[j]))
    && (forall j: Slot :: OwnerOf(r, j) == NextOwner(n, claims, r, applied, j))
  }

  /** Whoever sends an UPDATE is a claimant or has no slot. */
  predicate Outside(n: Node, claims: Claims, p: Packet) {
    p.h.sender in claims || forall j :: j in n.owner ==> n.owner[j] != p.h.sender
  }

  lemma HearPing(n: Node, claims: Claims, h: Header)
    requires DistinctEpochs(claims) && Tuned(n, claims) && Advertises(h, claims) && h.sender != n.me
    ensures Hears(n, claims, ProcessPing(n, h).0, Some(h.sender))
  {
    assert Myself(n).role == Master ==> Myself(n).configEpoch != h.configEpoch;
    assert n.me in n.peers && h.sender in n.peers && !n.peers[h.sender].handshake;
    hide ProcessPing, NoteEpochs, Rebind, Tuned, DistinctEpochs, SamePeers;
    PingEffect(n, h);
    PingTunes(n, claims, h, ProcessPing(n, h).0);
  }

  lemma PingTunes(n: Node, claims: Claims, h: Header, r: Node)
    requires Tuned(n, claims) && Advertises(h, claims) && h.sender != n.me
    requires r.me == n.me && SamePeers(n, r) && r.importing <= n.importing
    requires r.owner == Rebind(NoteEpochs(n, h), h.sender, h.configEpoch, h.slots)
    requires Myself(r).role == Master ==> Myself(n).role == Master
    requires forall k :: k in n.peers ==> r.peers[k].configEpoch == NoteEpochs(n, h).peers[k].configEpoch
    ensures Hears(n, claims, r, Some(h.sender))
  {
    forall k ensures Recorded(r, k) == if k == h.sender then h.configEpoch else Recorded(n, k) {
      if k in n.peers {
        assert r.peers[k].configEpoch == NoteEpochs(n, h).peers[k].configEpoch;
      }
    }
    forall j: Slot ensures OwnerOf(r, j) == NextOwner(n, claims, r, Some(h.sender), j) {
      PingMoves(n, h, j);
    }
    hide Rebind;
  }

  lemma PingMoves(n: Node, h: Header, j: Slot)
    requires n.importing == {}
    ensures var owner := Rebind(NoteEpochs(n, h), h.sender, h.configEpoch, h.slots);
            (if j in owner then Some(owner[j]) else None) ==
              if j in h.slots && (j in n.owner && n.owner[j] != h.sender ==> Recorded(NoteEpochs(n, h), n.owner[j]) < h.configEpoch)
              then Some(h.sender) else OwnerOf(n, j)
  {
  }

  lemma HearReport(n: Node, claims: Claims, p: Packet)
    requires Tuned(n, claims) && Truthful(p, claims, n.me) && p.body.Update? && Outside(n, claims, p)
    ensures Hears(n, claims, Listen(n, p), Applied(n, p))
  {
    var about, epoch, slots := p.body.about, p.body.configEpoch, p.body.slots;
    UpdateRecords(n, p.h, about, epoch, slots);
    if about != n.me {
      forall j: Slot ensures OwnerOf(Listen(n, p), j) == OwnerAfter(n, p, j) {
        UpdateExact(n, p.h, about, epoch, slots, j);
      }
    } else {
      UpdateAboutMe(n, p.h, epoch, slots);
      assert !AcceptsUpdate(n, p.h, about, epoch);
    }
    hide ProcessUpdate;
    ReportTunes(n, claims, p, Listen(n, p));
  }

  lemma ReportTunes(n: Node, claims: Claims, p: Packet, r: Node)
    requires Tuned(n, claims) && Truthful(p, claims, n.me) && p.body.Update? && Outside(n, claims, p)
    requires r.me == n.me && SamePeers(n, r) && r.importing <= n.importing
    requires forall j: Slot :: OwnerOf(r, j) == OwnerAfter(n, p, j)
    requires AcceptsUpdate(n, p.h, p.body.about, p.body.configEpoch) ==> r.peers[p.body.about].configEpoch == p.body.configEpoch
    requires forall k :: k in n.peers && !(k == p.body.about && AcceptsUpdate(n, p.h, p.body.about, p.body.configEpoch)) ==>
               r.peers[k].configEpoch == NoteEpochs(n, p.h).peers[k].configEpoch
    requires p.body.about != n.me && Myself(r).role == Master ==> Myself(n).role == Master
    requires p.body.about == n.me ==> r == NoteEpochs(n, p.h)
    ensures Hears(n, claims, r, Applied(n, p))
  {
    UpdateEpochs(n, claims, p, r);
    ReportOutside(n, claims, p, r);
    assert Tuned(r, claims);
    hide Tuned;
    forall j: Slot ensures OwnerOf(r, j) == NextOwner(n, claims, r, Applied(n, p), j) {
      assert OwnerOf(r, j) == OwnerAfter(n, p, j);
      ReportMoves(n, claims, p, r, j);
    }
  }

  lemma ReportOutside(n: Node, claims: Claims, p: Packet, r: Node)
    requires Truthful(p, claims, n.me) && p.body.Update? && Outside(n, claims, p) && r.peers.Keys == n.peers.Keys
    requires forall k :: k in n.peers && !(k == p.body.about && AcceptsUpdate(n, p.h, p.body.about, p.body.configEpoch)) ==>
               r.peers[k].configEpoch == NoteEpochs(n, p.h).peers[k].configEpoch
    ensures forall j :: j in n.owner && n.owner[j] !in claims ==> Recorded(r, n.owner[j]) == Recorded(n, n.owner[j])
  {
    forall j | j in n.owner && n.owner[j] !in claims ensures Recorded(r, n.owner[j]) == Recorded(n, n.owner[j]) {
      if n.owner[j] in n.peers {
        assert r.peers[n.owner[j]].configEpoch == NoteEpochs(n, p.h).peers[n.owner[j]].configEpoch;
      }
    }
  }

  lemma ReportMoves(n: Node, claims: Claims, p: Packet, r: Node, j: Slot)
    requires Tuned(n, claims) && Truthful(p, claims, n.me) && p.body.Update? && r.peers.Keys == n.peers.Keys
    requires forall k :: k in n.peers && !(k == p.body.about && AcceptsUpdate(n, p.h, p.body.about, p.body.configEpoch)) ==>
               r.peers[k].configEpoch == NoteEpochs(n, p.h).peers[k].configEpoch
    ensures OwnerAfter(n, p, j) == NextOwner(n, claims, r, Applied(n, p), j)
  {
    if j in n.owner && n.owner[j] in n.peers && n.owner[j] != p.body.about {
      assert r.peers[n.owner[j]].configEpoch == NoteEpochs(n, p.h).peers[n.owner[j]].configEpoch;
    }
  }

  lemma HearTuned(n: Node, claims: Claims, p: Packet)
    requires DistinctEpochs(claims) && Tuned(n, claims) && Truthful(p, claims, n.me) && Outside(n, claims, p)
    ensures Hears(n, claims, Listen(n, p), Applied(n, p))
  {
    if p.body.Ping? {
      HearPing(n, claims, p.h);
    } else {
      HearReport(n, claims, p);
    }
  }

  lemma HoldsOn(n: Node, claims: Claims, r: Node, applied: Option<NodeId>, j: Slot, o: NodeId)
    requires Tuned(n, claims) && Hears(n, claims, r, applied) && Holds(n, claims, j, o)
    ensures Holds(r, claims, j, o)
  {
    assert OwnerOf(r, j) == NextOwner(n, claims, r, applied, j);
    assert Recorded(r, o) >= Recorded(n, o);
  }

  lemma BeatenOn(n: Node, claims: Claims, r: Node, applied: Option<NodeId>, j: Slot, m: NodeId)
    requires DistinctEpochs(claims) && Tuned(n, claims) && Hears(n, claims, r, applied)
    requires HighestClaimant(claims, j, m) && Beaten(n, claims, j, m)
    ensures Beaten(r, claims, j, m)
    ensures applied == Some(m) ==> Holds(r, claims, j, m)
  {
    assert OwnerOf(r, j) == NextOwner(n, claims, r, applied, j);
    if j in n.owner && n.owner[j] != m {
      RecordedFinal(r, claims, n.owner[j]);
    }
  }

  lemma RecordedFinal(n: Node, claims: Claims, id: NodeId)
    requires Tuned(n, claims)
    ensures Recorded(n, id) <= FinalEpoch(n, claims, id)
  {
  }

  // -------------------------------------------------------------- whole delivery sequences

  predicate Delivers(ps: seq<Packet>, n: Node, claims: Claims) {
    AllTruthful(ps, claims, n.me) && forall p :: p in ps ==> Outside(n, claims, p)
  }

  /** Every claimant is heard by its own PING. */
  predicate Announces(ps: seq<Packet>, n: Node, claims: Claims) {
    Delivers(ps, n, claims) && claims.Keys - {n.me} <= Senders(ps)
  }

  lemma DeliversRest(ps: seq<Packet>, n: Node, claims: Claims)
    requires DistinctEpochs(claims) && Tuned(n, claims) && Delivers(ps, n, claims) && ps != []
    ensures n.me in n.peers && Senders(ps) == Heard1(ps[0]) + Senders(ps[1..])
    ensures Hears(n, claims, Listen(n, ps[0]), Applied(n, ps[0])) && Delivers(ps[1..], Listen(n, ps[0]), claims)
  {
    Rest(ps, claims, n.me);
    assert Outside(n, claims, ps[0]);
    HearTuned(n, claims, ps[0]);
    hide Listen, DistinctEpochs, Tuned;
    var r := Listen(n, ps[0]);
    forall p | p in ps[1..] ensures Outside(r, claims, p) {
      assert p in ps && Outside(n, claims, p);
      StillOutside(n, claims, r, Applied(n, ps[0]), p);
    }
  }

  lemma StillOutside(n: Node, claims: Claims, r: Node, applied: Option<NodeId>, p: Packet)
    requires Hears(n, claims, r, applied) && Outside(n, claims, p)
    ensures Outside(r, claims, p)
  {
    forall j | j in r.owner && p.h.sender !in claims ensures r.owner[j] != p.h.sender {
      assert OwnerOf(r, j) == NextOwner(n, claims, r, applied, j);
    }
  }

  lemma {:induction false} HoldsForever(n: Node, claims: Claims, ps: seq<Packet>, j: Slot, o: NodeId)
    requires DistinctEpochs(claims) && Tuned(n, claims) && Delivers(ps, n, claims) && Holds(n, claims, j, o)
    ensures n.me in n.peers && Holds(ListenAll(n, ps), claims, j, o)
    decreases |ps|
  {
    assert n.me in n.peers;
    if ps != [] {
      DeliversRest(ps, n, claims);
      hide Holds, Listen, DistinctEpochs, Delivers;
      HoldsOn(n, claims, Listen(n, ps[0]), Applied(n, ps[0]), j, o);
      HoldsForever(Listen(n, ps[0]), claims, ps[1..], j, o);
    }
  }

  lemma {:induction false} BeatenLoses(n: Node, claims: Claims, ps: seq<Packet>, j: Slot, m: NodeId)
    requires DistinctEpochs(claims) && Tuned(n, claims) && Delivers(ps, n, claims)
    requires HighestClaimant(claims, j, m) && Beaten(n, claims, j, m) && m in Senders(ps)
    ensures n.me in n.peers && Holds(ListenAll(n, ps), claims, j, m)
    decreases |ps|
  {
    assert n.me in n.peers && ps != [];
    DeliversRest(ps, n, claims);
    hide Holds, Beaten, Listen, DistinctEpochs, Delivers, HighestClaimant;
    var r := Listen(n, ps[0]);
    BeatenOn(n, claims, r, Applied(n, ps[0]), j, m);
    if Applied(n, ps[0]) == Some(m) {
      HoldsForever(r, claims, ps[1..], j, m);
    } else {
      BeatenLoses(r, claims, ps[1..], j, m);
    }
  }

  /** A slot nobody claims stays where it is. */
  lemma {:induction false} UnclaimedStays(n: Node, claims: Claims, ps: seq<Packet>, j: Slot)
    requires DistinctEpochs(claims) && Tuned(n, claims) && Delivers(ps, n, claims) && !Claimed(claims, j)
    ensures n.me in n.peers && OwnerOf(ListenAll(n, ps), j) == OwnerOf(n, j)
    decreases |ps|
  {
    assert n.me in n.peers;
    if ps != [] {
      DeliversRest(ps, n, claims);
      hide Listen, DistinctEpochs, Delivers;
      var r := Listen(n, ps[0]);
      assert OwnerOf(r, j) == NextOwner(n, claims, r, Applied(n, ps[0]), j);
      UnclaimedStays(r, claims, ps[1..], j);
    }
  }

  // -------------------------------------------------------------------- the exact condition

  /** A beaten owner loses the slot to the highest claimant in every order. */
  lemma BeatenConverges(n: Node, claims: Claims, ps: seq<Packet>, j: Slot, m: NodeId)
    requires DistinctEpochs(claims) && Tuned(n, claims) && OwnClaim(n, claims) && Announces(ps, n, claims)
    requires HighestClaimant(claims, j, m) && Beaten(n, claims, j, m)
    ensures n.me in n.peers && OwnerOf(ListenAll(n, ps), j) == Some(m)
  {
    if m == n.me {
      assert OwnerOf(n, j) == Some(m);
      HoldsForever(n, claims, ps, j, m);
    } else {
      BeatenLoses(n, claims, ps, j, m);
    }
  }

  function HeaderFor(claims: Claims, id: NodeId): Header
    requires id in claims
  {
    Header(id, claims[id].epoch, claims[id].epoch, claims[id].slots, None)
  }

  function PingFor(claims: Claims, id: NodeId): Packet
    requires id in claims
  {
    Packet(HeaderFor(claims, id), Ping)
  }

  /** A PING heard first, and then the rest. */
  lemma FirstPing(n: Node, claims: Claims, ps: seq<Packet>, id: NodeId)
    requires DistinctEpochs(claims) && Tuned(n, claims) && Delivers(ps, n, claims) && id in claims && id != n.me
    ensures n.me in n.peers && Delivers([PingFor(claims, id)] + ps, n, claims)
    ensures var r := Listen(n, PingFor(claims, id));
            && Hears(n, claims, r, Some(id)) && Delivers(ps, r, claims)
            && ListenAll(n, [PingFor(claims, id)] + ps) == ListenAll(r, ps)
  {
    assert n.me in n.peers;
    var p := PingFor(claims, id);
    var all := [p] + ps;
    assert all[1..] == ps && all[0] == p;
    assert forall q :: q in all <==> q == p || q in ps;
    hide Listen, DistinctEpochs, Tuned;
    DeliversRest(all, n, claims);
  }

  /** An owner that is not beaten does not claim the slot, and keeps it in every order in which it
      is heard first. */
  lemma UnbeatenKeeps(n: Node, claims: Claims, ps: seq<Packet>, j: Slot, m: NodeId)
    requires DistinctEpochs(claims) && Tuned(n, claims) && OwnClaim(n, claims) && Delivers(ps, n, claims)
    requires HighestClaimant(claims, j, m) && !Beaten(n, claims, j, m)
    ensures n.me in n.peers
    ensures var o := n.owner[j];
            && o != m && (o in claims ==> o != n.me && j !in claims[o].slots)
            && var ps' := if o in claims then [PingFor(claims, o)] + ps else ps;
               Delivers(ps', n, claims) && OwnerOf(ListenAll(n, ps'), j) == Some(o)
  {
    var o := n.owner[j];
    if o in claims {
      assert o != n.me && j !in claims[o].slots;
      FirstPing(n, claims, ps, o);
      var r := Listen(n, PingFor(claims, o));
      hide Listen, ListenAll, Delivers;
      assert OwnerOf(r, j) == NextOwner(n, claims, r, Some(o), j);
      assert Holds(r, claims, j, o);
      HoldsForever(r, claims, ps, j, o);
    } else {
      assert Holds(n, claims, j, o);
      HoldsForever(n, claims, ps, j, o);
    }
  }

  lemma {:induction false} Enumerated(ids: set<NodeId>, n: Node, claims: Claims) returns (ps: seq<Packet>)
    requires ids <= claims.Keys - {n.me}
    ensures Delivers(ps, n, claims) && Senders(ps) == ids
    decreases |ids|
  {
    if ids == {} {
      ps := [];
    } else {
      var id :| id in ids;
      var rest := Enumerated(ids - {id}, n, claims);
      ps := [PingFor(claims, id)] + rest;
      assert ps[1..] == rest && ps[0] == PingFor(claims, id);
      assert forall p :: p in ps <==> p == ps[0] || p in rest;
      Rest(ps, claims, n.me);
    }
  }

  /**
   * From any slot table: every delivery order, with any repetitions and any UPDATEs, gives the slot
   * to its highest claimant if and only if the owner it started with is beaten.
   */
  lemma ExactConvergence(n: Node, claims: Claims, j: Slot, m: NodeId)
    requires DistinctEpochs(claims) && Tuned(n, claims) && OwnClaim(n, claims) && HighestClaimant(claims, j, m)
    ensures n.me in n.peers
    ensures Beaten(n, claims, j, m) <==>
              forall ps :: Announces(ps, n, claims) ==> OwnerOf(ListenAll(n, ps), j) == Some(m)
  {
    assert m in claims && n.me in n.peers;
    hide DistinctEpochs, HighestClaimant, OwnClaim, OwnerOf, ListenAll, Tuned, Beaten, Announces;
    if Beaten(n, claims, j, m) {
      forall ps | Announces(ps, n, claims) ensures OwnerOf(ListenAll(n, ps), j) == Some(m) {
        BeatenConverges(n, claims, ps, j, m);
      }
    } else {
      var ps := KeepingOrder(n, claims, j, m);
    }
  }

  /** An order in which an owner that is not beaten keeps the slot. */
  lemma KeepingOrder(n: Node, claims: Claims, j: Slot, m: NodeId) returns (ps: seq<Packet>)
    requires DistinctEpochs(claims) && Tuned(n, claims) && OwnClaim(n, claims) && HighestClaimant(claims, j, m)
    requires !Beaten(n, claims, j, m)
    ensures n.me in n.peers && Announces(ps, n, claims) && OwnerOf(ListenAll(n, ps), j) != Some(m)
  {
    hide DistinctEpochs, OwnClaim, ListenAll, Tuned, Senders, Delivers;
    ps := Enumerated(claims.Keys - {n.me}, n, claims);
    UnbeatenKeeps(n, claims, ps, j, m);
    var o := n.owner[j];
    if o in claims {
      SendersMore(PingFor(claims, o), ps);
      ps := [PingFor(claims, o)] + ps;
    }
  }

  lemma SendersMore(p: Packet, ps: seq<Packet>)
    ensures Senders(ps) <= Senders([p] + ps)
  {
    assert forall q :: q in ps ==> q in [p] + ps;
  }

  /** The order decides: an owner with an epoch still to be heard, above the claims on its slot,
      keeps it when heard before the highest claimant and loses it when heard after. */
  lemma OrderDecides(n: Node, claims: Claims, ps: seq<Packet>, j: Slot, m: NodeId)
    requires DistinctEpochs(claims) && Tuned(n, claims) && OwnClaim(n, claims) && Delivers(ps, n, claims)
    requires HighestClaimant(claims, j, m) && j in n.owner && n.owner[j] != m
    requires Recorded(n, n.owner[j]) < claims[m].epoch <= FinalEpoch(n, claims, n.owner[j])
    ensures n.me in n.peers && n.owner[j] in claims
    ensures OwnerOf(ListenAll(n, [PingFor(claims, n.owner[j])] + ps), j) == Some(n.owner[j])
    ensures OwnerOf(ListenAll(n, [PingFor(claims, m)] + ps), j) == Some(m)
  {
    UnbeatenKeeps(n, claims, ps, j, m);
    assert m != n.me;
    FirstPing(n, claims, ps, m);
    var r := Listen(n, PingFor(claims, m));
    hide Listen, ListenAll, Delivers;
    OthersKept(n, claims, m, n.owner[j]);
    assert OwnerOf(r, j) == NextOwner(n, claims, r, Some(m), j);
    assert Holds(r, claims, j, m);
    HoldsForever(r, claims, ps, j, m);
  }

  /** A PING changes only what is recorded of its sender. */
  lemma OthersKept(n: Node, claims: Claims, m: NodeId, o: NodeId)
    requires DistinctEpochs(claims) && Tuned(n, claims) && m in claims && m != n.me && o != m
    ensures Recorded(Listen(n, PingFor(claims, m)), o) == Recorded(n, o)
  {
    PingEffect(n, HeaderFor(claims, m));
    hide ProcessPing;
  }

  const AMaster := Peer(Master, None, 0, false, false, 0)

  /** Node 0, a replica, has slot 7 with node 1. */
  function Undecided(): Node {
    Node(0, 0, 0, map[0 := AMaster.(role := Slave), 1 := AMaster, 2 := AMaster], map[7 := 1], {}, 0, 0, 0, 0, false, 0)
  }

  /** Node 1 has given the slot up in epoch 5, node 2 claims it in epoch 3. */
  function TwoClaims(): Claims { map[1 := Claim(5, {}), 2 := Claim(3, {7})] }

  lemma UndecidedFits()
    ensures var n, claims := Undecided(), TwoClaims();
            && Tuned(n, claims) && OwnClaim(n, claims) && DistinctEpochs(claims) && HighestClaimant(claims, 7, 2)
            && 1 in claims && 7 in n.owner && n.owner[7] == 1
            && Recorded(n, 1) == 0 && FinalEpoch(n, claims, 1) == 5 && claims[2].epoch == 3
            && Delivers([PingFor(claims, 1)], n, claims) && Delivers([PingFor(claims, 2)], n, claims)
  {
  }

  /** The one heard first has the slot in the end. */
  lemma OrderMatters()
    ensures 1 in TwoClaims() && 2 in TwoClaims()
    ensures var one, two := PingFor(TwoClaims(), 1), PingFor(TwoClaims(), 2);
            && OwnerOf(ListenAll(Undecided(), [one] + [two]), 7) == Some(1)
            && OwnerOf(ListenAll(Undecided(), [two] + [one]), 7) == Some(2)
  {
    UndecidedFits();
    hide ListenAll, Tuned, OwnClaim, DistinctEpochs, Delivers, OwnerOf, Undecided, Recorded, FinalEpoch;
    var n, claims := Undecided(), TwoClaims();
    OrderDecides(n, claims, [PingFor(claims, 2)], 7, 2);
    OrderDecides(n, claims, [PingFor(claims, 1)], 7, 2);
  }
}
