/** The epoch discipline of the whole cluster: no node ever records a configEpoch newer than
    its currentEpoch, and no packet ever carries one newer than the currentEpoch beside it. */
module ClusterEpochs {
  import opened ClusterNode
  import opened ClusterElection

  predicate PacketBounded(m: Msg) {
    HeaderBounded(m.hdr) && BodyBounded(m.hdr, m.body)
  }

  predicate EpochInv(s: System) {
    && Shaped(s)
    && (forall id :: id in s.nodes ==> Bounded(s.nodes[id]) && Strangers(s.nodes[id], s.nodes.Keys))
    && (forall m :: m in s.msgs ==> PacketBounded(m) && m.hdr.sender in s.nodes)
  }

  lemma StillStrangers(n: Node, n': Node, names: set<NodeId>)
    requires Strangers(n, names) && SamePeers(n, n')
    ensures Strangers(n', names)
  {
  }

  lemma ReceiveBounded(n: Node, m: Msg, now: int, nodeTimeout: nat)
    requires n.me in n.peers && Bounded(n) && PacketBounded(m)
    requires m.body.Update? && m.hdr.sender in n.peers ==> Trusted(n, m.hdr)
    ensures var (n', out) := Receive(n, m, now, nodeTimeout);
            && Forward(n, n') && Bounded(n') && n.me in n'.peers
            && SamePeers(n, n')
            && forall p :: p in out ==> PacketBounded(p) && p.hdr.sender == n.me
  {
    hide ProcessPing, ProcessAuthRequest, ProcessAck, Bounded, BuildHeader;
    if m.body.Update? && m.hdr.sender !in n.peers {
      assert ProcessUpdate(n, m.hdr, m.body.about, m.body.configEpoch, m.body.slots) == n;
    } else {
      hide ProcessUpdate;
    }
  }

  lemma DeliverBounded(s: System, m: Msg, now: int, nodeTimeout: nat, again: bool)
    requires EpochInv(s) && Enabled(s, Deliver(m, now, nodeTimeout, again))
    ensures EpochInv(Step(s, Deliver(m, now, nodeTimeout, again)))
  {
    ReceiveBounded(s.nodes[m.dst], m, now, nodeTimeout);
    hide Receive, Bounded, GrantedVotes, CountsVote;
    var (n', out) := Receive(s.nodes[m.dst], m, now, nodeTimeout);
    StillStrangers(s.nodes[m.dst], n', s.nodes.Keys);
    OneBounded(s, Step(s, Deliver(m, now, nodeTimeout, again)), m.dst, n', out);
  }

  lemma FailoverBounded(s: System, id: NodeId, env: FailoverEnv)
    requires EpochInv(s) && Enabled(s, Failover(id, env))
    ensures EpochInv(Step(s, Failover(id, env)))
  {
    hide HandleSlaveFailover, Bounded, BuildHeader;
    var (n', outcome) := HandleSlaveFailover(s.nodes[id], env);
    var s' := Step(s, Failover(id, env));
    StillStrangers(s.nodes[id], n', s.nodes.Keys);
    OneBounded(s, s', id, n', s'.msgs - s.msgs);
  }

  lemma StepBounded(s: System, a: Action)
    requires EpochInv(s) && Enabled(s, a)
    ensures EpochInv(Step(s, a))
  {
    match a
    case Deliver(m, now, nodeTimeout, again) => DeliverBounded(s, m, now, nodeTimeout, again);
    case Failover(id, env) => FailoverBounded(s, id, env);
    case SendPing(src, dst) => hide Bounded, Strangers;
    case Drop(m) => hide Bounded, Strangers, PacketBounded;
    case _ => LocalBounded(s, a);
  }

  lemma LocalBounded(s: System, a: Action)
    requires EpochInv(s) && Enabled(s, a) && !(a.Deliver? || a.Failover? || a.SendPing? || a.Drop?)
    ensures EpochInv(Step(s, a))
  {
    hide Local, Bounded, PacketBounded;
    var n := Local(s.nodes[a.id], a);
    assert Strangers(n, s.nodes.Keys);
    hide Strangers;
    OneBounded(s, Step(s, a), a.id, n, {});
  }

  lemma OneBounded(s: System, s': System, id: NodeId, n: Node, out: set<Msg>)
    requires EpochInv(s) && id in s.nodes
    requires Forward(s.nodes[id], n) && Bounded(n) && id in n.peers && Strangers(n, s.nodes.Keys)
    requires forall m :: m in out ==> PacketBounded(m) && m.hdr.sender in s.nodes
    requires s'.nodes == s.nodes[id := n] && s'.msgs <= s.msgs + out && s'.counted.Keys == s.counted.Keys
    ensures EpochInv(s')
  {
    hide Bounded, PacketBounded, Strangers;
    assert s'.nodes.Keys == s.nodes.Keys;
    forall k | k in s'.nodes
      ensures s'.nodes[k].me == k && k in s'.nodes[k].peers && Bounded(s'.nodes[k]) && Strangers(s'.nodes[k], s'.nodes.Keys)
    {
      if k != id { assert s'.nodes[k] == s.nodes[k]; }
    }
  }

  lemma InitialBounded(s: System)
    requires Initial(s)
    ensures EpochInv(s)
  {
  }

  /** The bound holds in every reachable state of all nodes and all packets in flight. */
  lemma {:induction false} EpochBound(states: seq<System>, actions: seq<Action>, i: nat)
    requires IsRun(states, actions) && Initial(states[0]) && i < |states|
    ensures EpochInv(states[i])
  {
    hide Steps, EpochInv, Initial;
    if i == 0 {
      InitialBounded(states[0]);
    } else {
      EpochBound(states, actions, i - 1);
      assert Steps(states[i - 1], actions[i - 1], states[i - 1 + 1]);
      StepsBounded(states[i - 1], actions[i - 1], states[i]);
    }
  }

  lemma StepsBounded(s: System, a: Action, s': System)
    requires EpochInv(s) && Steps(s, a, s')
    ensures EpochInv(s')
  {
    StepBounded(s, a);
  }

  /** A node that takes a new epoch on its own, be it by a bump, by resolving a collision or by
      starting an election, takes one above every configEpoch it knows of. */
  lemma FreshEpochs(states: seq<System>, actions: seq<Action>, i: nat, id: NodeId, sender: NodeId,
                    maxEpoch: nat, env: FailoverEnv)
    requires IsRun(states, actions) && Initial(states[0]) && i < |states|
    requires id in states[i].nodes
    ensures EpochInv(states[i])
    ensures var n := states[i].nodes[id];
            && (forall k :: k in n.peers && HandleConfigEpochCollision(n, sender) != n ==>
                  n.peers[k].configEpoch < HandleConfigEpochCollision(n, sender).peers[id].configEpoch)
            && (IsMaxEpoch(n, maxEpoch) && BumpConfigEpoch(n, maxEpoch) != n ==>
                  forall k :: k in n.peers ==>
                    n.peers[k].configEpoch < BumpConfigEpoch(n, maxEpoch).peers[id].configEpoch)
            && (OutcomeOf(n, env).Requested? ==>
                  forall k :: k in n.peers ==>
                    n.peers[k].configEpoch < HandleSlaveFailover(n, env).0.authEpoch)
  {
    EpochBound(states, actions, i);
    hide HandleSlaveFailover;
  }
}
