/** An automatic failover works out: whenever the master of a replica has failed and a majority of
    masters is willing to vote, there is a run in which the replica wins and takes over its slots. */
module ClusterFailover {
  import opened Options
  import opened ClusterNode
  import opened ClusterElection

  /** Nothing done by hand, the data recent, no other replica ahead. */
  function Automatic(now: int, nodeTimeout: nat): FailoverEnv {
    FailoverEnv(now, nodeTimeout, false, false, false, false, 0, 0)
  }

  // ------------------------------------------------------------------------------- runs

  ghost predicate Reaches(states: seq<System>, actions: seq<Action>, first: System, last: System) {
    IsRun(states, actions) && states[0] == first && states[|actions|] == last && ElectionInv(last)
  }

  lemma Here(s: System)
    requires ElectionInv(s)
    ensures Reaches([s], [], s, s)
  {
    hide ElectionInv;
  }

  lemma Onwards(states: seq<System>, actions: seq<Action>, first: System, s: System, a: Action, s': System)
    returns (states': seq<System>, actions': seq<Action>)
    requires Reaches(states, actions, first, s) && Steps(s, a, s')
    ensures Reaches(states', actions', first, s')
  {
    StepInv(s, a);
    hide ElectionInv, Steps, Shaped, Enabled, Step;
    OneMore(states, actions, s, a, s');
    states', actions' := states + [s'], actions + [a];
  }

  lemma OneMore(states: seq<System>, actions: seq<Action>, s: System, a: Action, s': System)
    requires IsRun(states, actions) && states[|actions|] == s && Steps(s, a, s')
    ensures IsRun(states + [s'], actions + [a])
  {
    hide Steps;
    var states', actions' := states + [s'], actions + [a];
    forall i | 0 <= i < |actions'| ensures Steps(states'[i], actions'[i], states'[i + 1]) {
      if i < |actions| {
        assert Steps(states[i], actions[i], states[i + 1]);
      }
    }
  }

  // ----------------------------------------------------------------------------- the voters

  /** A master with slots that has seen the failure and nothing newer than the request. */
  predicate Willing(n: Node, master: NodeId, h: Header, now: int, nodeTimeout: nat) {
    && n.me in n.peers && Trusted(n, h)
    && n.peers[n.me].role != Slave && Bitmap(n, n.me) != {}
    && n.currentEpoch <= h.currentEpoch != n.lastVoteEpoch
    && n.peers[h.sender].role != Master && n.peers[h.sender].slaveof == Some(master)
    && PeerOf(n, master).failed && now - PeerOf(n, master).votedTime >= 2 * nodeTimeout
    && forall j :: j in h.slots && j in n.owner ==> PeerOf(n, n.owner[j]).configEpoch <= h.configEpoch
  }

  lemma Grants(n: Node, master: NodeId, h: Header, now: int, nodeTimeout: nat)
    requires Willing(n, master, h, now, nodeTimeout)
    ensures var (n', granted) := ProcessAuthRequest(n, h, false, now, nodeTimeout);
            granted && BuildHeader(n').currentEpoch == h.currentEpoch && n'.me == n.me
  {
    GrantExact(n, h, false, now, nodeTimeout);
    hide MayVote, CastVote, NoteEpochs;
  }

  /** The candidate: a replica of the failed master that knows its voters as masters with slots. */
  predicate Candidate(n: Node, me: NodeId, master: NodeId, voters: set<NodeId>) {
    && n.me == me && me in n.peers && n.peers[me].role != Master && n.peers[me].slaveof == Some(master)
    && PeerOf(n, master).failed && Bitmap(n, master) != {}
    && forall v :: v in voters ==>
         v in n.peers && !n.peers[v].handshake && n.peers[v].role == Master && Bitmap(n, v) != {}
  }

  /** A vote is counted and changes nothing else that matters. */
  lemma CountsVoteOf(n: Node, me: NodeId, master: NodeId, voters: set<NodeId>, h: Header)
    requires Candidate(n, me, master, voters) && h.sender in voters && h.currentEpoch == n.authEpoch
    ensures var n' := ProcessAck(n, h);
            && CountsAck(n, h) && Candidate(n', me, master, voters)
            && n'.authCount == n.authCount + 1 && n'.authEpoch == n.authEpoch && n'.authSent == n.authSent
            && n'.authTime == n.authTime && n'.size == n.size && n'.owner == n.owner
  {
    assert n.me in n.peers;
  }

  // -------------------------------------------------------------------------- asking for votes

  lemma DeliverRequest(s: System, m: Msg, now: int, nodeTimeout: nat, n': Node)
    requires Shaped(s) && m in s.msgs && m.dst in s.nodes && m.body == AuthRequest(false)
    requires ProcessAuthRequest(s.nodes[m.dst], m.hdr, false, now, nodeTimeout) == (n', true)
    ensures var a := Deliver(m, now, nodeTimeout, true);
            && Enabled(s, a)
            && var s' := Step(s, a);
               s'.nodes == s.nodes[m.dst := n'] && s.msgs <= s'.msgs && Msg(m.hdr.sender, BuildHeader(n'), AuthAck) in s'.msgs
  {
    hide ProcessAuthRequest, BuildHeader;
  }

  lemma DeliverVote(s: System, m: Msg, now: int, nodeTimeout: nat)
    requires Shaped(s) && m in s.msgs && m.dst in s.nodes && m.body.AuthAck?
    ensures var a := Deliver(m, now, nodeTimeout, false);
            && Enabled(s, a)
            && var s' := Step(s, a);
               s'.nodes == s.nodes[m.dst := ProcessAck(s.nodes[m.dst], m.hdr)] && s.msgs - {m} <= s'.msgs
  {
    hide ProcessAck, CountsAck;
  }

  /** Everything the voters still to be asked need. */
  ghost predicate Pending(s: System, me: NodeId, master: NodeId, voters: set<NodeId>, h: Header, now: int, nodeTimeout: nat) {
    && me in s.nodes && me !in voters && Candidate(s.nodes[me], me, master, voters)
    && h.sender == me && h.currentEpoch == s.nodes[me].authEpoch
    && forall v :: v in voters ==>
         && v in s.nodes && Willing(s.nodes[v], master, h, now, nodeTimeout)
         && Msg(v, h, AuthRequest(false)) in s.msgs
  }

  /** One voter gets the request, and the candidate its vote. */
  lemma AskOne(s: System, me: NodeId, master: NodeId, voters: set<NodeId>, v: NodeId, h: Header, now: int, nodeTimeout: nat)
    returns (a: Action, s1: System, b: Action, s2: System)
    requires Shaped(s) && Pending(s, me, master, voters, h, now, nodeTimeout) && v in voters
    ensures Steps(s, a, s1) && Steps(s1, b, s2)
    ensures Pending(s2, me, master, voters - {v}, h, now, nodeTimeout) && Counted(s.nodes[me], s2.nodes[me], 1)
  {
    var m := Msg(v, h, AuthRequest(false));
    var n := s.nodes[v];
    assert Willing(n, master, h, now, nodeTimeout) && m in s.msgs && n.me == v;
    Grants(n, master, h, now, nodeTimeout);
    var n' := ProcessAuthRequest(n, h, false, now, nodeTimeout).0;
    hide Willing, ProcessAuthRequest, ProcessAck, Candidate, BuildHeader, Step, Enabled;
    a := Deliver(m, now, nodeTimeout, true);
    DeliverRequest(s, m, now, nodeTimeout, n');
    s1 := Step(s, a);
    assert Shaped(s1) by { KeepsShape(s, a); }
    var ack := Msg(me, BuildHeader(n'), AuthAck);
    assert BuildHeader(n').sender == v by { HeaderSender(n'); }
    b := Deliver(ack, now, nodeTimeout, false);
    DeliverVote(s1, ack, now, nodeTimeout);
    FewerVoters(s.nodes[me], me, master, voters, v);
    CountsVoteOf(s.nodes[me], me, master, voters, BuildHeader(n'));
    FewerVoters(ProcessAck(s.nodes[me], BuildHeader(n')), me, master, voters, v);
    s2 := Step(s1, b);
    forall u | u in voters - {v}
      ensures u in s2.nodes && Willing(s2.nodes[u], master, h, now, nodeTimeout) && Msg(u, h, AuthRequest(false)) in s2.msgs
    {
      assert s2.nodes[u] == s.nodes[u];
    }
  }

  lemma KeepsShape(s: System, a: Action)
    requires Shaped(s) && Enabled(s, a) && a.Deliver? && a.m.body.AuthRequest?
    ensures Shaped(Step(s, a))
  {
    var n := s.nodes[a.m.dst];
    assert SamePeers(n, ProcessAuthRequest(n, a.m.hdr, a.m.body.force, a.now, a.nodeTimeout).0);
    hide ProcessAuthRequest, BuildHeader;
  }

  lemma HeaderSender(n: Node)
    ensures BuildHeader(n).sender == n.me
  {
  }

  lemma FewerVoters(n: Node, me: NodeId, master: NodeId, voters: set<NodeId>, v: NodeId)
    requires Candidate(n, me, master, voters)
    ensures Candidate(n, me, master, voters - {v})
  {
  }

  /** The candidate has got `more` votes since, and is otherwise where it was. */
  predicate Counted(n: Node, n': Node, more: nat) {
    && n'.authCount == n.authCount + more && n'.authSent == n.authSent
    && n'.authTime == n.authTime && n'.size == n.size && n'.owner == n.owner
  }

  lemma PollOne(states: seq<System>, actions: seq<Action>, first: System, s: System, me: NodeId, master: NodeId,
                voters: set<NodeId>, v: NodeId, h: Header, now: int, nodeTimeout: nat)
    returns (states': seq<System>, actions': seq<Action>, s': System)
    requires Reaches(states, actions, first, s) && Pending(s, me, master, voters, h, now, nodeTimeout) && v in voters
    ensures Reaches(states', actions', first, s') && Pending(s', me, master, voters - {v}, h, now, nodeTimeout)
    ensures me in s.nodes && Counted(s.nodes[me], s'.nodes[me], 1)
  {
    ReachesShaped(states, actions, first, s);
    hide Reaches, Pending, Steps, Shaped;
    var a, s1, b;
    a, s1, b, s' := AskOne(s, me, master, voters, v, h, now, nodeTimeout);
    states', actions' := Onwards(states, actions, first, s, a, s1);
    states', actions' := Onwards(states', actions', first, s1, b, s');
    PendingKnown(s, me, master, voters, h, now, nodeTimeout);
    PendingKnown(s', me, master, voters - {v}, h, now, nodeTimeout);
  }

  lemma ReachesShaped(states: seq<System>, actions: seq<Action>, first: System, s: System)
    requires Reaches(states, actions, first, s)
    ensures Shaped(s)
  {
  }

  lemma PendingKnown(s: System, me: NodeId, master: NodeId, voters: set<NodeId>, h: Header, now: int, nodeTimeout: nat)
    requires Pending(s, me, master, voters, h, now, nodeTimeout)
    ensures me in s.nodes
  {
  }

  /** All of them are asked, and all their votes are counted. */
  lemma {:induction false} Poll(states: seq<System>, actions: seq<Action>, first: System, s: System, me: NodeId, master: NodeId,
                                voters: set<NodeId>, h: Header, now: int, nodeTimeout: nat)
    returns (states': seq<System>, actions': seq<Action>, s': System)
    requires Reaches(states, actions, first, s) && Pending(s, me, master, voters, h, now, nodeTimeout)
    ensures Reaches(states', actions', first, s') && Pending(s', me, master, {}, h, now, nodeTimeout)
    ensures me in s.nodes && me in s'.nodes && Counted(s.nodes[me], s'.nodes[me], |voters|)
    decreases |voters|
  {
    hide Reaches, Pending;
    PendingKnown(s, me, master, voters, h, now, nodeTimeout);
    if voters == {} {
      states', actions', s' := states, actions, s;
    } else {
      var v :| v in voters;
      assert |voters - {v}| == |voters| - 1;
      var s1;
      states', actions', s1 := PollOne(states, actions, first, s, me, master, voters, v, h, now, nodeTimeout);
      states', actions', s' := Poll(states', actions', first, s1, me, master, voters - {v}, h, now, nodeTimeout);
    }
  }

  // --------------------------------------------------------------------------- the whole attempt

  lemma DoesFailover(s: System, id: NodeId, env: FailoverEnv, n': Node, o: FailoverOutcome)
    requires Shaped(s) && id in s.nodes && HandleSlaveFailover(s.nodes[id], env) == (n', o)
    ensures Enabled(s, Failover(id, env)) && Steps(s, Failover(id, env), Step(s, Failover(id, env)))
    ensures var s' := Step(s, Failover(id, env));
            && s'.nodes == s.nodes[id := n']
            && (o.Requested? ==> BroadcastTo(n', BuildHeader(n'), AuthRequest(env.mfEnd)) <= s'.msgs)
            && (o.Won? ==> Win(id, s.nodes[id].authEpoch) in s'.wins)
  {
    hide HandleSlaveFailover, BroadcastTo, BuildHeader;
  }

  /** The run goes on with one call of the handler. */
  lemma FailoverOnce(states: seq<System>, actions: seq<Action>, first: System, s: System,
                     id: NodeId, env: FailoverEnv, n': Node, o: FailoverOutcome)
    returns (states': seq<System>, actions': seq<Action>, s': System)
    requires Reaches(states, actions, first, s) && id in s.nodes && id in s.nodes[id].peers && s.nodes[id].me == id
    requires HandleSlaveFailover(s.nodes[id], env) == (n', o)
    ensures Reaches(states', actions', first, s') && s'.nodes == s.nodes[id := n']
    ensures o.Requested? ==> BroadcastTo(n', BuildHeader(n'), AuthRequest(env.mfEnd)) <= s'.msgs
    ensures o.Won? ==> Win(id, s.nodes[id].authEpoch) in s'.wins
  {
    ReachesShaped(states, actions, first, s);
    hide HandleSlaveFailover, Step, Enabled, Steps, Reaches, BroadcastTo, BuildHeader, Shaped;
    DoesFailover(s, id, env, n', o);
    s' := Step(s, Failover(id, env));
    states', actions' := Onwards(states, actions, first, s, Failover(id, env), s');
  }

  /** The request the candidate will send. */
  function Request(n: Node, master: NodeId): Header {
    Header(n.me, n.currentEpoch + 1, PeerOf(n, master).configEpoch, Bitmap(n, master), Some(master))
  }

  /** A replica whose master has failed, long after its last attempt, and voters that are a majority. */
  ghost predicate CanFailover(s: System, me: NodeId, master: NodeId, voters: set<NodeId>, now: int, nodeTimeout: nat) {
    && me in s.nodes && me !in voters && master != me
    && var n := s.nodes[me];
    && Candidate(n, me, master, voters) && n.peers[me].role == Slave
    && now - n.authTime > 4 * nodeTimeout && now - n.authTime > 4000 && 2 * |voters| > n.size
    && forall v :: v in voters ==> v in s.nodes && Willing(s.nodes[v], master, Request(n, master), now + 500, nodeTimeout)
  }

  /** What the handler does to the candidate at the three points of the attempt. */
  lemma SchedulesIt(n: Node, me: NodeId, master: NodeId, now: int, nodeTimeout: nat)
    requires Candidate(n, me, master, {}) && now - n.authTime > 4 * nodeTimeout && now - n.authTime > 4000
    ensures HandleSlaveFailover(n, Automatic(now, nodeTimeout))
         == (n.(authTime := now + 500, authRank := 0, authCount := 0, authSent := false), Scheduled)
  {
    FailoverExact(n, Automatic(now, nodeTimeout));
    SomeSlot(n, master);
    hide HandleSlaveFailover, TakeOver;
  }

  lemma RequestsIt(n: Node, me: NodeId, master: NodeId, nodeTimeout: nat)
    requires Candidate(n, me, master, {}) && !n.authSent && n.authRank == 0
    ensures HandleSlaveFailover(n, Automatic(n.authTime, nodeTimeout))
         == (n.(currentEpoch := n.currentEpoch + 1, authEpoch := n.currentEpoch + 1, authSent := true), Requested)
  {
    FailoverExact(n, Automatic(n.authTime, nodeTimeout));
    SomeSlot(n, master);
    hide HandleSlaveFailover, TakeOver;
  }

  lemma WinsIt(n: Node, me: NodeId, master: NodeId, nodeTimeout: nat)
    requires Candidate(n, me, master, {}) && n.authSent && 2 * n.authCount > n.size
    ensures HandleSlaveFailover(n, Automatic(n.authTime, nodeTimeout)) == (TakeOver(n), Won)
  {
    FailoverExact(n, Automatic(n.authTime, nodeTimeout));
    SomeSlot(n, master);
    hide HandleSlaveFailover, TakeOver;
  }

  /** The attempt is scheduled, and half a second later the request goes to all the voters. */
  lemma Asks(states: seq<System>, actions: seq<Action>, first: System, s: System, me: NodeId, master: NodeId,
             voters: set<NodeId>, now: int, nodeTimeout: nat)
    returns (states': seq<System>, actions': seq<Action>, s': System)
    requires Reaches(states, actions, first, s) && CanFailover(s, me, master, voters, now, nodeTimeout)
    ensures Reaches(states', actions', first, s') && me in s.nodes && me in s'.nodes
    ensures Pending(s', me, master, voters, Request(s.nodes[me], master), now + 500, nodeTimeout)
    ensures var n, n' := s.nodes[me], s'.nodes[me];
            n' == n.(authTime := now + 500, authRank := 0, authCount := 0, authSent := true,
                     currentEpoch := n.currentEpoch + 1, authEpoch := n.currentEpoch + 1)
  {
    assert me in s.nodes;
    var n := s.nodes[me];
    var n1 := n.(authTime := now + 500, authRank := 0, authCount := 0, authSent := false);
    var n2 := n1.(currentEpoch := n.currentEpoch + 1, authEpoch := n.currentEpoch + 1, authSent := true);
    hide HandleSlaveFailover, Reaches, ElectionInv, BuildHeader, BroadcastTo, Bitmap, CanFailover, Request, Candidate, Pending;
    AttemptViews(s, n, n1, n2, me, master, voters, now, nodeTimeout);
    states', actions', s' := TwoCalls(states, actions, first, s, me, Automatic(now, nodeTimeout), n1, Automatic(now + 500, nodeTimeout), n2);
    RequestEpoch(n, master);
    PendingNow(s, s', n2, me, master, voters, Request(n, master), now, nodeTimeout);
  }

  /** The handler called twice: an attempt is scheduled, then the request goes out. */
  lemma TwoCalls(states: seq<System>, actions: seq<Action>, first: System, s: System, me: NodeId,
                 env1: FailoverEnv, n1: Node, env2: FailoverEnv, n2: Node)
    returns (states': seq<System>, actions': seq<Action>, s': System)
    requires Reaches(states, actions, first, s) && me in s.nodes && me in s.nodes[me].peers && s.nodes[me].me == n1.me == me && me in n1.peers
    requires HandleSlaveFailover(s.nodes[me], env1) == (n1, Scheduled) && HandleSlaveFailover(n1, env2) == (n2, Requested)
    ensures Reaches(states', actions', first, s') && s'.nodes == s.nodes[me := n2]
    ensures BroadcastTo(n2, BuildHeader(n2), AuthRequest(env2.mfEnd)) <= s'.msgs
  {
    hide HandleSlaveFailover, Reaches, ElectionInv, BuildHeader, BroadcastTo;
    var s1;
    states', actions', s1 := FailoverOnce(states, actions, first, s, me, env1, n1, Scheduled);
    states', actions', s' := FailoverOnce(states', actions', first, s1, me, env2, n2, Requested);
    assert s.nodes[me := n1][me := n2] == s.nodes[me := n2];
  }

  lemma AttemptViews(s: System, n: Node, n1: Node, n2: Node, me: NodeId, master: NodeId, voters: set<NodeId>, now: int, nodeTimeout: nat)
    requires CanFailover(s, me, master, voters, now, nodeTimeout) && n == s.nodes[me]
    requires n1 == n.(authTime := now + 500, authRank := 0, authCount := 0, authSent := false)
    requires n2 == n1.(currentEpoch := n.currentEpoch + 1, authEpoch := n.currentEpoch + 1, authSent := true)
    ensures n.me == n1.me == n2.me == me && me in n.peers && me in n1.peers && me in n2.peers
    ensures HandleSlaveFailover(n, Automatic(now, nodeTimeout)) == (n1, Scheduled)
    ensures HandleSlaveFailover(n1, Automatic(now + 500, nodeTimeout)) == (n2, Requested)
    ensures Candidate(n2, me, master, voters) && BuildHeader(n2) == Request(n, master)
    ensures forall v :: v in voters ==>
              Msg(v, BuildHeader(n2), AuthRequest(false)) in BroadcastTo(n2, BuildHeader(n2), AuthRequest(false))
  {
    hide HandleSlaveFailover, Willing;
    SchedulesIt(n, me, master, now, nodeTimeout);
    RequestsIt(n1, me, master, nodeTimeout);
    Announced(n2, me, master, voters);
  }

  lemma RequestEpoch(n: Node, master: NodeId)
    ensures Request(n, master).currentEpoch == n.currentEpoch + 1
  {
  }

  lemma PendingNow(s: System, s': System, n': Node, me: NodeId, master: NodeId, voters: set<NodeId>, h: Header, now: int, nodeTimeout: nat)
    requires CanFailover(s, me, master, voters, now, nodeTimeout) && s'.nodes == s.nodes[me := n']
    requires Candidate(n', me, master, voters) && h == Request(s.nodes[me], master) && h.currentEpoch == n'.authEpoch
    requires forall v :: v in voters ==> Msg(v, h, AuthRequest(false)) in s'.msgs
    ensures Pending(s', me, master, voters, h, now + 500, nodeTimeout)
  {
    assert s'.nodes[me] == n' && h.sender == me;
    hide Willing, Candidate;
    forall v | v in voters ensures v in s'.nodes && Willing(s'.nodes[v], master, h, now + 500, nodeTimeout) {
      assert s'.nodes[v] == s.nodes[v];
    }
  }

  lemma Announced(n: Node, me: NodeId, master: NodeId, voters: set<NodeId>)
    requires Candidate(n, me, master, voters) && me !in voters && n.peers[me].role == Slave
    ensures forall v :: v in voters ==> Msg(v, BuildHeader(n), AuthRequest(false)) in BroadcastTo(n, BuildHeader(n), AuthRequest(false))
  {
    hide BuildHeader;
  }

  /**
   * Any run that leads to such a state can go on so that the replica wins the election of the next
   * epoch by itself; it is then a master and holds every slot its master had.
   */
  lemma FailoverSucceeds(states: seq<System>, actions: seq<Action>, s: System, me: NodeId, master: NodeId,
                         voters: set<NodeId>, now: int, nodeTimeout: nat)
    returns (states': seq<System>, actions': seq<Action>, s': System)
    requires |states| > 0 && Reaches(states, actions, states[0], s) && CanFailover(s, me, master, voters, now, nodeTimeout)
    ensures IsRun(states', actions') && states'[0] == states[0] && states'[|actions'|] == s'
    ensures me in s'.nodes && Win(me, s.nodes[me].currentEpoch + 1) in s'.wins
    ensures var n, n' := s.nodes[me], s'.nodes[me];
            && me in n'.peers && n'.peers[me].role == Master && Bitmap(n, master) <= Bitmap(n', me)
            && n'.peers[me].configEpoch > n.currentEpoch
  {
    var n := s.nodes[me];
    var first, s2, s3 := states[0], s, s;
    states', actions', s2 := Asks(states, actions, first, s, me, master, voters, now, nodeTimeout);
    hide Reaches, Willing, HandleSlaveFailover, TakeOver;
    states', actions', s3 := Poll(states', actions', first, s2, me, master, voters, Request(n, master), now + 500, nodeTimeout);
    var n3 := s3.nodes[me];
    WinsIt(n3, me, master, nodeTimeout);
    states', actions', s' := FailoverOnce(states', actions', first, s3, me, Automatic(now + 500, nodeTimeout), TakeOver(n3), Won);
    TakeOverSlots(n3);
    ReachesRun(states', actions', first, s');
  }

  lemma ReachesRun(states: seq<System>, actions: seq<Action>, first: System, last: System)
    requires Reaches(states, actions, first, last)
    ensures IsRun(states, actions) && |states| > 0 && states[0] == first && |actions| < |states| && states[|actions|] == last
  {
  }

  // ------------------------------------------------------------------------------ an instance

  /** Three masters with a slot each, and replica 1 of master 0, as node `me` sees them. */
  function Seen(me: NodeId, failed: bool): (n: Node)
    ensures n.me == me && n.peers.Keys == {0, 1, 2, 3}
  {
    var master := Peer(Master, None, 0, false, false, 0);
    Node(me, 0, 0, map[0 := master.(failed := failed), 1 := Peer(Slave, Some(0), 0, false, false, 0), 2 := master, 3 := master],
         map[0 := 0, 1 := 2, 2 := 3], {}, 3, 0, 0, 0, false, 0)
  }

  function Cluster(n1: Node, n2: Node, n3: Node): System {
    System(map[1 := n1, 2 := n2, 3 := n3], {}, {}, map[1 := {}, 2 := {}, 3 := {}], {})
  }

  lemma ClusterUpdates(n1: Node, n2: Node, n3: Node, x: Node)
    ensures var s := Cluster(n1, n2, n3);
            && s.nodes.Keys == {1, 2, 3} && s.nodes[1] == n1 && s.nodes[2] == n2 && s.nodes[3] == n3
            && s.(nodes := s.nodes[1 := x]) == Cluster(x, n2, n3)
            && s.(nodes := s.nodes[2 := x]) == Cluster(n1, x, n3)
            && s.(nodes := s.nodes[3 := x]) == Cluster(n1, n2, x)
  {
  }

  function Before(): System { Cluster(Seen(1, false), Seen(2, false), Seen(3, false)) }

  function After(): System { Cluster(Seen(1, true), Seen(2, true), Seen(3, true)) }

  lemma Unused(me: NodeId)
    ensures var n := Seen(me, false);
            Bounded(n) && n.authEpoch == 0 && n.authCount == 0 && !n.authSent && forall names :: Strangers(n, names)
  {
  }

  lemma BeforeInitial()
    ensures Initial(Before())
  {
    Unused(1); Unused(2); Unused(3);
    hide Seen, Bounded, Strangers;
  }

  lemma Marks(me: NodeId)
    requires me in {1, 2, 3}
    ensures Local(Seen(me, false), MarkFailed(me, 0, true)) == Seen(me, true)
  {
  }

  lemma Mark(states: seq<System>, actions: seq<Action>, first: System, s: System, id: NodeId)
    returns (states': seq<System>, actions': seq<Action>)
    requires Reaches(states, actions, first, s) && id in s.nodes && s.nodes[id] == Seen(id, false) && id in {1, 2, 3}
    ensures Reaches(states', actions', first, s.(nodes := s.nodes[id := Seen(id, true)]))
  {
    ReachesShaped(states, actions, first, s);
    Marks(id);
    hide Reaches, Seen, Local;
    var a := MarkFailed(id, 0, true);
    states', actions' := Onwards(states, actions, first, s, a, Step(s, a));
  }

  /** The three that are left notice the failure. */
  lemma AllMark() returns (states: seq<System>, actions: seq<Action>)
    ensures Reaches(states, actions, Before(), After())
  {
    hide Reaches, ElectionInv, Seen, Initial, Cluster;
    BeforeInitial();
    InitialInv(Before());
    Here(Before());
    ClusterUpdates(Seen(1, false), Seen(2, false), Seen(3, false), Seen(1, true));
    states, actions := Mark([Before()], [], Before(), Before(), 1);
    ClusterUpdates(Seen(1, true), Seen(2, false), Seen(3, false), Seen(2, true));
    states, actions := Mark(states, actions, Before(), Cluster(Seen(1, true), Seen(2, false), Seen(3, false)), 2);
    ClusterUpdates(Seen(1, true), Seen(2, true), Seen(3, false), Seen(3, true));
    states, actions := Mark(states, actions, Before(), Cluster(Seen(1, true), Seen(2, true), Seen(3, false)), 3);
  }

  lemma SlotsSeen(me: NodeId)
    ensures var n := Seen(me, true); Bitmap(n, 0) == {0} && Bitmap(n, 2) == {1} && Bitmap(n, 3) == {2}
  {
    var n := Seen(me, true);
    assert 0 in Bitmap(n, 0) && 1 in Bitmap(n, 2) && 2 in Bitmap(n, 3);
  }

  lemma CandidateSeen()
    ensures var n := Seen(1, true);
            && Candidate(n, 1, 0, {2, 3}) && n.peers[1].role == Slave && n.authTime == 0 && n.size == 3 && n.currentEpoch == 0
            && Request(n, 0) == Header(1, 1, 0, {0}, Some(0))
  {
    SlotsSeen(1);
    hide Bitmap;
  }

  lemma WillingSeen(me: NodeId)
    requires me in {2, 3}
    ensures Willing(Seen(me, true), 0, Header(1, 1, 0, {0}, Some(0)), 100500, 15000)
  {
    SlotsSeen(me);
    hide Bitmap;
  }

  lemma AfterReady()
    ensures CanFailover(After(), 1, 0, {2, 3}, 100000, 15000)
  {
    hide Seen, Cluster, Willing, Candidate, Request;
    ClusterUpdates(Seen(1, true), Seen(2, true), Seen(3, true), Seen(1, true));
    CandidateSeen();
    WillingSeen(2);
    WillingSeen(3);
    assert |{2, 3}| == 2;
  }

  /** From a new cluster to the failure of a master to the victory of its replica, nothing done by hand. */
  lemma AutomaticFailover() returns (states: seq<System>, actions: seq<Action>, s: System)
    ensures IsRun(states, actions) && Initial(states[0]) && states[|actions|] == s
    ensures Win(1, 1) in s.wins && 1 in s.nodes && OwnerOf(s.nodes[1], 0) == Some(1)
  {
    hide Reaches, CanFailover, Initial, Seen, Cluster, IsRun, Candidate, Request;
    BeforeInitial();
    states, actions := AllMark();
    ReachesRun(states, actions, Before(), After());
    AfterReady();
    ClusterUpdates(Seen(1, true), Seen(2, true), Seen(3, true), Seen(1, true));
    CandidateSeen();
    SlotsSeen(1);
    states, actions, s := FailoverSucceeds(states, actions, After(), 1, 0, {2, 3}, 100000, 15000);
    assert 0 in Bitmap(s.nodes[1], 1);
  }
}
