/** Election safety needs its hypothesis on late votes: a run in which every winner and voter
    agree on the electorate, and still two replicas win the same epoch.

    Replica 1 asks for votes in epoch 1 and the only voting master, node 0, grants its vote.
    The attempt times out and the tally is cleared before the vote arrives; the attempt's epoch
    is not cleared, so the late vote is counted, and then stands for the next attempt. */
module ClusterLateAck {
  import opened Options
  import opened ClusterNode
  import opened ClusterElection

  /** A view of the three-node cluster in which node 0 serves slot 0 and 1 and 2 replicate it. */
  function View(me: NodeId, epoch: nat, lastVote: nat, voted: int, authTime: int, authEpoch: nat,
                authCount: nat, authSent: bool): (n: Node)
    ensures n.me == me && n.owner == map[0 := 0] && Bitmap(n, 0) == {0} && n.peers.Keys == {0, 1, 2}
  {
    var replica := Peer(Slave, Some(0), 0, false, false, 0);
    Node(me, epoch, lastVote, map[0 := Peer(Master, None, 0, false, false, voted), 1 := replica, 2 := replica],
         map[0 := 0], {}, 1, authTime, authEpoch, authCount, authSent, 0)
  }

  /** A manual failover with the default node timeout of 15 seconds. */
  function At(now: int): FailoverEnv {
    FailoverEnv(now, 15000, true, true, false, false, 0, 0)
  }

  function Start(): System {
    System(map[0 := View(0, 0, 0, 0, 0, 0, 0, false),
               1 := View(1, 0, 0, 0, 0, 0, 0, false),
               2 := View(2, 0, 0, 0, 0, 0, 0, false)],
           {}, {}, map[0 := {}, 1 := {}, 2 := {}], {})
  }

  lemma Unused(me: NodeId)
    ensures var n := View(me, 0, 0, 0, 0, 0, 0, false);
            Bounded(n) && n.authEpoch == 0 && n.authCount == 0 && !n.authSent && forall names :: Strangers(n, names)
  {
  }

  lemma StartInitial()
    ensures Initial(Start())
  {
    Unused(0); Unused(1); Unused(2);
    hide View, Bounded, Strangers;
  }

  // What each handler does to these views.

  lemma Schedules(me: NodeId, epoch: nat, authTime: int, authEpoch: nat, authCount: nat, authSent: bool, now: int)
    requires me == 1 || me == 2
    requires now - authTime > 60000
    ensures HandleSlaveFailover(View(me, epoch, 0, 0, authTime, authEpoch, authCount, authSent), At(now))
         == (View(me, epoch, 0, 0, now, authEpoch, 0, false), Scheduled)
  {
  }

  lemma Requests(me: NodeId, epoch: nat, authEpoch: nat, authCount: nat, now: int)
    requires me == 1 || me == 2
    ensures HandleSlaveFailover(View(me, epoch, 0, 0, now, authEpoch, authCount, false), At(now))
         == (View(me, epoch + 1, 0, 0, now, epoch + 1, authCount, true), Requested)
  {
  }

  lemma Wins(me: NodeId, epoch: nat, authEpoch: nat, authCount: nat, now: int)
    requires (me == 1 || me == 2) && authCount >= 1
    ensures HandleSlaveFailover(View(me, epoch, 0, 0, now, authEpoch, authCount, true), At(now)).1 == Won
  {
  }

  function RequestFrom(me: NodeId, epoch: nat, dst: NodeId): Msg {
    Msg(dst, Header(me, epoch, 0, {0}, Some(0)), AuthRequest(true))
  }

  function AckTo(dst: NodeId, epoch: nat): Msg {
    Msg(dst, Header(0, epoch, 0, {0}, None), AuthAck)
  }

  lemma Sends(me: NodeId, epoch: nat, authTime: int, authCount: nat)
    requires me == 1 || me == 2
    ensures (var n := View(me, epoch, 0, 0, authTime, epoch, authCount, true);
             BroadcastTo(n, BuildHeader(n), AuthRequest(true)))
            == {RequestFrom(me, epoch, 0), RequestFrom(me, epoch, 3 - me)}
  {
    var n := View(me, epoch, 0, 0, authTime, epoch, authCount, true);
    assert BuildHeader(n) == Header(me, epoch, 0, {0}, Some(0));
    assert n.peers.Keys == {0, 1, 2};
    var out := BroadcastTo(n, BuildHeader(n), AuthRequest(true));
    assert RequestFrom(me, epoch, 0) in out && RequestFrom(me, epoch, 3 - me) in out by {
      assert 0 in n.peers && 3 - me in n.peers;
    }
  }

  lemma Votes(epoch: nat, lastVote: nat, voted: int, candidate: NodeId, request: nat, now: int)
    requires candidate == 1 || candidate == 2
    requires epoch <= request && lastVote < request && now - voted >= 30000
    ensures var n := View(0, epoch, lastVote, voted, 0, 0, 0, false);
            var n' := View(0, request, request, now, 0, 0, 0, false);
            && ProcessAuthRequest(n, RequestFrom(candidate, request, 0).hdr, true, now, 15000) == (n', true)
            && BuildHeader(n') == AckTo(candidate, request).hdr
  {
    var n := View(0, epoch, lastVote, voted, 0, 0, 0, false);
    var h := RequestFrom(candidate, request, 0).hdr;
    var n1 := NoteEpochs(n, h);
    assert n1 == View(0, request, lastVote, voted, 0, 0, 0, false);
    assert 0 in Bitmap(n1, 0);
    assert MayVote(n1, h, true, now, 15000);
    assert CastVote(n1, candidate, now).peers == View(0, request, request, now, 0, 0, 0, false).peers;
  }

  lemma Ignores(request: nat, now: int)
    ensures ProcessAuthRequest(View(2, 0, 0, 0, 0, 0, 0, false), RequestFrom(1, request, 2).hdr, true, now, 15000)
         == (View(2, request, 0, 0, 0, 0, 0, false), false)
  {
    assert NoteEpochs(View(2, 0, 0, 0, 0, 0, 0, false), RequestFrom(1, request, 2).hdr)
        == View(2, request, 0, 0, 0, 0, 0, false);
  }

  lemma Counts(me: NodeId, epoch: nat, authTime: int, authCount: nat, authSent: bool)
    requires me == 1 || me == 2
    ensures var n := View(me, epoch, 0, 0, authTime, epoch, authCount, authSent);
            && CountsAck(n, AckTo(me, epoch).hdr)
            && ProcessAck(n, AckTo(me, epoch).hdr) == View(me, epoch, 0, 0, authTime, epoch, authCount + 1, authSent)
  {
    var n := View(me, epoch, 0, 0, authTime, epoch, authCount, authSent);
    assert 0 in Bitmap(n, 0);
    assert NoteEpochs(n, AckTo(me, epoch).hdr) == n;
  }

  // ---------------------------------------------------------------- the run

  function OnlyZero(): Electorate {
    epoch => {0}
  }

  predicate Agreeing(states: seq<System>, actions: seq<Action>) {
    && IsRun(states, actions)
    && Initial(states[0])
    && forall i :: 0 <= i < |actions| ==> Agreed(states[i], actions[i], OnlyZero())
  }

  lemma Extend(states: seq<System>, actions: seq<Action>, s: System, a: Action)
    returns (states': seq<System>, actions': seq<Action>, s': System)
    requires Agreeing(states, actions) && s == states[|actions|]
    requires ElectionInv(s) && Enabled(s, a) && Agreed(s, a, OnlyZero())
    ensures Agreeing(states', actions') && s' == states'[|actions'|]
    ensures s' == Step(s, a) && ElectionInv(s')
  {
    StepInv(s, a);
    Links(s, a);
    hide ElectionInv, Enabled, Agreed, Agreeing, Step, Steps;
    s' := Step(s, a);
    states', actions' := states + [s'], actions + [a];
    ExtendRun(states, actions, s, a, s');
  }

  lemma {:induction false} ExtendRun(states: seq<System>, actions: seq<Action>, s: System, a: Action, s': System)
    requires Agreeing(states, actions) && s == states[|actions|]
    requires Steps(s, a, s') && Agreed(s, a, OnlyZero())
    ensures Agreeing(states + [s'], actions + [a])
  {
    hide Steps, Agreed, Initial;
    var states', actions' := states + [s'], actions + [a];
    forall i | 0 <= i < |actions'|
      ensures Steps(states'[i], actions'[i], states'[i + 1]) && Agreed(states'[i], actions'[i], OnlyZero())
    {
      if i < |actions| {
        assert Steps(states[i], actions[i], states[i + 1]);
      }
    }
  }

  lemma Links(s: System, a: Action)
    requires Shaped(s) && Enabled(s, a)
    ensures Steps(s, a, Step(s, a))
  {
    hide Enabled, Step, Shaped;
  }

  /** One step of replica `id`'s failover, seen from the outside. */
  lemma FailoverStep(s: System, id: NodeId, env: FailoverEnv, n': Node, o: FailoverOutcome)
    requires Shaped(s) && id in s.nodes && HandleSlaveFailover(s.nodes[id], env) == (n', o)
    requires o.Won? ==> s.nodes[id].size == 1
    ensures Enabled(s, Failover(id, env)) && Agreed(s, Failover(id, env), OnlyZero())
    ensures var s' := Step(s, Failover(id, env));
            && s'.nodes == s.nodes[id := n'] && s.msgs <= s'.msgs
            && (o.Requested? ==> BroadcastTo(n', BuildHeader(n'), AuthRequest(env.mfEnd)) <= s'.msgs)
            && s'.wins == s.wins + (if o.Won? then {Win(id, s.nodes[id].authEpoch)} else {})
  {
    hide HandleSlaveFailover, BroadcastTo, BuildHeader;
  }

  lemma RequestStep(s: System, m: Msg, now: int, n': Node, granted: bool)
    requires Shaped(s) && m in s.msgs && m.dst in s.nodes && m.body == AuthRequest(true)
    requires ProcessAuthRequest(s.nodes[m.dst], m.hdr, true, now, 15000) == (n', granted)
    ensures var a := Deliver(m, now, 15000, true);
            && Enabled(s, a) && Agreed(s, a, OnlyZero())
            && var s' := Step(s, a);
            && s'.nodes == s.nodes[m.dst := n'] && s.msgs <= s'.msgs && s'.wins == s.wins
            && (granted ==> Msg(m.hdr.sender, BuildHeader(n'), AuthAck) in s'.msgs)
  {
    hide ProcessAuthRequest, BuildHeader;
  }

  lemma AckStep(s: System, m: Msg, now: int, n': Node)
    requires Shaped(s) && m in s.msgs && m.dst in s.nodes && m.body.AuthAck? && m.hdr.sender == 0
    requires ProcessAck(s.nodes[m.dst], m.hdr) == n'
    ensures var a := Deliver(m, now, 15000, false);
            && Enabled(s, a) && Agreed(s, a, OnlyZero())
            && var s' := Step(s, a);
            && s'.nodes == s.nodes[m.dst := n'] && s'.wins == s.wins && s.msgs - {m} <= s'.msgs
  {
    hide ProcessAck, CountsAck;
  }

  lemma StartRun()
    ensures Agreeing([Start()], [])
  {
    hide Start, Initial;
    StartInitial();
  }

  /** A run that ends in `s`, where the nodes are as given. */
  datatype Trace = Trace(states: seq<System>, actions: seq<Action>, s: System)

  function Three(n0: Node, n1: Node, n2: Node): map<NodeId, Node> {
    map[0 := n0, 1 := n1, 2 := n2]
  }

  lemma ThreeUpdates(n0: Node, n1: Node, n2: Node, x: Node)
    ensures Three(n0, n1, n2)[0 := x] == Three(x, n1, n2)
    ensures Three(n0, n1, n2)[1 := x] == Three(n0, x, n2)
    ensures Three(n0, n1, n2)[2 := x] == Three(n0, n1, x)
  {
  }

  predicate Stage(t: Trace, nodes: map<NodeId, Node>) {
    && Agreeing(t.states, t.actions) && t.s == t.states[|t.actions|]
    && ElectionInv(t.s) && t.s.nodes == nodes
  }

  lemma Begin() returns (t: Trace)
    ensures Stage(t, Three(View(0, 0, 0, 0, 0, 0, 0, false), View(1, 0, 0, 0, 0, 0, 0, false),
                           View(2, 0, 0, 0, 0, 0, 0, false)))
    ensures t.s.wins == {}
  {
    hide View, ElectionInv, Agreeing, Initial;
    StartInitial();
    InitialInv(Start());
    StartRun();
    t := Trace([Start()], [], Start());
  }

  lemma Go(t: Trace, nodes: map<NodeId, Node>, a: Action) returns (t': Trace)
    requires Stage(t, nodes) && Enabled(t.s, a) && Agreed(t.s, a, OnlyZero())
    ensures t'.s == Step(t.s, a) && Stage(t', t'.s.nodes)
  {
    hide Enabled, Agreed, Agreeing, ElectionInv, Step;
    var states, actions, s := Extend(t.states, t.actions, t.s, a);
    t' := Trace(states, actions, s);
  }

  lemma StageShaped(t: Trace, nodes: map<NodeId, Node>)
    requires Stage(t, nodes)
    ensures Shaped(t.s) && t.s.nodes == nodes
  {
  }

  lemma GoFailover(t: Trace, nodes: map<NodeId, Node>, id: NodeId, env: FailoverEnv, n': Node, o: FailoverOutcome)
    returns (t': Trace)
    requires Stage(t, nodes) && id in nodes && nodes[id].me in nodes[id].peers
    requires HandleSlaveFailover(nodes[id], env) == (n', o)
    requires o.Won? ==> nodes[id].size == 1
    ensures Stage(t', nodes[id := n'])
    ensures t.s.msgs <= t'.s.msgs
    ensures o.Requested? ==> BroadcastTo(n', BuildHeader(n'), AuthRequest(env.mfEnd)) <= t'.s.msgs
    ensures t'.s.wins == t.s.wins + (if o.Won? then {Win(id, nodes[id].authEpoch)} else {})
  {
    StageShaped(t, nodes);
    hide HandleSlaveFailover, Agreed, Enabled, Stage, BroadcastTo, Step;
    FailoverStep(t.s, id, env, n', o);
    t' := Go(t, nodes, Failover(id, env));
  }

  lemma GoRequest(t: Trace, nodes: map<NodeId, Node>, m: Msg, now: int, n': Node, granted: bool) returns (t': Trace)
    requires Stage(t, nodes) && m.dst in nodes && m in t.s.msgs && m.body == AuthRequest(true)
    requires ProcessAuthRequest(nodes[m.dst], m.hdr, true, now, 15000) == (n', granted)
    ensures Stage(t', nodes[m.dst := n'])
    ensures t.s.msgs <= t'.s.msgs && t'.s.wins == t.s.wins
    ensures granted ==> Msg(m.hdr.sender, BuildHeader(n'), AuthAck) in t'.s.msgs
  {
    StageShaped(t, nodes);
    hide ProcessAuthRequest, Agreed, Enabled, Stage, BuildHeader, Step;
    RequestStep(t.s, m, now, n', granted);
    t' := Go(t, nodes, Deliver(m, now, 15000, true));
  }

  lemma GoAck(t: Trace, nodes: map<NodeId, Node>, m: Msg, now: int, n': Node) returns (t': Trace)
    requires Stage(t, nodes) && m.dst in nodes && m in t.s.msgs
    requires m.body.AuthAck? && m.hdr.sender == 0 && ProcessAck(nodes[m.dst], m.hdr) == n'
    ensures Stage(t', nodes[m.dst := n'])
    ensures t'.s.wins == t.s.wins
  {
    StageShaped(t, nodes);
    hide ProcessAck, Agreed, Enabled, Stage, Step;
    AckStep(t.s, m, now, n');
    t' := Go(t, nodes, Deliver(m, now, 15000, false));
  }

  /** Replica `me` schedules an attempt and asks for votes. */
  lemma AskForVotes(t: Trace, nodes: map<NodeId, Node>, me: NodeId, epoch: nat, now: int) returns (t': Trace)
    requires Stage(t, nodes) && now > 60000 && (me == 1 || me == 2)
    requires me in nodes && nodes[me] == View(me, epoch, 0, 0, 0, 0, 0, false)
    ensures Stage(t', nodes[me := View(me, epoch + 1, 0, 0, now, epoch + 1, 0, true)])
    ensures RequestFrom(me, epoch + 1, 0) in t'.s.msgs && RequestFrom(me, epoch + 1, 3 - me) in t'.s.msgs
    ensures t'.s.wins == t.s.wins
  {
    hide HandleSlaveFailover, Stage, View, BroadcastTo;
    var n1, n2 := View(me, epoch, 0, 0, now, 0, 0, false), View(me, epoch + 1, 0, 0, now, epoch + 1, 0, true);
    Schedules(me, epoch, 0, 0, 0, false, now);
    t' := GoFailover(t, nodes, me, At(now), n1, Scheduled);
    Requests(me, epoch, 0, 0, now);
    Sends(me, epoch + 1, now, 0);
    t' := GoFailover(t', nodes[me := n1], me, At(now), n2, Requested);
    assert nodes[me := n1][me := n2] == nodes[me := n2];
  }

  /** Replica 1 ends up with a stale vote in a cleared tally; replica 2 has heard of epoch 1. */
  lemma StaleVote() returns (t: Trace)
    ensures Stage(t, Three(View(0, 1, 1, 100000, 0, 0, 0, false), View(1, 1, 0, 0, 200000, 1, 1, false),
                           View(2, 1, 0, 0, 0, 0, 0, false)))
    ensures t.s.wins == {}
  {
    hide HandleSlaveFailover, ProcessAuthRequest, ProcessAck, Stage, View, BuildHeader;
    var n0, n1, n2 := View(0, 0, 0, 0, 0, 0, 0, false), View(1, 0, 0, 0, 0, 0, 0, false), View(2, 0, 0, 0, 0, 0, 0, false);
    t := Begin();
    t := AskForVotes(t, Three(n0, n1, n2), 1, 0, 100000);
    var v1 := View(1, 1, 0, 0, 100000, 1, 0, true);
    ThreeUpdates(n0, n1, n2, v1);
    // node 0 votes, replica 2 only takes note of the epoch
    Votes(0, 0, 0, 1, 1, 100000);
    var v0 := View(0, 1, 1, 100000, 0, 0, 0, false);
    t := GoRequest(t, Three(n0, v1, n2), RequestFrom(1, 1, 0), 100000, v0, true);
    ThreeUpdates(n0, v1, n2, v0);
    Ignores(1, 100000);
    var v2 := View(2, 1, 0, 0, 0, 0, 0, false);
    t := GoRequest(t, Three(v0, v1, n2), RequestFrom(1, 1, 2), 100000, v2, false);
    ThreeUpdates(v0, v1, n2, v2);
    t := LateVote(t, v0, v2);
  }

  /** The attempt times out and the tally is cleared, then the vote arrives. */
  lemma LateVote(t: Trace, n0: Node, n2: Node) returns (t': Trace)
    requires Stage(t, Three(n0, View(1, 1, 0, 0, 100000, 1, 0, true), n2)) && AckTo(1, 1) in t.s.msgs
    ensures Stage(t', Three(n0, View(1, 1, 0, 0, 200000, 1, 1, false), n2)) && t'.s.wins == t.s.wins
  {
    hide HandleSlaveFailover, ProcessAck, Stage, View;
    var n1, v1, w1 := View(1, 1, 0, 0, 100000, 1, 0, true), View(1, 1, 0, 0, 200000, 1, 0, false),
                      View(1, 1, 0, 0, 200000, 1, 1, false);
    Schedules(1, 1, 100000, 1, 0, true, 200000);
    t' := GoFailover(t, Three(n0, n1, n2), 1, At(200000), v1, Scheduled);
    ThreeUpdates(n0, n1, n2, v1);
    Counts(1, 1, 200000, 0, false);
    t' := GoAck(t', Three(n0, v1, n2), AckTo(1, 1), 200000, w1);
    ThreeUpdates(n0, v1, n2, w1);
  }

  /** Both replicas win epoch 2, although the electorate was agreed on throughout. */
  lemma LateAckBreaksSafety() returns (t: Trace)
    ensures Agreeing(t.states, t.actions) && t.s == t.states[|t.actions|]
    ensures Win(1, 2) in t.s.wins && Win(2, 2) in t.s.wins
  {
    hide HandleSlaveFailover, ProcessAuthRequest, ProcessAck, Stage, View, BuildHeader;
    var n0, n1, n2 := View(0, 1, 1, 100000, 0, 0, 0, false), View(1, 1, 0, 0, 200000, 1, 1, false),
                      View(2, 1, 0, 0, 0, 0, 0, false);
    t := StaleVote();
    t := AskForVotes(t, Three(n0, n1, n2), 2, 1, 200000);
    var v2 := View(2, 2, 0, 0, 200000, 2, 0, true);
    ThreeUpdates(n0, n1, n2, v2);
    t := SecondVote(t, n1);
    t := BothWin(t, View(0, 2, 2, 200000, 0, 0, 0, false));
  }

  /** Replica 2 gets a vote of epoch 2. */
  lemma SecondVote(t: Trace, n1: Node) returns (t': Trace)
    requires n1 == View(1, 1, 0, 0, 200000, 1, 1, false)
    requires Stage(t, Three(View(0, 1, 1, 100000, 0, 0, 0, false), n1, View(2, 2, 0, 0, 200000, 2, 0, true)))
    requires RequestFrom(2, 2, 0) in t.s.msgs
    ensures Stage(t', Three(View(0, 2, 2, 200000, 0, 0, 0, false), n1, View(2, 2, 0, 0, 200000, 2, 1, true)))
  {
    hide HandleSlaveFailover, ProcessAuthRequest, ProcessAck, Stage, View, BuildHeader;
    var n0, v0 := View(0, 1, 1, 100000, 0, 0, 0, false), View(0, 2, 2, 200000, 0, 0, 0, false);
    var v2, w2 := View(2, 2, 0, 0, 200000, 2, 0, true), View(2, 2, 0, 0, 200000, 2, 1, true);
    Votes(1, 1, 100000, 2, 2, 200000);
    t' := GoRequest(t, Three(n0, n1, v2), RequestFrom(2, 2, 0), 200000, v0, true);
    ThreeUpdates(n0, n1, v2, v0);
    Counts(2, 2, 200000, 0, true);
    t' := GoAck(t', Three(v0, n1, v2), AckTo(2, 2), 200000, w2);
    ThreeUpdates(v0, n1, v2, w2);
  }

  /** Replica 2 wins with its vote of epoch 2, replica 1 with its vote of epoch 1. */
  lemma BothWin(t: Trace, n0: Node) returns (t': Trace)
    requires Stage(t, Three(n0, View(1, 1, 0, 0, 200000, 1, 1, false), View(2, 2, 0, 0, 200000, 2, 1, true)))
    ensures Agreeing(t'.states, t'.actions) && t'.s == t'.states[|t'.actions|]
    ensures Win(1, 2) in t'.s.wins && Win(2, 2) in t'.s.wins
  {
    var n1, n2 := View(1, 1, 0, 0, 200000, 1, 1, false), View(2, 2, 0, 0, 200000, 2, 1, true);
    var v1 := View(1, 2, 0, 0, 200000, 2, 1, true);
    Wins(2, 2, 2, 1, 200000);
    Requests(1, 1, 1, 1, 200000);
    Wins(1, 2, 2, 1, 200000);
    hide HandleSlaveFailover, Agreeing, ElectionInv;
    var w1, w2 := HandleSlaveFailover(v1, At(200000)).0, HandleSlaveFailover(n2, At(200000)).0;
    t' := GoFailover(t, Three(n0, n1, n2), 2, At(200000), w2, Won);
    ThreeUpdates(n0, n1, n2, w2);
    t' := GoFailover(t', Three(n0, n1, w2), 1, At(200000), v1, Requested);
    ThreeUpdates(n0, n1, w2, v1);
    t' := GoFailover(t', Three(n0, v1, w2), 1, At(200000), w1, Won);
  }
}
