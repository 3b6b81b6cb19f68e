/** The whole cluster as a state machine: every node, every packet in flight, and what the
    run has done so far.  Packets may be lost, reordered and, votes excepted, repeated. */
module ClusterElection {
  import opened Options
  import opened ClusterNode

  datatype Msg = Msg(dst: NodeId, hdr: Header, body: Body)

  datatype Vote = Vote(voter: NodeId, epoch: nat, candidate: NodeId)

  datatype Win = Win(winner: NodeId, epoch: nat)

  /** `votes`, `counted` and `wins` are history: every vote ever granted, the votes in each
      node's tally since it was last cleared, and every election won. */
  datatype System = System(
    nodes: map<NodeId, Node>,
    msgs: set<Msg>,
    votes: set<Vote>,
    counted: map<NodeId, set<Vote>>,
    wins: set<Win>)

  datatype Action =
    | SendPing(src: NodeId, dst: NodeId)
    | Deliver(m: Msg, now: int, nodeTimeout: nat, again: bool)
    | Drop(m: Msg)
    | Failover(id: NodeId, env: FailoverEnv)
    | Bump(id: NodeId, maxEpoch: nat)
    | SetConfigEpoch(id: NodeId, epoch: nat)
    | Refresh(id: NodeId)
    | Learn(id: NodeId, peer: NodeId, role: Role, handshake: bool)
    | EndHandshake(id: NodeId, peer: NodeId, name: NodeId, role: Role)
    | Forget(id: NodeId, peer: NodeId)
    | MarkFailed(id: NodeId, peer: NodeId, failed: bool)
    | Configure(id: NodeId, owner: map<Slot, NodeId>, importing: set<Slot>)
    | Replicate(id: NodeId, master: NodeId, empty: bool)

  // ---------------------------------------------------------------- steps

  function BroadcastTo(n: Node, h: Header, b: Body): (out: set<Msg>)
    ensures forall m :: m in out ==> m.hdr == h && m.body == b && m.dst != n.me
  {
    set k | k in n.peers && k != n.me :: Msg(k, h, b)
  }

  /** What receiving `m` does to the receiver, and the packets it sends in answer. */
  function Receive(n: Node, m: Msg, now: int, nodeTimeout: nat): (r: (Node, set<Msg>))
    requires n.me in n.peers
  {
    var h := m.hdr;
    match m.body
    case Ping =>
      var (n', update) := ProcessPing(n, h);
      var pong := Msg(h.sender, BuildHeader(NoteEpochs(n, h)), Ping);
      (n', {pong} + if update.Some? then {Msg(h.sender, update.value.0, update.value.1)} else {})
    case AuthRequest(force) =>
      var (n', granted) := ProcessAuthRequest(n, h, force, now, nodeTimeout);
      (n', if granted then {Msg(h.sender, BuildHeader(n'), AuthAck)} else {})
    case AuthAck => (ProcessAck(n, h), {})
    case Update(about, epoch, slots) => (ProcessUpdate(n, h, about, epoch, slots), {})
  }

  /** The vote this delivery grants, if any. */
  function GrantedVotes(n: Node, m: Msg, now: int, nodeTimeout: nat): (v: set<Vote>)
  {
    if !m.body.AuthRequest? then {}
    else
      var (n', granted) := ProcessAuthRequest(n, m.hdr, m.body.force, now, nodeTimeout);
      if granted then {Vote(n.me, n'.currentEpoch, m.hdr.sender)} else {}
  }

  predicate CountsVote(n: Node, m: Msg) {
    m.body.AuthAck? && CountsAck(n, m.hdr)
  }

  function VoteOf(m: Msg): Vote {
    Vote(m.hdr.sender, m.hdr.currentEpoch, m.dst)
  }

  function DoDeliver(s: System, m: Msg, now: int, nodeTimeout: nat, again: bool): System
    requires m.dst in s.nodes && m.dst in s.counted && s.nodes[m.dst].me in s.nodes[m.dst].peers
  {
    var n := s.nodes[m.dst];
    var (n', out) := Receive(n, m, now, nodeTimeout);
    s.(nodes := s.nodes[m.dst := n'],
       msgs := (if again && !m.body.AuthAck? then s.msgs else s.msgs - {m}) + out,
       votes := s.votes + GrantedVotes(n, m, now, nodeTimeout),
       counted := s.counted[m.dst := s.counted[m.dst] + if CountsVote(n, m) then {VoteOf(m)} else {}])
  }

  function DoFailover(s: System, id: NodeId, env: FailoverEnv): System
    requires id in s.nodes && id in s.counted && s.nodes[id].me in s.nodes[id].peers
  {
    var n := s.nodes[id];
    var (n', outcome) := HandleSlaveFailover(n, env);
    var out := match outcome
      case Requested => BroadcastTo(n', BuildHeader(n'), AuthRequest(env.mfEnd))
      case Won => BroadcastTo(n', BuildHeader(n'), Ping)
      case _ => {};
    s.(nodes := s.nodes[id := n'],
       msgs := s.msgs + out,
       counted := if outcome.Scheduled? then s.counted[id := {}] else s.counted,
       wins := s.wins + if outcome.Won? then {Win(id, n.authEpoch)} else {})
  }

  /** clusterDelNode: nothing refers to the peer any more. */
  function DelPeer(n: Node, peer: NodeId): Node {
    DelNodeSlots(n, peer).(
      peers := map k | k in n.peers && k != peer ::
        if n.peers[k].slaveof == Some(peer) then n.peers[k].(slaveof := None) else n.peers[k])
  }

  /** clusterRenameNode and the end of the handshake: a peer under a random name gets its own. */
  function Rename(n: Node, peer: NodeId, name: NodeId, role: Role): Node
    requires peer in n.peers && name !in n.peers
  {
    var others := map k | k in n.peers && k != peer ::
      if n.peers[k].slaveof == Some(peer) then n.peers[k].(slaveof := Some(name)) else n.peers[k];
    n.(peers := others[name := n.peers[peer].(handshake := false, role := role)],
       owner := map j | j in n.owner :: if n.owner[j] == peer then name else n.owner[j])
  }

  /** CLUSTER REPLICATE: refused for a replica as master and to a master that is not empty; a
      replica that has slots itself meets an assertion. */
  predicate MayReplicate(n: Node, master: NodeId, empty: bool) {
    && master in n.peers && master != n.me && n.peers[master].role != Slave
    && Bitmap(n, n.me) == {} && (Myself(n).role == Master ==> empty)
  }

  /** A purely local change of one node: administration, gossip, the failure detector. */
  function Local(n: Node, a: Action): (r: Node)
    requires n.me in n.peers
    requires a.Bump? ==> IsMaxEpoch(n, a.maxEpoch)
    ensures Forward(n, r) && KeepsBound(n, r) && SameElection(n, r)
    ensures n.me in r.peers
    ensures forall k :: k in r.peers && r.peers[k].handshake ==>
              (k in n.peers && n.peers[k].handshake) || (a.Learn? && a.handshake && k == a.peer)
  {
    match a
    case Bump(_, maxEpoch) => BumpConfigEpoch(n, maxEpoch)
    case SetConfigEpoch(_, epoch) =>
      if n.peers.Keys == {n.me} && n.peers[n.me].configEpoch == 0
      then n.(currentEpoch := MaxNat(n.currentEpoch, epoch),
              peers := n.peers[n.me := n.peers[n.me].(configEpoch := epoch)])
      else n
    case Refresh(_) => UpdateState(n)
    case Learn(_, peer, role, handshake) =>
      if peer in n.peers then n
      else n.(peers := n.peers[peer := Peer(role, None, 0, handshake, false, 0)])
    case EndHandshake(_, peer, name, role) =>
      if peer !in n.peers || peer == n.me || !n.peers[peer].handshake then n
      else if name in n.peers then DelPeer(n, peer)
      else Rename(n, peer, name, role)
    case Forget(_, peer) => if peer == n.me then n else DelPeer(n, peer)
    case MarkFailed(_, peer, failed) =>
      if peer in n.peers then n.(peers := n.peers[peer := n.peers[peer].(failed := failed)]) else n
    case Configure(_, owner, importing) => n.(owner := owner, importing := importing)
    case Replicate(_, master, empty) => if MayReplicate(n, master, empty) then SetMaster(n, master) else n
    case _ => n
  }

  predicate Enabled(s: System, a: Action) {
    match a
    case SendPing(src, dst) => src in s.nodes && src != dst
    case Deliver(m, _, _, _) => m in s.msgs && m.dst in s.nodes
    case Drop(m) => m in s.msgs
    case Failover(id, _) => id in s.nodes
    case Bump(id, maxEpoch) => id in s.nodes && IsMaxEpoch(s.nodes[id], maxEpoch)
    // a handshake starts under a random name, which no node bears
    case Learn(id, peer, _, handshake) => id in s.nodes && (handshake ==> peer !in s.nodes)
    case _ => a.id in s.nodes
  }

  /** The tables of a system that make its steps well defined. */
  predicate Shaped(s: System) {
    && (forall id :: id in s.nodes ==> s.nodes[id].me == id && id in s.nodes[id].peers)
    && s.counted.Keys == s.nodes.Keys
  }

  function Step(s: System, a: Action): System
    requires Shaped(s) && Enabled(s, a)
  {
    match a
    case SendPing(src, dst) => s.(msgs := s.msgs + {Msg(dst, BuildHeader(s.nodes[src]), Ping)})
    case Deliver(m, now, nodeTimeout, again) => DoDeliver(s, m, now, nodeTimeout, again)
    case Drop(m) => s.(msgs := s.msgs - {m})
    case Failover(id, env) => DoFailover(s, id, env)
    case _ => s.(nodes := s.nodes[a.id := Local(s.nodes[a.id], a)])
  }

  predicate Steps(s: System, a: Action, s': System) {
    Shaped(s) && Enabled(s, a) && s' == Step(s, a)
  }

  /** A run is the list of states it visits, one more than its actions. */
  predicate IsRun(states: seq<System>, actions: seq<Action>) {
    && |states| == |actions| + 1
    && forall i :: 0 <= i < |actions| ==> Steps(states[i], actions[i], states[i + 1])
  }

  /** Peers in handshake are filed under random names, so no packet can name one as its sender. */
  predicate Strangers(n: Node, names: set<NodeId>) {
    forall k :: k in n.peers && n.peers[k].handshake ==> k !in names
  }

  /** A newly started cluster: no votes, no packets, epochs as loaded from the configuration. */
  predicate Initial(s: System) {
    && Shaped(s)
    && s.msgs == {} && s.votes == {} && s.wins == {}
    && forall id :: id in s.nodes ==>
         && Bounded(s.nodes[id])
         && s.nodes[id].authEpoch == 0 && s.nodes[id].authCount == 0 && !s.nodes[id].authSent
         && s.counted[id] == {}
         && Strangers(s.nodes[id], s.nodes.Keys)
  }

  // ---------------------------------------------------------------- votes and tallies

  type Nodes = map<NodeId, Node>

  predicate ElectionBounded(n: Node) {
    n.lastVoteEpoch <= n.currentEpoch && n.authEpoch <= n.currentEpoch
  }

  /** Each master votes at most once per epoch, and only for a replica that asked. */
  predicate VotesOk(nodes: Nodes, votes: set<Vote>) {
    && (forall v :: v in votes ==>
          && v.voter in nodes && v.epoch <= nodes[v.voter].lastVoteEpoch
          && v.candidate in nodes && v.epoch <= nodes[v.candidate].authEpoch)
    && OnePerEpoch(votes)
  }

  predicate OnePerEpoch(votes: set<Vote>) {
    forall v, w :: v in votes && w in votes && v.voter == w.voter && v.epoch == w.epoch ==> v == w
  }

  /** Requests carry an epoch their sender has entered. */
  predicate RequestsOk(nodes: Nodes, msgs: set<Msg>) {
    forall m :: m in msgs ==>
      && m.hdr.sender in nodes
      && (m.body.AuthRequest? ==> m.hdr.currentEpoch <= nodes[m.hdr.sender].authEpoch)
  }

  /** An acknowledgement in flight stands for a granted vote that no tally holds yet. */
  predicate AckOk(m: Msg, votes: set<Vote>, counted: map<NodeId, set<Vote>>) {
    && VoteOf(m) in votes
    && (m.dst in counted ==> VoteOf(m) !in counted[m.dst])
  }

  predicate AcksOk(msgs: set<Msg>, votes: set<Vote>, counted: map<NodeId, set<Vote>>) {
    && (forall m :: m in msgs && m.body.AuthAck? ==> AckOk(m, votes, counted))
    && (forall m, m' :: m in msgs && m' in msgs && SameAck(m, m') ==> m == m')
  }

  predicate SameAck(m: Msg, m': Msg) {
    m.body.AuthAck? && m'.body.AuthAck? && VoteOf(m) == VoteOf(m')
  }

  /** failover_auth_count is the number of votes in the tally, all of them for this node. */
  predicate TallyOk(n: Node, tally: set<Vote>, votes: set<Vote>) {
    && tally <= votes
    && n.authCount == |tally|
    && forall v :: v in tally ==> v.candidate == n.me
  }

  predicate TalliesOk(nodes: Nodes, counted: map<NodeId, set<Vote>>, votes: set<Vote>) {
    && counted.Keys == nodes.Keys
    && forall id :: id in nodes ==> TallyOk(nodes[id], counted[id], votes)
  }

  predicate ElectionInv(s: System) {
    && Shaped(s)
    && (forall id :: id in s.nodes ==> ElectionBounded(s.nodes[id]))
    && VotesOk(s.nodes, s.votes)
    && RequestsOk(s.nodes, s.msgs)
    && AcksOk(s.msgs, s.votes, s.counted)
    && TalliesOk(s.nodes, s.counted, s.votes)
  }

  lemma InitialInv(s: System)
    requires Initial(s)
    ensures ElectionInv(s)
  {
  }

  /** Nodes only move forward in the epochs the invariant speaks of. */
  predicate Advances(n: Node, n': Node) {
    && Forward(n, n') && n.lastVoteEpoch <= n'.lastVoteEpoch && n.authEpoch <= n'.authEpoch
    && n.me in n'.peers
    && (ElectionBounded(n) ==> ElectionBounded(n'))
  }

  lemma OneNodeBounded(nodes: Nodes, nodes': Nodes, id: NodeId, n: Node)
    requires id in nodes && Advances(nodes[id], n) && (forall k :: k in nodes ==> ElectionBounded(nodes[k]))
    requires nodes' == nodes[id := n]
    ensures forall k :: k in nodes' ==> ElectionBounded(nodes'[k])
  {
  }

  lemma OneNodeVotes(nodes: Nodes, id: NodeId, n: Node, votes: set<Vote>)
    requires id in nodes && Advances(nodes[id], n) && VotesOk(nodes, votes)
    ensures VotesOk(nodes[id := n], votes)
  {
  }

  lemma OneNodeRequests(nodes: Nodes, id: NodeId, n: Node, msgs: set<Msg>)
    requires id in nodes && Advances(nodes[id], n) && RequestsOk(nodes, msgs)
    ensures RequestsOk(nodes[id := n], msgs)
  {
  }

  lemma OneNodeShaped(s: System, s': System, id: NodeId, n: Node)
    requires Shaped(s) && id in s.nodes && Advances(s.nodes[id], n)
    requires s'.nodes == s.nodes[id := n] && s'.counted.Keys == s.counted.Keys
    ensures Shaped(s')
  {
  }

  /** Replacing one node by a later version of itself, with the packets it sends. */
  lemma OneNode(s: System, s': System, id: NodeId, n: Node)
    requires ElectionInv(s) && id in s.nodes
    requires Advances(s.nodes[id], n)
    requires s'.nodes == s.nodes[id := n] && s'.counted.Keys == s.counted.Keys
    ensures Shaped(s')
    ensures forall k :: k in s'.nodes ==> ElectionBounded(s'.nodes[k])
    ensures VotesOk(s'.nodes, s.votes)
    ensures RequestsOk(s'.nodes, s.msgs)
  {
    hide Advances, VotesOk, RequestsOk, AcksOk, TalliesOk, ElectionBounded, Shaped;
    OneNodeShaped(s, s', id, n);
    OneNodeBounded(s.nodes, s'.nodes, id, n);
    OneNodeVotes(s.nodes, id, n, s.votes);
    OneNodeRequests(s.nodes, id, n, s.msgs);
  }

  /** Packets that take no part in an election. */
  predicate Quiet(nodes: Nodes, out: set<Msg>) {
    forall m :: m in out ==> m.hdr.sender in nodes && (m.body.Ping? || m.body.Update?)
  }

  lemma MoreQuiet(nodes: Nodes, msgs: set<Msg>, msgs': set<Msg>, out: set<Msg>, votes: set<Vote>,
                  counted: map<NodeId, set<Vote>>)
    requires RequestsOk(nodes, msgs) && AcksOk(msgs, votes, counted) && Quiet(nodes, out)
    requires msgs' <= msgs + out
    ensures RequestsOk(nodes, msgs') && AcksOk(msgs', votes, counted)
  {
  }

  /** A step that leaves votes, tallies and attempts alone keeps the invariant. */
  lemma QuietStep(s: System, s': System, id: NodeId, n: Node, out: set<Msg>)
    requires ElectionInv(s) && id in s.nodes
    requires Advances(s.nodes[id], n) && s.nodes[id].authCount == n.authCount
    requires Quiet(s.nodes, out) && s'.msgs <= s.msgs + out
    requires s'.nodes == s.nodes[id := n] && s'.votes == s.votes && s'.counted == s.counted
    ensures ElectionInv(s')
  {
    OneNode(s, s', id, n);
    MoreQuiet(s'.nodes, s.msgs, s'.msgs, out, s.votes, s.counted);
  }

  lemma SameTally(counted: map<NodeId, set<Vote>>, id: NodeId)
    requires id in counted
    ensures counted[id := counted[id] + {}] == counted
  {
    assert counted[id] + {} == counted[id];
  }

  lemma DeliverQuiet(s: System, m: Msg, now: int, nodeTimeout: nat, again: bool)
    requires ElectionInv(s) && m in s.msgs && m.dst in s.nodes
    requires m.body.Ping? || m.body.Update?
    ensures ElectionInv(DoDeliver(s, m, now, nodeTimeout, again))
  {
    hide ProcessPing, ProcessUpdate, BuildHeader, NoteEpochs, Bounded;
    hide VotesOk, RequestsOk, AcksOk, TalliesOk;
    var n := s.nodes[m.dst];
    var (n', out) := Receive(n, m, now, nodeTimeout);
    SameTally(s.counted, m.dst);
    QuietStep(s, DoDeliver(s, m, now, nodeTimeout, again), m.dst, n', out);
  }

  lemma DeliverRequest(s: System, m: Msg, now: int, nodeTimeout: nat, again: bool)
    requires ElectionInv(s) && m in s.msgs && m.dst in s.nodes && m.body.AuthRequest?
    ensures ElectionInv(DoDeliver(s, m, now, nodeTimeout, again))
  {
    hide ProcessAuthRequest, Bounded, Bitmap, VotesOk, AcksOk, TalliesOk;
    var n := s.nodes[m.dst];
    var (n', granted) := ProcessAuthRequest(n, m.hdr, m.body.force, now, nodeTimeout);
    var s' := DoDeliver(s, m, now, nodeTimeout, again);
    SameTally(s.counted, m.dst);
    if granted {
      var ack := Msg(m.hdr.sender, BuildHeader(n'), AuthAck);
      GrantVote(s, s', m.dst, n', ack);
    } else {
      QuietStep(s, s', m.dst, n', {});
    }
  }

  /** A vote cast in an epoch the voter had not voted in, with its acknowledgement. */
  lemma GrantVote(s: System, s': System, id: NodeId, n: Node, ack: Msg)
    requires ElectionInv(s) && id in s.nodes
    requires Advances(s.nodes[id], n) && n.authCount == s.nodes[id].authCount
    requires s.nodes[id].lastVoteEpoch < n.lastVoteEpoch == n.currentEpoch
    requires ack.body.AuthAck? && ack.hdr.sender == id && ack.hdr.currentEpoch == n.lastVoteEpoch
    requires ack.dst in s.nodes && n.lastVoteEpoch <= s.nodes[ack.dst].authEpoch
    requires s'.nodes == s.nodes[id := n] && s'.counted == s.counted
    requires s'.votes == s.votes + {VoteOf(ack)} && s'.msgs <= s.msgs + {ack}
    ensures ElectionInv(s')
  {
    OneNode(s, s', id, n);
    FreshVote(s'.nodes, s.votes, VoteOf(ack), s.nodes[id].lastVoteEpoch);
    hide AcksOk, RequestsOk, VotesOk, TalliesOk, ElectionBounded;
    SameTallies(s.nodes, id, n, s.counted, s.votes, s'.votes);
    NotCounted(s.nodes, s.counted, s.votes, VoteOf(ack));
    FreshAck(s.msgs, s'.msgs, ack, s.votes, s.counted);
    MoreRequests(s'.nodes, s.msgs, s'.msgs, {ack});
  }

  lemma NotCounted(nodes: Nodes, counted: map<NodeId, set<Vote>>, votes: set<Vote>, v: Vote)
    requires TalliesOk(nodes, counted, votes) && v !in votes
    ensures forall k :: k in counted ==> v !in counted[k]
  {
    forall k | k in counted ensures v !in counted[k] { assert TallyOk(nodes[k], counted[k], votes); }
  }

  lemma SameTallies(nodes: Nodes, id: NodeId, n: Node, counted: map<NodeId, set<Vote>>,
                    votes: set<Vote>, votes': set<Vote>)
    requires TalliesOk(nodes, counted, votes) && id in nodes && votes <= votes'
    requires n.me == nodes[id].me && n.authCount == nodes[id].authCount
    ensures TalliesOk(nodes[id := n], counted, votes')
  {
    forall k | k in nodes ensures TallyOk(nodes[id := n][k], counted[k], votes') {
      assert TallyOk(nodes[k], counted[k], votes);
    }
  }

  lemma NewTally(nodes: Nodes, id: NodeId, n: Node, counted: map<NodeId, set<Vote>>, tally: set<Vote>,
                 votes: set<Vote>)
    requires TalliesOk(nodes, counted, votes) && id in nodes
    requires TallyOk(n, tally, votes)
    ensures TalliesOk(nodes[id := n], counted[id := tally], votes)
  {
    forall k | k in nodes ensures TallyOk(nodes[id := n][k], counted[id := tally][k], votes) {
      assert TallyOk(nodes[k], counted[k], votes);
    }
  }

  lemma MoreRequests(nodes: Nodes, msgs: set<Msg>, msgs': set<Msg>, out: set<Msg>)
    requires RequestsOk(nodes, msgs) && RequestsOk(nodes, out) && msgs' <= msgs + out
    ensures RequestsOk(nodes, msgs')
  {
  }

  lemma FreshVote(nodes: Nodes, votes: set<Vote>, v: Vote, last: nat)
    requires VotesOk(nodes, votes)
    requires forall w :: w in votes && w.voter == v.voter ==> w.epoch <= last
    requires v.voter in nodes && last < v.epoch <= nodes[v.voter].lastVoteEpoch
    requires v.candidate in nodes && v.epoch <= nodes[v.candidate].authEpoch
    ensures v !in votes && VotesOk(nodes, votes + {v})
  {
  }

  lemma FreshAck(msgs: set<Msg>, msgs': set<Msg>, ack: Msg, votes: set<Vote>, counted: map<NodeId, set<Vote>>)
    requires AcksOk(msgs, votes, counted)
    requires ack.body.AuthAck? && VoteOf(ack) !in votes
    requires forall k :: k in counted ==> VoteOf(ack) !in counted[k]
    requires msgs' <= msgs + {ack}
    ensures AcksOk(msgs', votes + {VoteOf(ack)}, counted)
  {
    forall m | m in msgs' && m.body.AuthAck? ensures AckOk(m, votes + {VoteOf(ack)}, counted) {
      assert m == ack || AckOk(m, votes, counted);
    }
    forall m, m' | m in msgs' && m' in msgs' && SameAck(m, m') ensures m == m' {
      assert m in msgs ==> AckOk(m, votes, counted);
      assert m' in msgs ==> AckOk(m', votes, counted);
    }
  }

  lemma DeliverAck(s: System, m: Msg, now: int, nodeTimeout: nat, again: bool)
    requires ElectionInv(s) && m in s.msgs && m.dst in s.nodes && m.body.AuthAck?
    ensures ElectionInv(DoDeliver(s, m, now, nodeTimeout, again))
  {
    hide ProcessAck, CountsAck, VotesOk, RequestsOk, TalliesOk, AcksOk, ElectionBounded;
    var s' := DoDeliver(s, m, now, nodeTimeout, again);
    assert s'.msgs == s.msgs - {m} && s'.votes == s.votes;
    AckCounted(s, s', m, ProcessAck(s.nodes[m.dst], m.hdr), CountsVote(s.nodes[m.dst], m));
  }

  /** An acknowledgement leaves the network; its vote enters the tally if it counts. */
  lemma AckCounted(s: System, s': System, m: Msg, n: Node, counts: bool)
    requires ElectionInv(s) && m in s.msgs && m.dst in s.nodes && m.body.AuthAck?
    requires n == ProcessAck(s.nodes[m.dst], m.hdr) && counts == CountsAck(s.nodes[m.dst], m.hdr)
    requires s'.nodes == s.nodes[m.dst := n] && s'.msgs == s.msgs - {m} && s'.votes == s.votes
    requires s'.counted == s.counted[m.dst := s.counted[m.dst] + if counts then {VoteOf(m)} else {}]
    ensures ElectionInv(s')
  {
    hide ProcessAck, CountsAck, Bounded, VotesOk, RequestsOk, TalliesOk;
    OneNode(s, s', m.dst, n);
    assert AckOk(m, s.votes, s.counted);
    hide Advances, ElectionBounded, Shaped;
    RequestsOkEmpty(s'.nodes);
    MoreRequests(s'.nodes, s.msgs, s'.msgs, {});
    SameTally(s.counted, m.dst);
    CountAck(s.msgs, m, s.votes, s.counted, s'.counted);
    OneTally(s.nodes, s.counted, s.votes, m.dst);
    assert VoteOf(m) !in s.counted[m.dst] && VoteOf(m) in s.votes;
    assert |s'.counted[m.dst]| == |s.counted[m.dst]| + if counts then 1 else 0;
    NewTally(s.nodes, m.dst, n, s.counted, s'.counted[m.dst], s.votes);
  }

  lemma RequestsOkEmpty(nodes: Nodes)
    ensures RequestsOk(nodes, {})
  {
  }

  lemma OneTally(nodes: Nodes, counted: map<NodeId, set<Vote>>, votes: set<Vote>, id: NodeId)
    requires TalliesOk(nodes, counted, votes) && id in nodes
    ensures TallyOk(nodes[id], counted[id], votes)
  {
  }

  /** Taking one acknowledgement out of the network and its vote into the tally. */
  lemma CountAck(msgs: set<Msg>, ack: Msg, votes: set<Vote>, counted: map<NodeId, set<Vote>>,
                 counted': map<NodeId, set<Vote>>)
    requires AcksOk(msgs, votes, counted) && ack in msgs && ack.body.AuthAck?
    requires ack.dst in counted
    requires counted' == counted[ack.dst := counted[ack.dst] + {VoteOf(ack)}] || counted' == counted
    ensures AcksOk(msgs - {ack}, votes, counted')
  {
    forall m | m in msgs - {ack} && m.body.AuthAck? ensures AckOk(m, votes, counted') {
      assert AckOk(m, votes, counted);
      assert !SameAck(m, ack);
    }
  }

  lemma FailoverInv(s: System, id: NodeId, env: FailoverEnv)
    requires ElectionInv(s) && id in s.nodes
    ensures ElectionInv(DoFailover(s, id, env))
  {
    hide HandleSlaveFailover, Bounded, VotesOk, AcksOk, TalliesOk;
    var n := s.nodes[id];
    var (n', outcome) := HandleSlaveFailover(n, env);
    var s' := DoFailover(s, id, env);
    match outcome
    case Idle => QuietStep(s, s', id, n', {});
    case Won => QuietStep(s, s', id, n', BroadcastTo(n', BuildHeader(n'), Ping));
    case Scheduled =>
      OneNode(s, s', id, n');
      NewTally(s.nodes, id, n', s.counted, {}, s.votes);
      ClearTally(s.msgs, id, s.votes, s.counted);
    case Requested =>
      var out := BroadcastTo(n', BuildHeader(n'), AuthRequest(env.mfEnd));
      OneNode(s, s', id, n');
      SameTallies(s.nodes, id, n', s.counted, s.votes, s.votes);
      MoreRequests(s'.nodes, s.msgs, s'.msgs, out);
      NoNewAcks(s.msgs, out, s.votes, s.counted);
  }

  lemma ClearTally(msgs: set<Msg>, id: NodeId, votes: set<Vote>, counted: map<NodeId, set<Vote>>)
    requires AcksOk(msgs, votes, counted) && id in counted
    ensures AcksOk(msgs + {}, votes, counted[id := {}])
  {
    forall m | m in msgs && m.body.AuthAck? ensures AckOk(m, votes, counted[id := {}]) {
      assert AckOk(m, votes, counted);
    }
    assert msgs + {} == msgs;
  }

  lemma NoNewAcks(msgs: set<Msg>, out: set<Msg>, votes: set<Vote>, counted: map<NodeId, set<Vote>>)
    requires AcksOk(msgs, votes, counted)
    requires forall m :: m in out ==> !m.body.AuthAck?
    ensures AcksOk(msgs + out, votes, counted)
  {
  }

  lemma StepInv(s: System, a: Action)
    requires ElectionInv(s) && Enabled(s, a)
    ensures ElectionInv(Step(s, a))
  {
    match a
    case Deliver(m, now, nodeTimeout, again) =>
      match m.body {
        case AuthRequest(_) => DeliverRequest(s, m, now, nodeTimeout, again);
        case AuthAck => DeliverAck(s, m, now, nodeTimeout, again);
        case _ => DeliverQuiet(s, m, now, nodeTimeout, again);
      }
    case Failover(id, env) => FailoverInv(s, id, env);
    case SendPing(src, dst) => SendDropInv(s, a);
    case Drop(m) => SendDropInv(s, a);
    case _ => LocalInv(s, a);
  }

  lemma SendDropInv(s: System, a: Action)
    requires ElectionInv(s) && Enabled(s, a) && (a.SendPing? || a.Drop?)
    ensures ElectionInv(Step(s, a))
  {
    hide BuildHeader, VotesOk, TalliesOk, ElectionBounded;
    var out := if a.SendPing? then {Msg(a.dst, BuildHeader(s.nodes[a.src]), Ping)} else {};
    MoreQuiet(s.nodes, s.msgs, Step(s, a).msgs, out, s.votes, s.counted);
  }

  lemma LocalInv(s: System, a: Action)
    requires ElectionInv(s) && Enabled(s, a)
    requires !a.SendPing? && !a.Drop? && !a.Deliver? && !a.Failover?
    ensures ElectionInv(Step(s, a))
  {
    hide Local, Bounded, VotesOk, RequestsOk, AcksOk, TalliesOk;
    var n := s.nodes[a.id];
    QuietStep(s, Step(s, a), a.id, Local(n, a), {});
  }

  /** The invariant holds in every state of every run. */
  lemma {:induction false} RunInv(states: seq<System>, actions: seq<Action>, i: nat)
    requires IsRun(states, actions) && ElectionInv(states[0]) && i < |states|
    ensures ElectionInv(states[i])
  {
    if i > 0 {
      RunInv(states, actions, i - 1);
      assert Steps(states[i - 1], actions[i - 1], states[i - 1 + 1]);
      StepInv(states[i - 1], actions[i - 1]);
    }
  }

  // ---------------------------------------------------------------- election safety

  /** Who may vote in an epoch.  It may differ from one epoch to the next. */
  type Electorate = nat -> set<NodeId>

  function OutcomeOf(n: Node, env: FailoverEnv): FailoverOutcome
    requires n.me in n.peers
  {
    HandleSlaveFailover(n, env).1
  }

  /** The voters and winners of an epoch have the same idea of who votes in it: only votes of
      the electorate are counted, and a winner does not underestimate its size. */
  predicate Agreed(s: System, a: Action, electorate: Electorate) {
    && Shaped(s) && Enabled(s, a)
    && match a
    case Deliver(m, _, _, _) =>
      CountsVote(s.nodes[m.dst], m) ==> m.hdr.sender in electorate(s.nodes[m.dst].authEpoch)
    case Failover(id, env) =>
      OutcomeOf(s.nodes[id], env).Won? ==> s.nodes[id].size >= |electorate(s.nodes[id].authEpoch)|
    case _ => true
  }

  /** No vote slipped into the tally between clearing it and asking for votes. */
  predicate CleanStart(s: System, a: Action) {
    && Shaped(s) && Enabled(s, a)
    && (a.Failover? && OutcomeOf(s.nodes[a.id], a.env).Requested? ==> s.nodes[a.id].authCount == 0)
  }

  /** Every vote in the tally was cast in the epoch of the attempt, by one of its electorate. */
  predicate HonestTally(n: Node, tally: set<Vote>, electorate: Electorate) {
    forall v :: v in tally ==> v.epoch == n.authEpoch && v.voter in electorate(n.authEpoch)
  }

  predicate Honest(s: System, electorate: Electorate)
    requires Shaped(s)
  {
    forall id :: id in s.nodes ==> HonestTally(s.nodes[id], s.counted[id], electorate)
  }

  function Backers(votes: set<Vote>, w: Win, electorate: set<NodeId>): set<NodeId> {
    set id | id in electorate && Vote(id, w.epoch, w.winner) in votes
  }

  predicate Backed(votes: set<Vote>, w: Win, electorate: Electorate) {
    2 * |Backers(votes, w, electorate(w.epoch))| > |electorate(w.epoch)|
  }

  predicate WinsOk(s: System, electorate: Electorate) {
    forall w :: w in s.wins ==> Backed(s.votes, w, electorate)
  }

  lemma CountedEpoch(s: System, m: Msg)
    requires ElectionInv(s) && m in s.msgs && m.dst in s.nodes && CountsVote(s.nodes[m.dst], m)
    ensures m.hdr.currentEpoch == s.nodes[m.dst].authEpoch
  {
    assert AckOk(m, s.votes, s.counted);
  }

  lemma ReceiveKeepsAttempt(n: Node, m: Msg, now: int, nodeTimeout: nat)
    requires n.me in n.peers
    ensures Receive(n, m, now, nodeTimeout).0.authEpoch == n.authEpoch
  {
    hide ProcessPing, ProcessUpdate, ProcessAuthRequest, ProcessAck, BuildHeader, NoteEpochs;
  }

  lemma DeliverHonest(s: System, m: Msg, now: int, nodeTimeout: nat, again: bool, electorate: Electorate)
    requires ElectionInv(s) && Enabled(s, Deliver(m, now, nodeTimeout, again)) && Honest(s, electorate)
    requires Agreed(s, Deliver(m, now, nodeTimeout, again), electorate)
    ensures var s' := DoDeliver(s, m, now, nodeTimeout, again);
            Shaped(s') ==> Honest(s', electorate)
  {
    if CountsVote(s.nodes[m.dst], m) { CountedEpoch(s, m); }
    ReceiveKeepsAttempt(s.nodes[m.dst], m, now, nodeTimeout);
    hide Receive, GrantedVotes, CountsVote, ElectionInv, Honest;
    var added := if CountsVote(s.nodes[m.dst], m) then {VoteOf(m)} else {};
    AddHonest(s, DoDeliver(s, m, now, nodeTimeout, again), m.dst, added, electorate);
  }

  lemma AddHonest(s: System, s': System, id: NodeId, added: set<Vote>, electorate: Electorate)
    requires Shaped(s) && Honest(s, electorate) && id in s.nodes && id in s'.nodes
    requires s'.nodes == s.nodes[id := s'.nodes[id]] && s'.nodes[id].authEpoch == s.nodes[id].authEpoch
    requires s'.counted == s.counted[id := s.counted[id] + added]
    requires HonestTally(s.nodes[id], added, electorate)
    ensures Shaped(s') ==> Honest(s', electorate)
  {
    forall k | k in s.nodes ensures HonestTally(s'.nodes[k], s'.counted[k], electorate) {
      assert HonestTally(s.nodes[k], s.counted[k], electorate);
    }
  }

  lemma FailoverHonest(s: System, id: NodeId, env: FailoverEnv, electorate: Electorate)
    requires ElectionInv(s) && id in s.nodes && Honest(s, electorate)
    requires CleanStart(s, Failover(id, env))
    ensures var s' := DoFailover(s, id, env);
            Shaped(s') ==> Honest(s', electorate)
  {
    OneTally(s.nodes, s.counted, s.votes, id);
    hide HandleSlaveFailover, VotesOk, RequestsOk, AcksOk, TalliesOk, Bounded, BuildHeader;
    var s' := DoFailover(s, id, env);
    forall k | k in s.nodes ensures HonestTally(s'.nodes[k], s'.counted[k], electorate) {
      assert HonestTally(s.nodes[k], s.counted[k], electorate);
    }
  }

  lemma StepHonest(s: System, a: Action, electorate: Electorate)
    requires ElectionInv(s) && Enabled(s, a) && ElectionInv(Step(s, a)) && Honest(s, electorate)
    requires Agreed(s, a, electorate) && CleanStart(s, a)
    ensures Honest(Step(s, a), electorate)
  {
    match a
    case Deliver(m, now, nodeTimeout, again) => DeliverHonest(s, m, now, nodeTimeout, again, electorate);
    case Failover(id, env) => FailoverHonest(s, id, env, electorate);
    case _ => QuietHonest(s, a, electorate);
  }

  lemma QuietHonest(s: System, a: Action, electorate: Electorate)
    requires ElectionInv(s) && Enabled(s, a) && Shaped(Step(s, a)) && Honest(s, electorate)
    requires !a.Deliver? && !a.Failover?
    ensures Honest(Step(s, a), electorate)
  {
    hide Local, VotesOk, RequestsOk, AcksOk, TalliesOk, Bounded, BuildHeader;
    var s' := Step(s, a);
    forall k | k in s.nodes ensures HonestTally(s'.nodes[k], s'.counted[k], electorate) {
      assert HonestTally(s.nodes[k], s.counted[k], electorate);
    }
  }

  /** Votes of one epoch for one candidate come from as many voters. */
  lemma {:induction false} DistinctVoters(tally: set<Vote>, epoch: nat, candidate: NodeId)
    requires forall v :: v in tally ==> v.epoch == epoch && v.candidate == candidate
    ensures |set v | v in tally :: v.voter| == |tally|
  {
    if tally != {} {
      var x :| x in tally;
      DistinctVoters(tally - {x}, epoch, candidate);
      var rest := set v | v in tally - {x} :: v.voter;
      assert x.voter !in rest;
      assert (set v | v in tally :: v.voter) == rest + {x.voter};
    }
  }

  lemma SubsetSize<T>(a: set<T>, b: set<T>)
    requires a <= b
    ensures |a| <= |b|
  {
    assert b == a + (b - a);
  }

  /** An honest tally of a quorum is a majority of the electorate. */
  lemma QuorumBacks(n: Node, tally: set<Vote>, votes: set<Vote>, electorate: Electorate)
    requires TallyOk(n, tally, votes) && HonestTally(n, tally, electorate)
    requires n.authCount >= NeededQuorum(n) && n.size >= |electorate(n.authEpoch)|
    ensures Backed(votes, Win(n.me, n.authEpoch), electorate)
  {
    DistinctVoters(tally, n.authEpoch, n.me);
    var voters := set v | v in tally :: v.voter;
    var backers := Backers(votes, Win(n.me, n.authEpoch), electorate(n.authEpoch));
    forall id | id in voters ensures id in backers {
      var v :| v in tally && v.voter == id;
      assert v == Vote(id, n.authEpoch, n.me);
    }
    SubsetSize(voters, backers);
  }

  lemma MoreVotesBack(votes: set<Vote>, votes': set<Vote>, w: Win, electorate: Electorate)
    requires votes <= votes' && Backed(votes, w, electorate)
    ensures Backed(votes', w, electorate)
  {
    SubsetSize(Backers(votes, w, electorate(w.epoch)), Backers(votes', w, electorate(w.epoch)));
  }

  lemma StepWins(s: System, a: Action, electorate: Electorate)
    requires ElectionInv(s) && Enabled(s, a) && Honest(s, electorate) && WinsOk(s, electorate)
    requires Agreed(s, a, electorate)
    ensures WinsOk(Step(s, a), electorate)
  {
    hide Local, HandleSlaveFailover, VotesOk, RequestsOk, AcksOk, Bounded, BuildHeader, Receive, GrantedVotes, Backed;
    var s' := Step(s, a);
    forall w | w in s'.wins ensures Backed(s'.votes, w, electorate) {
      if w in s.wins {
        MoreVotesBack(s.votes, s'.votes, w, electorate);
      } else {
        QuorumBacks(s.nodes[a.id], s.counted[a.id], s.votes, electorate);
      }
    }
  }

  lemma Intersect<T>(a: set<T>, b: set<T>, e: set<T>)
    requires a <= e && b <= e && |a| + |b| > |e|
    ensures exists x :: x in a && x in b
  {
    if a * b == {} {
      assert |a + b| == |a| + |b|;
      SubsetSize(a + b, e);
    }
    var x :| x in a * b;
  }

  lemma SameWinner(votes: set<Vote>, w: Win, w': Win, electorate: Electorate)
    requires OnePerEpoch(votes) && w.epoch == w'.epoch
    requires Backed(votes, w, electorate) && Backed(votes, w', electorate)
    ensures w.winner == w'.winner
  {
    var e := electorate(w.epoch);
    Intersect(Backers(votes, w, e), Backers(votes, w', e), e);
    var id :| id in Backers(votes, w, e) && id in Backers(votes, w', e);
    assert Vote(id, w.epoch, w.winner) in votes && Vote(id, w.epoch, w'.winner) in votes;
  }

  predicate Disciplined(states: seq<System>, actions: seq<Action>, electorate: Electorate) {
    |actions| < |states| &&
    forall i :: 0 <= i < |actions| ==>
      Agreed(states[i], actions[i], electorate) && CleanStart(states[i], actions[i])
  }

  lemma {:induction false} RunHonest(states: seq<System>, actions: seq<Action>, electorate: Electorate, i: nat)
    requires IsRun(states, actions) && Initial(states[0]) && Disciplined(states, actions, electorate)
    requires i < |states|
    ensures ElectionInv(states[i]) && Honest(states[i], electorate) && WinsOk(states[i], electorate)
  {
    if i == 0 {
      InitialInv(states[0]);
    } else {
      RunHonest(states, actions, electorate, i - 1);
      assert Steps(states[i - 1], actions[i - 1], states[i - 1 + 1]);
      StepInv(states[i - 1], actions[i - 1]);
      StepHonest(states[i - 1], actions[i - 1], electorate);
      StepWins(states[i - 1], actions[i - 1], electorate);
    }
  }

  /** Over a whole run, no two replicas win an election with the same epoch. */
  lemma ElectionSafety(states: seq<System>, actions: seq<Action>, electorate: Electorate, i: nat, w: Win, w': Win)
    requires IsRun(states, actions) && Initial(states[0]) && Disciplined(states, actions, electorate)
    requires i < |states| && w in states[i].wins && w' in states[i].wins && w.epoch == w'.epoch
    ensures w.winner == w'.winner
  {
    RunHonest(states, actions, electorate, i);
    SameWinner(states[i].votes, w, w', electorate);
  }

  /** One vote per master and epoch, in every run and under no hypothesis. */
  lemma OneVotePerEpoch(states: seq<System>, actions: seq<Action>, i: nat, v: Vote, v': Vote)
    requires IsRun(states, actions) && Initial(states[0]) && i < |states|
    requires v in states[i].votes && v' in states[i].votes && v.voter == v'.voter && v.epoch == v'.epoch
    ensures v.candidate == v'.candidate
  {
    InitialInv(states[0]);
    RunInv(states, actions, i);
  }

  /** Asking for votes leaves an honest tally exactly when the tally is empty: the attempt gets
      a new epoch while whatever was counted since the tally was cleared belongs to the old one. */
  lemma CleanStartExact(s: System, id: NodeId, env: FailoverEnv, electorate: Electorate)
    requires ElectionInv(s) && id in s.nodes && Honest(s, electorate)
    requires OutcomeOf(s.nodes[id], env).Requested?
    ensures HonestTally(DoFailover(s, id, env).nodes[id], DoFailover(s, id, env).counted[id], electorate)
            <==> s.nodes[id].authCount == 0
  {
    OneTally(s.nodes, s.counted, s.votes, id);
    hide HandleSlaveFailover, VotesOk, RequestsOk, AcksOk, TalliesOk, Bounded, BuildHeader;
    var tally := s.counted[id];
    assert HonestTally(s.nodes[id], tally, electorate);
    if tally != {} {
      var v :| v in tally;
      assert v.epoch == s.nodes[id].authEpoch <= s.nodes[id].currentEpoch;
    }
  }
}
