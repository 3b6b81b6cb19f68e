/** Config epoch collisions resolve.  The masters handle one collision at a time, and the one
    that acts knows every configEpoch in use. */
module ClusterCollision {
  import opened Options
  import opened ClusterNode
  import opened ClusterPing

  /** The configEpoch of every master. */
  type Epochs = map<NodeId, nat>

  /** Master `i` receives a PING from master `j`, in which `current` is the greater of their currentEpochs. */
  datatype Meeting = Meeting(i: NodeId, j: NodeId, current: nat)

  /** What an up-to-date master knows. */
  function Informed(epochs: Epochs, i: NodeId, current: nat): Node {
    Node(i, current, 0, map k | k in epochs :: Peer(Master, None, epochs[k], false, false, 0),
         map[], {}, |epochs|, 0, 0, 0, false, 0)
  }

  predicate UpToDate(epochs: Epochs, m: Meeting) {
    && m.i in epochs && m.j in epochs
    && forall k :: k in epochs ==> epochs[k] <= m.current
  }

  function Meet(epochs: Epochs, m: Meeting): Epochs
    requires UpToDate(epochs, m)
  {
    var r := ProcessPing(Informed(epochs, m.i, m.current), Header(m.j, m.current, epochs[m.j], {}, None)).0;
    epochs[m.i := r.peers[m.i].configEpoch]
  }

  /** Only a master meeting one with the same epoch and a greater name moves, and it moves
      beyond every epoch in use. */
  lemma MeetMoves(epochs: Epochs, m: Meeting)
    requires UpToDate(epochs, m)
    ensures forall k :: k in epochs && k != m.i ==> Meet(epochs, m)[k] == epochs[k]
    ensures Meet(epochs, m).Keys == epochs.Keys
    ensures epochs[m.i] == epochs[m.j] && m.i < m.j ==> Meet(epochs, m)[m.i] == m.current + 1
    ensures !(epochs[m.i] == epochs[m.j] && m.i < m.j) ==> Meet(epochs, m) == epochs
  {
    var n := Informed(epochs, m.i, m.current);
    PingEpochs(n, Header(m.j, m.current, epochs[m.j], {}, None), m.i);
    hide ProcessPing;
  }

  /** The meeting changes something. */
  predicate Collides(epochs: Epochs, m: Meeting) {
    UpToDate(epochs, m) && epochs[m.i] == epochs[m.j] && m.i < m.j
  }

  predicate Distinct(epochs: Epochs) {
    forall a, b :: a in epochs && b in epochs && epochs[a] == epochs[b] ==> a == b
  }

  function InUse(epochs: Epochs): set<nat> {
    set k | k in epochs :: epochs[k]
  }

  /** A collision resolved is one more epoch in use. */
  lemma OneMoreEpoch(epochs: Epochs, m: Meeting)
    requires Collides(epochs, m)
    ensures |InUse(Meet(epochs, m))| == |InUse(epochs)| + 1
  {
    MeetMoves(epochs, m);
    var after := Meet(epochs, m);
    assert m.current + 1 !in InUse(epochs);
    assert InUse(after) == InUse(epochs) + {m.current + 1} by {
      forall e | e in InUse(epochs) + {m.current + 1} ensures e in InUse(after) {
        if e == m.current + 1 {
          assert after[m.i] == e;
        } else {
          var k :| k in epochs && epochs[k] == e;
          assert k == m.i ==> after[m.j] == e;
          assert k != m.i ==> after[k] == e;
        }
      }
    }
  }

  /** At most as many epochs as masters, and as many exactly when they are distinct. */
  lemma {:induction false} EpochsVersusMasters(epochs: Epochs)
    ensures |InUse(epochs)| <= |epochs|
    ensures |InUse(epochs)| == |epochs| <==> Distinct(epochs)
    decreases |epochs|
  {
    if epochs != map[] {
      var k :| k in epochs;
      var rest := epochs - {k};
      assert epochs == rest[k := epochs[k]];
      assert |epochs| == |rest| + 1 by { assert epochs.Keys == rest.Keys + {k}; }
      EpochsVersusMasters(rest);
      assert InUse(epochs) == InUse(rest) + {epochs[k]} by {
        assert forall a :: a in rest ==> rest[a] == epochs[a];
      }
      if epochs[k] in InUse(rest) {
        var a :| a in rest && rest[a] == epochs[k];
        assert a != k && epochs[a] == epochs[k];
      } else if Distinct(rest) {
        assert Distinct(epochs);
      } else {
        var a, b :| a in rest && b in rest && rest[a] == rest[b] && a != b;
        assert epochs[a] == epochs[b];
      }
    } else {
      assert InUse(epochs) == {};
    }
  }

  // ---------------------------------------------------------------- whole runs

  /** Every meeting of the run resolves a collision, in the epochs reached so far. */
  predicate Resolving(epochs: Epochs, run: seq<Meeting>)
    decreases |run|
  {
    run == [] || (Collides(epochs, run[0]) && Resolving(Meet(epochs, run[0]), run[1..]))
  }

  function After(epochs: Epochs, run: seq<Meeting>): Epochs
    requires Resolving(epochs, run)
    decreases |run|
  {
    if run == [] then epochs else After(Meet(epochs, run[0]), run[1..])
  }

  lemma {:induction false} RunCount(epochs: Epochs, run: seq<Meeting>)
    requires Resolving(epochs, run)
    ensures After(epochs, run).Keys == epochs.Keys
    ensures |InUse(After(epochs, run))| == |InUse(epochs)| + |run|
    decreases |run|
  {
    if run != [] {
      OneMoreEpoch(epochs, run[0]);
      MeetMoves(epochs, run[0]);
      RunCount(Meet(epochs, run[0]), run[1..]);
    }
  }

  /** The process terminates: a run resolves at most as many collisions as there are masters
      in excess of epochs, and when it has resolved that many the epochs are distinct. */
  lemma CollisionsResolve(epochs: Epochs, run: seq<Meeting>)
    requires Resolving(epochs, run)
    ensures |run| <= |epochs| - |InUse(epochs)|
    ensures |run| == |epochs| - |InUse(epochs)| <==> Distinct(After(epochs, run))
  {
    RunCount(epochs, run);
    var after := After(epochs, run);
    assert |after| == |epochs| by { assert |after.Keys| == |epochs.Keys|; }
    EpochsVersusMasters(after);
  }

  /** As long as two epochs are equal there is a collision to resolve. */
  lemma NotStuck(epochs: Epochs, current: nat)
    requires !Distinct(epochs) && forall k :: k in epochs ==> epochs[k] <= current
    ensures exists m :: Collides(epochs, m)
  {
    var a, b :| a in epochs && b in epochs && epochs[a] == epochs[b] && a != b;
    assert Collides(epochs, if a < b then Meeting(a, b, current) else Meeting(b, a, current));
  }

  predicate Greatest(epochs: Epochs, g: NodeId) {
    g in epochs && forall k :: k in epochs && epochs[k] == epochs[g] ==> k <= g
  }

  /** The greatest name of a colliding group never moves, over the whole run. */
  lemma {:induction false} GreatestStays(epochs: Epochs, run: seq<Meeting>, g: NodeId)
    requires Resolving(epochs, run) && Greatest(epochs, g)
    ensures g in After(epochs, run) && After(epochs, run)[g] == epochs[g]
    decreases |run|
  {
    if run != [] {
      MeetMoves(epochs, run[0]);
      assert Greatest(Meet(epochs, run[0]), g);
      GreatestStays(Meet(epochs, run[0]), run[1..], g);
    }
  }
}
