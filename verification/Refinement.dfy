/** Each node of the network lives one of the runs of a single node: whatever the
    messages do, its ledger only moves by the steps of Runs, so everything that is
    proved of all runs holds of every node of every execution. */
module Refinement {
  import opened Common
  import opened Records
  import opened PowersOfTwo
  import opened Ledger
  import opened Conservation
  import opened Blocks
  import opened Runs
  import opened Network
  import opened Deliveries
  import opened Agreement

  // ----- each step is a node's own -----

  /** The ledger stands still, or takes one of a node's own steps. */
  ghost predicate Moves(c: Codec, s: NodeState, t: NodeState) {
    s == t || exists e :: IsStep(c, s, e, t)
  }

  lemma VerifiedMoves(c: Codec, s: NodeState, b: Block, outcome: bool)
    requires IsPow2(|b.transactions|)
    ensures Moves(c, s, Verified(c, s, b, outcome))
  {
    assert IsStep(c, s, Verify(b, outcome), Verified(c, s, b, outcome));
  }

  /** A delivery moves only its receiver, and that one as its own round does. */
  lemma DeliveryMoves(c: Codec, vs: seq<Key>, n: nat, net: Net, x: Packet, k: Key)
    requires IsCommittee(c, vs) && InvariantAt(c, vs, n, net) && n + 1 < TWO64
    requires x in net.flight && x.target in net.peers && k in net.peers
    ensures k in Delivered(c, vs, net, x).peers
    ensures Moves(c, net.peers[k].ledger, Delivered(c, vs, net, x).peers[k].ledger)
  {
    hide Verified, LedgersFit, Reaction, Delivered, Settle, Noted;
    var p := net.peers[x.target];
    if net.round.Some? {
      DeliveredRound(c, vs, net, x);
    }
    if ReceiverReaction(c, net, x).settled.Some? {
      FinalisesAt(c, vs, n, net, x);
      var bound := DeliversInRound(c, vs, n, net, x);
      NotedVotes(c, net.round.value, p, x.target, x.from, x.message);
      VerifiedMoves(c, p.ledger, net.round.value.block, ReceiverReaction(c, net, x).settled.value.ok);
    }
  }

  lemma SyncMoves(c: Codec, vs: seq<Key>, n: int, net: Net, k: Key, j: Key)
    requires InvariantAt(c, vs, n, net) && k in net.peers && j in net.peers
    requires |net.peers[k].ledger.chain| < |net.peers[j].ledger.chain|
    ensures Moves(c, net.peers[k].ledger, SyncedNet(c, net, k, j).peers[k].ledger)
  {
    var s := net.peers[k].ledger;
    var b := net.peers[j].ledger.chain[|s.chain|];
    var bound: nat :| bound <= n && Invariant(c, vs, net, bound);
    assert LedgerShape(c, s, bound) && LedgerShape(c, net.peers[j].ledger, bound);
    SyncedNeverHalts(c, net.peers[j].ledger, s, |s.chain|);
    assert IsStep(c, s, SyncBlock(b), Synced(c, s, b));
  }

  /** A stored block above genesis is sealed, so its bundle can be hashed. */
  lemma SyncedNeverHalts(c: Codec, source: NodeState, s: NodeState, i: nat)
    requires ChainInvariant(c, source) && i < |source.chain|
    ensures source.chain[i].info.height != 0 ==> !Halts(c, s, source.chain[i])
  {
    if i > 0 {
      assert SealedBlock(c, source.chain[i]);
    }
  }

  lemma NetStepMoves(c: Codec, vs: seq<Key>, n: nat, net: Net, e: NetEvent, t: Net, k: Key)
    requires IsCommittee(c, vs) && InvariantAt(c, vs, n, net) && IsNetStep(c, vs, net, e, t) && n + 1 < TWO64
    requires k in net.peers
    ensures k in t.peers && Moves(c, net.peers[k].ledger, t.peers[k].ledger)
  {
    hide Delivered, Synced, NewBlock, InvariantAt;
    match e
    case Decide(_, _, _) =>
    case ProposeBy(_, _, _, _) =>
    case Deliver(x) => DeliveryMoves(c, vs, n, net, x, k);
    case SyncFrom(i, j) =>
      if i == k {
        SyncMoves(c, vs, n, net, k, j);
      }
  }

  // ----- so what a node keeps, the network keeps -----

  /** Every step a single node can take keeps `p`. */
  ghost predicate KeptByNodes(c: Codec, p: NodeState -> bool) {
    forall s, e, t {:trigger p(s), IsStep(c, s, e, t)} :: p(s) && IsStep(c, s, e, t) ==> p(t)
  }

  ghost predicate HoldsOnAll(p: NodeState -> bool, net: Net) {
    forall k {:trigger net.peers[k]} :: k in net.peers ==> p(net.peers[k].ledger)
  }

  ghost predicate HoldsAfter(c: Codec, vs: seq<Key>, bound: nat, p: NodeState -> bool, n: int, net: Net) {
    InvariantAt(c, vs, bound + n, net) && HoldsOnAll(p, net)
  }

  lemma MoveKeeps(c: Codec, p: NodeState -> bool, s: NodeState, t: NodeState)
    requires KeptByNodes(c, p) && p(s) && Moves(c, s, t)
    ensures p(t)
  {
    if s != t {
      var e :| IsStep(c, s, e, t);
    }
  }

  lemma StepKeepsPeers(c: Codec, vs: seq<Key>, net: Net, e: NetEvent, t: Net)
    requires IsNetStep(c, vs, net, e, t)
    ensures t.peers.Keys == net.peers.Keys
  {
  }

  lemma StepHolds(c: Codec, vs: seq<Key>, n: nat, p: NodeState -> bool, net: Net, e: NetEvent, t: Net)
    requires IsCommittee(c, vs) && InvariantAt(c, vs, n, net) && IsNetStep(c, vs, net, e, t) && n + 1 < TWO64
    requires KeptByNodes(c, p) && HoldsOnAll(p, net)
    ensures HoldsOnAll(p, t)
  {
    StepKeepsPeers(c, vs, net, e, t);
    forall k | k in t.peers
      ensures p(t.peers[k].ledger)
    {
      NetStepMoves(c, vs, n, net, e, t, k);
      MoveKeeps(c, p, net.peers[k].ledger, t.peers[k].ledger);
    }
  }

  lemma StepHoldsAfter(
      c: Codec, vs: seq<Key>, bound: nat, p: NodeState -> bool, n: nat, net: Net, e: NetEvent, t: Net)
    requires IsCommittee(c, vs) && HoldsAfter(c, vs, bound, p, n, net) && IsNetStep(c, vs, net, e, t)
    requires KeptByNodes(c, p) && bound + n + 1 < TWO64
    ensures HoldsAfter(c, vs, bound, p, n + 1, t)
  {
    StepKeepsAt(c, vs, bound + n, bound + (n + 1), net, e, t);
    StepHolds(c, vs, bound + n, p, net, e, t);
  }

  /** Whatever every step of a single node keeps, every node of every execution keeps. */
  lemma NodesKeep(
      c: Codec, vs: seq<Key>, bound: nat, nets: seq<Net>, events: seq<NetEvent>, p: NodeState -> bool, i: nat)
    requires IsCommittee(c, vs) && IsExecution(c, vs, bound, nets, events)
    requires i <= |events| && bound + |events| + 1 < TWO64
    requires KeptByNodes(c, p) && HoldsOnAll(p, nets[0])
    ensures HoldsOnAll(p, nets[i])
  {
    StartHoldsAt(c, vs, bound, nets[0]);
    forall n, s, e, t | 0 <= n < |events| && HoldsAfter(c, vs, bound, p, n, s) && IsNetStep(c, vs, s, e, t)
      ensures HoldsAfter(c, vs, bound, p, n + 1, t)
    {
      StepHoldsAfter(c, vs, bound, p, n, s, e, t);
    }
    Along(nets, events, (s, e, t) => IsNetStep(c, vs, s, e, t), (n, s) => HoldsAfter(c, vs, bound, p, n, s), i);
  }

  /** No balance on any node ever exceeds the initial supply. */
  lemma NetworkKeepsBounds(
      c: Codec, vs: seq<Key>, bound: nat, nets: seq<Net>, events: seq<NetEvent>, i: nat, k: Key)
    requires IsCommittee(c, vs) && IsExecution(c, vs, bound, nets, events)
    requires i <= |events| && bound + |events| + 1 < TWO64 && k in nets[i].peers
    requires forall j {:trigger nets[0].peers[j]} :: j in nets[0].peers ==> BalancesBounded(nets[0].peers[j].ledger)
    ensures BalancesBounded(nets[i].peers[k].ledger)
  {
    BoundsKept(c);
    NodesKeep(c, vs, bound, nets, events, s => BalancesBounded(s), i);
  }

  lemma BoundsKept(c: Codec)
    ensures KeptByNodes(c, s => BalancesBounded(s))
  {
    forall s, e, t | BalancesBounded(s) && IsStep(c, s, e, t)
      ensures BalancesBounded(t)
    {
      StepKeepsBounds(c, s, e);
    }
  }

  // ----- in particular, being where a run can end -----

  ghost predicate EndsIn(c: Codec, states: seq<NodeState>, events: seq<Event>, s: NodeState) {
    IsRun(c, states, events) && states[|events|] == s
  }

  ghost predicate Reachable(c: Codec, s: NodeState) {
    exists states, events :: EndsIn(c, states, events, s)
  }

  lemma RunExtends(c: Codec, states: seq<NodeState>, events: seq<Event>, s: NodeState, e: Event, t: NodeState)
    requires EndsIn(c, states, events, s) && IsStep(c, s, e, t)
    ensures EndsIn(c, states + [t], events + [e], t)
  {
    var step := (s, e, t) => IsStep(c, s, e, t);
    StepsExtend(states, events, step, e, t);
    StepsAreRun(c, states + [t], events + [e], step);
  }

  lemma StepsAreRun(
      c: Codec, states: seq<NodeState>, events: seq<Event>, step: (NodeState, Event, NodeState) -> bool)
    requires Steps(states, events, step) && states[0] == NEW_NODE
    requires forall s, e, t :: step(s, e, t) ==> IsStep(c, s, e, t)
    ensures IsRun(c, states, events)
  {
  }

  lemma ReachableKept(c: Codec)
    ensures KeptByNodes(c, s => Reachable(c, s))
  {
    forall s, e, t | Reachable(c, s) && IsStep(c, s, e, t)
      ensures Reachable(c, t)
    {
      var states, events :| EndsIn(c, states, events, s);
      RunExtends(c, states, events, s, e, t);
    }
  }

  /** From ledgers that single nodes can reach, every node's ledger stays one that
      a single node can reach; all results on runs then hold of it. */
  lemma NodesLiveRuns(
      c: Codec, vs: seq<Key>, bound: nat, nets: seq<Net>, events: seq<NetEvent>, i: nat, k: Key)
    requires IsCommittee(c, vs) && IsExecution(c, vs, bound, nets, events)
    requires i <= |events| && bound + |events| + 1 < TWO64 && k in nets[i].peers
    requires forall j {:trigger nets[0].peers[j]} :: j in nets[0].peers ==> Reachable(c, nets[0].peers[j].ledger)
    ensures Reachable(c, nets[i].peers[k].ledger)
  {
    ReachableKept(c);
    NodesKeep(c, vs, bound, nets, events, s => Reachable(c, s), i);
  }
}
