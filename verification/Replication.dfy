/** From a common start the nodes agree on more than the chain: each node's ledger
    is what its chain replays to, nobody ever votes no, and every round ends with
    the proposed block stored on all of them. */
module Replication {
  import opened Common
  import opened Records
  import opened PowersOfTwo
  import opened Ledger
  import opened Blocks
  import opened Blockchains
  import opened Runs
  import opened History
  import opened Network
  import opened Rounds
  import opened Deliveries
  import opened Agreement
  import opened Progress
  import C = Consensus

  /** Everybody is new or has stored this genesis and nothing else. */
  ghost predicate IsCommonStart(c: Codec, vs: seq<Key>, genesis: Block, net: Net) {
    && IsStart(c, vs, 1, net) && genesis.info.height == 0
    && forall k {:trigger net.peers[k]} :: k in net.peers ==>
         net.peers[k].ledger == NEW_NODE || net.peers[k].ledger == StoreGenesis(NEW_NODE, genesis)
  }

  // ----- what a common start keeps -----

  /** Memory, storage, faucet and counters are those of a fresh node that syncs
      this chain. */
  ghost predicate Faithful(c: Codec, s: NodeState) {
    Replay(c, s.chain) == s && ReplayPasses(c, s.chain)
  }

  ghost predicate AllFaithful(c: Codec, peers: map<Key, Peer>) {
    forall k {:trigger peers[k]} :: k in peers ==> Faithful(c, peers[k].ledger)
  }

  /** The block was built on what its chain replays to, and nobody voted no. */
  ghost predicate Unanimous(c: Codec, h: Round) {
    Acceptable(c, Replay(c, h.base), h.block) && forall k :: k in h.votes ==> h.votes[k]
  }

  /** Whoever is done with the round has stored its block. */
  ghost predicate StoredByAll(h: Round, peers: map<Key, Peer>) {
    forall k {:trigger peers[k]} :: k in peers && HasVoted(h, k) && !peers[k].cs.waiting ==>
      peers[k].ledger.chain == h.base + [h.block]
  }

  ghost predicate Replicating(c: Codec, net: Net) {
    && AllFaithful(c, net.peers)
    && (net.round.Some? ==> Unanimous(c, net.round.value) && StoredByAll(net.round.value, net.peers))
  }

  lemma StartReplicates(c: Codec, vs: seq<Key>, genesis: Block, net: Net)
    requires IsCommonStart(c, vs, genesis, net)
    ensures Replicating(c, net)
  {
    GenesisReplayable(c, genesis);
    forall k | k in net.peers
      ensures Faithful(c, net.peers[k].ledger)
    {
      assert Replay(c, []) == NEW_NODE && ReplayPasses(c, []);
    }
  }

  // ----- proposing -----

  lemma ProposedReplicates(
      c: Codec, vs: seq<Key>, net: Net, k: Key, txs: seq<Transaction>, signature: Bytes, timestamp: int64)
    requires Replicating(c, net) && k in net.peers && net.peers[k].cs.aggregator.Some?
    requires net.peers[k].ledger.info.previous.Some? && IsPow2(|txs|)
    ensures Replicating(c, ProposedNet(vs, net, k, NewBlock(c, net.peers[k].ledger, txs, k, signature, timestamp)))
  {
    var s := net.peers[k].ledger;
    var b := NewBlock(c, s, txs, k, signature, timestamp);
    var t := ProposedNet(vs, net, k, b);
    ProducedIsAcceptable(c, s, s, txs, k, signature, timestamp);
    assert Faithful(c, s);
    assert t.peers[k].cs.waiting;
  }

  // ----- syncing -----

  lemma NextBlock(c: Codec, t: NodeState, n: nat, bound: nat)
    requires LedgerShape(c, t, bound) && n < |t.chain|
    ensures t.chain[n].info.height == n && (n > 0 ==> Marked(c, t.chain[n]) == t.chain[n])
  {
    hide SealedBlock, Marked;
  }

  lemma SyncAdds(c: Codec, s: NodeState, b: Block)
    requires SyncApplies(c, s, b) && (b.info.height != 0 ==> Marked(c, b) == b)
    ensures Synced(c, s, b).chain == s.chain + [b]
  {
    hide Passes, Executed, Committed;
  }

  lemma SyncIsFaithful(c: Codec, s: NodeState, t: NodeState, bound: nat)
    requires LedgerShape(c, t, bound) && Faithful(c, s) && Faithful(c, t) && s.chain <= t.chain && s.chain != t.chain
    ensures Faithful(c, Synced(c, s, t.chain[|s.chain|]))
    ensures Synced(c, s, t.chain[|s.chain|]).chain == t.chain[..|s.chain| + 1]
  {
    hide LedgerShape, Synced, SyncApplies, Marked;
    var n := |s.chain|;
    assert t.chain[..n] == s.chain && t.chain[..n + 1] == s.chain + [t.chain[n]];
    PrefixPasses(c, t.chain, n);
    NextBlock(c, t, n, bound);
    SyncAdds(c, s, t.chain[n]);
    ReplayAppend(c, s.chain, t.chain[n]);
  }

  lemma ShorterIsPrefix(a: seq<Block>, b: seq<Block>)
    requires PrefixComparable(a, b) && |a| < |b|
    ensures a <= b && a != b
  {
  }

  lemma SyncReplicates(c: Codec, vs: seq<Key>, net: Net, k: Key, j: Key, bound: nat)
    requires Invariant(c, vs, net, bound) && Replicating(c, net) && k in net.peers && j in net.peers
    requires !net.peers[k].cs.waiting && |net.peers[k].ledger.chain| < |net.peers[j].ledger.chain|
    ensures Replicating(c, SyncedNet(c, net, k, j))
  {
    hide Synced, Faithful, LedgerShape, Unanimous, ReplayPasses;
    var s, t := net.peers[k].ledger, net.peers[j].ledger;
    InvariantAgrees(c, vs, net, bound);
    ShorterIsPrefix(s.chain, t.chain);
    assert LedgerShape(c, t, bound);
    SyncIsFaithful(c, s, t, bound);
    if net.round.Some? {
      SyncedHasNotVoted(vs, net, net.round.value, k, j);
    }
  }

  /** Within a round, nobody that is done with it is behind anybody. */
  lemma SyncedHasNotVoted(vs: seq<Key>, net: Net, h: Round, k: Key, j: Key)
    requires RoundInvariant(vs, net, h) && k in net.peers && j in net.peers && StoredByAll(h, net.peers)
    requires !net.peers[k].cs.waiting && |net.peers[k].ledger.chain| < |net.peers[j].ledger.chain|
    ensures !HasVoted(h, k)
  {
    ChainInRound(vs, net, h, j);
  }

  // ----- delivering -----

  /** A node that has just voted, or was waiting, waits until it settles. */
  lemma UnsettledWaits(c: Codec, h: Round, p: Peer, k: Key, from: Key, m: C.Message)
    requires Reaction(c, p, k, from, m).settled.None?
    ensures var s := Reaction(c, p, k, from, m).state;
            s.waiting || (!p.cs.waiting && Noted(c, h, p, k, from, m).votes == h.votes)
  {
    hide Acceptable, CheckBlockInfo, Halts, Marked, Settle;
    match m
    case Proposal(_) =>
    case Vote(_) =>
    case Finality(_) =>
  }

  lemma VotesStayYes(c: Codec, vs: seq<Key>, net: Net, h: Round, x: Packet)
    requires RoundInvariant(vs, net, h) && x in net.flight && x.target in net.peers
    requires AllFaithful(c, net.peers) && Unanimous(c, h)
    ensures Unanimous(c, Noted(c, h, net.peers[x.target], x.target, x.from, x.message))
  {
    hide Noted, Acceptable;
    var p := net.peers[x.target];
    NotedVotes(c, h, p, x.target, x.from, x.message);
    if x.message.Proposal? {
      VoteIsOpen(vs, net, h, x);
      assert Faithful(c, p.ledger) && p.ledger.chain == h.base;
    }
  }

  /** So the outcome is yes. */
  lemma UnanimousCarries(c: Codec, vs: seq<Key>, h: Round)
    requires IsCommittee(c, vs) && RoundShape(vs, h) && h.counted == Voters(vs, h)
    requires forall k :: k in h.votes ==> h.votes[k]
    ensures Carried(h)
  {
    VotersCount(c, vs, h);
    assert Yes(h.votes, h.counted) == h.counted;
  }

  lemma StoringIsFaithful(c: Codec, s: NodeState, b: Block)
    requires Faithful(c, s) && Acceptable(c, s, b) && Marked(c, b) == b && b.info.height != 0
    ensures Faithful(c, Verified(c, s, b, true)) && Verified(c, s, b, true).chain == s.chain + [b]
  {
    StoredBlockSyncs(c, s, b);
    ReplayAppend(c, s.chain, b);
  }

  /** Who settles was on the base and now has the block, faithfully. */
  lemma SettlesFaithfully(c: Codec, vs: seq<Key>, n: int, net: Net, x: Packet)
    requires IsCommittee(c, vs) && InvariantAt(c, vs, n, net) && Replicating(c, net) && n + 1 < TWO64
    requires x in net.flight && x.target in net.peers && ReceiverReaction(c, net, x).settled.Some?
    ensures var t := Delivered(c, vs, net, x);
            && t.round.Some? && x.target in t.peers && Faithful(c, t.peers[x.target].ledger)
            && t.peers[x.target].ledger.chain == t.round.value.base + [t.round.value.block]
  {
    hide Delivered, Acceptable, Faithful, Marked;
    var bound := DeliversInRound(c, vs, n, net, x);
    var h, t := net.round.value, Delivered(c, vs, net, x);
    FinalisesAt(c, vs, n, net, x);
    DeliveryKeeps(c, vs, net, h, x, bound);
    var h', s := t.round.value, net.peers[x.target].ledger;
    DeliveredRound(c, vs, net, x);
    VotesStayYes(c, vs, net, h, x);
    NotedVotes(c, h, net.peers[x.target], x.target, x.from, x.message);
    UnanimousCarries(c, vs, h');
    ChainInRound(vs, net, h, x.target);
    ChainInRound(vs, t, h', x.target);
    assert s.chain == h.base;
    assert Faithful(c, s);
    FaithfulBase(c, s, h);
    StoringIsFaithful(c, s, h.block);
  }

  lemma FaithfulBase(c: Codec, s: NodeState, h: Round)
    requires Faithful(c, s) && s.chain == h.base && Unanimous(c, h)
    ensures Acceptable(c, s, h.block)
  {
  }

  lemma DeliveryKeepsFaith(c: Codec, vs: seq<Key>, n: int, net: Net, x: Packet)
    requires IsCommittee(c, vs) && InvariantAt(c, vs, n, net) && Replicating(c, net) && n + 1 < TWO64
    requires x in net.flight && x.target in net.peers
    ensures AllFaithful(c, Delivered(c, vs, net, x).peers)
  {
    hide Reaction, Settle, Noted, InvariantAt, Faithful, Unanimous, StoredByAll;
    if ReceiverReaction(c, net, x).settled.Some? {
      SettlesFaithfully(c, vs, n, net, x);
    }
  }

  lemma DeliveryKeepsStored(c: Codec, vs: seq<Key>, n: int, net: Net, x: Packet)
    requires IsCommittee(c, vs) && InvariantAt(c, vs, n, net) && Replicating(c, net) && n + 1 < TWO64
    requires x in net.flight && x.target in net.peers && net.round.Some?
    ensures var t := Delivered(c, vs, net, x); t.round.Some? && StoredByAll(t.round.value, t.peers)
  {
    hide Delivered, Reaction, Settle, Noted, InvariantAt, AllFaithful, Unanimous, Faithful;
    var t, h, p := Delivered(c, vs, net, x), net.round.value, net.peers[x.target];
    DeliveredRound(c, vs, net, x);
    NotedVotes(c, h, p, x.target, x.from, x.message);
    if ReceiverReaction(c, net, x).settled.Some? {
      SettlesFaithfully(c, vs, n, net, x);
    } else {
      UnsettledWaits(c, h, p, x.target, x.from, x.message);
    }
  }

  lemma DeliveryReplicates(c: Codec, vs: seq<Key>, n: int, net: Net, x: Packet)
    requires IsCommittee(c, vs) && InvariantAt(c, vs, n, net) && Replicating(c, net) && n + 1 < TWO64
    requires x in net.flight && x.target in net.peers
    ensures Replicating(c, Delivered(c, vs, net, x))
  {
    hide Delivered, AllFaithful, StoredByAll, Unanimous, Noted;
    var bound := DeliversInRound(c, vs, n, net, x);
    DeliveryKeepsFaith(c, vs, n, net, x);
    DeliveryKeepsStored(c, vs, n, net, x);
    DeliveredRound(c, vs, net, x);
    VotesStayYes(c, vs, net, net.round.value, x);
  }

  // ----- along every execution -----

  lemma StepReplicates(c: Codec, vs: seq<Key>, n: int, net: Net, e: NetEvent, t: Net)
    requires IsCommittee(c, vs) && InvariantAt(c, vs, n, net) && Replicating(c, net) && IsNetStep(c, vs, net, e, t)
    requires n + 1 < TWO64
    ensures Replicating(c, t)
  {
    hide Faithful, Unanimous, Delivered, SyncedNet, IsCommittee, Replicating;
    match e
    case Decide(k, _, sorted) =>
      DecideReplicates(c, net, k, sorted);
    case ProposeBy(k, txs, signature, timestamp) =>
      ProposedReplicates(c, vs, net, k, txs, signature, timestamp);
    case Deliver(x) =>
      DeliveryReplicates(c, vs, n, net, x);
    case SyncFrom(k, j) =>
      var bound: nat :| bound <= n && Invariant(c, vs, net, bound);
      SyncReplicates(c, vs, net, k, j, bound);
  }

  lemma DecideReplicates(c: Codec, net: Net, k: Key, sorted: seq<Key>)
    requires Replicating(c, net) && k in net.peers && sorted != []
    ensures Replicating(c, DecidedNet(net, k, sorted))
  {
    hide Faithful;
  }

  ghost predicate ReplicatingAfter(c: Codec, vs: seq<Key>, n: int, net: Net) {
    InvariantAfter(c, vs, 1, n, net) && Replicating(c, net)
  }

  lemma StepReplicatesAfter(c: Codec, vs: seq<Key>, n: nat, net: Net, e: NetEvent, t: Net)
    requires IsCommittee(c, vs) && ReplicatingAfter(c, vs, n, net) && IsNetStep(c, vs, net, e, t) && n + 2 < TWO64
    ensures ReplicatingAfter(c, vs, n + 1, t)
  {
    hide Replicating, InvariantAt, IsNetStep, IsCommittee;
    StepKeepsAfter(c, vs, 1, n, net, e, t);
    StepReplicates(c, vs, 1 + n, net, e, t);
  }

  lemma ExecutionsReplicate(
      c: Codec, vs: seq<Key>, genesis: Block, nets: seq<Net>, events: seq<NetEvent>, i: nat)
    requires IsCommittee(c, vs) && IsExecution(c, vs, 1, nets, events) && IsCommonStart(c, vs, genesis, nets[0])
    requires i <= |events| && |events| + 2 < TWO64
    ensures ReplicatingAfter(c, vs, i, nets[i])
  {
    hide IsNetStep, Replicating, IsCommittee;
    StartHoldsAt(c, vs, 1, nets[0]);
    StartReplicates(c, vs, genesis, nets[0]);
    forall n, s, e, t | 0 <= n < |events| && ReplicatingAfter(c, vs, n, s) && IsNetStep(c, vs, s, e, t)
      ensures ReplicatingAfter(c, vs, n + 1, t)
    {
      StepReplicatesAfter(c, vs, n, s, e, t);
    }
    Along(nets, events, (s, e, t) => IsNetStep(c, vs, s, e, t), (n, s) => ReplicatingAfter(c, vs, n, s), i);
  }

  /** State replication: from a common start, in every reachable state, each node's
      memory, storage, faucet and counters are what its chain replays to, so two
      nodes with one chain hold one ledger; every vote cast is yes, and no block is
      ever rejected. */
  lemma NodesReplicate(
      c: Codec, vs: seq<Key>, genesis: Block, nets: seq<Net>, events: seq<NetEvent>, i: nat, j: Key, k: Key)
    requires IsCommittee(c, vs) && IsExecution(c, vs, 1, nets, events) && IsCommonStart(c, vs, genesis, nets[0])
    requires i <= |events| && |events| + 2 < TWO64 && j in nets[i].peers && k in nets[i].peers
    ensures var s, t := nets[i].peers[j].ledger, nets[i].peers[k].ledger;
            Replay(c, s.chain) == s && ReplayPasses(c, s.chain) && (s.chain == t.chain ==> s == t)
    ensures nets[i].round.Some? ==>
              var h := nets[i].round.value;
              h.outcome != Some(false) && forall v :: v in h.votes ==> h.votes[v]
  {
    hide IsCommittee, IsNetStep, IsStart, IsCommonStart, Replay, ReplayPasses, InvariantAt, Replicating;
    ExecutionsReplicate(c, vs, genesis, nets, events, i);
    ReplicatedAt(c, vs, 1 + i, nets[i], j, k);
  }

  lemma ReplicatedAt(c: Codec, vs: seq<Key>, n: int, net: Net, j: Key, k: Key)
    requires IsCommittee(c, vs) && InvariantAt(c, vs, n, net) && Replicating(c, net)
    requires j in net.peers && k in net.peers
    ensures var s, t := net.peers[j].ledger, net.peers[k].ledger;
            Replay(c, s.chain) == s && ReplayPasses(c, s.chain) && (s.chain == t.chain ==> s == t)
    ensures net.round.Some? ==>
              var h := net.round.value;
              h.outcome != Some(false) && forall v :: v in h.votes ==> h.votes[v]
  {
    hide Replay, ReplayPasses, InvariantAt, IsCommittee, StoredByAll, Acceptable;
    assert Faithful(c, net.peers[j].ledger) && Faithful(c, net.peers[k].ledger);
    if net.round.Some? {
      OutcomeIsYes(c, vs, n, net);
    }
  }

  lemma OutcomeIsYes(c: Codec, vs: seq<Key>, n: int, net: Net)
    requires IsCommittee(c, vs) && InvariantAt(c, vs, n, net) && Replicating(c, net) && net.round.Some?
    ensures net.round.value.outcome != Some(false)
  {
    hide LedgersFit, HonestRound, AllFaithful;
    var bound: nat :| bound <= n && Invariant(c, vs, net, bound);
    var h := net.round.value;
    if h.outcome.Some? {
      UnanimousCarries(c, vs, h);
    }
  }

  // ----- what a round leaves behind -----

  /** The round in which `b` was proposed on `base`. */
  ghost predicate IsRoundOf(net: Net, base: seq<Block>, b: Block) {
    net.round.Some? && net.round.value.base == base && net.round.value.block == b
  }

  ghost function ProposedBlock(c: Codec, net: Net, e: NetEvent): Block
    requires e.ProposeBy? && e.node in net.peers && net.peers[e.node].ledger.info.previous.Some? && IsPow2(|e.txs|)
  {
    NewBlock(c, net.peers[e.node].ledger, e.txs, e.node, e.signature, e.timestamp)
  }

  lemma ProposalStarts(c: Codec, vs: seq<Key>, net: Net, e: NetEvent, t: Net)
    requires IsNetStep(c, vs, net, e, t) && e.ProposeBy?
    ensures e.node in net.peers && net.peers[e.node].ledger.info.previous.Some? && IsPow2(|e.txs|)
    ensures IsRoundOf(t, net.peers[e.node].ledger.chain, ProposedBlock(c, net, e))
  {
    hide NewBlock;
  }

  lemma RoundGoesOn(c: Codec, vs: seq<Key>, net: Net, e: NetEvent, t: Net, base: seq<Block>, b: Block)
    requires IsNetStep(c, vs, net, e, t) && IsRoundOf(net, base, b) && (e.Deliver? || e.SyncFrom?)
    ensures IsRoundOf(t, base, b)
  {
    hide Delivered, Synced;
    if e.Deliver? {
      var x := e.packet;
      DeliveredRound(c, vs, net, x);
      NotedVotes(c, net.round.value, net.peers[x.target], x.target, x.from, x.message);
    }
  }

  lemma {:induction false} RoundStays(
      c: Codec, vs: seq<Key>, bound: nat, nets: seq<Net>, events: seq<NetEvent>, i: nat, j: nat,
      base: seq<Block>, b: Block)
    requires IsExecution(c, vs, bound, nets, events) && i < j <= |events| && WithinRound(events[i + 1..j])
    requires IsRoundOf(nets[i + 1], base, b)
    ensures IsRoundOf(nets[j], base, b)
    decreases j
  {
    hide IsNetStep, IsStart, WithinRound, IsRoundOf;
    if j > i + 1 {
      EventsGrow(events, i, j - 1);
      RoundStays(c, vs, bound, nets, events, i, j - 1, base, b);
      StepOfExecution(c, vs, bound, nets, events, j - 1);
      RoundGoesOn(c, vs, nets[j - 1], events[j - 1], nets[j], base, b);
    }
  }

  lemma AllStoredWhenQuiet(c: Codec, vs: seq<Key>, n: int, net: Net, base: seq<Block>, b: Block, k: Key)
    requires InvariantAt(c, vs, n, net) && Replicating(c, net) && IsRoundOf(net, base, b)
    requires net.flight == {} && k in net.peers
    ensures net.peers[k].ledger == Replay(c, base + [b]) && net.peers[k].ledger.chain == base + [b]
  {
    hide LedgersFit, HonestRound, Replay, ReplayPasses, Unanimous;
    var bound: nat :| bound <= n && Invariant(c, vs, net, bound);
    var h := net.round.value;
    RoundCompletes(vs, net, h, k);
    assert k == h.producer || k in Voters(vs, h);
    assert Faithful(c, net.peers[k].ledger);
  }

  /** From a common start every round does what it is for: after n (n - 1)
      deliveries, in whatever order and whoever synced in between, every node has
      stored the proposed block on the producer's chain, and all of them hold the
      ledger that this chain replays to. */
  lemma RoundStoresEverywhere(
      c: Codec, vs: seq<Key>, genesis: Block, nets: seq<Net>, events: seq<NetEvent>, i: nat, j: nat, k: Key)
    requires IsCommittee(c, vs) && IsExecution(c, vs, 1, nets, events) && IsCommonStart(c, vs, genesis, nets[0])
    requires i < j <= |events| && |events| + 2 < TWO64
    requires events[i].ProposeBy? && WithinRound(events[i + 1..j])
    requires DeliveryCount(events[i + 1..j]) == |vs| * (|vs| - 1) && k in nets[j].peers
    ensures IsNetStep(c, vs, nets[i], events[i], nets[i + 1])
    ensures var chain := nets[i].peers[events[i].node].ledger.chain + [ProposedBlock(c, nets[i], events[i])];
            nets[j].peers[k].ledger.chain == chain && nets[j].peers[k].ledger == Replay(c, chain)
  {
    hide IsCommittee, IsNetStep, IsStart, IsCommonStart, Replay, InvariantAt, WithinRound, Replicating, ProposedBlock;
    StepOfExecution(c, vs, 1, nets, events, i);
    ProposalStarts(c, vs, nets[i], events[i], nets[i + 1]);
    var base, b := nets[i].peers[events[i].node].ledger.chain, ProposedBlock(c, nets[i], events[i]);
    RoundStays(c, vs, 1, nets, events, i, j, base, b);
    RoundTakesExactly(c, vs, 1, nets, events, i, j);
    ExecutionsReplicate(c, vs, genesis, nets, events, j);
    AllStoredWhenQuiet(c, vs, 1 + j, nets[j], base, b, k);
  }
}
