/** No two nodes of the committee ever store chains that fork, and a node stores
    through finality only the block it voted for, on a majority of the votes. */
module Agreement {
  import opened Common
  import opened Records
  import opened PowersOfTwo
  import opened Sorting
  import opened Ledger
  import opened StateHash
  import opened Blocks
  import opened Blockchains
  import opened Runs
  import opened Network
  import opened Rounds
  import opened Deliveries
  import C = Consensus

  // ----- what the invariant says of the chains -----

  lemma ChainInRound(vs: seq<Key>, net: Net, h: Round, k: Key)
    requires RoundInvariant(vs, net, h) && k in net.peers
    ensures var chain := net.peers[k].ledger.chain;
            chain == h.base || (h.outcome == Some(true) && chain == h.base + [h.block] && !net.peers[k].cs.waiting)
    ensures IsReady(net.peers[k].cs) && !net.peers[k].cs.waiting ==> !HasVoted(h, k)
  {
    assert PeerShape(vs, h, net.flight, k, net.peers[k]);
  }

  lemma InvariantAgrees(c: Codec, vs: seq<Key>, net: Net, bound: nat)
    requires Invariant(c, vs, net, bound)
    ensures Agreement(net)
  {
    if net.round.Some? {
      var h := net.round.value;
      forall j, k | j in net.peers && k in net.peers
        ensures PrefixComparable(net.peers[j].ledger.chain, net.peers[k].ledger.chain)
      {
        ChainInRound(vs, net, h, j);
        ChainInRound(vs, net, h, k);
        assert h.base <= h.base + [h.block];
      }
    }
  }

  lemma EverybodyVoted(vs: seq<Key>, net: Net, h: Round)
    requires RoundInvariant(vs, net, h) && net.flight == {} && (forall k :: k in vs ==> k in net.peers)
    ensures h.votes.Keys == Voters(vs, h) && h.outcome.Some?
  {
    forall k | k in Voters(vs, h)
      ensures k in h.votes && k in h.counted
    {
      assert PeerShape(vs, h, net.flight, k, net.peers[k]);
    }
    assert h.counted == Voters(vs, h);
  }

  /** A round runs to its end: when no message is on its way any more, all votes
      were cast and counted, and every node has been told the outcome. */
  lemma RoundCompletes(vs: seq<Key>, net: Net, h: Round, k: Key)
    requires RoundInvariant(vs, net, h) && net.flight == {} && (forall j :: j in vs <==> j in net.peers)
    requires k in net.peers
    ensures h.votes.Keys == Voters(vs, h) && HasSettled(h, net.peers[k])
  {
    EverybodyVoted(vs, net, h);
    assert PeerShape(vs, h, net.flight, k, net.peers[k]);
    assert k == h.producer || k in Voters(vs, h);
  }

  lemma SameHeightSameChain(c: Codec, a: NodeState, b: NodeState, bound: nat)
    requires LedgerShape(c, a, bound) && LedgerShape(c, b, bound) && PrefixComparable(a.chain, b.chain)
    requires a.info.nextHeight == b.info.nextHeight
    ensures a.chain == b.chain
  {
  }

  // ----- deciding -----

  lemma SortedIsVs(c: Codec, vs: seq<Key>, arrival: seq<Key>, sorted: seq<Key>)
    requires IsCommittee(c, vs) && NoDuplicates(arrival) && (forall j :: j in arrival <==> j in vs)
    requires C.IsSorting(c, arrival, sorted) && sorted != []
    ensures sorted == vs
  {
    assert vs[0] in arrival;
    assert C.IsSorting(c, vs, vs);
    C.CommitteeAgreed(c, C.NEW_STATE, C.NEW_STATE, vs, arrival, vs, sorted, 0);
  }

  lemma PeerAtRest(c: Codec, vs: seq<Key>, net: Net, k: Key, bound: nat)
    requires Invariant(c, vs, net, bound) && net.flight == {} && k in net.peers
    ensures RestShape(vs, net.peers[k])
    ensures net.round.Some? ==> Undecided(net.peers[k].cs)
  {
    if net.round.Some? {
      RoundCompletes(vs, net, net.round.value, k);
    }
  }

  lemma SameLedgersKeep(c: Codec, peers: map<Key, Peer>, peers': map<Key, Peer>, bound: nat)
    requires LedgersFit(c, peers, bound) && peers'.Keys == peers.Keys
    requires forall k :: k in peers ==> peers'[k].ledger == peers[k].ledger
    ensures LedgersFit(c, peers', bound)
  {
    forall j | j in peers'
      ensures LedgerShape(c, peers'[j].ledger, bound)
    {
      assert LedgerShape(c, peers[j].ledger, bound);
    }
  }

  lemma DecideRests(c: Codec, vs: seq<Key>, net: Net, k: Key, bound: nat)
    requires vs != [] && Invariant(c, vs, net, bound) && Quiet(net) && SameHeights(net) && k in net.peers
    ensures RestInvariant(vs, DecidedNet(net, k, vs))
  {
    hide LedgersFit, RoundInvariant, HonestRound;
    InvariantAgrees(c, vs, net, bound);
    var t := DecidedNet(net, k, vs);
    forall j | j in t.peers
      ensures RestShape(vs, t.peers[j])
    {
      PeerAtRest(c, vs, net, j, bound);
    }
    assert SameHeights(t);
  }

  lemma DecideKeeps(c: Codec, vs: seq<Key>, net: Net, k: Key, bound: nat)
    requires vs != [] && Invariant(c, vs, net, bound) && Quiet(net) && SameHeights(net) && k in net.peers
    ensures Invariant(c, vs, DecidedNet(net, k, vs), bound)
  {
    DecideRests(c, vs, net, k, bound);
    SameLedgersKeep(c, net.peers, DecidedNet(net, k, vs).peers, bound);
  }

  // ----- proposing -----

  /** When everybody is ready, everybody has the same chain and the same committee. */
  lemma ReadyTogether(c: Codec, vs: seq<Key>, net: Net, j: Key, k: Key, bound: nat)
    requires Invariant(c, vs, net, bound) && Quiet(net) && j in net.peers && k in net.peers
    requires forall i :: i in net.peers ==> IsReady(net.peers[i].cs)
    ensures net.round.None? && Resting(net.peers[j].cs)
    ensures net.peers[j].ledger.chain == net.peers[k].ledger.chain
    ensures DecidedAt(vs, net.peers[k].ledger.info.nextHeight, net.peers[j].cs)
  {
    PeerAtRest(c, vs, net, j, bound);
    assert IsReady(net.peers[j].cs) && IsReady(net.peers[k].cs);
    assert LedgerShape(c, net.peers[j].ledger, bound) && LedgerShape(c, net.peers[k].ledger, bound);
    assert SameHeights(net);
    SameHeightSameChain(c, net.peers[j].ledger, net.peers[k].ledger, bound);
  }

  lemma TwoRoles(vs: seq<Key>, height: uint64)
    requires NoDuplicates(vs) && |vs| >= 2
    ensures C.Producer(vs, height) in vs && C.Aggregator(vs, height) in vs
    ensures C.Producer(vs, height) != C.Aggregator(vs, height)
  {
    var n := |vs|;
    var i := height % n;
    C.ModuloUnique(n, 0, if i + 1 < n then i + 1 else 0);
    if i + 1 == n {
      C.ModuloUnique(n, 1, 0);
    }
    assert (i + 1) % n != i;
  }

  /** Everybody rests on `base` with the committee of height `height` decided. */
  ghost predicate AllDecided(vs: seq<Key>, net: Net, base: seq<Block>, height: uint64) {
    && net.flight == {} && (forall j :: j in net.peers <==> j in vs)
    && forall j :: j in net.peers ==>
         && Resting(net.peers[j].cs) && DecidedAt(vs, height, net.peers[j].cs)
         && net.peers[j].ledger.chain == base
  }

  lemma ProposedShape(vs: seq<Key>, net: Net, k: Key, b: Block, base: seq<Block>, height: uint64)
    requires NoDuplicates(vs) && |vs| >= 2 && AllDecided(vs, net, base, height)
    requires k in net.peers && net.peers[k].cs.producer == Some(k)
    ensures var t := ProposedNet(vs, net, k, b); t.round.Some? && RoundInvariant(vs, t, t.round.value)
  {
    TwoRoles(vs, height);
    var t := ProposedNet(vs, net, k, b);
    var h := t.round.value;
    assert h.aggregator in Voters(vs, h);
    forall j | j in t.peers
      ensures PeerShape(vs, h, t.flight, j, t.peers[j])
    {
      if j != k {
        assert t.peers[j] == net.peers[j];
        assert Packet(k, j, C.Proposal(b)) in t.flight;
      }
    }
    forall x | x in t.flight
      ensures PacketShape(vs, h, t.peers, x)
    {
    }
  }

  lemma ProposedHonest(
      c: Codec, vs: seq<Key>, net: Net, k: Key, txs: seq<Transaction>, signature: Bytes, timestamp: int64, bound: nat)
    requires k in net.peers && IsReady(net.peers[k].cs) && IsPow2(|txs|)
    requires forall j :: j in net.peers ==> !net.peers[j].cs.waiting
    requires LedgerShape(c, net.peers[k].ledger, bound) && net.peers[k].ledger.info.previous.Some?
    ensures var b := NewBlock(c, net.peers[k].ledger, txs, k, signature, timestamp);
            var t := ProposedNet(vs, net, k, b);
            HonestRound(c, t.peers, t.round.value)
  {
    var s := net.peers[k].ledger;
    var b := NewBlock(c, s, txs, k, signature, timestamp);
    ProducedIsAcceptable(c, s, s, txs, k, signature, timestamp);
  }

  lemma ReadyIsDecided(c: Codec, vs: seq<Key>, net: Net, k: Key, bound: nat)
    requires Invariant(c, vs, net, bound) && Quiet(net) && k in net.peers
    requires forall i :: i in net.peers ==> IsReady(net.peers[i].cs)
    ensures AllDecided(vs, net, net.peers[k].ledger.chain, net.peers[k].ledger.info.nextHeight)
  {
    forall j | j in net.peers
      ensures Resting(net.peers[j].cs) && DecidedAt(vs, net.peers[k].ledger.info.nextHeight, net.peers[j].cs)
      ensures net.peers[j].ledger.chain == net.peers[k].ledger.chain
    {
      ReadyTogether(c, vs, net, j, k, bound);
    }
  }

  lemma ProposeKeeps(c: Codec, vs: seq<Key>, net: Net, k: Key, b: Block, bound: nat)
    requires IsCommittee(c, vs) && Invariant(c, vs, net, bound) && Quiet(net)
    requires k in net.peers && IsReady(net.peers[k].cs)
    requires (forall i :: i in net.peers ==> IsReady(net.peers[i].cs)) && net.peers[k].cs.producer == Some(k)
    requires HonestRound(c, ProposedNet(vs, net, k, b).peers, ProposedNet(vs, net, k, b).round.value)
    ensures Invariant(c, vs, ProposedNet(vs, net, k, b), bound)
  {
    hide RoundInvariant, RestInvariant, LedgerShape, DecidedAt, Resting;
    ReadyIsDecided(c, vs, net, k, bound);
    ProposedShape(vs, net, k, b, net.peers[k].ledger.chain, net.peers[k].ledger.info.nextHeight);
    SameLedgersKeep(c, net.peers, ProposedNet(vs, net, k, b).peers, bound);
  }

  // ----- syncing -----

  lemma PrefixGrows(a: seq<Block>, b: seq<Block>, d: seq<Block>)
    requires |a| < |b| && a <= b && PrefixComparable(b, d) && PrefixComparable(a, d)
    ensures a + [b[|a|]] <= b && PrefixComparable(a + [b[|a|]], d)
  {
    var e := a + [b[|a|]];
    assert e == b[..|e|];
    if d <= b {
      assert d == b[..|d|];
      if |d| <= |e| {
        assert d == e[..|d|];
      } else {
        assert e == d[..|e|];
      }
    } else {
      assert e == d[..|e|];
    }
  }

  /** The synced node's chain stays, or takes over the next block of the source's. */
  ghost predicate Follows(net: Net, k: Key, j: Key, s: NodeState)
    requires k in net.peers && j in net.peers
  {
    var mine, theirs := net.peers[k].ledger.chain, net.peers[j].ledger.chain;
    && |mine| < |theirs|
    && (s.chain == mine || s.chain == mine + [theirs[|mine|]])
  }

  lemma SyncInRound(vs: seq<Key>, net: Net, h: Round, k: Key, j: Key, s: NodeState)
    requires RoundInvariant(vs, net, h) && k in net.peers && j in net.peers && Follows(net, k, j, s) && k in vs
    requires !net.peers[k].cs.waiting
    ensures HasVoted(h, k) && HasSettled(h, net.peers[k].(ledger := s))
  {
    ChainInRound(vs, net, h, k);
    ChainInRound(vs, net, h, j);
    assert PeerShape(vs, h, net.flight, k, net.peers[k]);
    assert k == h.producer || k in Voters(vs, h);
  }

  lemma SyncedRound(vs: seq<Key>, net: Net, h: Round, k: Key, j: Key, s: NodeState)
    requires RoundInvariant(vs, net, h) && k in net.peers && j in net.peers && Follows(net, k, j, s) && k in vs
    requires !net.peers[k].cs.waiting
    ensures RoundInvariant(vs, net.(peers := net.peers[k := net.peers[k].(ledger := s)]), h)
  {
    SyncInRound(vs, net, h, k, j, s);
    var t := net.(peers := net.peers[k := net.peers[k].(ledger := s)]);
    assert PeerShape(vs, h, t.flight, k, t.peers[k]);
    PeersKeep(vs, net, h, t, h, k);
    forall x | x in t.flight
      ensures PacketShape(vs, h, t.peers, x)
    {
      assert PacketShape(vs, h, net.peers, x);
      OtherPacket(vs, h, h, net.peers, t.peers, x);
    }
  }

  lemma SyncedRest(c: Codec, vs: seq<Key>, net: Net, k: Key, j: Key, s: NodeState, bound: nat)
    requires RestInvariant(vs, net) && LedgersFit(c, net.peers, bound)
    requires k in net.peers && j in net.peers && Follows(net, k, j, s)
    ensures RestInvariant(vs, net.(peers := net.peers[k := net.peers[k].(ledger := s)]))
  {
    hide MarkedChain, Linked;
    var t := net.(peers := net.peers[k := net.peers[k].(ledger := s)]);
    var mine, theirs := net.peers[k].ledger.chain, net.peers[j].ledger.chain;
    assert LedgerShape(c, net.peers[k].ledger, bound) && LedgerShape(c, net.peers[j].ledger, bound);
    assert Undecided(net.peers[k].cs);
    forall i | i in net.peers
      ensures PrefixComparable(s.chain, net.peers[i].ledger.chain)
    {
      PrefixGrows(mine, theirs, net.peers[i].ledger.chain);
    }
  }

  lemma SyncKeeps(c: Codec, vs: seq<Key>, net: Net, k: Key, j: Key, bound: nat)
    requires Invariant(c, vs, net, bound) && k in net.peers && j in net.peers && !net.peers[k].cs.waiting
    requires |net.peers[k].ledger.chain| < |net.peers[j].ledger.chain| && bound + 1 < TWO64
    ensures Invariant(c, vs, SyncedNet(c, net, k, j), bound + 1)
  {
    var p, q := net.peers[k], net.peers[j];
    assert LedgerShape(c, p.ledger, bound) && LedgerShape(c, q.ledger, bound);
    SyncKeepsLedger(c, p.ledger, q.ledger, bound);
    var s := Synced(c, p.ledger, q.ledger.chain[|p.ledger.chain|]);
    LedgerGrows(c, s, bound);
    LedgersKeep(c, net.peers, SyncedNet(c, net, k, j).peers, k, bound);
    if net.round.None? {
      SyncedRest(c, vs, net, k, j, s, bound);
    } else {
      SyncedRound(vs, net, net.round.value, k, j, s);
      HonestKeeps(c, net.peers, SyncedNet(c, net, k, j).peers, net.round.value, net.round.value, k);
    }
  }

  // ----- every execution -----

  lemma StartHolds(c: Codec, vs: seq<Key>, bound: nat, net: Net)
    requires IsStart(c, vs, bound, net)
    ensures Invariant(c, vs, net, bound)
  {
  }

  lemma NetStepKeeps(c: Codec, vs: seq<Key>, net: Net, e: NetEvent, t: Net, bound: nat)
    requires IsCommittee(c, vs) && Invariant(c, vs, net, bound) && IsNetStep(c, vs, net, e, t) && bound + 1 < TWO64
    ensures Invariant(c, vs, t, bound + 1)
  {
    hide Delivered, Synced, HonestRound;
    match e
    case Decide(k, arrival, sorted) =>
      SortedIsVs(c, vs, arrival, sorted);
      DecideKeeps(c, vs, net, k, bound);
      InvariantGrows(c, vs, DecidedNet(net, k, vs), bound);
    case ProposeBy(k, txs, signature, timestamp) =>
      var b := NewBlock(c, net.peers[k].ledger, txs, k, signature, timestamp);
      assert LedgerShape(c, net.peers[k].ledger, bound);
      ProposedHonest(c, vs, net, k, txs, signature, timestamp, bound);
      ProposeKeeps(c, vs, net, k, b, bound);
      InvariantGrows(c, vs, ProposedNet(vs, net, k, b), bound);
    case Deliver(packet) =>
      DeliveryKeeps(c, vs, net, net.round.value, packet, bound);
    case SyncFrom(k, j) =>
      SyncKeeps(c, vs, net, k, j, bound);
  }

  lemma InvariantGrows(c: Codec, vs: seq<Key>, net: Net, bound: nat)
    requires Invariant(c, vs, net, bound)
    ensures Invariant(c, vs, net, bound + 1)
  {
    forall k | k in net.peers
      ensures LedgerShape(c, net.peers[k].ledger, bound + 1)
    {
      assert LedgerShape(c, net.peers[k].ledger, bound);
    }
  }

  /** The invariant holds, and no chain is longer than `n`. */
  ghost predicate InvariantAt(c: Codec, vs: seq<Key>, n: int, net: Net) {
    exists b: nat {:trigger Invariant(c, vs, net, b)} :: b <= n && Invariant(c, vs, net, b)
  }

  lemma StartHoldsAt(c: Codec, vs: seq<Key>, bound: nat, net: Net)
    requires IsStart(c, vs, bound, net)
    ensures InvariantAt(c, vs, bound, net)
  {
    StartHolds(c, vs, bound, net);
  }

  lemma StepKeepsAt(c: Codec, vs: seq<Key>, n: int, m: int, s: Net, e: NetEvent, t: Net)
    requires IsCommittee(c, vs) && InvariantAt(c, vs, n, s) && IsNetStep(c, vs, s, e, t) && n + 1 == m < TWO64
    ensures InvariantAt(c, vs, m, t)
  {
    var b: nat :| b <= n && Invariant(c, vs, s, b);
    NetStepKeeps(c, vs, s, e, t, b);
  }

  /** `n` steps after a start with chains no longer than `bound`. */
  ghost predicate InvariantAfter(c: Codec, vs: seq<Key>, bound: nat, n: int, net: Net) {
    InvariantAt(c, vs, bound + n, net)
  }

  lemma StepKeepsAfter(c: Codec, vs: seq<Key>, bound: nat, n: nat, s: Net, e: NetEvent, t: Net)
    requires IsCommittee(c, vs) && InvariantAfter(c, vs, bound, n, s) && IsNetStep(c, vs, s, e, t)
    requires bound + n + 1 < TWO64
    ensures InvariantAfter(c, vs, bound, n + 1, t)
  {
    StepKeepsAt(c, vs, bound + n, bound + (n + 1), s, e, t);
  }

  lemma ExecutionsKeep(c: Codec, vs: seq<Key>, bound: nat, nets: seq<Net>, events: seq<NetEvent>, i: nat)
    requires IsCommittee(c, vs) && IsExecution(c, vs, bound, nets, events)
    requires i <= |events| && bound + |events| + 1 < TWO64
    ensures InvariantAt(c, vs, bound + i, nets[i])
  {
    StartHoldsAt(c, vs, bound, nets[0]);
    forall n, s, e, t | 0 <= n < |events| && InvariantAfter(c, vs, bound, n, s) && IsNetStep(c, vs, s, e, t)
      ensures InvariantAfter(c, vs, bound, n + 1, t)
    {
      StepKeepsAfter(c, vs, bound, n, s, e, t);
    }
    Along(nets, events, (s, e, t) => IsNetStep(c, vs, s, e, t), (n, s) => InvariantAfter(c, vs, bound, n, s), i);
  }

  lemma AgreesAt(c: Codec, vs: seq<Key>, n: int, net: Net)
    requires InvariantAt(c, vs, n, net)
    ensures Agreement(net)
  {
    var b: nat :| b <= n && Invariant(c, vs, net, b);
    InvariantAgrees(c, vs, net, b);
  }

  /** Agreement: from any ledgers on chains that do not fork, with anything in
      memory and storage, the chains of any two nodes are prefixes one of the other
      in every reachable state, however the votes fall and in whatever order
      messages are delivered. */
  lemma ChainsNeverFork(
      c: Codec, vs: seq<Key>, bound: nat, nets: seq<Net>, events: seq<NetEvent>, i: nat)
    requires IsCommittee(c, vs) && IsExecution(c, vs, bound, nets, events)
    requires i <= |events| && bound + |events| + 1 < TWO64
    ensures Agreement(nets[i])
  {
    ExecutionsKeep(c, vs, bound, nets, events, i);
    AgreesAt(c, vs, bound + i, nets[i]);
  }

  // ----- what a node finalises -----

  /** In the step from `net` to `t`, node `k` finalised the round's block with
      outcome `o`: the aggregator's verdict on all n - 1 votes; and the node did
      what its own verification of that block and this outcome ask for. It added
      the block to its chain only if it had voted for it. */
  ghost predicate FinalisesOwnVote(c: Codec, vs: seq<Key>, net: Net, t: Net, h: Round, k: Key, o: bool)
    requires k in net.peers && k in t.peers
  {
    var s, s' := net.peers[k].ledger, t.peers[k].ledger;
    && HasVoted(h, k) && h.outcome == Some(o)
    && h.counted == Voters(vs, h) && o == Carried(h)
    && s' == Verified(c, s, h.block, o)
    && s'.chain == if o && VotedYes(h, k) then s.chain + [h.block] else s.chain
  }

  /** How a node votes: its chain is the producer's, so yes exactly if its own
      execution of the block ends in the state the producer claims. */
  lemma VotesByState(c: Codec, vs: seq<Key>, net: Net, h: Round, x: Packet, bound: nat)
    requires InRound(c, vs, net, h, x, bound) && x.message.Proposal?
    ensures var s := net.peers[x.target].ledger;
            Acceptable(c, s, h.block) <==> StateRoot(c, Executed(c, s, h.block).mem) == h.block.stateHash
  {
    VoteIsOpen(vs, net, h, x);
    assert LedgerShape(c, net.peers[x.target].ledger, bound);
    BlockFits(c, net.peers, h, net.peers[x.target].ledger, bound);
    assert MarkAll(c, h.block.transactions) == Marked(c, h.block).transactions == h.block.transactions;
  }

  /** Two nodes that wait with a yes vote have executed to the same accounts,
      whatever each of them held before the round, or two byte strings with one
      digest are computed. */
  lemma YesVotersAgree(c: Codec, vs: seq<Key>, n: int, net: Net, j: Key, k: Key)
    requires InvariantAt(c, vs, n, net) && net.round.Some? && c.RoundTrips() && PaddingApart(c)
    requires j in net.peers && net.peers[j].cs.waiting && VotedYes(net.round.value, j)
    requires k in net.peers && net.peers[k].cs.waiting && VotedYes(net.round.value, k)
    requires var b := net.round.value.block;
             ComparableStates(c, Executed(c, net.peers[j].ledger, b).mem, Executed(c, net.peers[k].ledger, b).mem)
    ensures var b := net.round.value.block;
            var m, m' := Executed(c, net.peers[j].ledger, b).mem, Executed(c, net.peers[k].ledger, b).mem;
            m == m' || var (x, y) := StateCollision(c, m, m'); IsCollision(c.sha3, x, y)
  {
    hide Executed, StateCollision, ComparableStates, PaddingApart, LedgersFit, RoundInvariant;
    var bound: nat :| bound <= n && Invariant(c, vs, net, bound);
    var h := net.round.value;
    assert Acceptable(c, net.peers[j].ledger, h.block) && Acceptable(c, net.peers[k].ledger, h.block);
    SameBlockSameState(c, net.peers[j].ledger, net.peers[k].ledger, h.block);
  }

  lemma WaiterSettles(c: Codec, s: NodeState, b: Block, yes: bool, o: bool)
    requires CheckBlockInfo(s.info, b) && Marked(c, b) == b && (yes <==> Acceptable(c, s, b))
    ensures var t := Settle(c, s, C.Settlement(o, Some(b), if yes then Some(b) else None));
            t == Verified(c, s, b, o) && t.chain == if o && yes then s.chain + [b] else s.chain
  {
    SettleIsVerified(c, s, b, o);
  }

  lemma OutcomeFinalises(c: Codec, vs: seq<Key>, net: Net, h: Round, x: Packet, bound: nat)
    requires InRound(c, vs, net, h, x, bound) && x.message.Finality?
    ensures FinalisesOwnVote(c, vs, net, Delivered(c, vs, net, x), h, x.target, x.message.ok)
  {
    var k, p := x.target, net.peers[x.target];
    OutcomeIsAwaited(vs, net, h, x);
    assert LedgerShape(c, p.ledger, bound);
    BlockFits(c, net.peers, h, p.ledger, bound);
    assert VotedYes(h, k) <==> Acceptable(c, p.ledger, h.block);
    WaiterSettles(c, p.ledger, h.block, VotedYes(h, k), x.message.ok);
    OutcomeDelivered(c, vs, net, h, x);
  }

  lemma CountedOutcome(vs: seq<Key>, h: Round, votes: map<Key, bool>, j: Key)
    requires h.outcome.None?
    ensures var h' := CountedRound(vs, h, votes, j);
            && h'.block == h.block && h'.producer == h.producer && h'.votes == votes && h'.counted == h.counted + {j}
            && (h'.outcome.Some? ==> h'.outcome == Some(Carried(h')) && h'.counted == Voters(vs, h'))
  {
  }

  /** The last vote, counted by the node that settles with it. */
  lemma CountFinalises(c: Codec, vs: seq<Key>, net: Net, x: Packet, s: C.State, h': Round)
    requires x.target in net.peers && HasVoted(h', x.target)
    requires h'.outcome == Some(Carried(h')) && h'.counted == Voters(vs, h')
    requires Delivered(c, vs, net, x) ==
             CountedNet(vs, net, x, s, h', SettledLedger(c, net.peers[x.target], s, h'))
    requires var p, o := net.peers[x.target], Carried(h');
             var t := Settle(c, p.ledger, C.Settlement(o, s.accountCh, s.blockCh));
             && t == Verified(c, p.ledger, h'.block, o)
             && t.chain == if o && VotedYes(h', x.target) then p.ledger.chain + [h'.block] else p.ledger.chain
    ensures FinalisesOwnVote(c, vs, net, Delivered(c, vs, net, x), h', x.target, Carried(h'))
  {
    hide Delivered, Settle, Verified, Carried, Voters;
  }

  lemma VoteFinalises(c: Codec, vs: seq<Key>, net: Net, h: Round, x: Packet, bound: nat)
    requires InRound(c, vs, net, h, x, bound) && x.message.Vote? && x.target == h.aggregator
    requires CountedRound(vs, h, h.votes, x.from).outcome.Some?
    ensures var h' := CountedRound(vs, h, h.votes, x.from);
            FinalisesOwnVote(c, vs, net, Delivered(c, vs, net, x), h', x.target, h'.outcome.value)
  {
    hide Delivered, Settle, Verified, Carried, CountedNet, SettledLedger, CountedRound;
    var k, p, h' := x.target, net.peers[x.target], CountedRound(vs, h, h.votes, x.from);
    VoteArrives(vs, net, h, x);
    CountedOutcome(vs, h, h.votes, x.from);
    assert h.aggregator in Voters(vs, h);
    assert LedgerShape(c, p.ledger, bound);
    BlockFits(c, net.peers, h, p.ledger, bound);
    assert VotedYes(h, k) <==> Acceptable(c, p.ledger, h.block);
    WaiterSettles(c, p.ledger, h.block, VotedYes(h, k), h'.outcome.value);
    VoteDelivered(c, vs, net, h, x);
    CountFinalises(c, vs, net, x, p.cs, h');
  }

  lemma OwnVoteFinalises(c: Codec, vs: seq<Key>, net: Net, h: Round, x: Packet, bound: nat)
    requires InRound(c, vs, net, h, x, bound) && x.message.Proposal? && x.target == h.aggregator
    requires var ok := Acceptable(c, net.peers[x.target].ledger, h.block);
             CountedRound(vs, h, h.votes[x.target := ok], x.target).outcome.Some?
    ensures var ok := Acceptable(c, net.peers[x.target].ledger, h.block);
            var h' := CountedRound(vs, h, h.votes[x.target := ok], x.target);
            FinalisesOwnVote(c, vs, net, Delivered(c, vs, net, x), h', x.target, h'.outcome.value)
  {
    hide Delivered, Settle, Verified, Carried, CountedNet, SettledLedger, CountedRound;
    var k, p := x.target, net.peers[x.target];
    var ok := Acceptable(c, p.ledger, h.block);
    var s, h' := Informed(p.cs, h.block, ok), CountedRound(vs, h, h.votes[k := ok], k);
    VoteIsOpen(vs, net, h, x);
    assert LedgerShape(c, p.ledger, bound);
    BlockFits(c, net.peers, h, p.ledger, bound);
    WaiterSettles(c, p.ledger, h.block, ok, h'.outcome.value);
    OwnVoteDelivered(c, vs, net, h, x);
    CountedOutcome(vs, h, h.votes[k := ok], k);
    CountFinalises(c, vs, net, x, s, h');
  }

  lemma VoteSettles(c: Codec, vs: seq<Key>, net: Net, h: Round, x: Packet, bound: nat) returns (h': Round)
    requires InRound(c, vs, net, h, x, bound) && x.message.Vote?
    ensures Delivered(c, vs, net, x).round == Some(h')
    ensures var r := Reaction(c, net.peers[x.target], x.target, x.from, x.message);
            r.settled.Some? ==> FinalisesOwnVote(c, vs, net, Delivered(c, vs, net, x), h', x.target, r.settled.value.ok)
  {
    h' := h;
    if x.target != h.aggregator {
      VoteElsewhere(c, vs, net, h, x);
    } else {
      h' := CountedRound(vs, h, h.votes, x.from);
      VoteDelivered(c, vs, net, h, x);
      VoteArrives(vs, net, h, x);
      VoteReaction(c, vs, h, net.peers[x.target], x.from);
      if h'.outcome.Some? {
        VoteFinalises(c, vs, net, h, x, bound);
      }
    }
  }

  lemma ProposalSettles(c: Codec, vs: seq<Key>, net: Net, h: Round, x: Packet, bound: nat) returns (h': Round)
    requires InRound(c, vs, net, h, x, bound) && x.message.Proposal?
    ensures Delivered(c, vs, net, x).round == Some(h')
    ensures var r := Reaction(c, net.peers[x.target], x.target, x.from, x.message);
            r.settled.Some? ==> FinalisesOwnVote(c, vs, net, Delivered(c, vs, net, x), h', x.target, r.settled.value.ok)
  {
    hide FinalisesOwnVote, Acceptable, LedgerShape;
    var p := net.peers[x.target];
    var ok := Acceptable(c, p.ledger, h.block);
    VoteIsOpen(vs, net, h, x);
    assert LedgerShape(c, p.ledger, bound);
    BlockFits(c, net.peers, h, p.ledger, bound);
    if x.target != h.aggregator {
      h' := CastRound(h, x.target, ok);
      CastReaction(c, vs, h, x.target, p);
    } else {
      h' := CountedRound(vs, h, h.votes[x.target := ok], x.target);
      OwnVoteReaction(c, vs, h, p);
      OwnVoteDelivered(c, vs, net, h, x);
      if h'.outcome.Some? {
        OwnVoteFinalises(c, vs, net, h, x, bound);
      }
    }
  }

  /** Whenever a delivery makes a node finalise, it finalises its own vote. */
  lemma FinalityIsOwnVote(c: Codec, vs: seq<Key>, net: Net, h: Round, x: Packet, bound: nat)
    requires InRound(c, vs, net, h, x, bound)
    requires Reaction(c, net.peers[x.target], x.target, x.from, x.message).settled.Some?
    ensures var t := Delivered(c, vs, net, x);
            t.round.Some? &&
            FinalisesOwnVote(c, vs, net, t, t.round.value, x.target,
                             Reaction(c, net.peers[x.target], x.target, x.from, x.message).settled.value.ok)
  {
    match x.message {
      case Proposal(_) =>
        var h' := ProposalSettles(c, vs, net, h, x, bound);
      case Vote(_) =>
        var h' := VoteSettles(c, vs, net, h, x, bound);
      case Finality(ok) =>
        OutcomeIsAwaited(vs, net, h, x);
        OutcomeDelivered(c, vs, net, h, x);
        OutcomeFinalises(c, vs, net, h, x, bound);
    }
  }

  /** A finality message never finds its receiver without a timer to stop, so no
      handler is ever stuck on finalizeCh; and when nothing is on its way any more
      the round is over for everybody. */
  lemma FinalityNeverBlocks(c: Codec, vs: seq<Key>, net: Net, h: Round, x: Packet, bound: nat)
    requires InRound(c, vs, net, h, x, bound) && x.message.Finality?
    ensures net.peers[x.target].cs.timer && Reaction(c, net.peers[x.target], x.target, x.from, x.message).settled.Some?
  {
    OutcomeIsAwaited(vs, net, h, x);
  }

  ghost function ReceiverReaction(c: Codec, net: Net, x: Packet): C.Reaction
    requires x.target in net.peers
  {
    Reaction(c, net.peers[x.target], x.target, x.from, x.message)
  }

  lemma DeliveredRound(c: Codec, vs: seq<Key>, net: Net, x: Packet)
    requires x.target in net.peers && net.round.Some?
    ensures var t, p := Delivered(c, vs, net, x), net.peers[x.target];
            && t.round == Some(Noted(c, net.round.value, p, x.target, x.from, x.message))
            && t.peers == net.peers[x.target := Reacted(c, p, ReceiverReaction(c, net, x))]
  {
  }

  /** Only a node's own verdict on the proposal enters the votes. */
  lemma NotedVotes(c: Codec, h: Round, p: Peer, k: Key, from: Key, m: C.Message)
    ensures var h' := Noted(c, h, p, k, from, m);
            && h'.base == h.base && h'.block == h.block && h'.producer == h.producer
            && (h'.votes == h.votes || (m.Proposal? && h'.votes == h.votes[k := Acceptable(c, p.ledger, m.block)]))
  {
    hide Reaction, Acceptable;
  }

  lemma DeliversInRound(c: Codec, vs: seq<Key>, n: int, net: Net, x: Packet) returns (b: nat)
    requires IsCommittee(c, vs) && InvariantAt(c, vs, n, net) && n + 1 < TWO64
    requires x in net.flight && x.target in net.peers
    ensures net.round.Some? && InRound(c, vs, net, net.round.value, x, b)
  {
    b :| b <= n && Invariant(c, vs, net, b);
  }

  lemma FinalisesAt(c: Codec, vs: seq<Key>, n: int, net: Net, x: Packet)
    requires IsCommittee(c, vs) && InvariantAt(c, vs, n, net) && n + 1 < TWO64
    requires x in net.flight && x.target in net.peers && ReceiverReaction(c, net, x).settled.Some?
    ensures var t := Delivered(c, vs, net, x);
            t.round.Some? &&
            FinalisesOwnVote(c, vs, net, t, t.round.value, x.target, ReceiverReaction(c, net, x).settled.value.ok)
  {
    var b := DeliversInRound(c, vs, n, net, x);
    FinalityIsOwnVote(c, vs, net, net.round.value, x, b);
  }

  lemma DeliverStep(c: Codec, vs: seq<Key>, net: Net, x: Packet, t: Net)
    requires IsNetStep(c, vs, net, Deliver(x), t)
    ensures x in net.flight && x.target in net.peers && t == Delivered(c, vs, net, x) && x.target in t.peers
  {
  }

  /** In every execution, a node that finalises settles the block it verified
      itself, with the outcome a strict majority of all voters gave. */
  lemma NodesFinaliseOwnVotes(
      c: Codec, vs: seq<Key>, bound: nat, nets: seq<Net>, events: seq<NetEvent>, i: nat, x: Packet)
    requires IsCommittee(c, vs) && IsExecution(c, vs, bound, nets, events)
    requires i < |events| && bound + |events| + 1 < TWO64 && events[i] == Deliver(x)
    requires x.target in nets[i].peers && ReceiverReaction(c, nets[i], x).settled.Some?
    ensures var t := nets[i + 1];
            && t.round.Some? && x.target in t.peers
            && FinalisesOwnVote(c, vs, nets[i], t, t.round.value, x.target,
                                ReceiverReaction(c, nets[i], x).settled.value.ok)
  {
    ExecutionsKeep(c, vs, bound, nets, events, i);
    DeliverStep(c, vs, nets[i], x, nets[i + 1]);
    FinalisesAt(c, vs, bound + i, nets[i], x);
  }

  lemma DoneAt(c: Codec, vs: seq<Key>, n: int, net: Net, k: Key)
    requires InvariantAt(c, vs, n, net) && net.flight == {} && k in net.peers
    ensures Resting(net.peers[k].cs)
    ensures net.round.Some? ==> net.peers[k].cs.validators == []
  {
    var b: nat :| b <= n && Invariant(c, vs, net, b);
    PeerAtRest(c, vs, net, k, b);
    if net.round.Some? {
      RoundCompletes(vs, net, net.round.value, k);
    }
  }

  /** In every execution, once no message is on its way any more nobody is left
      waiting for an outcome, and after a round nobody is listed for the next. */
  lemma QuietMeansDone(
      c: Codec, vs: seq<Key>, bound: nat, nets: seq<Net>, events: seq<NetEvent>, i: nat, k: Key)
    requires IsCommittee(c, vs) && IsExecution(c, vs, bound, nets, events)
    requires i <= |events| && bound + |events| + 1 < TWO64 && k in nets[i].peers && nets[i].flight == {}
    ensures Resting(nets[i].peers[k].cs)
    ensures nets[i].round.Some? ==> nets[i].peers[k].cs.validators == []
  {
    ExecutionsKeep(c, vs, bound, nets, events, i);
    DoneAt(c, vs, bound + i, nets[i], k);
  }
}
