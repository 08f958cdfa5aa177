/** The consensus services of a fixed committee and the messages between them.
    Messages arrive in any order within their round and never after it; nobody
    times out, leaves, or restarts. */
module Network {
  import opened Common
  import opened Records
  import opened PowersOfTwo
  import opened Sorting
  import opened Ledger
  import opened Blocks
  import opened Blockchains
  import opened Runs
  import C = Consensus

  datatype Peer = Peer(ledger: NodeState, cs: C.State)

  datatype Packet = Packet(from: Key, target: Key, message: C.Message)

  /** The round in progress, or the last one: what was proposed on which chain,
      who voted what, whose votes were counted, and what the aggregator made of
      them. This is history, no node reads it. */
  datatype Round = Round(
    producer: Key, aggregator: Key, base: seq<Block>, block: Block,
    votes: map<Key, bool>, counted: set<Key>, outcome: Option<bool>)

  datatype Net = Net(peers: map<Key, Peer>, flight: set<Packet>, round: Option<Round>)

  datatype NetEvent =
    | Decide(node: Key, arrival: seq<Key>, sorted: seq<Key>)
    | ProposeBy(node: Key, txs: seq<Transaction>, signature: Bytes, timestamp: int64)
    | Deliver(packet: Packet)
    | SyncFrom(node: Key, source: Key)

  /** The committee in the order in which everybody sorts it. */
  ghost predicate IsCommittee(c: Codec, vs: seq<Key>) {
    NoDuplicates(vs) && |vs| >= 2 && SortedBy(vs, C.KeyRank(c)) && C.DistinctHashes(c, vs)
  }

  // ----- steps -----

  function Broadcast(vs: seq<Key>, from: Key, message: Option<C.Message>): set<Packet> {
    if message.None? then {} else set k | k in vs && k != from :: Packet(from, k, message.value)
  }

  /** What the goroutines waiting on the two channels do with the outcome. */
  ghost function Settle(c: Codec, s: NodeState, t: C.Settlement): NodeState {
    match t.account
    case None => s
    case Some(b) =>
      if !t.ok then s.(mem := Rejected(s.store, Executed(c, s, b)))
      else
        var pushed := s.(mem := Executed(c, s, b).mem,
                         store := Committed(c, s.generator, s.store, s.mem, b.transactions));
        match t.block
        case None => pushed
        case Some(x) =>
          pushed.(chain := s.chain + [Marked(c, x)], info := Advanced(s.info, x.info.hash))
  }

  /** When the channels hold what the own verdict put there, settling is exactly
      the verifier's round of Runs. */
  lemma SettleIsVerified(c: Codec, s: NodeState, b: Block, ok: bool)
    ensures Settle(c, s, C.Settlement(ok, if CheckBlockInfo(s.info, b) then Some(b) else None,
                                      if Acceptable(c, s, b) then Some(b) else None))
            == Verified(c, s, b, ok)
  {
  }

  ghost function Reaction(c: Codec, p: Peer, k: Key, from: Key, m: C.Message): C.Reaction {
    match m
    case Proposal(b) =>
      C.OnProposal(p.cs, k, from, b, CheckBlockInfo(p.ledger.info, b), Halts(c, p.ledger, b), Acceptable(c, p.ledger, b))
    case Vote(ok) => C.OnVote(p.cs, k, from, ok)
    case Finality(ok) => C.OnFinality(p.cs, from, ok)
  }

  ghost function Reacted(c: Codec, p: Peer, r: C.Reaction): Peer {
    Peer(if r.settled.Some? then Settle(c, p.ledger, r.settled.value) else p.ledger, r.state)
  }

  /** A round as one verifier sees it, whatever block its producer sent: it votes as
      its own verification says, nothing moves in its ledger before the outcome, and
      with the outcome the ledger takes the verifier's round of Runs; nobody is
      listed any more. A block that did not fit the chain, or did not pass, settles
      just as far as it got. */
  lemma OneNodeRound(c: Codec, p: Peer, k: Key, producer: Key, aggregator: Key, b: Block, outcome: bool)
    requires p.cs.producer == Some(producer) && p.cs.aggregator == Some(aggregator) && k != aggregator
    requires p.cs.blockCh.None? && !Halts(c, p.ledger, b)
    ensures var r := Reaction(c, p, k, producer, C.Proposal(b));
            var q := Reacted(c, p, r);
            var t := Reacted(c, q, Reaction(c, q, k, aggregator, C.Finality(outcome)));
            && r.sent == Some(C.Vote(Acceptable(c, p.ledger, b))) && q.ledger == p.ledger && q.cs.waiting
            && t.ledger == Verified(c, p.ledger, b, outcome) && C.IsCleared(q.cs, t.cs)
  {
    hide Acceptable, Verified, Settle, CheckBlockInfo, Halts;
    var ok, fits := Acceptable(c, p.ledger, b), CheckBlockInfo(p.ledger.info, b);
    C.ProposalHandled(p.cs, k, producer, b, fits, false, ok, producer);
    C.SettledIsCleared(Reaction(c, p, k, producer, C.Proposal(b)).state, k, aggregator, b, fits, false, outcome);
    SettleIsVerified(c, p.ledger, b, outcome);
  }

  ghost function Noted(c: Codec, h: Round, p: Peer, k: Key, from: Key, m: C.Message): Round {
    var g := match m {
      case Proposal(b) =>
        if p.cs.producer != Some(from) || Halts(c, p.ledger, b) then h
        else h.(votes := h.votes[k := Acceptable(c, p.ledger, b)],
                counted := if p.cs.aggregator == Some(k) then h.counted + {k} else h.counted)
      case Vote(_) =>
        if p.cs.aggregator != Some(k) || from !in p.cs.validators then h else h.(counted := h.counted + {from})
      case Finality(_) => h
    };
    match Reaction(c, p, k, from, m).sent
    case Some(Finality(o)) => g.(outcome := Some(o))
    case _ => g
  }

  ghost predicate Quiet(net: Net) {
    net.flight == {} && forall k :: k in net.peers ==> !net.peers[k].cs.waiting
  }

  ghost predicate SameHeights(net: Net) {
    forall j, k :: j in net.peers && k in net.peers ==>
      net.peers[j].ledger.info.nextHeight == net.peers[k].ledger.info.nextHeight
  }

  predicate IsReady(s: C.State) {
    s.producer.Some? && s.aggregator.Some?
  }

  ghost predicate NetEnabled(c: Codec, vs: seq<Key>, net: Net, e: NetEvent) {
    match e
    case Decide(k, arrival, sorted) =>
      // Gossip has settled: everybody has heard everybody, at one height.
      && k in net.peers && Quiet(net) && SameHeights(net)
      && NoDuplicates(arrival) && (forall j :: j in arrival <==> j in vs) && C.IsSorting(c, arrival, sorted)
      && sorted != []
    case ProposeBy(k, txs, _, _) =>
      && k in net.peers && Quiet(net)
      && (forall j :: j in net.peers ==> IsReady(net.peers[j].cs))
      && net.peers[k].cs.producer == Some(k)
      && net.peers[k].ledger.info.previous.Some? && IsPow2(|txs|)
    case Deliver(packet) =>
      packet in net.flight && packet.target in net.peers
    case SyncFrom(k, j) =>
      && k in net.peers && j in net.peers && !net.peers[k].cs.waiting
      && |net.peers[k].ledger.chain| < |net.peers[j].ledger.chain|
  }

  ghost function Delivered(c: Codec, vs: seq<Key>, net: Net, x: Packet): Net
    requires x.target in net.peers
  {
    var k, p := x.target, net.peers[x.target];
    var r := Reaction(c, p, k, x.from, x.message);
    Net(net.peers[k := Reacted(c, p, r)], net.flight - {x} + Broadcast(vs, k, r.sent),
        if net.round.None? then None else Some(Noted(c, net.round.value, p, k, x.from, x.message)))
  }

  ghost function DecidedNet(net: Net, k: Key, sorted: seq<Key>): Net
    requires k in net.peers && sorted != []
  {
    var p := net.peers[k];
    Net(net.peers[k := p.(cs := C.Decided(p.cs, sorted, p.ledger.info.nextHeight))], net.flight, None)
  }

  ghost function ProposedNet(vs: seq<Key>, net: Net, k: Key, b: Block): Net
    requires k in net.peers && net.peers[k].cs.aggregator.Some?
  {
    var p := net.peers[k];
    var r := C.Proposed(p.cs, b);
    Net(net.peers[k := p.(cs := r.state)], Broadcast(vs, k, r.sent),
        Some(Round(k, p.cs.aggregator.value, p.ledger.chain, b, map[], {}, None)))
  }

  ghost function SyncedNet(c: Codec, net: Net, k: Key, j: Key): Net
    requires k in net.peers && j in net.peers && |net.peers[k].ledger.chain| < |net.peers[j].ledger.chain|
  {
    var p := net.peers[k];
    var b := net.peers[j].ledger.chain[|p.ledger.chain|];
    net.(peers := net.peers[k := p.(ledger := Synced(c, p.ledger, b))])
  }

  ghost function NetAfter(c: Codec, vs: seq<Key>, net: Net, e: NetEvent): Net
    requires NetEnabled(c, vs, net, e)
  {
    match e
    case Decide(k, _, sorted) => DecidedNet(net, k, sorted)
    case ProposeBy(k, txs, signature, timestamp) =>
      ProposedNet(vs, net, k, NewBlock(c, net.peers[k].ledger, txs, k, signature, timestamp))
    case Deliver(packet) => Delivered(c, vs, net, packet)
    case SyncFrom(k, j) => SyncedNet(c, net, k, j)
  }

  /** The network at rest: nobody is in a round, no two stored chains fork and none
      is longer than `bound`. Memory and storage may hold anything, on every node
      something else. */
  ghost predicate IsStart(c: Codec, vs: seq<Key>, bound: nat, net: Net) {
    && net.flight == {} && net.round == None && net.peers.Keys == (set k | k in vs)
    && LedgersFit(c, net.peers, bound) && Agreement(net)
    && forall k :: k in net.peers ==> Resting(net.peers[k].cs) && Undecided(net.peers[k].cs)
  }

  ghost predicate IsNetStep(c: Codec, vs: seq<Key>, net: Net, e: NetEvent, t: Net) {
    NetEnabled(c, vs, net, e) && t == NetAfter(c, vs, net, e)
  }

  ghost predicate IsExecution(c: Codec, vs: seq<Key>, bound: nat, nets: seq<Net>, events: seq<NetEvent>) {
    && |nets| == |events| + 1 && IsStart(c, vs, bound, nets[0])
    && forall i {:trigger events[i]} :: 0 <= i < |events| ==> IsNetStep(c, vs, nets[i], events[i], nets[i + 1])
  }

  // ----- what a round looks like -----

  ghost function Voters(vs: seq<Key>, h: Round): set<Key> {
    (set k | k in vs) - {h.producer}
  }

  ghost function Yes(votes: map<Key, bool>, counted: set<Key>): set<Key> {
    set k | k in counted && k in votes && votes[k]
  }

  /** The outcome is a strict majority of all voters but the producer. */
  ghost predicate Carried(h: Round) {
    2 * |Yes(h.votes, h.counted)| > |h.counted|
  }

  ghost predicate RoundShape(vs: seq<Key>, h: Round) {
    && h.producer in vs && h.aggregator in vs && h.producer != h.aggregator
    && h.counted <= h.votes.Keys <= Voters(vs, h)
    && (h.aggregator in h.votes ==> h.aggregator in h.counted)
    && (h.outcome.Some? <==> h.counted == Voters(vs, h))
    && (h.outcome.Some? ==> h.outcome.value == Carried(h))
  }

  ghost predicate HasVoted(h: Round, k: Key) {
    k == h.producer || k in h.votes
  }

  ghost predicate VotedYes(h: Round, k: Key) {
    k == h.producer || (k in h.votes && h.votes[k])
  }

  predicate Unstarted(s: C.State) {
    !s.waiting && !s.timer && s.accountCh.None? && s.blockCh.None?
  }

  predicate Undecided(s: C.State) {
    s.producer.None? && s.aggregator.None?
  }

  ghost predicate InCommittee(vs: seq<Key>, h: Round, s: C.State) {
    s.validators == vs && s.producer == Some(h.producer) && s.aggregator == Some(h.aggregator)
  }

  ghost predicate CountsVotes(h: Round, k: Key, s: C.State) {
    if k == h.aggregator && h.outcome.None?
    then s.numVoted == |h.counted| && s.numVotedOk == |Yes(h.votes, h.counted)|
    else s.numVoted == s.numVotedOk == 0
  }

  ghost predicate YetToVote(vs: seq<Key>, h: Round, flight: set<Packet>, k: Key, p: Peer) {
    && Unstarted(p.cs) && InCommittee(vs, h, p.cs) && CountsVotes(h, k, p.cs)
    && p.ledger.chain == h.base
    && Packet(h.producer, k, C.Proposal(h.block)) in flight
  }

  ghost predicate WaitsForOutcome(vs: seq<Key>, h: Round, flight: set<Packet>, k: Key, p: Peer) {
    && p.cs.timer && InCommittee(vs, h, p.cs) && CountsVotes(h, k, p.cs)
    && p.ledger.chain == h.base
    && p.cs.accountCh == Some(h.block)
    && p.cs.blockCh == (if VotedYes(h, k) then Some(h.block) else None)
    && (h.outcome.Some? ==> k != h.aggregator && Packet(h.aggregator, k, C.Finality(h.outcome.value)) in flight)
  }

  ghost predicate HasSettled(h: Round, p: Peer) {
    && h.outcome.Some? && Resting(p.cs) && Undecided(p.cs) && p.cs.validators == []
    && (p.ledger.chain == h.base || (h.outcome.value && p.ledger.chain == h.base + [h.block]))
  }

  predicate Resting(s: C.State) {
    Unstarted(s) && s.numVoted == s.numVotedOk == 0
  }

  ghost predicate PeerShape(vs: seq<Key>, h: Round, flight: set<Packet>, k: Key, p: Peer) {
    if !HasVoted(h, k) then YetToVote(vs, h, flight, k, p)
    else if p.cs.waiting then WaitsForOutcome(vs, h, flight, k, p)
    else HasSettled(h, p)
  }

  ghost predicate PacketShape(vs: seq<Key>, h: Round, peers: map<Key, Peer>, x: Packet) {
    && x.from in vs && x.target in vs && x.from != x.target && x.target in peers
    && match x.message
       case Proposal(b) => x.from == h.producer && b == h.block && !HasVoted(h, x.target)
       case Vote(ok) =>
         && x.from in h.votes && h.votes[x.from] == ok && x.from != h.aggregator
         && (x.target == h.aggregator ==> x.from !in h.counted)
       case Finality(ok) => x.from == h.aggregator && h.outcome == Some(ok) && peers[x.target].cs.waiting
  }

  ghost predicate PeersFit(vs: seq<Key>, h: Round, flight: set<Packet>, peers: map<Key, Peer>) {
    forall k {:trigger PeerShape(vs, h, flight, k, peers[k])} :: k in peers ==> PeerShape(vs, h, flight, k, peers[k])
  }

  ghost predicate PacketsFit(vs: seq<Key>, h: Round, peers: map<Key, Peer>, flight: set<Packet>) {
    forall x {:trigger PacketShape(vs, h, peers, x)} :: x in flight ==> PacketShape(vs, h, peers, x)
  }

  /** A vote is counted or still on its way to the aggregator. */
  ghost predicate NoVoteLost(h: Round, flight: set<Packet>) {
    forall k :: k in h.votes && k !in h.counted ==>
      Packet(k, h.aggregator, C.Vote(h.votes[k])) in flight
  }

  ghost predicate RoundInvariant(vs: seq<Key>, net: Net, h: Round) {
    && RoundShape(vs, h)
    && PeersFit(vs, h, net.flight, net.peers)
    && PacketsFit(vs, h, net.peers, net.flight)
    && NoVoteLost(h, net.flight)
  }

  /** The block is sealed and fits on the chain it was proposed for, and whoever waits for the
      outcome voted as its own verification said. */
  ghost predicate HonestRound(c: Codec, peers: map<Key, Peer>, h: Round) {
    && IsPow2(|h.block.transactions|) && SealedBlock(c, h.block)
    && h.base != [] && h.block.info.height == |h.base| && Marked(c, h.block) == h.block
    && h.block.previousBlockHash == h.base[|h.base| - 1].info.hash
    && forall k {:trigger Acceptable(c, peers[k].ledger, h.block)} ::
         k in peers && HasVoted(h, k) && peers[k].cs.waiting ==>
         (VotedYes(h, k) <==> Acceptable(c, peers[k].ledger, h.block))
  }

  // ----- what the network looks like between rounds -----

  ghost predicate MarkedChain(c: Codec, chain: seq<Block>) {
    forall i :: 0 < i < |chain| ==> Marked(c, chain[i]) == chain[i]
  }

  ghost predicate LedgerShape(c: Codec, s: NodeState, bound: nat) {
    ChainInvariant(c, s) && MarkedChain(c, s.chain) && |s.chain| <= bound
  }

  ghost predicate LedgersFit(c: Codec, peers: map<Key, Peer>, bound: nat) {
    forall k {:trigger LedgerShape(c, peers[k].ledger, bound)} :: k in peers ==> LedgerShape(c, peers[k].ledger, bound)
  }

  ghost predicate PrefixComparable(a: seq<Block>, b: seq<Block>) {
    a <= b || b <= a
  }

  /** Agreement: no two nodes store chains that fork. */
  ghost predicate Agreement(net: Net) {
    forall j, k :: j in net.peers && k in net.peers ==>
      PrefixComparable(net.peers[j].ledger.chain, net.peers[k].ledger.chain)
  }

  ghost predicate DecidedAt(vs: seq<Key>, height: uint64, s: C.State) {
    vs != [] && s.validators == vs
    && s.producer == Some(C.Producer(vs, height)) && s.aggregator == Some(C.Aggregator(vs, height))
  }

  ghost predicate RestShape(vs: seq<Key>, p: Peer) {
    Resting(p.cs) && (Undecided(p.cs) || DecidedAt(vs, p.ledger.info.nextHeight, p.cs))
  }

  ghost predicate RestInvariant(vs: seq<Key>, net: Net) {
    && net.flight == {}
    && (forall k :: k in net.peers ==> RestShape(vs, net.peers[k]))
    && Agreement(net)
    && (SameHeights(net) || forall k :: k in net.peers ==> Undecided(net.peers[k].cs))
  }

  ghost predicate Invariant(c: Codec, vs: seq<Key>, net: Net, bound: nat) {
    && net.peers.Keys == (set k | k in vs)
    && LedgersFit(c, net.peers, bound)
    && match net.round
       case None => RestInvariant(vs, net)
       case Some(h) => RoundInvariant(vs, net, h) && HonestRound(c, net.peers, h)
  }
}
