/** What delivering one message does to its receiver, and that it keeps the
    invariant of the round and of every ledger. */
module Deliveries {
  import opened Common
  import opened Records
  import opened PowersOfTwo
  import opened Sorting
  import opened Ledger
  import opened Blocks
  import opened Blockchains
  import opened Runs
  import opened Network
  import opened Rounds
  import C = Consensus

  // ----- how each message is received -----

  lemma VoteElsewhere(c: Codec, vs: seq<Key>, net: Net, h: Round, x: Packet)
    requires RoundInvariant(vs, net, h) && x in net.flight && x.message.Vote? && x.target != h.aggregator
    ensures x.target in net.peers && var p := net.peers[x.target];
            && Reaction(c, p, x.target, x.from, x.message) == C.Reaction(p.cs, None, None)
            && Noted(c, h, p, x.target, x.from, x.message) == h
  {
    assert PacketShape(vs, h, net.peers, x);
    assert PeerShape(vs, h, net.flight, x.target, net.peers[x.target]);
  }

  /** The history once `j`'s vote is counted. */
  ghost function CountedRound(vs: seq<Key>, h: Round, votes: map<Key, bool>, j: Key): Round {
    var g := h.(votes := votes, counted := h.counted + {j});
    if g.counted == Voters(vs, h) then g.(outcome := Some(Carried(g))) else g
  }

  function WithCounts(s: C.State, voted: nat, ok: nat): C.State {
    s.(numVoted := voted, numVotedOk := ok)
  }

  /** What the aggregator does with the vote it counts. */
  ghost predicate IsCounting(vs: seq<Key>, s: C.State, h': Round, r: C.Reaction) {
    match h'.outcome
    case None => r == C.Reaction(WithCounts(s, |h'.counted|, |Yes(h'.votes, h'.counted)|), None, None)
    case Some(o) =>
      && r.sent == Some(C.Finality(o)) && r.state == C.Reset(s)
      && r.settled == Some(C.Settlement(o, s.accountCh, s.blockCh))
  }

  lemma CountingReaction(c: Codec, vs: seq<Key>, h: Round, s: C.State, votes: map<Key, bool>, j: Key)
    requires IsCommittee(c, vs) && h.producer in vs && h.counted <= Voters(vs, h) && h.outcome.None?
    requires InCommittee(vs, h, s) && CountsVotes(h, h.aggregator, s)
    requires OneMoreCounted(vs, h, h.(votes := votes, counted := h.counted + {j}), j)
    requires h.counted + {j} == Voters(vs, h) ==> s.timer
    ensures IsCounting(vs, s, CountedRound(vs, h, votes, j), C.Aggregated(s, h.aggregator, votes[j]))
  {
    CountStep(c, vs, h, h.(votes := votes, counted := h.counted + {j}), s, j);
  }

  lemma VoteArrives(vs: seq<Key>, net: Net, h: Round, x: Packet)
    requires RoundInvariant(vs, net, h) && x in net.flight && x.message.Vote? && x.target == h.aggregator
    ensures x.target in net.peers && x.from in Voters(vs, h) && x.from != h.aggregator && x.from in vs
    ensures x.from in h.votes && x.from !in h.counted && h.votes[x.from] == x.message.ok && h.outcome.None?
    ensures var p := net.peers[x.target];
            && InCommittee(vs, h, p.cs) && CountsVotes(h, h.aggregator, p.cs)
            && (if HasVoted(h, x.target) then p.cs.waiting && WaitsForOutcome(vs, h, net.flight, x.target, p)
                else YetToVote(vs, h, net.flight, x.target, p))
  {
    assert PacketShape(vs, h, net.peers, x);
    assert PeerShape(vs, h, net.flight, x.target, net.peers[x.target]);
    assert x.from !in h.counted && x.from in Voters(vs, h);
  }

  /** The outcome that goes into the history is the one that was broadcast. */
  lemma CountingIsNoted(vs: seq<Key>, s: C.State, h: Round, votes: map<Key, bool>, j: Key, r: C.Reaction)
    requires h.outcome.None? && IsCounting(vs, s, CountedRound(vs, h, votes, j), r)
    ensures CountedRound(vs, h, votes, j) ==
            var g := h.(votes := votes, counted := h.counted + {j});
            match r.sent case Some(Finality(o)) => g.(outcome := Some(o)) case _ => g
  {
  }

  lemma VoteIsAggregated(c: Codec, vs: seq<Key>, h: Round, p: Peer, j: Key, ok: bool)
    requires InCommittee(vs, h, p.cs) && j in vs
    ensures var r := C.Aggregated(p.cs, h.aggregator, ok);
            && Reaction(c, p, h.aggregator, j, C.Vote(ok)) == r
            && Noted(c, h, p, h.aggregator, j, C.Vote(ok)) ==
               var g := h.(counted := h.counted + {j});
               match r.sent case Some(Finality(o)) => g.(outcome := Some(o)) case _ => g
  {
  }

  lemma VoteReaction(c: Codec, vs: seq<Key>, h: Round, p: Peer, j: Key)
    requires IsCommittee(c, vs) && RoundShape(vs, h) && h.outcome.None?
    requires InCommittee(vs, h, p.cs) && CountsVotes(h, h.aggregator, p.cs)
    requires j in Voters(vs, h) && j in vs && j in h.votes && j !in h.counted
    requires HasVoted(h, h.aggregator) ==> p.cs.timer
    ensures var h', m := CountedRound(vs, h, h.votes, j), C.Vote(h.votes[j]);
            && Noted(c, h, p, h.aggregator, j, m) == h'
            && IsCounting(vs, p.cs, h', Reaction(c, p, h.aggregator, j, m))
  {
    if h.counted + {j} == Voters(vs, h) {
      assert h.aggregator in Voters(vs, h);
    }
    CountingReaction(c, vs, h, p.cs, h.votes, j);
    VoteIsAggregated(c, vs, h, p, j, h.votes[j]);
    CountingIsNoted(vs, p.cs, h, h.votes, j, C.Aggregated(p.cs, h.aggregator, h.votes[j]));
  }

  /** The fields after the own verdict, and before the own vote is counted. */
  lemma ProposalReaction(c: Codec, vs: seq<Key>, h: Round, k: Key, p: Peer)
    requires RoundShape(vs, h) && Unstarted(p.cs) && InCommittee(vs, h, p.cs)
    requires IsPow2(|h.block.transactions|) && CheckBlockInfo(p.ledger.info, h.block)
    ensures var ok := Acceptable(c, p.ledger, h.block);
            Reaction(c, p, k, h.producer, C.Proposal(h.block)) == C.Voted(Informed(p.cs, h.block, ok), k, ok)
  {
  }

  lemma CastReaction(c: Codec, vs: seq<Key>, h: Round, k: Key, p: Peer)
    requires RoundShape(vs, h) && Unstarted(p.cs) && InCommittee(vs, h, p.cs) && k != h.aggregator
    requires IsPow2(|h.block.transactions|) && CheckBlockInfo(p.ledger.info, h.block)
    ensures var ok, m := Acceptable(c, p.ledger, h.block), C.Proposal(h.block);
            var r := Reaction(c, p, k, h.producer, m);
            && r.sent == Some(C.Vote(ok)) && r.settled.None?
            && r.state == Informed(p.cs, h.block, ok).(badPeers := r.state.badPeers)
            && Noted(c, h, p, k, h.producer, m) == CastRound(h, k, ok)
  {
    ProposalReaction(c, vs, h, k, p);
  }

  lemma OwnVoteIsAggregated(c: Codec, vs: seq<Key>, h: Round, p: Peer)
    requires RoundShape(vs, h) && Unstarted(p.cs) && InCommittee(vs, h, p.cs)
    requires IsPow2(|h.block.transactions|) && CheckBlockInfo(p.ledger.info, h.block)
    ensures var k, ok, m := h.aggregator, Acceptable(c, p.ledger, h.block), C.Proposal(h.block);
            var r := C.Aggregated(Informed(p.cs, h.block, ok), k, ok);
            && Reaction(c, p, k, h.producer, m) == r
            && Noted(c, h, p, k, h.producer, m) ==
               var g := h.(votes := h.votes[k := ok], counted := h.counted + {k});
               match r.sent case Some(Finality(o)) => g.(outcome := Some(o)) case _ => g
  {
    ProposalReaction(c, vs, h, h.aggregator, p);
  }

  lemma OwnVoteReaction(c: Codec, vs: seq<Key>, h: Round, p: Peer)
    requires IsCommittee(c, vs) && RoundShape(vs, h) && h.outcome.None? && !HasVoted(h, h.aggregator)
    requires Unstarted(p.cs) && InCommittee(vs, h, p.cs) && CountsVotes(h, h.aggregator, p.cs)
    requires IsPow2(|h.block.transactions|) && CheckBlockInfo(p.ledger.info, h.block)
    ensures var k, ok, m := h.aggregator, Acceptable(c, p.ledger, h.block), C.Proposal(h.block);
            var h' := CountedRound(vs, h, h.votes[k := ok], k);
            && Noted(c, h, p, k, h.producer, m) == h'
            && IsCounting(vs, Informed(p.cs, h.block, ok), h', Reaction(c, p, k, h.producer, m))
  {
    hide Acceptable, Carried, CheckBlockInfo;
    var k, ok := h.aggregator, Acceptable(c, p.ledger, h.block);
    var s := Informed(p.cs, h.block, ok);
    CountingReaction(c, vs, h, s, h.votes[k := ok], k);
    OwnVoteIsAggregated(c, vs, h, p);
    CountingIsNoted(vs, s, h, h.votes[k := ok], k, C.Aggregated(s, k, ok));
  }

  // ----- what a delivery keeps -----

  /** The aggregator after a vote that was not the last. */
  lemma StillCounting(
      vs: seq<Key>, h: Round, h': Round, flight: set<Packet>, flight': set<Packet>, p: Peer, x: Packet)
    requires h.outcome.None? && h'.outcome.None? && Continues(h, h') && h'.votes == h.votes
    requires x.message.Vote? && flight' == flight - {x}
    requires if HasVoted(h, h.aggregator) then p.cs.waiting && WaitsForOutcome(vs, h, flight, h.aggregator, p)
             else YetToVote(vs, h, flight, h.aggregator, p)
    ensures PeerShape(vs, h', flight', h.aggregator,
                      p.(cs := WithCounts(p.cs, |h'.counted|, |Yes(h'.votes, h'.counted)|)))
  {
  }

  lemma NowCounting(vs: seq<Key>, h: Round, h': Round, flight: set<Packet>, flight': set<Packet>, p: Peer, ok: bool)
    requires h.outcome.None? && h'.outcome.None? && Continues(h, h') && h'.votes == h.votes[h.aggregator := ok]
    requires YetToVote(vs, h, flight, h.aggregator, p) && h.aggregator != h.producer
    ensures PeerShape(vs, h', flight', h.aggregator,
                      p.(cs := WithCounts(Informed(p.cs, h.block, ok), |h'.counted|, |Yes(h'.votes, h'.counted)|)))
  {
  }

  /** The outcome either leaves the chain as it was proposed on, or adds the block. */
  ghost predicate SettledOn(h: Round, o: bool, t: NodeState) {
    t.chain == h.base || (o && t.chain == h.base + [h.block])
  }

  lemma DeliverVoteElsewhere(c: Codec, vs: seq<Key>, net: Net, h: Round, x: Packet)
    requires RoundInvariant(vs, net, h) && net.round == Some(h)
    requires x in net.flight && x.message.Vote? && x.target != h.aggregator && x.target in net.peers
    ensures Delivered(c, vs, net, x) == net.(flight := net.flight - {x})
    ensures RoundInvariant(vs, Delivered(c, vs, net, x), h)
  {
    VoteElsewhere(c, vs, net, h, x);
    var p := net.peers[x.target];
    assert net.peers[x.target := p] == net.peers;
    assert net.flight - {x} + {} == net.flight - {x};
    IgnoredKeeps(vs, net, h, x);
  }

  /** The net after the aggregator has counted `j`'s vote; `t` is its ledger once
      it has settled. */
  ghost function CountedNet(vs: seq<Key>, net: Net, x: Packet, s: C.State, h': Round, t: NodeState): Net
    requires x.target in net.peers
  {
    var p, k := net.peers[x.target], x.target;
    match h'.outcome
    case None =>
      Net(net.peers[k := p.(cs := WithCounts(s, |h'.counted|, |Yes(h'.votes, h'.counted)|))],
          net.flight - {x}, Some(h'))
    case Some(o) =>
      Net(net.peers[k := Peer(t, C.Reset(s))], net.flight - {x} + Broadcast(vs, k, Some(C.Finality(o))), Some(h'))
  }

  ghost function SettledLedger(c: Codec, p: Peer, s: C.State, h': Round): NodeState {
    if h'.outcome.None? then p.ledger
    else Settle(c, p.ledger, C.Settlement(h'.outcome.value, s.accountCh, s.blockCh))
  }

  lemma CountDelivered(c: Codec, vs: seq<Key>, net: Net, h: Round, x: Packet, s: C.State, h': Round)
    requires x.target in net.peers && net.round == Some(h)
    requires var p := net.peers[x.target];
             && Noted(c, h, p, x.target, x.from, x.message) == h'
             && IsCounting(vs, s, h', Reaction(c, p, x.target, x.from, x.message))
    ensures Delivered(c, vs, net, x) ==
            CountedNet(vs, net, x, s, h', SettledLedger(c, net.peers[x.target], s, h'))
  {
    assert net.flight - {x} + {} == net.flight - {x};
  }

  lemma VoteDelivered(c: Codec, vs: seq<Key>, net: Net, h: Round, x: Packet)
    requires IsCommittee(c, vs) && RoundInvariant(vs, net, h) && net.round == Some(h)
    requires x in net.flight && x.message.Vote? && x.target == h.aggregator && x.target in net.peers
    ensures var p, h' := net.peers[x.target], CountedRound(vs, h, h.votes, x.from);
            Delivered(c, vs, net, x) == CountedNet(vs, net, x, p.cs, h', SettledLedger(c, p, p.cs, h'))
  {
    VoteArrives(vs, net, h, x);
    var p, h' := net.peers[x.target], CountedRound(vs, h, h.votes, x.from);
    VoteReaction(c, vs, h, p, x.from);
    CountDelivered(c, vs, net, h, x, p.cs, h');
  }

  lemma VoteIsCarried(vs: seq<Key>, h: Round, x: Packet)
    requires x.message.Vote? && x.target == h.aggregator && x.from != h.aggregator
    requires x.from in h.votes && x.from !in h.counted && h.votes[x.from] == x.message.ok
    ensures CarriesVote(h, CountedRound(vs, h, h.votes, x.from), x, x.from)
  {
    assert x == Packet(x.from, h.aggregator, C.Vote(h.votes[x.from]));
  }

  lemma VoteCountedKeeps(vs: seq<Key>, net: Net, h: Round, x: Packet)
    requires RoundInvariant(vs, net, h) && x in net.flight && x.message.Vote?
    requires x.target == h.aggregator && x.target in net.peers
    requires CountedRound(vs, h, h.votes, x.from).outcome.None?
    ensures var h', p := CountedRound(vs, h, h.votes, x.from), net.peers[x.target];
            RoundInvariant(vs, CountedNet(vs, net, x, p.cs, h', p.ledger), h')
  {
    VoteArrives(vs, net, h, x);
    VoteIsCarried(vs, h, x);
    var p, h' := net.peers[x.target], CountedRound(vs, h, h.votes, x.from);
    StillCounting(vs, h, h', net.flight, net.flight - {x}, p, x);
    CountKeeps(vs, net, h, CountedNet(vs, net, x, p.cs, h', p.ledger), h', x, x.from);
  }

  /** The aggregator's own vote is among the last n - 1, so it has settled. */
  lemma LastVoteDecides(vs: seq<Key>, net: Net, h: Round, x: Packet, s: C.State, h': Round, t: NodeState)
    requires RoundShape(vs, h) && h.outcome.None? && x.target == h.aggregator && x.target in net.peers
    requires Continues(h, h') && h'.counted == Voters(vs, h) && h'.outcome == Some(Carried(h'))
    requires h'.counted <= h'.votes.Keys && SettledOn(h, h'.outcome.value, t)
    ensures DecidesOutcome(vs, net, h, CountedNet(vs, net, x, s, h', t), h', x)
  {
    assert h.aggregator in Voters(vs, h);
    assert HasSettled(h', Peer(t, C.Reset(s)));
  }

  lemma VoteDecidesKeeps(vs: seq<Key>, net: Net, h: Round, x: Packet, t: NodeState)
    requires RoundInvariant(vs, net, h) && (forall k :: k in vs <==> k in net.peers)
    requires x in net.flight && x.message.Vote? && x.target == h.aggregator && x.target in net.peers
    requires CountedRound(vs, h, h.votes, x.from).outcome.Some?
    requires SettledOn(h, CountedRound(vs, h, h.votes, x.from).outcome.value, t)
    ensures var h' := CountedRound(vs, h, h.votes, x.from);
            RoundInvariant(vs, CountedNet(vs, net, x, net.peers[x.target].cs, h', t), h')
  {
    VoteArrives(vs, net, h, x);
    VoteIsCarried(vs, h, x);
    var p, h' := net.peers[x.target], CountedRound(vs, h, h.votes, x.from);
    LastVoteDecides(vs, net, h, x, p.cs, h', t);
    DecideOutcome(vs, net, h, CountedNet(vs, net, x, p.cs, h', t), h', x, x.from);
  }

  lemma CastDelivered(c: Codec, vs: seq<Key>, net: Net, h: Round, x: Packet) returns (s: C.State)
    requires RoundShape(vs, h) && net.round == Some(h) && x.target in net.peers && x.target != h.aggregator
    requires x == Packet(h.producer, x.target, C.Proposal(h.block))
    requires YetToVote(vs, h, net.flight, x.target, net.peers[x.target])
    requires IsPow2(|h.block.transactions|) && CheckBlockInfo(net.peers[x.target].ledger.info, h.block)
    ensures var p := net.peers[x.target];
            var ok := Acceptable(c, p.ledger, h.block);
            && s == Informed(p.cs, h.block, ok).(badPeers := s.badPeers)
            && Delivered(c, vs, net, x) == CastNet(vs, net, h, x, s, ok)
  {
    CastReaction(c, vs, h, x.target, net.peers[x.target]);
    s := Reaction(c, net.peers[x.target], x.target, x.from, x.message).state;
  }

  // The aggregator's own vote, cast on the proposal it is given.

  lemma OwnVoteDelivered(c: Codec, vs: seq<Key>, net: Net, h: Round, x: Packet)
    requires IsCommittee(c, vs) && RoundShape(vs, h) && h.outcome.None? && !HasVoted(h, h.aggregator)
    requires net.round == Some(h) && x.target in net.peers
    requires x == Packet(h.producer, h.aggregator, C.Proposal(h.block))
    requires YetToVote(vs, h, net.flight, x.target, net.peers[x.target])
    requires IsPow2(|h.block.transactions|) && CheckBlockInfo(net.peers[x.target].ledger.info, h.block)
    ensures var p, k := net.peers[x.target], x.target;
            var ok := Acceptable(c, p.ledger, h.block);
            var s, h' := Informed(p.cs, h.block, ok), CountedRound(vs, h, h.votes[k := ok], k);
            Delivered(c, vs, net, x) == CountedNet(vs, net, x, s, h', SettledLedger(c, p, s, h'))
  {
    var p, k := net.peers[x.target], x.target;
    var ok := Acceptable(c, p.ledger, h.block);
    OwnVoteReaction(c, vs, h, p);
    CountDelivered(c, vs, net, h, x, Informed(p.cs, h.block, ok), CountedRound(vs, h, h.votes[k := ok], k));
  }

  lemma OwnVoteIsCarried(vs: seq<Key>, h: Round, x: Packet, ok: bool)
    requires x == Packet(h.producer, h.aggregator, C.Proposal(h.block)) && h.aggregator !in h.counted
    requires h.aggregator !in h.votes
    ensures CarriesVote(h, CountedRound(vs, h, h.votes[h.aggregator := ok], h.aggregator), x, h.aggregator)
  {
  }

  lemma OwnVoteCountedKeeps(vs: seq<Key>, net: Net, h: Round, x: Packet, ok: bool)
    requires RoundInvariant(vs, net, h) && x in net.flight && x.message.Proposal?
    requires x.target == h.aggregator && x.target in net.peers
    requires CountedRound(vs, h, h.votes[x.target := ok], x.target).outcome.None?
    ensures var h', p := CountedRound(vs, h, h.votes[x.target := ok], x.target), net.peers[x.target];
            RoundInvariant(vs, CountedNet(vs, net, x, Informed(p.cs, h.block, ok), h', p.ledger), h')
  {
    VoteIsOpen(vs, net, h, x);
    OwnVoteIsCarried(vs, h, x, ok);
    var k, p := x.target, net.peers[x.target];
    var h' := CountedRound(vs, h, h.votes[k := ok], k);
    NowCounting(vs, h, h', net.flight, net.flight - {x}, p, ok);
    CountKeeps(vs, net, h, CountedNet(vs, net, x, Informed(p.cs, h.block, ok), h', p.ledger), h', x, k);
  }

  lemma OwnVoteDecidesKeeps(vs: seq<Key>, net: Net, h: Round, x: Packet, ok: bool, t: NodeState)
    requires RoundInvariant(vs, net, h) && (forall k :: k in vs <==> k in net.peers)
    requires x in net.flight && x.message.Proposal? && x.target == h.aggregator && x.target in net.peers
    requires CountedRound(vs, h, h.votes[x.target := ok], x.target).outcome.Some?
    requires SettledOn(h, CountedRound(vs, h, h.votes[x.target := ok], x.target).outcome.value, t)
    ensures var h', p := CountedRound(vs, h, h.votes[x.target := ok], x.target), net.peers[x.target];
            RoundInvariant(vs, CountedNet(vs, net, x, Informed(p.cs, h.block, ok), h', t), h')
  {
    VoteIsOpen(vs, net, h, x);
    OwnVoteIsCarried(vs, h, x, ok);
    var k, p := x.target, net.peers[x.target];
    var s, h' := Informed(p.cs, h.block, ok), CountedRound(vs, h, h.votes[k := ok], k);
    LastVoteDecides(vs, net, h, x, s, h', t);
    DecideOutcome(vs, net, h, CountedNet(vs, net, x, s, h', t), h', x, k);
  }

  // An outcome that reaches a node that waits for it.

  ghost function SettledNet(net: Net, x: Packet, t: NodeState): Net
    requires x.target in net.peers
  {
    net.(peers := net.peers[x.target := Peer(t, C.Reset(net.peers[x.target].cs))], flight := net.flight - {x})
  }

  lemma OutcomeDelivered(c: Codec, vs: seq<Key>, net: Net, h: Round, x: Packet)
    requires net.round == Some(h) && x.target in net.peers && x.message.Finality? && x.from == h.aggregator
    requires InCommittee(vs, h, net.peers[x.target].cs) && net.peers[x.target].cs.timer
    ensures var p := net.peers[x.target];
            Delivered(c, vs, net, x) ==
            SettledNet(net, x, Settle(c, p.ledger, C.Settlement(x.message.ok, p.cs.accountCh, p.cs.blockCh)))
  {
    assert net.flight - {x} + {} == net.flight - {x};
  }

  lemma OutcomeDeliveryKeeps(vs: seq<Key>, net: Net, h: Round, x: Packet, t: NodeState)
    requires RoundInvariant(vs, net, h) && x in net.flight && x.message.Finality? && x.target in net.peers
    requires SettledOn(h, x.message.ok, t)
    ensures RoundInvariant(vs, SettledNet(net, x, t), h)
  {
    OutcomeIsAwaited(vs, net, h, x);
    OutcomeKeeps(vs, net, h, SettledNet(net, x, t), x);
  }

  // ----- one delivery, with the ledgers -----

  /** A delivery to `k` took `net` to `t`, and the round from `h` to `h'`. */
  ghost predicate Kept(c: Codec, vs: seq<Key>, net: Net, t: Net, h: Round, h': Round, k: Key, bound: nat) {
    && t.round == Some(h') && RoundInvariant(vs, t, h') && Continues(h, h')
    && (forall i :: i != k ==> SameVote(h, h', i))
    && k in net.peers && k in t.peers && t.peers == net.peers[k := t.peers[k]]
    && LedgerShape(c, t.peers[k].ledger, bound + 1)
    && (HasVoted(h', k) && t.peers[k].cs.waiting ==>
          (VotedYes(h', k) <==> Acceptable(c, t.peers[k].ledger, h.block)))
  }

  lemma LedgersKeep(c: Codec, peers: map<Key, Peer>, peers': map<Key, Peer>, k: Key, bound: nat)
    requires LedgersFit(c, peers, bound)
    requires k in peers && k in peers' && peers' == peers[k := peers'[k]] && LedgerShape(c, peers'[k].ledger, bound + 1)
    ensures LedgersFit(c, peers', bound + 1)
  {
    forall j | j in peers'
      ensures LedgerShape(c, peers'[j].ledger, bound + 1)
    {
      if j != k {
        assert LedgerShape(c, peers[j].ledger, bound);
      }
    }
  }

  lemma HonestKeeps(c: Codec, peers: map<Key, Peer>, peers': map<Key, Peer>, h: Round, h': Round, k: Key)
    requires HonestRound(c, peers, h) && Continues(h, h') && forall i :: i != k ==> SameVote(h, h', i)
    requires k in peers && k in peers' && peers' == peers[k := peers'[k]]
    requires HasVoted(h', k) && peers'[k].cs.waiting ==>
               (VotedYes(h', k) <==> Acceptable(c, peers'[k].ledger, h.block))
    ensures HonestRound(c, peers', h')
  {
    forall j | j in peers' && HasVoted(h', j) && peers'[j].cs.waiting
      ensures VotedYes(h', j) <==> Acceptable(c, peers'[j].ledger, h'.block)
    {
      assert j != k ==> SameVote(h, h', j) && j in peers && HasVoted(h, j) && peers[j].cs.waiting;
    }
  }

  lemma KeptKeeps(c: Codec, vs: seq<Key>, net: Net, t: Net, h: Round, h': Round, k: Key, bound: nat)
    requires Invariant(c, vs, net, bound) && net.round == Some(h) && Kept(c, vs, net, t, h, h', k, bound)
    ensures Invariant(c, vs, t, bound + 1)
  {
    LedgersKeep(c, net.peers, t.peers, k, bound);
    HonestKeeps(c, net.peers, t.peers, h, h', k);
  }

  lemma BlockFits(c: Codec, peers: map<Key, Peer>, h: Round, s: NodeState, bound: nat)
    requires HonestRound(c, peers, h) && LedgerShape(c, s, bound) && s.chain == h.base
    ensures CheckBlockInfo(s.info, h.block)
  {
  }

  /** The channels of a node that waits hold the block, and the storing one only
      if the node's own verification accepted it. */
  ghost predicate Channelled(c: Codec, s: C.State, ledger: NodeState, b: Block) {
    && s.accountCh == Some(b) && (s.blockCh.None? || s.blockCh == Some(b))
    && (s.blockCh.Some? ==> Acceptable(c, ledger, b))
  }

  lemma SettlingKeeps(c: Codec, h: Round, p: Peer, s: C.State, o: bool, bound: nat)
    requires LedgerShape(c, p.ledger, bound) && bound + 1 < TWO64 && p.ledger.chain == h.base
    requires Marked(c, h.block) == h.block && Channelled(c, s, p.ledger, h.block)
    ensures var t := Settle(c, p.ledger, C.Settlement(o, s.accountCh, s.blockCh));
            LedgerShape(c, t, bound + 1) && SettledOn(h, o, t)
  {
    SettleChain(c, p.ledger, h.block, o, s.blockCh.Some?);
    SettleKeepsLedger(c, p.ledger, Settle(c, p.ledger, C.Settlement(o, s.accountCh, s.blockCh)),
                      h.block, o && s.blockCh.Some?, bound);
  }

  /** A delivery within a round, between nodes whose ledgers are in order. */
  ghost predicate InRound(c: Codec, vs: seq<Key>, net: Net, h: Round, x: Packet, bound: nat) {
    && IsCommittee(c, vs) && Invariant(c, vs, net, bound) && net.round == Some(h) && bound + 1 < TWO64
    && x in net.flight && x.target in net.peers
  }

  lemma LedgerGrows(c: Codec, s: NodeState, bound: nat)
    requires LedgerShape(c, s, bound)
    ensures LedgerShape(c, s, bound + 1)
  {
  }

  lemma ElsewhereKept(c: Codec, vs: seq<Key>, net: Net, h: Round, x: Packet, bound: nat)
    requires InRound(c, vs, net, h, x, bound) && x.message.Vote? && x.target != h.aggregator
    ensures Kept(c, vs, net, Delivered(c, vs, net, x), h, h, x.target, bound)
  {
    DeliverVoteElsewhere(c, vs, net, h, x);
    assert LedgerShape(c, net.peers[x.target].ledger, bound);
    LedgerGrows(c, net.peers[x.target].ledger, bound);
    assert net.peers == net.peers[x.target := net.peers[x.target]];
  }

  lemma CastIsKept(c: Codec, vs: seq<Key>, net: Net, h: Round, x: Packet, s: C.State, ok: bool, bound: nat)
    requires RoundInvariant(vs, net, h) && (forall k :: k in vs ==> k in net.peers)
    requires x in net.flight && x.message.Proposal? && x.target in net.peers && x.target != h.aggregator
    requires s == Informed(net.peers[x.target].cs, h.block, ok).(badPeers := s.badPeers)
    requires LedgerShape(c, net.peers[x.target].ledger, bound)
    requires ok <==> Acceptable(c, net.peers[x.target].ledger, h.block)
    ensures Kept(c, vs, net, CastNet(vs, net, h, x, s, ok), h, CastRound(h, x.target, ok), x.target, bound)
  {
    CastKeeps(vs, net, h, x, s, ok);
    LedgerGrows(c, net.peers[x.target].ledger, bound);
    VoteIsOpen(vs, net, h, x);
  }

  lemma CastKept(c: Codec, vs: seq<Key>, net: Net, h: Round, x: Packet, bound: nat) returns (h': Round)
    requires InRound(c, vs, net, h, x, bound) && x.message.Proposal? && x.target != h.aggregator
    ensures Kept(c, vs, net, Delivered(c, vs, net, x), h, h', x.target, bound)
  {
    var p := net.peers[x.target];
    var ok := Acceptable(c, p.ledger, h.block);
    assert LedgerShape(c, p.ledger, bound);
    VoteIsOpen(vs, net, h, x);
    BlockFits(c, net.peers, h, p.ledger, bound);
    var s := CastDelivered(c, vs, net, h, x);
    CastIsKept(c, vs, net, h, x, s, ok, bound);
    h' := CastRound(h, x.target, ok);
  }

  /** The ledger of the aggregator after a vote, and what it may have become. */
  lemma SettledLedgerKeeps(c: Codec, h: Round, p: Peer, s: C.State, h': Round, bound: nat)
    requires LedgerShape(c, p.ledger, bound) && bound + 1 < TWO64 && p.ledger.chain == h.base
    requires Marked(c, h.block) == h.block && (h'.outcome.Some? ==> Channelled(c, s, p.ledger, h.block))
    ensures LedgerShape(c, SettledLedger(c, p, s, h'), bound + 1)
    ensures h'.outcome.Some? ==> SettledOn(h, h'.outcome.value, SettledLedger(c, p, s, h'))
  {
    if h'.outcome.Some? {
      SettlingKeeps(c, h, p, s, h'.outcome.value, bound);
    } else {
      LedgerGrows(c, p.ledger, bound);
    }
  }

  lemma CountIsKept(
      c: Codec, vs: seq<Key>, net: Net, h: Round, x: Packet, s: C.State, h': Round, t: NodeState, bound: nat)
    requires x.target in net.peers && Continues(h, h') && forall i :: i != x.target ==> SameVote(h, h', i)
    requires RoundInvariant(vs, CountedNet(vs, net, x, s, h', t), h') && LedgerShape(c, t, bound + 1)
    requires h'.outcome.None? ==> t == net.peers[x.target].ledger
    requires h'.outcome.None? && HasVoted(h', x.target) && s.waiting ==>
               (VotedYes(h', x.target) <==> Acceptable(c, t, h.block))
    ensures Kept(c, vs, net, CountedNet(vs, net, x, s, h', t), h, h', x.target, bound)
  {
  }

  lemma OwnVoteKept(c: Codec, vs: seq<Key>, net: Net, h: Round, x: Packet, bound: nat) returns (h': Round)
    requires InRound(c, vs, net, h, x, bound) && x.message.Proposal? && x.target == h.aggregator
    ensures Kept(c, vs, net, Delivered(c, vs, net, x), h, h', x.target, bound)
  {
    var p, k := net.peers[x.target], x.target;
    assert LedgerShape(c, p.ledger, bound);
    VoteIsOpen(vs, net, h, x);
    BlockFits(c, net.peers, h, p.ledger, bound);
    OwnVoteDelivered(c, vs, net, h, x);
    var ok := Acceptable(c, p.ledger, h.block);
    var s := Informed(p.cs, h.block, ok);
    h' := CountedRound(vs, h, h.votes[k := ok], k);
    SettledLedgerKeeps(c, h, p, s, h', bound);
    OwnVoteIsKept(c, vs, net, h, x, ok, SettledLedger(c, p, s, h'), bound);
  }

  lemma OwnVoteRoundKeeps(vs: seq<Key>, net: Net, h: Round, x: Packet, ok: bool, t: NodeState)
    requires RoundInvariant(vs, net, h) && (forall k :: k in vs <==> k in net.peers)
    requires x in net.flight && x.message.Proposal? && x.target == h.aggregator && x.target in net.peers
    requires var h' := CountedRound(vs, h, h.votes[x.target := ok], x.target);
             if h'.outcome.Some? then SettledOn(h, h'.outcome.value, t) else t == net.peers[x.target].ledger
    ensures var h' := CountedRound(vs, h, h.votes[x.target := ok], x.target);
            RoundInvariant(vs, CountedNet(vs, net, x, Informed(net.peers[x.target].cs, h.block, ok), h', t), h')
  {
    if CountedRound(vs, h, h.votes[x.target := ok], x.target).outcome.None? {
      OwnVoteCountedKeeps(vs, net, h, x, ok);
    } else {
      OwnVoteDecidesKeeps(vs, net, h, x, ok, t);
    }
  }

  lemma OwnVoteHistory(vs: seq<Key>, h: Round, k: Key, ok: bool)
    requires h.outcome.None? && k != h.producer
    ensures var h' := CountedRound(vs, h, h.votes[k := ok], k);
            Continues(h, h') && (forall i :: i != k ==> SameVote(h, h', i)) && (VotedYes(h', k) <==> ok)
  {
  }

  lemma OwnVoteIsKept(c: Codec, vs: seq<Key>, net: Net, h: Round, x: Packet, ok: bool, t: NodeState, bound: nat)
    requires RoundInvariant(vs, net, h) && (forall k :: k in vs <==> k in net.peers)
    requires x in net.flight && x.message.Proposal? && x.target == h.aggregator && x.target in net.peers
    requires LedgerShape(c, t, bound + 1) && (ok <==> Acceptable(c, net.peers[x.target].ledger, h.block))
    requires var h' := CountedRound(vs, h, h.votes[x.target := ok], x.target);
             if h'.outcome.Some? then SettledOn(h, h'.outcome.value, t) else t == net.peers[x.target].ledger
    ensures var h' := CountedRound(vs, h, h.votes[x.target := ok], x.target);
            Kept(c, vs, net, CountedNet(vs, net, x, Informed(net.peers[x.target].cs, h.block, ok), h', t),
                 h, h', x.target, bound)
  {
    var h' := CountedRound(vs, h, h.votes[x.target := ok], x.target);
    OwnVoteRoundKeeps(vs, net, h, x, ok, t);
    assert h.outcome.None? && x.target != h.producer by {
      VoteIsOpen(vs, net, h, x);
    }
    OwnVoteHistory(vs, h, x.target, ok);
    CountIsKept(c, vs, net, h, x, Informed(net.peers[x.target].cs, h.block, ok), h', t, bound);
  }

  /** The aggregator, when the last vote reaches it, waits with its own verdict in
      the channels. */
  lemma AggregatorChannelled(c: Codec, vs: seq<Key>, net: Net, h: Round, x: Packet)
    requires RoundInvariant(vs, net, h) && HonestRound(c, net.peers, h)
    requires x in net.flight && x.message.Vote? && x.target == h.aggregator && x.target in net.peers
    requires CountedRound(vs, h, h.votes, x.from).outcome.Some?
    ensures Channelled(c, net.peers[x.target].cs, net.peers[x.target].ledger, h.block)
  {
    VoteArrives(vs, net, h, x);
    assert h.aggregator in Voters(vs, h);
    WaiterChannelled(c, vs, net, h, x.target);
  }

  lemma VoteIsKept(c: Codec, vs: seq<Key>, net: Net, h: Round, x: Packet, t: NodeState, bound: nat)
    requires RoundInvariant(vs, net, h) && (forall k :: k in vs <==> k in net.peers)
    requires x in net.flight && x.message.Vote? && x.target == h.aggregator && x.target in net.peers
    requires LedgerShape(c, t, bound + 1)
    requires HasVoted(h, x.target) ==> (VotedYes(h, x.target) <==> Acceptable(c, net.peers[x.target].ledger, h.block))
    requires var h' := CountedRound(vs, h, h.votes, x.from);
             if h'.outcome.Some? then SettledOn(h, h'.outcome.value, t) else t == net.peers[x.target].ledger
    ensures var h' := CountedRound(vs, h, h.votes, x.from);
            Kept(c, vs, net, CountedNet(vs, net, x, net.peers[x.target].cs, h', t), h, h', x.target, bound)
  {
    hide CountedNet, Kept, Acceptable;
    var p, h' := net.peers[x.target], CountedRound(vs, h, h.votes, x.from);
    if h'.outcome.None? {
      VoteCountedKeeps(vs, net, h, x);
    } else {
      VoteDecidesKeeps(vs, net, h, x, t);
    }
    CountIsKept(c, vs, net, h, x, p.cs, h', t, bound);
  }

  lemma VoteKept(c: Codec, vs: seq<Key>, net: Net, h: Round, x: Packet, bound: nat) returns (h': Round)
    requires InRound(c, vs, net, h, x, bound) && x.message.Vote? && x.target == h.aggregator
    ensures Kept(c, vs, net, Delivered(c, vs, net, x), h, h', x.target, bound)
  {
    var p := net.peers[x.target];
    h' := CountedRound(vs, h, h.votes, x.from);
    assert LedgerShape(c, p.ledger, bound);
    VoteDelivered(c, vs, net, h, x);
    VoteArrives(vs, net, h, x);
    if h'.outcome.Some? {
      AggregatorChannelled(c, vs, net, h, x);
    }
    SettledLedgerKeeps(c, h, p, p.cs, h', bound);
    assert HasVoted(h, x.target) ==> (VotedYes(h, x.target) <==> Acceptable(c, p.ledger, h.block));
    VoteIsKept(c, vs, net, h, x, SettledLedger(c, p, p.cs, h'), bound);
  }

  lemma OutcomeIsKept(c: Codec, vs: seq<Key>, net: Net, h: Round, x: Packet, t: NodeState, bound: nat)
    requires RoundInvariant(vs, net, h) && net.round == Some(h)
    requires x in net.flight && x.message.Finality? && x.target in net.peers
    requires SettledOn(h, x.message.ok, t) && LedgerShape(c, t, bound + 1)
    ensures Kept(c, vs, net, SettledNet(net, x, t), h, h, x.target, bound)
  {
    OutcomeDeliveryKeeps(vs, net, h, x, t);
  }

  lemma WaiterChannelled(c: Codec, vs: seq<Key>, net: Net, h: Round, k: Key)
    requires k in net.peers && HasVoted(h, k) && net.peers[k].cs.waiting && HonestRound(c, net.peers, h)
    requires WaitsForOutcome(vs, h, net.flight, k, net.peers[k])
    ensures Channelled(c, net.peers[k].cs, net.peers[k].ledger, h.block)
  {
    assert VotedYes(h, k) <==> Acceptable(c, net.peers[k].ledger, h.block);
  }

  lemma OutcomeKept(c: Codec, vs: seq<Key>, net: Net, h: Round, x: Packet, bound: nat)
    requires InRound(c, vs, net, h, x, bound) && x.message.Finality?
    ensures Kept(c, vs, net, Delivered(c, vs, net, x), h, h, x.target, bound)
  {
    var p := net.peers[x.target];
    var t := Settle(c, p.ledger, C.Settlement(x.message.ok, p.cs.accountCh, p.cs.blockCh));
    OutcomeIsAwaited(vs, net, h, x);
    assert LedgerShape(c, t, bound + 1) && SettledOn(h, x.message.ok, t) by {
      assert LedgerShape(c, p.ledger, bound);
      WaiterChannelled(c, vs, net, h, x.target);
      SettlingKeeps(c, h, p, p.cs, x.message.ok, bound);
    }
    OutcomeIsKept(c, vs, net, h, x, t, bound);
    OutcomeDelivered(c, vs, net, h, x);
  }

  /** Whatever message is delivered to whomever, the invariant stays. */
  lemma DeliveryKeeps(c: Codec, vs: seq<Key>, net: Net, h: Round, x: Packet, bound: nat)
    requires InRound(c, vs, net, h, x, bound)
    ensures Invariant(c, vs, Delivered(c, vs, net, x), bound + 1)
  {
    var h' := h;
    match x.message {
      case Proposal(_) =>
        if x.target == h.aggregator {
          h' := OwnVoteKept(c, vs, net, h, x, bound);
        } else {
          h' := CastKept(c, vs, net, h, x, bound);
        }
      case Vote(_) =>
        if x.target == h.aggregator {
          h' := VoteKept(c, vs, net, h, x, bound);
        } else {
          ElsewhereKept(c, vs, net, h, x, bound);
        }
      case Finality(_) =>
        OutcomeKept(c, vs, net, h, x, bound);
    }
    KeptKeeps(c, vs, net, Delivered(c, vs, net, x), h, h', x.target, bound);
  }
}
