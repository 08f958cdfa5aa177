/** What each delivery within a round keeps: the shape of the round, of every
    peer and of every message on its way. */
module Rounds {
  import opened Common
  import opened Records
  import opened PowersOfTwo
  import opened Sorting
  import opened Ledger
  import opened Blocks
  import opened Blockchains
  import opened Runs
  import opened Network
  import C = Consensus

  // ----- ledgers -----

  lemma SettleChain(c: Codec, s: NodeState, b: Block, ok: bool, yes: bool)
    requires Marked(c, b) == b
    ensures var t := Settle(c, s, C.Settlement(ok, Some(b), if yes then Some(b) else None));
            && t.chain == (if ok && yes then s.chain + [b] else s.chain)
            && t.info == (if ok && yes then Advanced(s.info, b.info.hash) else s.info)
  {
  }

  lemma SettleKeepsLedger(c: Codec, s: NodeState, t: NodeState, b: Block, stored: bool, bound: nat)
    requires LedgerShape(c, s, bound) && (stored ==> Acceptable(c, s, b)) && Marked(c, b) == b && bound + 1 < TWO64
    requires t.chain == (if stored then s.chain + [b] else s.chain)
    requires t.info == (if stored then Advanced(s.info, b.info.hash) else s.info)
    ensures LedgerShape(c, t, bound + 1)
  {
    if stored {
      AcceptedKeepsChain(c, s, b);
      AppendKeepsMarks(c, s.chain, b);
    }
  }

  lemma AppendKeepsMarks(c: Codec, chain: seq<Block>, b: Block)
    requires MarkedChain(c, chain) && (chain != [] ==> Marked(c, b) == b)
    ensures MarkedChain(c, chain + [b])
  {
  }

  lemma SyncedChain(c: Codec, s: NodeState, b: Block)
    requires b.info.height != 0 ==> Marked(c, b) == b
    ensures Synced(c, s, b).chain == s.chain || Synced(c, s, b).chain == s.chain + [b]
  {
    hide Passes, Executed, Committed;
  }

  lemma SyncKeepsLedger(c: Codec, s: NodeState, t: NodeState, bound: nat)
    requires LedgerShape(c, s, bound) && LedgerShape(c, t, bound) && |s.chain| < |t.chain| && bound + 1 < TWO64
    ensures var b := t.chain[|s.chain|];
            && LedgerShape(c, Synced(c, s, b), bound)
            && (Synced(c, s, b).chain == s.chain || Synced(c, s, b).chain == s.chain + [b])
  {
    hide Synced, SealedBlock;
    var b := t.chain[|s.chain|];
    SyncedKeepsChain(c, s, b);
    SyncedChain(c, s, b);
    AppendKeepsMarks(c, s.chain, b);
  }

  // ----- counting -----

  lemma {:induction false} SetSize(keys: seq<Key>)
    requires NoDuplicates(keys)
    ensures |set k | k in keys| == |keys|
  {
    if keys != [] {
      var n := |keys| - 1;
      SetSize(keys[..n]);
      assert keys == keys[..n] + [keys[n]];
      assert (set k | k in keys) == (set k | k in keys[..n]) + {keys[n]};
    }
  }

  lemma SubsetOfSameSize(a: set<Key>, b: set<Key>)
    requires a <= b
    ensures |a| <= |b| && (|a| == |b| <==> a == b)
  {
    assert b == a + (b - a);
  }

  lemma VotersCount(c: Codec, vs: seq<Key>, h: Round)
    requires IsCommittee(c, vs) && h.producer in vs
    ensures |Voters(vs, h)| == |vs| - 1
  {
    SetSize(vs);
  }

  lemma YesCount(votes: map<Key, bool>, votes': map<Key, bool>, counted: set<Key>, j: Key)
    requires j !in counted && j in votes'
    requires forall k :: k in counted ==> k in votes && k in votes' && votes'[k] == votes[k]
    ensures |Yes(votes', counted + {j})| == |Yes(votes, counted)| + if votes'[j] then 1 else 0
  {
    if votes'[j] {
      assert Yes(votes', counted + {j}) == Yes(votes, counted) + {j};
    } else {
      assert Yes(votes', counted + {j}) == Yes(votes, counted);
    }
  }

  /** `j`'s vote is cast if it was not, and counted. */
  ghost predicate OneMoreCounted(vs: seq<Key>, h: Round, h': Round, j: Key) {
    && j !in h.counted && j in Voters(vs, h) && j in h'.votes
    && (forall k :: k in h.counted ==> k in h.votes && k in h'.votes && h'.votes[k] == h.votes[k])
    && h' == h.(votes := h'.votes, counted := h.counted + {j})
  }

  lemma CountGrows(c: Codec, vs: seq<Key>, h: Round, h': Round, j: Key)
    requires IsCommittee(c, vs) && h.producer in vs && h.counted <= Voters(vs, h) && OneMoreCounted(vs, h, h', j)
    ensures |h'.counted| == |h.counted| + 1
    ensures |Yes(h'.votes, h'.counted)| == |Yes(h.votes, h.counted)| + if h'.votes[j] then 1 else 0
    ensures |h'.counted| == |vs| - 1 <==> h'.counted == Voters(vs, h)
  {
    VotersCount(c, vs, h);
    YesCount(h.votes, h'.votes, h.counted, j);
    SubsetOfSameSize(h'.counted, Voters(vs, h));
  }

  /** One more vote at the aggregator: finality is broadcast with it exactly when
      it is the last one missing, and says whether the votes carried. */
  lemma CountStep(c: Codec, vs: seq<Key>, h: Round, h': Round, s: C.State, j: Key)
    requires IsCommittee(c, vs) && h.producer in vs && h.counted <= Voters(vs, h) && h.outcome.None?
    requires InCommittee(vs, h, s) && CountsVotes(h, h.aggregator, s) && OneMoreCounted(vs, h, h', j)
    ensures var t := s.(numVoted := |h'.counted|, numVotedOk := |Yes(h'.votes, h'.counted)|);
            C.Aggregated(s, h.aggregator, h'.votes[j]) ==
            if h'.counted == Voters(vs, h) then C.Finalized(t, Carried(h')).(sent := Some(C.Finality(Carried(h'))))
            else C.Reaction(t, None, None)
  {
    CountGrows(c, vs, h, h', j);
    C.LastVote(s, h.aggregator, h'.votes[j]);
  }

  // ----- what a delivery leaves alone -----

  /** The same round, further on. */
  ghost predicate Continues(h: Round, h': Round) {
    && h'.producer == h.producer && h'.aggregator == h.aggregator && h'.base == h.base && h'.block == h.block
    && (h.outcome.Some? ==> h'.outcome == h.outcome)
  }

  ghost predicate SameVote(h: Round, h': Round, j: Key) {
    (j in h.votes <==> j in h'.votes) && (j in h.votes ==> h'.votes[j] == h.votes[j])
  }

  ghost predicate SameCount(h: Round, h': Round) {
    h'.counted == h.counted && Yes(h'.votes, h'.counted) == Yes(h.votes, h.counted) && h'.outcome == h.outcome
  }

  lemma OtherPeer(vs: seq<Key>, h: Round, h': Round, flight: set<Packet>, flight': set<Packet>, j: Key, p: Peer)
    requires PeerShape(vs, h, flight, j, p) && Continues(h, h') && SameVote(h, h', j)
    requires j == h.aggregator ==> SameCount(h, h')
    requires forall x :: x in flight && x.target == j && !x.message.Vote? ==> x in flight'
    requires h'.outcome != h.outcome ==>
               j != h.aggregator && Packet(h.aggregator, j, C.Finality(h'.outcome.value)) in flight'
    ensures PeerShape(vs, h', flight', j, p)
  {
  }

  lemma OtherPacket(vs: seq<Key>, h: Round, h': Round, peers: map<Key, Peer>, peers': map<Key, Peer>, y: Packet)
    requires PacketShape(vs, h, peers, y) && Continues(h, h') && peers'.Keys == peers.Keys
    requires y.message.Proposal? ==> SameVote(h, h', y.target)
    requires y.message.Vote? ==> SameVote(h, h', y.from)
    requires y.message.Vote? && y.target == h.aggregator ==> (y.from in h'.counted ==> y.from in h.counted)
    requires y.message.Finality? ==> peers'[y.target].cs.waiting
    ensures PacketShape(vs, h', peers', y)
  {
  }

  /** A step of `k` keeps every peer's shape if it keeps `k`'s own. */
  lemma PeersKeep(vs: seq<Key>, net: Net, h: Round, net': Net, h': Round, k: Key)
    requires k in net.peers && k in net'.peers && net'.peers == net.peers[k := net'.peers[k]] && Continues(h, h')
    requires PeersFit(vs, h, net.flight, net.peers)
    requires PeerShape(vs, h', net'.flight, k, net'.peers[k])
    requires forall j :: j != k ==> SameVote(h, h', j)
    requires k != h.aggregator ==> SameCount(h, h')
    requires forall x :: x in net.flight && x.target != k && !x.message.Vote? ==> x in net'.flight
    requires h'.outcome != h.outcome ==>
               k == h.aggregator &&
               forall j :: j in net.peers && j != k ==>
                 Packet(h.aggregator, j, C.Finality(h'.outcome.value)) in net'.flight
    ensures PeersFit(vs, h', net'.flight, net'.peers)
  {
    forall j | j in net'.peers
      ensures PeerShape(vs, h', net'.flight, j, net'.peers[j])
    {
      if j != k {
        OtherPeer(vs, h, h', net.flight, net'.flight, j, net.peers[j]);
      }
    }
  }

  // ----- a vote that nobody counts -----

  lemma IgnoredPeers(vs: seq<Key>, net: Net, h: Round, x: Packet)
    requires PeersFit(vs, h, net.flight, net.peers)
    requires x.message.Vote?
    ensures PeersFit(vs, h, net.flight - {x}, net.peers)
  {
    forall j | j in net.peers
      ensures PeerShape(vs, h, net.flight - {x}, j, net.peers[j])
    {
      OtherPeer(vs, h, h, net.flight, net.flight - {x}, j, net.peers[j]);
    }
  }

  lemma IgnoredKeeps(vs: seq<Key>, net: Net, h: Round, x: Packet)
    requires RoundInvariant(vs, net, h) && x.message.Vote? && x.target != h.aggregator
    ensures RoundInvariant(vs, net.(flight := net.flight - {x}), h)
  {
    IgnoredPeers(vs, net, h, x);
  }

  // ----- a vote by a node that does not aggregate -----

  lemma VoteIsOpen(vs: seq<Key>, net: Net, h: Round, x: Packet)
    requires RoundInvariant(vs, net, h) && x in net.flight && x.message.Proposal? && x.target in net.peers
    ensures x.from == h.producer && x.message.block == h.block && x.target in Voters(vs, h)
    ensures h.outcome.None? && x.target !in h.votes && x.target !in h.counted
    ensures YetToVote(vs, h, net.flight, x.target, net.peers[x.target])
  {
    assert PacketShape(vs, h, net.peers, x);
    assert PeerShape(vs, h, net.flight, x.target, net.peers[x.target]);
    assert x.target !in h.counted;
  }

  /** The fields once the own verdict is in the channels. */
  function Informed(s: C.State, b: Block, ok: bool): C.State {
    s.(accountCh := Some(b), blockCh := if ok then Some(b) else None, waiting := true, timer := true)
  }

  ghost function CastRound(h: Round, k: Key, ok: bool): Round {
    h.(votes := h.votes[k := ok])
  }

  ghost function CastNet(vs: seq<Key>, net: Net, h: Round, x: Packet, s: C.State, ok: bool): Net
    requires x.target in net.peers
  {
    Net(net.peers[x.target := net.peers[x.target].(cs := s)],
        net.flight - {x} + Broadcast(vs, x.target, Some(C.Vote(ok))),
        Some(CastRound(h, x.target, ok)))
  }

  /** The node that was given the proposal now waits for the outcome. */
  lemma CastTarget(
      vs: seq<Key>, h: Round, flight: set<Packet>, flight': set<Packet>, k: Key, p: Peer, s: C.State, ok: bool)
    requires YetToVote(vs, h, flight, k, p) && !HasVoted(h, k) && k != h.aggregator && h.outcome.None?
    requires s == Informed(p.cs, h.block, ok).(badPeers := s.badPeers)
    ensures PeerShape(vs, CastRound(h, k, ok), flight', k, p.(cs := s))
  {
  }

  lemma CastPeers(vs: seq<Key>, net: Net, h: Round, x: Packet, s: C.State, ok: bool)
    requires PeersFit(vs, h, net.flight, net.peers)
    requires x.target in net.peers && YetToVote(vs, h, net.flight, x.target, net.peers[x.target])
    requires x.target !in h.counted && !HasVoted(h, x.target) && x.target != h.aggregator && h.outcome.None?
    requires s == Informed(net.peers[x.target].cs, h.block, ok).(badPeers := s.badPeers)
    ensures var net', h' := CastNet(vs, net, h, x, s, ok), CastRound(h, x.target, ok);
            PeersFit(vs, h', net'.flight, net'.peers)
  {
    var net', h' := CastNet(vs, net, h, x, s, ok), CastRound(h, x.target, ok);
    assert Yes(h'.votes, h.counted) == Yes(h.votes, h.counted);
    CastTarget(vs, h, net.flight, net'.flight, x.target, net.peers[x.target], s, ok);
    PeersKeep(vs, net, h, net', h', x.target);
  }

  lemma CastPackets(vs: seq<Key>, net: Net, h: Round, x: Packet, s: C.State, ok: bool)
    requires x.target in net.peers && x.target in vs && (forall k :: k in vs ==> k in net.peers)
    requires PacketsFit(vs, h, net.peers, net.flight)
    requires x == Packet(h.producer, x.target, C.Proposal(h.block)) && s.waiting
    requires x.target !in h.counted && !HasVoted(h, x.target) && x.target != h.aggregator && h.outcome.None?
    ensures var net', h' := CastNet(vs, net, h, x, s, ok), CastRound(h, x.target, ok);
            PacketsFit(vs, h', net'.peers, net'.flight)
  {
    var net', h' := CastNet(vs, net, h, x, s, ok), CastRound(h, x.target, ok);
    forall y | y in net'.flight
      ensures PacketShape(vs, h', net'.peers, y)
    {
      if y in net.flight {
        OtherPacket(vs, h, h', net.peers, net'.peers, y);
      } else {
        assert y.from == x.target && y.message == C.Vote(ok);
      }
    }
  }

  lemma CastVotes(vs: seq<Key>, net: Net, h: Round, x: Packet, s: C.State, ok: bool)
    requires x.target in net.peers && x.message.Proposal? && x.target != h.aggregator && h.aggregator in vs
    requires NoVoteLost(h, net.flight)
    ensures NoVoteLost(CastRound(h, x.target, ok), CastNet(vs, net, h, x, s, ok).flight)
  {
    assert Packet(x.target, h.aggregator, C.Vote(ok)) in Broadcast(vs, x.target, Some(C.Vote(ok)));
  }

  lemma CastShape(vs: seq<Key>, h: Round, k: Key, ok: bool)
    requires RoundShape(vs, h) && k in Voters(vs, h) && k !in h.counted && k != h.aggregator && h.outcome.None?
    ensures RoundShape(vs, CastRound(h, k, ok))
  {
    assert CastRound(h, k, ok).counted != Voters(vs, h);
  }

  lemma CastKeeps(vs: seq<Key>, net: Net, h: Round, x: Packet, s: C.State, ok: bool)
    requires RoundInvariant(vs, net, h) && x in net.flight && x.message.Proposal? && x.target != h.aggregator
    requires x.target in net.peers && (forall k :: k in vs ==> k in net.peers)
    requires s == Informed(net.peers[x.target].cs, h.block, ok).(badPeers := s.badPeers)
    ensures RoundInvariant(vs, CastNet(vs, net, h, x, s, ok), CastRound(h, x.target, ok))
  {
    VoteIsOpen(vs, net, h, x);
    CastShape(vs, h, x.target, ok);
    CastPeers(vs, net, h, x, s, ok);
    CastPackets(vs, net, h, x, s, ok);
    CastVotes(vs, net, h, x, s, ok);
  }

  // ----- a vote that is counted -----

  /** What the aggregator counts: its own vote, cast on the proposal it is given,
      or a vote that reaches it. */
  ghost predicate CarriesVote(h: Round, h': Round, x: Packet, j: Key) {
    && x.target == h.aggregator
    && (|| (x == Packet(h.producer, h.aggregator, C.Proposal(h.block)) && j == h.aggregator
            && h'.votes.Keys == h.votes.Keys + {j})
        || (j in h.votes && j != h.aggregator && x == Packet(j, h.aggregator, C.Vote(h.votes[j]))
            && h'.votes == h.votes))
    && (forall i :: i != h.aggregator ==> SameVote(h, h', i))
    && j in h'.votes && j !in h.counted && h'.counted == h.counted + {j}
  }

  lemma CountOldPackets(vs: seq<Key>, net: Net, h: Round, net': Net, h': Round, x: Packet, j: Key)
    requires PacketsFit(vs, h, net.peers, net.flight)
    requires Continues(h, h') && h.outcome.None? && CarriesVote(h, h', x, j) && net'.peers.Keys == net.peers.Keys
    ensures PacketsFit(vs, h', net'.peers, net.flight - {x})
  {
    forall y | y in net.flight && y != x
      ensures PacketShape(vs, h', net'.peers, y)
    {
      assert PacketShape(vs, h, net.peers, y);
      OtherPacket(vs, h, h', net.peers, net'.peers, y);
    }
  }

  lemma CountVotes(h: Round, h': Round, flight: set<Packet>, flight': set<Packet>, x: Packet, j: Key)
    requires NoVoteLost(h, flight) && CarriesVote(h, h', x, j) && h'.aggregator == h.aggregator
    requires h.aggregator in h.votes ==> h.aggregator in h.counted
    requires forall y :: y in flight && y != x ==> y in flight'
    ensures NoVoteLost(h', flight')
  {
    forall k | k in h'.votes && k !in h'.counted
      ensures Packet(k, h'.aggregator, C.Vote(h'.votes[k])) in flight'
    {
      assert k != h.aggregator && SameVote(h, h', k);
      assert k in h.votes && k !in h.counted;
      assert Packet(k, h.aggregator, C.Vote(h.votes[k])) in flight;
    }
  }

  lemma CountShape(vs: seq<Key>, h: Round, h': Round, x: Packet, j: Key)
    requires RoundShape(vs, h) && Continues(h, h') && CarriesVote(h, h', x, j) && j in Voters(vs, h)
    requires h'.outcome == if h'.counted == Voters(vs, h) then Some(Carried(h')) else None
    ensures RoundShape(vs, h')
  {
  }

  /** Another vote, and still some missing. */
  lemma CountKeeps(vs: seq<Key>, net: Net, h: Round, net': Net, h': Round, x: Packet, j: Key)
    requires RoundInvariant(vs, net, h) && x in net.flight && h.aggregator in net.peers && h.outcome.None?
    requires Continues(h, h') && CarriesVote(h, h', x, j) && j in Voters(vs, h)
    requires h'.counted != Voters(vs, h) && h'.outcome.None?
    requires h.aggregator in net'.peers && net'.peers == net.peers[h.aggregator := net'.peers[h.aggregator]]
    requires net'.flight == net.flight - {x}
    requires PeerShape(vs, h', net'.flight, h.aggregator, net'.peers[h.aggregator])
    ensures RoundInvariant(vs, net', h')
  {
    hide PeerShape, PacketShape;
    CountShape(vs, h, h', x, j);
    CountOldPackets(vs, net, h, net', h', x, j);
    CountVotes(h, h', net.flight, net'.flight, x, j);
    PeersKeep(vs, net, h, net', h', h.aggregator);
  }

  /** Everybody the outcome is sent to has voted and waits for it. */
  lemma OutcomePackets(vs: seq<Key>, net: Net, h: Round, net': Net, h': Round)
    requires PeersFit(vs, h, net.flight, net.peers)
    requires (forall k :: k in vs ==> k in net.peers) && h.aggregator in vs
    requires Continues(h, h') && h.outcome.None? && h'.outcome.Some? && net'.peers.Keys == net.peers.Keys
    requires forall k :: k in vs && k != h.aggregator ==> HasVoted(h, k) && net'.peers[k] == net.peers[k]
    ensures PacketsFit(vs, h', net'.peers, Broadcast(vs, h.aggregator, Some(C.Finality(h'.outcome.value))))
  {
    forall y | y in Broadcast(vs, h.aggregator, Some(C.Finality(h'.outcome.value)))
      ensures PacketShape(vs, h', net'.peers, y)
    {
      assert PeerShape(vs, h, net.flight, y.target, net.peers[y.target]);
    }
  }

  /** What the last vote leads to: the outcome goes out to all others, and the
      aggregator is done. */
  ghost predicate DecidesOutcome(vs: seq<Key>, net: Net, h: Round, net': Net, h': Round, x: Packet) {
    && h'.counted == Voters(vs, h) && h'.outcome == Some(Carried(h')) && Continues(h, h')
    && h.aggregator in net.peers && h.aggregator in net'.peers
    && net'.peers == net.peers[h.aggregator := net'.peers[h.aggregator]]
    && net'.flight == net.flight - {x} + Broadcast(vs, h.aggregator, Some(C.Finality(Carried(h'))))
    && HasVoted(h', h.aggregator) && HasSettled(h', net'.peers[h.aggregator])
  }

  lemma DecidePeers(vs: seq<Key>, net: Net, h: Round, net': Net, h': Round, x: Packet)
    requires PeersFit(vs, h, net.flight, net.peers)
    requires (forall k :: k in net.peers ==> k in vs) && h.outcome.None? && x.target == h.aggregator
    requires DecidesOutcome(vs, net, h, net', h', x) && forall i :: i != h.aggregator ==> SameVote(h, h', i)
    ensures PeersFit(vs, h', net'.flight, net'.peers)
  {
    assert PeerShape(vs, h', net'.flight, h.aggregator, net'.peers[h.aggregator]);
    PeersKeep(vs, net, h, net', h', h.aggregator);
  }

  lemma AllHaveVoted(vs: seq<Key>, net: Net, h: Round, net': Net, h': Round, x: Packet, j: Key)
    requires DecidesOutcome(vs, net, h, net', h', x) && CarriesVote(h, h', x, j) && h.counted <= h.votes.Keys
    requires forall k :: k in vs ==> k in net.peers
    ensures forall k :: k in vs && k != h.aggregator ==> HasVoted(h, k) && net'.peers[k] == net.peers[k]
  {
    forall k | k in vs && k != h.aggregator
      ensures HasVoted(h, k) && net'.peers[k] == net.peers[k]
    {
      assert k == h.producer || k in h'.counted;
    }
  }

  lemma DecidePackets(vs: seq<Key>, net: Net, h: Round, net': Net, h': Round, x: Packet, j: Key)
    requires PeersFit(vs, h, net.flight, net.peers)
    requires PacketsFit(vs, h, net.peers, net.flight)
    requires RoundShape(vs, h) && h.outcome.None? && (forall k :: k in vs ==> k in net.peers)
    requires CarriesVote(h, h', x, j) && DecidesOutcome(vs, net, h, net', h', x)
    ensures PacketsFit(vs, h', net'.peers, net'.flight)
  {
    AllHaveVoted(vs, net, h, net', h', x, j);
    CountOldPackets(vs, net, h, net', h', x, j);
    OutcomePackets(vs, net, h, net', h');
  }

  lemma DecideOutcome(vs: seq<Key>, net: Net, h: Round, net': Net, h': Round, x: Packet, j: Key)
    requires RoundInvariant(vs, net, h) && h.outcome.None? && (forall k :: k in vs <==> k in net.peers)
    requires CarriesVote(h, h', x, j) && j in Voters(vs, h) && DecidesOutcome(vs, net, h, net', h', x)
    ensures RoundInvariant(vs, net', h')
  {
    CountShape(vs, h, h', x, j);
    DecidePackets(vs, net, h, net', h', x, j);
    DecidePeers(vs, net, h, net', h', x);
    assert NoVoteLost(h', net'.flight) by {
      CountVotes(h, h', net.flight, net'.flight, x, j);
    }
  }

  // ----- an outcome that is delivered -----

  lemma OutcomeIsAwaited(vs: seq<Key>, net: Net, h: Round, x: Packet)
    requires RoundInvariant(vs, net, h) && x in net.flight && x.message.Finality? && x.target in net.peers
    ensures x.from == h.aggregator && h.outcome == Some(x.message.ok) && x.target != h.aggregator
    ensures HasVoted(h, x.target) && net.peers[x.target].cs.waiting
    ensures WaitsForOutcome(vs, h, net.flight, x.target, net.peers[x.target])
  {
    assert PacketShape(vs, h, net.peers, x);
    assert PeerShape(vs, h, net.flight, x.target, net.peers[x.target]);
    assert x.target in Voters(vs, h) || x.target == h.producer;
  }

  lemma OutcomePacketsKeep(vs: seq<Key>, net: Net, h: Round, net': Net, x: Packet)
    requires PacketsFit(vs, h, net.peers, net.flight)
    requires x.message.Finality? && x.target in net.peers && x.from == h.aggregator && h.outcome == Some(x.message.ok)
    requires x.target in net'.peers && net'.peers == net.peers[x.target := net'.peers[x.target]]
    requires net'.flight == net.flight - {x}
    ensures PacketsFit(vs, h, net'.peers, net'.flight)
  {
    forall y | y in net'.flight
      ensures PacketShape(vs, h, net'.peers, y)
    {
      assert PacketShape(vs, h, net.peers, y);
      OtherPacket(vs, h, h, net.peers, net'.peers, y);
    }
  }

  lemma OutcomeKeeps(vs: seq<Key>, net: Net, h: Round, net': Net, x: Packet)
    requires RoundInvariant(vs, net, h) && x in net.flight && x.message.Finality? && x.target in net.peers
    requires x.target in net'.peers && net'.peers == net.peers[x.target := net'.peers[x.target]]
    requires net'.flight == net.flight - {x}
    requires HasSettled(h, net'.peers[x.target])
    ensures RoundInvariant(vs, net', h)
  {
    OutcomeIsAwaited(vs, net, h, x);
    OutcomePacketsKeep(vs, net, h, net', x);
    PeersKeep(vs, net, h, net', h, x.target);
  }
}
