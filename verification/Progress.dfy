/** A round comes to its end: every schedule of deliveries spends the same number
    of messages, and then nobody has anything left to wait for. */
module Progress {
  import opened Common
  import opened Records
  import opened Sorting
  import opened PowersOfTwo
  import opened Runs
  import opened Network
  import opened Rounds
  import opened Deliveries
  import opened Agreement
  import C = Consensus

  // ----- what is left of a round -----

  /** The voters other than the aggregator that have not voted yet. */
  ghost function Silent(vs: seq<Key>, h: Round): set<Key> {
    Voters(vs, h) - {h.aggregator} - h.votes.Keys
  }

  /** Messages still to be delivered: those on their way, `others` for each vote
      that is still to be broadcast, and as many for the outcome. */
  function Left(others: nat, flight: nat, silent: nat, undecided: bool): nat {
    flight + others * silent + if undecided then others else 0
  }

  lemma LeftAfter(others: nat, flight: nat, silent: nat)
    requires flight > 0
    ensures forall undecided :: Left(others, flight - 1, silent, undecided) == Left(others, flight, silent, undecided) - 1
    ensures Left(others, flight - 1 + others, silent, false) == Left(others, flight, silent, true) - 1
    ensures silent > 0 ==>
              Left(others, flight - 1 + others, silent - 1, true) == Left(others, flight, silent, true) - 1
  {
    if silent > 0 {
      assert others * (silent - 1) == others * silent - others;
    }
  }

  lemma LeftAtStart(n: nat)
    requires n >= 2
    ensures Left(n - 1, n - 1, n - 2, true) == n * (n - 1)
  {
    assert (n - 1) * (n - 2) == (n - 1) * n - 2 * (n - 1);
  }

  lemma LeftNone(others: nat, flight: nat, silent: nat, undecided: bool)
    requires flight > 0 || (silent == 0 && !undecided)
    ensures Left(others, flight, silent, undecided) == 0 <==> flight == 0
  {
    assert others * silent >= 0;
  }

  ghost function RoundLeft(vs: seq<Key>, flight: set<Packet>, h: Round): nat
    requires vs != []
  {
    Left(|vs| - 1, |flight|, |Silent(vs, h)|, h.outcome.None?)
  }

  /** How many deliveries the round still takes. */
  ghost function Potential(vs: seq<Key>, net: Net): nat
    requires vs != [] && net.round.Some?
  {
    RoundLeft(vs, net.flight, net.round.value)
  }

  lemma {:induction false} BroadcastSize(keys: seq<Key>, from: Key, m: C.Message)
    requires NoDuplicates(keys)
    ensures |Broadcast(keys, from, Some(m))| == |keys| - if from in keys then 1 else 0
  {
    if keys != [] {
      var n := |keys| - 1;
      BroadcastSize(keys[..n], from, m);
      assert keys == keys[..n] + [keys[n]];
      var before, x := Broadcast(keys[..n], from, Some(m)), Packet(from, keys[n], m);
      assert x !in before;
      assert Broadcast(keys, from, Some(m)) == if keys[n] == from then before else before + {x};
    }
  }

  /** One message is taken off its way, and none, or one to each other node, put on. */
  lemma FlightAfter(vs: seq<Key>, flight: set<Packet>, x: Packet, from: Key, m: C.Message)
    requires NoDuplicates(vs) && from in vs && x in flight && Broadcast(vs, from, Some(m)) !! flight
    ensures |flight - {x}| == |flight| - 1
    ensures |flight - {x} + Broadcast(vs, from, Some(m))| == |flight| - 1 + (|vs| - 1)
  {
    hide Broadcast;
    BroadcastSize(vs, from, m);
  }

  // ----- every delivery spends one message -----

  lemma NewVote(vs: seq<Key>, net: Net, h: Round, k: Key, ok: bool)
    requires PacketsFit(vs, h, net.peers, net.flight) && k !in h.votes
    ensures Broadcast(vs, k, Some(C.Vote(ok))) !! net.flight
  {
    forall y | y in Broadcast(vs, k, Some(C.Vote(ok)))
      ensures y !in net.flight
    {
      assert y in net.flight ==> PacketShape(vs, h, net.peers, y);
    }
  }

  lemma NewOutcome(vs: seq<Key>, net: Net, h: Round, k: Key, o: bool)
    requires RoundInvariant(vs, net, h) && h.outcome.None?
    ensures Broadcast(vs, k, Some(C.Finality(o))) !! net.flight
  {
    forall y | y in Broadcast(vs, k, Some(C.Finality(o)))
      ensures y !in net.flight
    {
      assert y in net.flight ==> PacketShape(vs, h, net.peers, y);
    }
  }

  lemma OneLessSilent(vs: seq<Key>, h: Round, k: Key, ok: bool)
    requires k in Silent(vs, h)
    ensures |Silent(vs, CastRound(h, k, ok))| == |Silent(vs, h)| - 1
  {
    assert Silent(vs, CastRound(h, k, ok)) == Silent(vs, h) - {k};
  }

  lemma CastSpends(vs: seq<Key>, h: Round, flight: set<Packet>, x: Packet, k: Key, ok: bool)
    requires NoDuplicates(vs) && k in vs && k in Silent(vs, h) && h.outcome.None?
    requires x in flight && Broadcast(vs, k, Some(C.Vote(ok))) !! flight
    ensures RoundLeft(vs, flight - {x} + Broadcast(vs, k, Some(C.Vote(ok))), CastRound(h, k, ok))
            == RoundLeft(vs, flight, h) - 1
  {
    hide Left, Silent, Broadcast, NoDuplicates;
    FlightAfter(vs, flight, x, k, C.Vote(ok));
    OneLessSilent(vs, h, k, ok);
    LeftAfter(|vs| - 1, |flight|, |Silent(vs, h)|);
  }

  lemma NoBroadcast(vs: seq<Key>, flight: set<Packet>, k: Key)
    ensures flight + Broadcast(vs, k, None) == flight
  {
  }

  lemma CountSpends(vs: seq<Key>, h: Round, h': Round, flight: set<Packet>, x: Packet, k: Key)
    requires NoDuplicates(vs) && k in vs && x in flight && h.outcome.None? && Silent(vs, h') == Silent(vs, h)
    requires h'.outcome.Some? ==> Broadcast(vs, k, Some(C.Finality(h'.outcome.value))) !! flight
    ensures RoundLeft(vs, flight - {x} + Broadcast(vs, k, if h'.outcome.None? then None
                                                          else Some(C.Finality(h'.outcome.value))), h')
            == RoundLeft(vs, flight, h) - 1
  {
    hide Left, Silent, NoDuplicates, Broadcast;
    if h'.outcome.Some? {
      FlightAfter(vs, flight, x, k, C.Finality(h'.outcome.value));
    } else {
      NoBroadcast(vs, flight - {x}, k);
    }
    LeftAfter(|vs| - 1, |flight|, |Silent(vs, h)|);
  }

  lemma SilentAsBefore(vs: seq<Key>, h: Round, votes: map<Key, bool>, j: Key)
    requires votes.Keys == h.votes.Keys || votes.Keys == h.votes.Keys + {h.aggregator}
    ensures Silent(vs, CountedRound(vs, h, votes, j)) == Silent(vs, h)
  {
  }

  lemma CountingSpends(vs: seq<Key>, net: Net, h: Round, x: Packet, s: C.State, h': Round, t: NodeState)
    requires NoDuplicates(vs) && RoundInvariant(vs, net, h) && net.round == Some(h)
    requires x in net.flight && x.target in net.peers && x.target in vs && h.outcome.None?
    requires Silent(vs, h') == Silent(vs, h)
    ensures Potential(vs, CountedNet(vs, net, x, s, h', t)) == Potential(vs, net) - 1
  {
    hide RoundLeft, Silent, RoundInvariant;
    if h'.outcome.Some? {
      NewOutcome(vs, net, h, x.target, h'.outcome.value);
    } else {
      assert net.flight - {x} + {} == net.flight - {x};
    }
    CountSpends(vs, h, h', net.flight, x, x.target);
  }

  ghost predicate Spent(c: Codec, vs: seq<Key>, net: Net, x: Packet)
    requires vs != [] && net.round.Some? && x.target in net.peers
  {
    var t := Delivered(c, vs, net, x);
    t.round.Some? && Potential(vs, t) == Potential(vs, net) - 1
  }

  lemma CastDeliverySpends(c: Codec, vs: seq<Key>, net: Net, h: Round, x: Packet, bound: nat)
    requires InRound(c, vs, net, h, x, bound) && x.message.Proposal? && x.target != h.aggregator
    ensures Spent(c, vs, net, x)
  {
    hide RoundLeft, Delivered, Acceptable, ChainInvariant;
    var p := net.peers[x.target];
    VoteIsOpen(vs, net, h, x);
    assert LedgerShape(c, p.ledger, bound);
    BlockFits(c, net.peers, h, p.ledger, bound);
    var s := CastDelivered(c, vs, net, h, x);
    var ok := Acceptable(c, p.ledger, h.block);
    NewVote(vs, net, h, x.target, ok);
    CastSpends(vs, h, net.flight, x, x.target, ok);
  }

  lemma OwnVoteSpends(c: Codec, vs: seq<Key>, net: Net, h: Round, x: Packet, bound: nat)
    requires InRound(c, vs, net, h, x, bound) && x.message.Proposal? && x.target == h.aggregator
    ensures Spent(c, vs, net, x)
  {
    hide Spent, Delivered, Acceptable;
    var p := net.peers[x.target];
    VoteIsOpen(vs, net, h, x);
    assert LedgerShape(c, p.ledger, bound);
    BlockFits(c, net.peers, h, p.ledger, bound);
    CountedOwnVoteSpends(c, vs, net, h, x);
  }

  lemma CountedOwnVoteSpends(c: Codec, vs: seq<Key>, net: Net, h: Round, x: Packet)
    requires IsCommittee(c, vs) && RoundInvariant(vs, net, h) && RoundShape(vs, h) && net.round == Some(h)
    requires x in net.flight && x.message.Proposal? && x.target == h.aggregator && x.target in net.peers && x.target in vs
    requires IsPow2(|h.block.transactions|) && CheckBlockInfo(net.peers[x.target].ledger.info, h.block)
    ensures Spent(c, vs, net, x)
  {
    hide Spent, Potential, Delivered, Acceptable, CountedNet, RoundInvariant, Silent, SettledLedger, CheckBlockInfo;
    hide RoundShape, YetToVote, CountedRound, Informed;
    var p := net.peers[x.target];
    VoteIsOpen(vs, net, h, x);
    assert x == Packet(h.producer, h.aggregator, C.Proposal(h.block));
    OwnVoteDelivered(c, vs, net, h, x);
    var ok := Acceptable(c, p.ledger, h.block);
    var s, h' := Informed(p.cs, h.block, ok), CountedRound(vs, h, h.votes[x.target := ok], x.target);
    SilentAsBefore(vs, h, h.votes[x.target := ok], x.target);
    var t := SettledLedger(c, p, s, h');
    CountingSpends(vs, net, h, x, s, h', t);
    SpentByCounting(c, vs, net, x, s, h', t);
  }

  lemma SpentByCounting(c: Codec, vs: seq<Key>, net: Net, x: Packet, s: C.State, h': Round, t: NodeState)
    requires vs != [] && net.round.Some? && x.target in net.peers
    requires Delivered(c, vs, net, x) == CountedNet(vs, net, x, s, h', t)
    requires Potential(vs, CountedNet(vs, net, x, s, h', t)) == Potential(vs, net) - 1
    ensures Spent(c, vs, net, x)
  {
    hide Potential, Delivered;
  }

  lemma VoteSpends(c: Codec, vs: seq<Key>, net: Net, h: Round, x: Packet, bound: nat)
    requires InRound(c, vs, net, h, x, bound) && x.message.Vote? && x.target == h.aggregator
    ensures Spent(c, vs, net, x)
  {
    CountedVoteSpends(c, vs, net, h, x);
  }

  lemma CountedVoteSpends(c: Codec, vs: seq<Key>, net: Net, h: Round, x: Packet)
    requires IsCommittee(c, vs) && RoundInvariant(vs, net, h) && net.round == Some(h)
    requires x in net.flight && x.message.Vote? && x.target == h.aggregator && x.target in net.peers && x.target in vs
    ensures Spent(c, vs, net, x)
  {
    hide Spent, Potential, Delivered, CountedNet, RoundInvariant, Silent, SettledLedger;
    var p, h' := net.peers[x.target], CountedRound(vs, h, h.votes, x.from);
    VoteArrives(vs, net, h, x);
    VoteDelivered(c, vs, net, h, x);
    SilentAsBefore(vs, h, h.votes, x.from);
    var t := SettledLedger(c, p, p.cs, h');
    CountingSpends(vs, net, h, x, p.cs, h', t);
    SpentByCounting(c, vs, net, x, p.cs, h', t);
  }

  lemma MessageSpent(vs: seq<Key>, net: Net, t: Net, x: Packet)
    requires vs != [] && net.round.Some? && t.round == net.round && x in net.flight && t.flight == net.flight - {x}
    ensures Potential(vs, t) == Potential(vs, net) - 1
  {
    LeftAfter(|vs| - 1, |net.flight|, |Silent(vs, net.round.value)|);
  }

  lemma OutcomeSpends(c: Codec, vs: seq<Key>, net: Net, h: Round, x: Packet, bound: nat)
    requires InRound(c, vs, net, h, x, bound) && (x.message.Finality? || (x.message.Vote? && x.target != h.aggregator))
    ensures Spent(c, vs, net, x)
  {
    if x.message.Vote? {
      DeliverVoteElsewhere(c, vs, net, h, x);
    } else {
      OutcomeIsAwaited(vs, net, h, x);
      OutcomeDelivered(c, vs, net, h, x);
    }
    MessageSpent(vs, net, Delivered(c, vs, net, x), x);
  }

  /** Whatever message is delivered to whomever, the round takes one less. */
  lemma DeliverySpends(c: Codec, vs: seq<Key>, net: Net, h: Round, x: Packet, bound: nat)
    requires InRound(c, vs, net, h, x, bound)
    ensures Spent(c, vs, net, x)
  {
    hide Spent, RoundInvariant, HonestRound, LedgersFit;
    match x.message {
      case Proposal(_) =>
        if x.target == h.aggregator {
          OwnVoteSpends(c, vs, net, h, x, bound);
        } else {
          CastDeliverySpends(c, vs, net, h, x, bound);
        }
      case Vote(_) =>
        if x.target == h.aggregator {
          VoteSpends(c, vs, net, h, x, bound);
        } else {
          OutcomeSpends(c, vs, net, h, x, bound);
        }
      case Finality(_) =>
        OutcomeSpends(c, vs, net, h, x, bound);
    }
  }

  // ----- where a round starts and ends -----

  lemma AllSilent(c: Codec, vs: seq<Key>, h: Round)
    requires IsCommittee(c, vs) && RoundShape(vs, h) && h.votes == map[]
    ensures |Silent(vs, h)| == |vs| - 2
  {
    VotersCount(c, vs, h);
    assert h.aggregator in Voters(vs, h);
    assert Silent(vs, h) == Voters(vs, h) - {h.aggregator};
  }

  lemma ProposedPotential(c: Codec, vs: seq<Key>, net: Net, k: Key, b: Block, bound: nat)
    requires IsCommittee(c, vs) && k in net.peers && net.peers[k].cs.aggregator.Some?
    requires Invariant(c, vs, ProposedNet(vs, net, k, b), bound)
    ensures Potential(vs, ProposedNet(vs, net, k, b)) == |vs| * (|vs| - 1)
  {
    hide Left, Silent, Broadcast, LedgersFit, HonestRound, PeersFit, PacketsFit, NoVoteLost;
    var t := ProposedNet(vs, net, k, b);
    AllSilent(c, vs, t.round.value);
    BroadcastSize(vs, k, C.Proposal(b));
    LeftAtStart(|vs|);
  }

  /** Nothing is left exactly when no message is on its way. */
  lemma NothingLeft(vs: seq<Key>, net: Net, h: Round)
    requires RoundInvariant(vs, net, h) && net.round == Some(h) && (forall k :: k in vs ==> k in net.peers)
    requires vs != []
    ensures Potential(vs, net) == 0 <==> net.flight == {}
  {
    hide Left, RoundInvariant;
    if net.flight == {} {
      EverybodyVoted(vs, net, h);
      assert Silent(vs, h) == {};
    }
    LeftNone(|vs| - 1, |net.flight|, |Silent(vs, h)|, h.outcome.None?);
  }

  // ----- along every execution -----

  function DeliveryCount(events: seq<NetEvent>): nat {
    if events == [] then 0
    else DeliveryCount(events[..|events| - 1]) + if events[|events| - 1].Deliver? then 1 else 0
  }

  /** No committee is decided and no block proposed. */
  predicate WithinRound(events: seq<NetEvent>) {
    forall i :: 0 <= i < |events| ==> events[i].Deliver? || events[i].SyncFrom?
  }

  ghost predicate HasLeft(vs: seq<Key>, net: Net, n: int) {
    vs != [] && net.round.Some? && Potential(vs, net) == n
  }

  lemma ProposeLeaves(c: Codec, vs: seq<Key>, n: int, net: Net, e: NetEvent, t: Net)
    requires IsCommittee(c, vs) && InvariantAt(c, vs, n, t) && IsNetStep(c, vs, net, e, t) && e.ProposeBy?
    ensures HasLeft(vs, t, |vs| * (|vs| - 1))
  {
    var bound: nat :| bound <= n && Invariant(c, vs, t, bound);
    var b := NewBlock(c, net.peers[e.node].ledger, e.txs, e.node, e.signature, e.timestamp);
    ProposedPotential(c, vs, net, e.node, b, bound);
  }

  lemma StepLeaves(c: Codec, vs: seq<Key>, n: int, net: Net, e: NetEvent, t: Net, left: int)
    requires IsCommittee(c, vs) && InvariantAt(c, vs, n, net) && IsNetStep(c, vs, net, e, t) && n + 1 < TWO64
    requires HasLeft(vs, net, left) && (e.Deliver? || e.SyncFrom?)
    ensures HasLeft(vs, t, if e.Deliver? then left - 1 else left)
  {
    if e.Deliver? {
      var bound := DeliversInRound(c, vs, n, net, e.packet);
      DeliverySpends(c, vs, net, net.round.value, e.packet, bound);
    }
  }

  lemma StepOfExecution(c: Codec, vs: seq<Key>, bound: nat, nets: seq<Net>, events: seq<NetEvent>, i: nat)
    requires IsExecution(c, vs, bound, nets, events) && i < |events|
    ensures |nets| == |events| + 1 && IsNetStep(c, vs, nets[i], events[i], nets[i + 1])
  {
    hide IsNetStep, IsStart;
    var e := events[i];
  }

  /** The events after `i` and before `j`, one by one. */
  lemma EventsGrow(events: seq<NetEvent>, i: nat, j: nat)
    requires i < j < |events|
    ensures DeliveryCount(events[i + 1..j + 1]) == DeliveryCount(events[i + 1..j]) + if events[j].Deliver? then 1 else 0
    ensures WithinRound(events[i + 1..j + 1]) ==>
              WithinRound(events[i + 1..j]) && (events[j].Deliver? || events[j].SyncFrom?)
  {
    var past, now := events[i + 1..j], events[i + 1..j + 1];
    assert now[..|now| - 1] == past && now[|now| - 1] == events[j];
    if WithinRound(now) {
      assert forall k :: 0 <= k < |past| ==> past[k] == now[k];
    }
  }

  /** After the proposal at `i`, the deliveries up to `j` account for what is left. */
  lemma {:induction false} RoundAccount(
      c: Codec, vs: seq<Key>, bound: nat, nets: seq<Net>, events: seq<NetEvent>, i: nat, j: nat)
    requires IsCommittee(c, vs) && IsExecution(c, vs, bound, nets, events)
    requires i < j <= |events| && bound + |events| + 1 < TWO64
    requires events[i].ProposeBy? && WithinRound(events[i + 1..j])
    ensures HasLeft(vs, nets[j], |vs| * (|vs| - 1) - DeliveryCount(events[i + 1..j]))
    decreases j
  {
    hide IsCommittee, IsExecution, InvariantAt, IsNetStep, HasLeft, WithinRound;
    StepOfExecution(c, vs, bound, nets, events, j - 1);
    if j == i + 1 {
      assert events[i + 1..j] == [];
      ExecutionsKeep(c, vs, bound, nets, events, j);
      ProposeLeaves(c, vs, bound + j, nets[i], events[i], nets[j]);
    } else {
      EventsGrow(events, i, j - 1);
      RoundAccount(c, vs, bound, nets, events, i, j - 1);
      ExecutionsKeep(c, vs, bound, nets, events, j - 1);
      var left := |vs| * (|vs| - 1) - DeliveryCount(events[i + 1..j - 1]);
      StepLeaves(c, vs, bound + (j - 1), nets[j - 1], events[j - 1], nets[j], left);
    }
  }

  lemma LeftAt(c: Codec, vs: seq<Key>, n: int, net: Net, left: int)
    requires IsCommittee(c, vs) && InvariantAt(c, vs, n, net) && HasLeft(vs, net, left)
    ensures 0 <= left && (left == 0 <==> net.flight == {})
    ensures forall x :: x in net.flight ==> NetEnabled(c, vs, net, Deliver(x))
  {
    hide Potential, LedgersFit, HonestRound;
    var bound: nat :| bound <= n && Invariant(c, vs, net, bound);
    NothingLeft(vs, net, net.round.value);
    forall x | x in net.flight
      ensures x.target in net.peers
    {
      assert PacketShape(vs, net.round.value, net.peers, x);
    }
  }

  /** Every round of n nodes ends, after exactly n (n - 1) deliveries: whatever the
      votes and the order of delivery, and whoever syncs in between, no schedule
      delivers more messages; as long as it has delivered fewer, every message on
      its way can be delivered and there is one, and nothing but a delivery or a
      sync can happen; and once it has delivered that many there is none. */
  lemma RoundTakesExactly(
      c: Codec, vs: seq<Key>, bound: nat, nets: seq<Net>, events: seq<NetEvent>, i: nat, j: nat)
    requires IsCommittee(c, vs) && IsExecution(c, vs, bound, nets, events)
    requires i < j <= |events| && bound + |events| + 1 < TWO64
    requires events[i].ProposeBy? && WithinRound(events[i + 1..j])
    ensures var total, past := |vs| * (|vs| - 1), DeliveryCount(events[i + 1..j]);
            && past <= total && (past == total <==> nets[j].flight == {})
            && (forall x :: x in nets[j].flight ==> NetEnabled(c, vs, nets[j], Deliver(x)))
            && (past < total && j < |events| ==> events[j].Deliver? || events[j].SyncFrom?)
  {
    hide IsCommittee, IsExecution, InvariantAt, HasLeft, WithinRound, IsNetStep, NetEnabled, DeliveryCount;
    StepOfExecution(c, vs, bound, nets, events, j - 1);
    RoundAccount(c, vs, bound, nets, events, i, j);
    ExecutionsKeep(c, vs, bound, nets, events, j);
    LeftAt(c, vs, bound + j, nets[j], |vs| * (|vs| - 1) - DeliveryCount(events[i + 1..j]));
    if j < |events| {
      StepOfExecution(c, vs, bound, nets, events, j);
      StepInFlight(c, vs, nets[j], events[j], nets[j + 1]);
    }
  }

  lemma StepInFlight(c: Codec, vs: seq<Key>, net: Net, e: NetEvent, t: Net)
    requires IsNetStep(c, vs, net, e, t)
    ensures net.flight == {} || e.Deliver? || e.SyncFrom?
  {
  }
}
