/** consensus/consensus_service.go and consensus/handlers.go: the committee, the
    tally and the receive steps of one node. Each handler is one atomic step. */
module Consensus {
  import opened Common
  import opened Records
  import opened Sorting
  import opened Blockchains
  import Ledger

  datatype Message = Proposal(block: Block) | Vote(ok: bool) | Finality(ok: bool)

  /** The fields of a ConsensusService. `timer` says that somebody receives on
      finalizeCh; the two other channels are named by the block whose accounts,
      or whose storing, wait at their far end. */
  datatype State = State(
    validators: seq<Key>, producer: Option<Key>, aggregator: Option<Key>,
    timer: bool, accountCh: Option<Block>, blockCh: Option<Block>,
    numVoted: nat, numVotedOk: nat, waiting: bool,
    badPeers: seq<Key>, peersStatus: map<string, bool>)

  const NEW_STATE := State([], None, None, false, None, None, 0, 0, false, [], map[])

  /** An outcome as sent on the account and block channels, if there were any. */
  datatype Settlement = Settlement(ok: bool, account: Option<Block>, block: Option<Block>)

  /** A handler's effect: the new fields, what it broadcast, and what it sent to
      the goroutines that wait for the outcome. */
  datatype Reaction = Reaction(state: State, sent: Option<Message>, settled: Option<Settlement>)

  function Reset(s: State): State {
    s.(validators := [], producer := None, aggregator := None, timer := false,
       accountCh := None, blockCh := None, numVoted := 0, numVotedOk := 0, waiting := false)
  }

  // ----- validators -----

  function Removed(keys: seq<Key>, k: Key): seq<Key> {
    if keys == [] then []
    else if keys[0] == k then keys[1..]
    else [keys[0]] + Removed(keys[1..], k)
  }

  lemma {:induction false} RemovedExactly(keys: seq<Key>, k: Key)
    requires NoDuplicates(keys)
    ensures NoDuplicates(Removed(keys, k))
    ensures forall j :: j in Removed(keys, k) <==> j in keys && j != k
  {
    if keys != [] {
      assert keys == [keys[0]] + keys[1..];
      RemovedExactly(keys[1..], k);
      assert forall j :: j in keys <==> j == keys[0] || j in keys[1..];
      assert keys[0] !in keys[1..];
    }
  }

  lemma {:induction false} RemovedAt(keys: seq<Key>, i: nat, k: Key)
    requires i <= |keys| && k !in keys[..i]
    ensures Removed(keys, k) == keys[..i] + Removed(keys[i..], k)
  {
    if i > 0 {
      assert keys[1..][..i - 1] == keys[..i][1..] && keys[1..][i - 1..] == keys[i..];
      assert keys[0] == keys[..i][0];
      RemovedAt(keys[1..], i - 1, k);
      assert keys[..i] == [keys[0]] + keys[1..][..i - 1];
    } else {
      assert keys[0..] == keys;
    }
  }

  datatype GossipMsg = GossipMsg(
    publicKey: Key, ip: string, isSyncing: bool, isReady: bool,
    nextHeight: uint64, nextEpoch: uint64, nextSlot: uint32)

  predicate SamePlace(i: ChainInfo, msg: GossipMsg) {
    msg.nextHeight == i.nextHeight && msg.nextEpoch == i.nextEpoch && msg.nextSlot == i.nextSlot
  }

  predicate Ignored(s: State, syncing: bool, msg: GossipMsg) {
    s.waiting || syncing || msg.isSyncing || msg.publicKey in s.badPeers
  }

  /** The new fields, and the height to sync to when the peer is ahead. */
  function Gossiped(s: State, syncing: bool, i: ChainInfo, msg: GossipMsg): (State, Option<uint64>) {
    if Ignored(s, syncing, msg) then (s, None)
    else if msg.nextHeight > i.nextHeight then (s, Some(msg.nextHeight - 1))
    else if !SamePlace(i, msg) then (s.(validators := Removed(s.validators, msg.publicKey)), None)
    else (s.(validators := Ledger.AddKey(s.validators, msg.publicKey),
             peersStatus := s.peersStatus[msg.ip := msg.isReady]), None)
  }

  /** Whoever gossips is listed afterwards exactly if it stands at this node's
      height, epoch and slot, and only then its readiness is recorded, as it says;
      nobody else's place or readiness changes and no key is listed twice. A peer
      that is ahead only makes the node sync up to the block below the height it
      names; gossip that is not heard does nothing. */
  lemma GossipAdmits(s: State, syncing: bool, i: ChainInfo, msg: GossipMsg)
    requires NoDuplicates(s.validators)
    ensures var (t, target) := Gossiped(s, syncing, i, msg);
            var heard := !s.waiting && !syncing && !msg.isSyncing && msg.publicKey !in s.badPeers;
            var same := msg.nextHeight == i.nextHeight && msg.nextEpoch == i.nextEpoch && msg.nextSlot == i.nextSlot;
            var decides := heard && msg.nextHeight <= i.nextHeight;
            && (target.Some? <==> heard && msg.nextHeight > i.nextHeight)
            && (target.Some? ==> target.value + 1 == msg.nextHeight)
            && t == s.(validators := t.validators, peersStatus := t.peersStatus)
            && (!decides ==> t == s)
            && NoDuplicates(t.validators)
            && (decides ==> (msg.publicKey in t.validators <==> same))
            && (forall k :: k != msg.publicKey ==> (k in t.validators <==> k in s.validators))
            && t.peersStatus == if decides && same then s.peersStatus[msg.ip := msg.isReady] else s.peersStatus
  {
    RemovedExactly(s.validators, msg.publicKey);
  }

  /** One piece of gossip, and where the node stood when it came. */
  datatype Hearing = Hearing(syncing: bool, info: ChainInfo, msg: GossipMsg)

  function Gathered(s: State, heard: seq<Hearing>): State {
    if heard == [] then s
    else
      var g := heard[|heard| - 1];
      Gossiped(Gathered(s, heard[..|heard| - 1]), g.syncing, g.info, g.msg).0
  }

  /** Gossip that decides whether its sender is listed. */
  predicate Decides(s: State, g: Hearing) {
    !Ignored(s, g.syncing, g.msg) && g.msg.nextHeight <= g.info.nextHeight
  }

  predicate StoodHere(g: Hearing) {
    SamePlace(g.info, g.msg)
  }

  predicate SameEntry(a: map<string, bool>, b: map<string, bool>, ip: string) {
    (ip in b <==> ip in a) && (ip in a ==> b[ip] == a[ip])
  }

  /** The last of `k`'s gossip that decides. */
  function LastOf(s: State, heard: seq<Hearing>, k: Key): Option<Hearing> {
    if heard == [] then None
    else
      var g := heard[|heard| - 1];
      if g.msg.publicKey == k && Decides(s, g) then Some(g) else LastOf(s, heard[..|heard| - 1], k)
  }

  /** The last gossip from address `ip` that was listed. */
  function LastFrom(s: State, heard: seq<Hearing>, ip: string): Option<Hearing> {
    if heard == [] then None
    else
      var g := heard[|heard| - 1];
      if g.msg.ip == ip && Decides(s, g) && StoodHere(g) then Some(g)
      else LastFrom(s, heard[..|heard| - 1], ip)
  }

  /** Over any gossip, in any order and repeated at will: a key is listed if and only
      if the last of its gossip that decided stood at this node's place, and a peer is
      recorded as its last gossip from there said. Nothing else moves. */
  lemma {:induction false} GatheredExactly(s: State, heard: seq<Hearing>, k: Key, ip: string)
    requires NoDuplicates(s.validators)
    ensures var t := Gathered(s, heard);
            && NoDuplicates(t.validators)
            && t == s.(validators := t.validators, peersStatus := t.peersStatus)
            && (k in t.validators <==>
                  if LastOf(s, heard, k).None? then k in s.validators else StoodHere(LastOf(s, heard, k).value))
            && if LastFrom(s, heard, ip).None? then SameEntry(s.peersStatus, t.peersStatus, ip)
               else ip in t.peersStatus && t.peersStatus[ip] == LastFrom(s, heard, ip).value.msg.isReady
  {
    hide Gossiped, NoDuplicates;
    if heard != [] {
      var n := |heard| - 1;
      var g, before := heard[n], Gathered(s, heard[..n]);
      GatheredExactly(s, heard[..n], k, ip);
      GossipAdmits(before, g.syncing, g.info, g.msg);
    }
  }

  // ----- the committee -----

  /** big.Int's SetBytes of the key's hash. */
  function KeyRank(c: Codec): Key -> int {
    (k: Key) => BigEndian(c.sha3(k))
  }

  function ProducerIndex(n: nat, height: uint64): (i: nat)
    requires n > 0
    ensures i < n
  {
    height % n
  }

  function AggregatorIndex(n: nat, height: uint64): (i: nat)
    requires n > 0
    ensures i < n
  {
    (ProducerIndex(n, height) + 1) % n
  }

  function Producer(validators: seq<Key>, height: uint64): Key
    requires validators != []
  {
    validators[ProducerIndex(|validators|, height)]
  }

  function Aggregator(validators: seq<Key>, height: uint64): Key
    requires validators != []
  {
    validators[AggregatorIndex(|validators|, height)]
  }

  function Decided(s: State, sorted: seq<Key>, height: uint64): State
    requires sorted != []
  {
    s.(validators := sorted, producer := Some(Producer(sorted, height)), aggregator := Some(Aggregator(sorted, height)))
  }

  ghost predicate IsSorting(c: Codec, validators: seq<Key>, sorted: seq<Key>) {
    SortedBy(sorted, KeyRank(c)) && multiset(sorted) == multiset(validators)
  }

  ghost predicate DistinctHashes(c: Codec, keys: seq<Key>) {
    forall j, k :: j in keys && k in keys && c.sha3(j) == c.sha3(k) ==> j == k
  }

  lemma HashesSeparate(c: Codec, keys: seq<Key>)
    requires DistinctHashes(c, keys)
    ensures RankSeparates(keys, KeyRank(c))
  {
    forall i, j | 0 <= i < |keys| && 0 <= j < |keys| && KeyRank(c)(keys[i]) == KeyRank(c)(keys[j])
      ensures keys[i] == keys[j]
    {
      BigEndianInjective(c.sha3(keys[i]), c.sha3(keys[j]));
    }
  }

  lemma SortingKeepsMembers(c: Codec, validators: seq<Key>, sorted: seq<Key>)
    requires IsSorting(c, validators, sorted)
    ensures forall k :: k in sorted <==> k in validators
    ensures DistinctHashes(c, validators) ==> DistinctHashes(c, sorted)
    ensures |sorted| == |validators|
  {
    assert |sorted| == |multiset(sorted)| == |validators|;
    forall k
      ensures k in sorted <==> k in validators
    {
      assert k in sorted <==> k in multiset(sorted);
      assert k in validators <==> k in multiset(validators);
    }
  }

  /** Nodes that gathered the same validators, in whatever order and sorted by
      whatever means, decide the same committee at the same height. */
  lemma CommitteeAgreed(
      c: Codec, s: State, t: State, arrival: seq<Key>, arrival': seq<Key>,
      sorted: seq<Key>, sorted': seq<Key>, height: uint64)
    requires NoDuplicates(arrival) && NoDuplicates(arrival') && arrival != []
    requires forall k :: k in arrival <==> k in arrival'
    requires IsSorting(c, arrival, sorted) && IsSorting(c, arrival', sorted') && DistinctHashes(c, arrival)
    ensures sorted == sorted' && sorted != []
    ensures Decided(s, sorted, height).producer == Decided(t, sorted', height).producer
    ensures Decided(s, sorted, height).aggregator == Decided(t, sorted', height).aggregator
  {
    ListingsOfOneSet(arrival, arrival');
    SortingKeepsMembers(c, arrival, sorted);
    HashesSeparate(c, sorted);
    SortedArrangementUnique(sorted, sorted', KeyRank(c));
  }

  /** The next committee: once a round is settled nobody is listed; after whatever
      gossip follows, the third tick decides on the node itself and exactly those
      whose last deciding gossip stood at this node's place. */
  lemma NextCommittee(
      c: Codec, s: State, ok: bool, heard: seq<Hearing>, self: Key, sorted: seq<Key>, height: uint64, k: Key)
    requires s.timer && sorted != []
    requires IsSorting(c, Ledger.AddKey(Gathered(Finalized(s, ok).state, heard).validators, self), sorted)
    ensures var cleared := Finalized(s, ok).state;
            var t := Decided(Gathered(cleared, heard), sorted, height);
            && NoDuplicates(t.validators)
            && (k in t.validators <==>
                  || k == self
                  || (LastOf(cleared, heard, k).Some? && StoodHere(LastOf(cleared, heard, k).value)))
  {
    var cleared := Finalized(s, ok).state;
    var listed := Ledger.AddKey(Gathered(cleared, heard).validators, self);
    GatheredExactly(cleared, heard, k, "");
    SortingKeepsMembers(c, listed, sorted);
    ArrangedOnce(listed, sorted);
  }

  /** Among any n consecutive heights, validator j produces at exactly one. */
  function Turn(n: nat, height: uint64, j: nat): (i: nat)
    requires j < n
    ensures i < n
  {
    var r := height % n;
    if j >= r then j - r else j - r + n
  }

  lemma MultiplesApart(d: int, n: nat)
    ensures d >= 1 ==> d * n >= n
    ensures d <= -1 ==> d * n + n <= 0
  {
  }

  lemma ModuloUnique(n: nat, q: int, r: nat)
    requires r < n
    ensures (q * n + r) % n == r
  {
    var a := q * n + r;
    var d := a / n - q;
    MultiplesApart(d, n);
    assert d * n == r - a % n;
  }

  lemma TurnExact(n: nat, height: uint64, i: nat, j: nat)
    requires i < n && j < n
    ensures (height + i) % n == j <==> i == Turn(n, height, j)
  {
    var q, r := height / n, height % n;
    assert height == q * n + r;
    if r + i < n {
      ModuloUnique(n, q, r + i);
    } else {
      assert height + i == (q + 1) * n + (r + i - n);
      ModuloUnique(n, q + 1, r + i - n);
    }
  }

  /** Rotation: over |validators| consecutive heights each validator produces
      exactly once, and whoever aggregates at a height produces at the next. */
  lemma Rotation(validators: seq<Key>, height: uint64, i: nat, j: nat)
    requires NoDuplicates(validators) && i < |validators| && j < |validators| && height + |validators| < TWO64
    ensures Producer(validators, height + i) == validators[j] <==> i == Turn(|validators|, height, j)
    ensures Aggregator(validators, height) == Producer(validators, height + 1)
  {
    var n := |validators|;
    TurnExact(n, height, i, j);
    var producerIdx := (height + i) % n;
    assert validators[producerIdx] == validators[j] <==> producerIdx == j;
    NextModulo(n, height);
  }

  lemma NextModulo(n: nat, height: nat)
    requires n > 0
    ensures (height % n + 1) % n == (height + 1) % n
  {
    var q, r := height / n, height % n;
    Quotient(n, height);
    if r + 1 < n {
      ModuloUnique(n, q, r + 1);
      ModuloUnique(n, 0, r + 1);
    } else {
      Successor(n, q);
      ModuloUnique(n, q + 1, 0);
      ModuloUnique(n, 1, 0);
    }
  }

  lemma Quotient(n: nat, height: nat)
    requires n > 0
    ensures height == (height / n) * n + height % n
  {
  }

  lemma Successor(n: nat, q: int)
    ensures (q + 1) * n == q * n + n
  {
  }

  // ----- finality and the tally -----

  /** Without a receiver on finalizeCh the send never returns and nothing else
      happens. */
  function Finalized(s: State, ok: bool): Reaction {
    if !s.timer then Reaction(s, None, None) else Reaction(Reset(s), None, Some(Settlement(ok, s.accountCh, s.blockCh)))
  }

  function ModTotal(n: nat): nat {
    if n % 2 != 0 then n + 1 else n
  }

  function Aggregated(s: State, self: Key, ok: bool): Reaction {
    if s.aggregator != Some(self) then Reaction(s, None, None)
    else
      var t := s.(numVoted := s.numVoted + 1, numVotedOk := s.numVotedOk + if ok then 1 else 0);
      if t.numVoted == |t.validators| - 1 then
        var outcome := t.numVotedOk > ModTotal(|t.validators|) / 2 - 1;
        Finalized(t, outcome).(sent := Some(Finality(outcome)))
      else Reaction(t, None, None)
  }

  function CountOk(votes: seq<bool>): nat {
    if votes == [] then 0 else CountOk(votes[..|votes| - 1]) + if votes[|votes| - 1] then 1 else 0
  }

  /** A strict majority of these votes is yes. */
  predicate Majority(votes: seq<bool>) {
    2 * CountOk(votes) > |votes|
  }

  /** What an aggregator has broadcast and where it stands after aggregating
      these votes one by one. */
  function Tally(s: State, self: Key, votes: seq<bool>): (State, seq<Message>) {
    if votes == [] then (s, [])
    else
      var (t, sent) := Tally(s, self, votes[..|votes| - 1]);
      var r := Aggregated(t, self, votes[|votes| - 1]);
      (r.state, if r.sent.Some? then sent + [r.sent.value] else sent)
  }

  /** Fresh counts, as reset leaves them, and this node decided aggregator. */
  predicate ReadyToCount(s: State, self: Key) {
    s.aggregator == Some(self) && s.numVoted == s.numVotedOk == 0 && |s.validators| >= 2
  }

  /** What the aggregator has broadcast, and where it stands, after these votes. */
  predicate IsTally(s: State, votes: seq<bool>, t: State, sent: seq<Message>)
    requires |s.validators| >= 2
  {
    var n := |s.validators|;
    && sent == (if |votes| < n - 1 then [] else [Finality(Majority(votes[..n - 1]))])
    && t == if |votes| >= n - 1 && s.timer then Reset(s)
            else s.(numVoted := |votes|, numVotedOk := CountOk(votes))
  }

  lemma TallyBefore(s: State, self: Key, votes: seq<bool>, t: State)
    requires ReadyToCount(s, self) && 0 < |votes| < |s.validators| - 1 && IsTally(s, votes[..|votes| - 1], t, [])
    ensures var r := Aggregated(t, self, votes[|votes| - 1]); r.sent.None? && IsTally(s, votes, r.state, [])
  {
  }

  lemma TallyLast(s: State, self: Key, votes: seq<bool>, t: State)
    requires ReadyToCount(s, self) && |votes| == |s.validators| - 1 && IsTally(s, votes[..|votes| - 1], t, [])
    ensures var r := Aggregated(t, self, votes[|votes| - 1]);
            r.sent.Some? && IsTally(s, votes, r.state, [r.sent.value])
  {
    hide Aggregated;
    LastVote(t, self, votes[|votes| - 1]);
    assert votes[..|votes|] == votes;
  }

  /** A cleared node does not aggregate, and one that is stuck without a timer
      counts on and never broadcasts again. */
  lemma TallyAfter(s: State, self: Key, votes: seq<bool>, t: State, sent: seq<Message>)
    requires ReadyToCount(s, self) && |votes| >= |s.validators| && IsTally(s, votes[..|votes| - 1], t, sent)
    ensures var r := Aggregated(t, self, votes[|votes| - 1]); r.sent.None? && IsTally(s, votes, r.state, sent)
  {
    hide Majority;
    var n := |s.validators|;
    assert votes[..|votes| - 1][..n - 1] == votes[..n - 1];
  }

  /** However many votes arrive between two resets, finality is broadcast at most
      once: exactly when vote n - 1 is counted, and true exactly when the yes
      votes are a strict majority of those n - 1. */
  lemma {:induction false} TallyExact(s: State, self: Key, votes: seq<bool>)
    requires ReadyToCount(s, self)
    ensures var (t, sent) := Tally(s, self, votes); IsTally(s, votes, t, sent)
  {
    if votes != [] {
      hide Aggregated, IsTally;
      var m, n := |votes| - 1, |s.validators|;
      var (t, sent) := Tally(s, self, votes[..m]);
      TallyExact(s, self, votes[..m]);
      NothingSent(s, votes[..m], t, sent);
      if |votes| < n - 1 {
        TallyBefore(s, self, votes, t);
      } else if |votes| == n - 1 {
        TallyLast(s, self, votes, t);
      } else {
        TallyAfter(s, self, votes, t, sent);
      }
    }
  }

  lemma NothingSent(s: State, votes: seq<bool>, t: State, sent: seq<Message>)
    requires |s.validators| >= 2 && IsTally(s, votes, t, sent)
    ensures |votes| < |s.validators| - 1 ==> sent == []
  {
  }

  /** The source's threshold is the strict majority of the n - 1 voters. */
  lemma MajorityTest(n: nat, yes: nat)
    ensures yes > ModTotal(n) / 2 - 1 <==> 2 * yes > n - 1
  {
  }

  /** Finality goes out with the last of the n - 1 votes, and says whether they
      carried. */
  lemma LastVote(s: State, self: Key, ok: bool)
    requires s.aggregator == Some(self)
    ensures var t := s.(numVoted := s.numVoted + 1, numVotedOk := s.numVotedOk + if ok then 1 else 0);
            var outcome := 2 * t.numVotedOk > t.numVoted;
            Aggregated(s, self, ok) ==
            if t.numVoted == |s.validators| - 1 then Finalized(t, outcome).(sent := Some(Finality(outcome)))
            else Reaction(t, None, None)
  {
    MajorityTest(|s.validators|, s.numVotedOk + if ok then 1 else 0);
  }

  /** startTimer, then count the own vote or broadcast it. */
  function Voted(s: State, self: Key, ok: bool): Reaction {
    var t := s.(timer := true);
    if t.aggregator == Some(self) then Aggregated(t, self, ok)
    else
      var bad := if ok || t.producer.None? then t.badPeers else Ledger.AddKey(t.badPeers, t.producer.value);
      Reaction(t.(badPeers := bad), Some(Vote(ok)), None)
  }

  // ----- the receive steps -----

  /** handleProposeBlock: `fits`, `halted` and `ok` are what the block's verification
      said of its place in the chain, of an error on the way, and of the whole
      block. After an error the channel is there, but nobody votes or waits. */
  function OnProposal(s: State, self: Key, from: Key, b: Block, fits: bool, halted: bool, ok: bool): Reaction {
    if s.producer != Some(from) then Reaction(s.(badPeers := Ledger.AddKey(s.badPeers, from)), None, None)
    else
      var t := s.(accountCh := if fits then Some(b) else None);
      if halted then Reaction(t, None, None)
      else Voted((if ok then t.(blockCh := Some(b)) else t).(waiting := true), self, ok)
  }

  function OnVote(s: State, self: Key, from: Key, ok: bool): Reaction {
    if s.aggregator != Some(self) || from !in s.validators then Reaction(s, None, None)
    else Aggregated(s, self, ok)
  }

  function OnFinality(s: State, from: Key, ok: bool): Reaction {
    if s.aggregator != Some(from) then Reaction(s.(badPeers := Ledger.AddKey(s.badPeers, from)), None, None)
    else Finalized(s, ok)
  }

  /** Back to where a round starts: nobody is listed, nobody has a role, nothing is
      counted, and nobody waits on any channel. Who is bad, and who was ready, stays. */
  predicate IsCleared(s: State, t: State) {
    && t.validators == [] && t.producer.None? && t.aggregator.None?
    && !t.timer && t.accountCh.None? && t.blockCh.None? && t.numVoted == 0 && t.numVotedOk == 0 && !t.waiting
    && t.badPeers == s.badPeers && t.peersStatus == s.peersStatus
  }

  /** Whichever handler settles an outcome clears the round; and the outcome goes to
      a channel exactly if that channel was there. */
  lemma SettledIsCleared(s: State, self: Key, from: Key, b: Block, fits: bool, halted: bool, ok: bool)
    ensures Finalized(s, ok).settled.Some? <==> s.timer
    ensures s.timer ==>
              IsCleared(s, Finalized(s, ok).state)
              && Finalized(s, ok).settled == Some(Settlement(ok, s.accountCh, s.blockCh))
    ensures OnVote(s, self, from, ok).settled.Some? ==> IsCleared(s, OnVote(s, self, from, ok).state)
    ensures OnFinality(s, from, ok).settled.Some? ==> IsCleared(s, OnFinality(s, from, ok).state)
    ensures var r := OnProposal(s, self, from, b, fits, halted, ok);
            r.settled.Some? ==> IsCleared(s, r.state)
  {
  }

  /** Who is not asked changes nothing but the list of bad peers: a block from anyone
      but the producer, an outcome from anyone but the aggregator, both noted as bad,
      and a vote from nobody on the list, or to a node that does not aggregate, not
      even noted. */
  lemma StrangersIgnored(s: State, self: Key, from: Key, b: Block, fits: bool, halted: bool, ok: bool, k: Key)
    ensures s.producer != Some(from) ==> IsSnubbed(s, from, OnProposal(s, self, from, b, fits, halted, ok), k)
    ensures s.aggregator != Some(from) ==> IsSnubbed(s, from, OnFinality(s, from, ok), k)
    ensures from !in s.validators || s.aggregator != Some(self) ==>
              OnVote(s, self, from, ok) == Reaction(s, None, None)
  {
  }

  predicate IsSnubbed(s: State, from: Key, r: Reaction, k: Key) {
    && r.sent.None? && r.settled.None? && r.state == s.(badPeers := r.state.badPeers)
    && (k in r.state.badPeers <==> k in s.badPeers || k == from)
  }

  /** The producer's block at a node that does not aggregate. Its verdict is
      broadcast, the node waits, the channels are there exactly as far as the block
      got, and a producer whose block was refused is bad from then on. If the
      verification ended in an error, nothing but the channel is left. */
  lemma ProposalHandled(s: State, self: Key, from: Key, b: Block, fits: bool, halted: bool, ok: bool, k: Key)
    requires s.producer == Some(from) && s.aggregator != Some(self) && s.blockCh.None?
    ensures var r := OnProposal(s, self, from, b, fits, halted, ok);
            var t := r.state;
            && r.settled.None?
            && (r.sent.Some? <==> !halted) && (r.sent.Some? ==> r.sent.value == Vote(ok))
            && (t.accountCh == if fits then Some(b) else None)
            && (t.blockCh.Some? <==> !halted && ok) && (t.blockCh.Some? ==> t.blockCh.value == b)
            && (k in t.badPeers <==> k in s.badPeers || (!halted && !ok && k == from))
            && t == s.(accountCh := t.accountCh, blockCh := t.blockCh, badPeers := t.badPeers,
                       waiting := s.waiting || !halted, timer := s.timer || !halted)
  {
  }

  /** proposeBlock and what the tick does after it. */
  function Proposed(s: State, b: Block): Reaction {
    Reaction(s.(accountCh := Some(b), blockCh := Some(b), waiting := true, timer := true), Some(Proposal(b)), None)
  }

  /** What a tick broadcasts: nothing because it was skipped, gossip, nothing, the
      committee, or the committee and then a block. */
  datatype TickAction = Idle | Gossip | Pass | Start | Propose

  class ConsensusService {
    const c: Codec
    const self: Key
    var nextValidators: seq<Key>
    var nextBlockProducer: Option<Key>
    var nextAggregator: Option<Key>
    var finalizeCh: bool
    var accountCh: Option<Block>
    var blockCh: Option<Block>
    var numVoted: nat
    var numVotedOk: nat
    var waitingFinality: bool
    var badPeers: seq<Key>
    var peersStatus: map<string, bool>
    var tick: nat

    constructor (c: Codec, self: Key)
      ensures Value() == NEW_STATE && this.c == c && this.self == self
    {
      this.c, this.self := c, self;
      nextValidators, nextBlockProducer, nextAggregator := [], None, None;
      finalizeCh, accountCh, blockCh := false, None, None;
      numVoted, numVotedOk, waitingFinality := 0, 0, false;
      badPeers, peersStatus, tick := [], map[], 0;
    }

    function Value(): State
      reads this
    {
      State(nextValidators, nextBlockProducer, nextAggregator, finalizeCh, accountCh, blockCh,
            numVoted, numVotedOk, waitingFinality, badPeers, peersStatus)
    }

    method ResetRound()
      modifies this
      ensures Value() == Reset(old(Value()))
    {
      nextValidators, nextBlockProducer, nextAggregator := [], None, None;
      finalizeCh, accountCh, blockCh := false, None, None;
      numVoted, numVotedOk, waitingFinality := 0, 0, false;
    }

    method RemoveFromNextValidators(pk: Key)
      modifies this`nextValidators
      ensures nextValidators == Removed(old(nextValidators), pk)
    {
      var keys := nextValidators;
      var i := 0;
      while i < |keys| && keys[i] != pk
        invariant 0 <= i <= |keys| && pk !in keys[..i] && nextValidators == keys
      {
        i := i + 1;
      }
      RemovedAt(keys, i, pk);
      if i < |keys| {
        assert keys[i..][1..] == keys[i + 1..];
        nextValidators := keys[..i] + keys[i + 1..];
      } else {
        assert keys[..i] == keys;
      }
    }

    method AddToNextValidators(pk: Key)
      modifies this`nextValidators
      ensures nextValidators == Ledger.AddKey(old(nextValidators), pk)
    {
      if pk !in nextValidators {
        nextValidators := nextValidators + [pk];
      }
    }

    method AddToBadPeer(pk: Key)
      modifies this`badPeers
      ensures badPeers == Ledger.AddKey(old(badPeers), pk)
    {
      if pk !in badPeers {
        badPeers := badPeers + [pk];
      }
    }

    /** The third tick adds the node itself and decides. */
    method DecideCommittee(height: uint64)
      requires nextValidators != []
      modifies this
      ensures IsSorting(c, old(nextValidators), nextValidators) && nextValidators != []
      ensures Value() == Decided(old(Value()), nextValidators, height) && tick == old(tick)
    {
      var sorted := SortFunc(nextValidators, KeyRank(c));
      SortingKeepsMembers(c, nextValidators, sorted);
      nextValidators := sorted;
      nextBlockProducer := Some(sorted[ProducerIndex(|sorted|, height)]);
      nextAggregator := Some(sorted[AggregatorIndex(|sorted|, height)]);
    }

    method Finalize(ok: bool) returns (settled: Option<Settlement>)
      modifies this
      ensures Reaction(Value(), None, settled) == Finalized(old(Value()), ok)
    {
      if !finalizeCh {
        return None;
      }
      settled := Some(Settlement(ok, accountCh, blockCh));
      ResetRound();
    }

    method BroadcastFinality(ok: bool) returns (sent: Option<Message>, settled: Option<Settlement>)
      requires nextAggregator == Some(self)
      modifies this
      ensures Reaction(Value(), sent, settled) == Finalized(old(Value()), ok).(sent := Some(Finality(ok)))
    {
      sent := Some(Finality(ok));
      settled := Finalize(ok);
    }

    method Aggregate(ok: bool) returns (sent: Option<Message>, settled: Option<Settlement>)
      modifies this
      ensures Reaction(Value(), sent, settled) == Aggregated(old(Value()), self, ok)
    {
      sent, settled := None, None;
      if nextAggregator != Some(self) {
        return;
      }
      numVoted := numVoted + 1;
      if ok {
        numVotedOk := numVotedOk + 1;
      }
      var numValidators := |nextValidators|;
      var modTotal := numValidators;
      if modTotal % 2 != 0 {
        modTotal := modTotal + 1;
      }
      if numVoted == numValidators - 1 {
        if numVotedOk > modTotal / 2 - 1 {
          sent, settled := BroadcastFinality(true);
        } else {
          sent, settled := BroadcastFinality(false);
        }
      }
    }

    method CastVote(ok: bool) returns (sent: Option<Message>, settled: Option<Settlement>)
      modifies this
      ensures Reaction(Value(), sent, settled) == Voted(old(Value()), self, ok)
    {
      finalizeCh := true;
      if nextAggregator == Some(self) {
        sent, settled := Aggregate(ok);
      } else {
        sent, settled := Some(Vote(ok)), None;
        if !ok && nextBlockProducer.Some? {
          AddToBadPeer(nextBlockProducer.value);
        }
      }
    }

    method HandleProposeBlock(from: Key, b: Block, fits: bool, halted: bool, ok: bool)
      returns (sent: Option<Message>, settled: Option<Settlement>)
      modifies this
      ensures Reaction(Value(), sent, settled) == OnProposal(old(Value()), self, from, b, fits, halted, ok)
    {
      if nextBlockProducer != Some(from) {
        AddToBadPeer(from);
        return None, None;
      }
      accountCh := if fits then Some(b) else None;
      if halted {
        return None, None;
      }
      waitingFinality := true;
      if ok {
        blockCh := Some(b);
      }
      sent, settled := CastVote(ok);
    }

    method HandleVote(from: Key, ok: bool) returns (sent: Option<Message>, settled: Option<Settlement>)
      modifies this
      ensures Reaction(Value(), sent, settled) == OnVote(old(Value()), self, from, ok)
    {
      if nextAggregator != Some(self) || from !in nextValidators {
        return None, None;
      }
      sent, settled := Aggregate(ok);
    }

    method HandleFinalize(from: Key, ok: bool) returns (settled: Option<Settlement>)
      modifies this
      ensures Reaction(Value(), None, settled) == OnFinality(old(Value()), from, ok)
    {
      if nextAggregator != Some(from) {
        AddToBadPeer(from);
        return None;
      }
      settled := Finalize(ok);
    }

    method HandleGossip(msg: GossipMsg, syncing: bool, info: ChainInfo) returns (startSync: Option<uint64>)
      modifies this
      ensures (Value(), startSync) == Gossiped(old(Value()), syncing, info, msg)
    {
      if waitingFinality || syncing || msg.isSyncing || msg.publicKey in badPeers {
        return None;
      }
      if msg.nextHeight > info.nextHeight {
        return Some(msg.nextHeight - 1);
      } else if msg.nextHeight < info.nextHeight {
        RemoveFromNextValidators(msg.publicKey);
        return None;
      }
      if msg.nextEpoch != info.nextEpoch {
        RemoveFromNextValidators(msg.publicKey);
        return None;
      }
      if msg.nextSlot != info.nextSlot {
        RemoveFromNextValidators(msg.publicKey);
        return None;
      }
      peersStatus := peersStatus[msg.ip := msg.isReady];
      AddToNextValidators(msg.publicKey);
      startSync := None;
    }

    predicate AllPeerReady()
      reads this
    {
      forall ip :: ip in peersStatus ==> peersStatus[ip]
    }

    /** One tick of the loop. The counter stands still while the node has no peer
        or waits for finality, and on the third tick while it syncs or has heard of
        no validator. It proposes exactly when it may: its own committee names it,
        every peer has reported ready, and there is something to propose. */
    method Tick(peers: nat, syncing: bool, pending: nat, height: uint64) returns (action: TickAction)
      modifies this
      ensures waitingFinality == old(waitingFinality)
      ensures action == Idle <==>
                || peers == 0 || old(waitingFinality)
                || (old(tick) == 2 && (syncing || old(nextValidators) == []))
      ensures action == Idle ==> tick == old(tick) && Value() == old(Value())
      ensures action != Idle ==> tick == (old(tick) + 1) % 4
      ensures action == Gossip <==> action != Idle && old(tick) < 2
      ensures action == Gossip || old(tick) == 3 ==> Value() == old(Value())
      ensures action != Idle && old(tick) == 2 ==>
                && IsSorting(c, Ledger.AddKey(old(nextValidators), self), nextValidators) && nextValidators != []
                && Value() == Decided(old(Value()), nextValidators, height)
      ensures action in {Start, Propose} <==>
                action != Idle && old(tick) == 2 && forall ip :: ip in peersStatus ==> peersStatus[ip]
      ensures action == Propose <==>
                action in {Start, Propose} && pending > 0 && nextBlockProducer == Some(self)
    {
      if peers == 0 || waitingFinality {
        return Idle;
      }
      action := Pass;
      if tick < 2 {
        action := Gossip;
      } else if tick == 2 {
        if syncing || nextValidators == [] {
          return Idle;
        }
        action := ThirdTick(pending, height);
      }
      ghost var v := Value();
      tick := (tick + 1) % 4;
      assert Value() == v;
    }

    method ThirdTick(pending: nat, height: uint64) returns (action: TickAction)
      modifies this
      ensures IsSorting(c, Ledger.AddKey(old(nextValidators), self), nextValidators) && nextValidators != []
      ensures Value() == Decided(old(Value()), nextValidators, height) && tick == old(tick)
      ensures action == if !AllPeerReady() then Pass
                        else if pending > 0 && nextBlockProducer == Some(self) then Propose else Start
    {
      AddToNextValidators(self);
      DecideCommittee(height);
      action := Pass;
      if AllPeerReady() {
        action := if pending > 0 && nextBlockProducer == Some(self) then Propose else Start;
      }
    }

    /** The part of the third tick that proposes. */
    method ProposeBlock(b: Block) returns (sent: Option<Message>)
      modifies this
      ensures Reaction(Value(), sent, None) == Proposed(old(Value()), b)
    {
      blockCh := Some(b);
      accountCh := Some(b);
      waitingFinality := true;
      finalizeCh := true;
      sent := Some(Proposal(b));
    }
  }
}
