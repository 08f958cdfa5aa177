/** A node as a value, and what the steps of its life do to it: rounds as
    producer or verifier with either outcome, synced blocks, restarts. */
module Runs {
  import opened Common
  import opened Records
  import opened PowersOfTwo
  import opened Ledger
  import opened Conservation
  import opened StateHash
  import opened Blocks
  import opened Blockchains

  datatype NodeState = NodeState(
    mem: Accounts, store: Accounts, generator: Option<Key>, chain: seq<Block>, info: ChainInfo)

  const NEW_NODE := NodeState(map[], map[], None, [], NO_BLOCKS)

  // ----- checking and executing a block (executers/block_producer.go) -----

  ghost function Executed(c: Codec, s: NodeState, b: Block): Execution {
    Run(c, s.generator, s.store, s.mem, b.transactions)
  }

  /** The block with the statuses its execution leaves: the verifier's execution
      writes into the block it is about to hash and store. */
  function Marked(c: Codec, b: Block): Block {
    b.(transactions := MarkAll(c, b.transactions))
  }

  predicate CheckBlockInfo(i: ChainInfo, b: Block) {
    b.info.height == i.nextHeight && i.previous == Some(b.previousBlockHash)
  }

  /** CheckStateHash and CheckBlockHash after execution. The hash is rebuilt from
      the node's own previous hash and state. */
  ghost predicate Passes(c: Codec, s: NodeState, b: Block) {
    var state := StateRoot(c, Executed(c, s, b).mem);
    && s.info.previous.Some?
    && state == b.stateHash
    && BlockHash(c, MarkAll(c, b.transactions), s.info.previous.value, state) == Some(b.info.hash)
  }

  ghost predicate Acceptable(c: Codec, s: NodeState, b: Block) {
    CheckBlockInfo(s.info, b) && Passes(c, s, b)
  }

  /** A bundle whose length is not a power of two cannot be hashed. If the block
      gets that far, the error stops the node; the next thing it can do is start
      again, on the storage it had. */
  ghost predicate Halts(c: Codec, s: NodeState, b: Block) {
    && CheckBlockInfo(s.info, b)
    && StateRoot(c, Executed(c, s, b).mem) == b.stateHash
    && !IsPow2(|b.transactions|)
  }

  /** The block is stored: chain, counters and accounts move together. */
  ghost function Accepted(c: Codec, s: NodeState, b: Block): NodeState {
    s.(mem := Executed(c, s, b).mem,
       store := Committed(c, s.generator, s.store, s.mem, b.transactions),
       chain := s.chain + [Marked(c, b)],
       info := Advanced(s.info, b.info.hash))
  }

  /** The block around transactions that were executed, over the state they left. */
  ghost function Sealed(
      c: Codec, s: NodeState, marked: seq<Transaction>, author: Key, signature: Bytes, timestamp: int64): Block
    requires s.info.previous.Some? && IsPow2(|marked|)
  {
    var state := StateRoot(c, s.mem);
    var hash := BlockHash(c, marked, s.info.previous.value, state).value;
    Block(BlockInfo(s.info.nextHeight, hash, signature, author, timestamp), marked, s.info.previous.value, state)
  }

  /** NewBlock, with the transactions the pool was cut for. */
  ghost function NewBlock(
      c: Codec, s: NodeState, txs: seq<Transaction>, author: Key, signature: Bytes, timestamp: int64): Block
    requires s.info.previous.Some? && IsPow2(|txs|)
  {
    Sealed(c, s.(mem := Run(c, s.generator, s.store, s.mem, txs).mem), MarkAll(c, txs), author, signature, timestamp)
  }

  /** Two nodes hold the same ledger and the same view of the chain. */
  ghost predicate SameView(s: NodeState, t: NodeState) {
    s.mem == t.mem && s.store == t.store && s.generator == t.generator && s.info == t.info
  }

  /** Completeness: a node with the producer's view accepts whatever block
      NewBlock builds, and both end up with the same memory, the same storage and
      the same stored block. Re-execution is idempotent on the statuses that the
      transaction hash covers. */
  lemma ProducedIsAcceptable(
      c: Codec, producer: NodeState, verifier: NodeState, txs: seq<Transaction>,
      author: Key, signature: Bytes, timestamp: int64)
    requires SameView(producer, verifier) && producer.info.previous.Some? && IsPow2(|txs|)
    ensures var b := NewBlock(c, producer, txs, author, signature, timestamp);
            && Acceptable(c, verifier, b)
            && Marked(c, b) == b
            && SealedBlock(c, b)
            && Executed(c, verifier, b) == Run(c, producer.generator, producer.store, producer.mem, txs)
            && SameView(Accepted(c, producer, b), Accepted(c, verifier, b))
  {
    RunIgnoresStatus(c, producer.generator, producer.store, producer.mem, txs);
    MarkAllIdempotent(c, txs);
  }

  /** What a produced block says: the next height, the chain's tip, its author's
      name and signature, and the very calls the pool was cut for. */
  lemma ProducedNames(
      c: Codec, s: NodeState, txs: seq<Transaction>, author: Key, signature: Bytes, timestamp: int64)
    requires s.info.previous.Some? && IsPow2(|txs|)
    ensures var b := NewBlock(c, s, txs, author, signature, timestamp);
            && b.info.height == s.info.nextHeight && Some(b.previousBlockHash) == s.info.previous
            && b.info.publicKey == author && b.info.signature == signature && b.info.timestamp == timestamp
            && |b.transactions| == |txs|
            && forall i :: 0 <= i < |txs| ==>
                 b.transactions[i].innerData == txs[i].innerData && b.transactions[i].hash == txs[i].hash
  {
  }

  /** One block, one state: whoever accepts a block, executing it leaves the same
      accounts, names and all, or two byte strings with one digest are computed from
      the two memories. The nodes need not agree on anything before. */
  lemma SameBlockSameState(c: Codec, s: NodeState, t: NodeState, b: Block)
    requires c.RoundTrips() && PaddingApart(c) && Acceptable(c, s, b) && Acceptable(c, t, b)
    requires ComparableStates(c, Executed(c, s, b).mem, Executed(c, t, b).mem)
    ensures var m, m' := Executed(c, s, b).mem, Executed(c, t, b).mem;
            m == m' || var (x, y) := StateCollision(c, m, m'); IsCollision(c.sha3, x, y)
  {
    hide Executed, StateCollision, ComparableStates, PaddingApart;
    if Executed(c, s, b).mem != Executed(c, t, b).mem {
      StateRootBinds(c, Executed(c, s, b).mem, Executed(c, t, b).mem);
    }
  }

  // ----- genesis and sync (nodes/node.go, nodes/sync/sync_service.go) -----

  /** Faucet.Init puts the generator's account unless storage has one. */
  function WithFaucet(store: Accounts, gen: Key): Accounts {
    if gen in store then store else store[gen := Account(0, GENERATOR_BALANCE)]
  }

  /** OnBlockStored for height 0: the faucet is set up, and memory fetches its account. */
  function StoreGenesis(s: NodeState, b: Block): NodeState {
    var gen := b.info.publicKey;
    var store := WithFaucet(s.store, gen);
    NodeState(Refetch(s.mem, store, [gen]), store, Some(gen), s.chain + [b], Advanced(s.info, b.info.hash))
  }

  /** One block of the sync loop. A block that fails after its execution leaves
      memory as the execution left it. */
  ghost function Synced(c: Codec, s: NodeState, b: Block): NodeState {
    if b.info.height == 0 then StoreGenesis(s, b)
    else if !CheckBlockInfo(s.info, b) then s
    else if !Passes(c, s, b) then s.(mem := Executed(c, s, b).mem)
    else Accepted(c, s, b)
  }

  /** The sync loop only asks for the next height, so height 0 only when there is
      no block yet. */
  predicate Requested(s: NodeState, b: Block) {
    b.info.height == 0 ==> s.info.nextHeight == 0
  }

  ghost predicate SyncApplies(c: Codec, s: NodeState, b: Block) {
    b.info.height == 0 || Acceptable(c, s, b)
  }

  // ----- finality (executers/executer.go, nodes/sync/sync_service.go) -----

  /** A verifier's round. It votes yes exactly when the checks pass, but the
      outcome is the aggregator's; a node that voted no still pushes the accounts
      when the block is accepted, and does not store the block. */
  ghost function Verified(c: Codec, s: NodeState, b: Block, outcome: bool): NodeState {
    if !CheckBlockInfo(s.info, b) then s
    else if !outcome then s.(mem := Rejected(s.store, Executed(c, s, b)))
    else if Passes(c, s, b) then Accepted(c, s, b)
    else s.(mem := Executed(c, s, b).mem,
            store := Committed(c, s.generator, s.store, s.mem, b.transactions))
  }

  /** A block goes to the chain, whatever happened to the accounts. */
  function WithBlock(s: NodeState, b: Block): NodeState {
    s.(chain := s.chain + [b], info := Advanced(s.info, b.info.hash))
  }

  /** What the finality channels do to an executed block: its accounts are pushed
      or fetched back, and an accepted block is stored if it was handed over. */
  function Finalized(s: NodeState, executed: seq<Key>, handed: Option<Block>, outcome: bool): NodeState
    requires Holds(s.mem, executed)
  {
    if !outcome then s.(mem := Refetch(s.mem, s.store, executed))
    else
      var t := s.(store := Push(s.store, s.mem, executed));
      if handed.None? then t else WithBlock(t, handed.value)
  }

  /** A verifier's round is its execution followed by its finality. */
  lemma VerifiedInSteps(c: Codec, s: NodeState, b: Block, outcome: bool)
    requires CheckBlockInfo(s.info, b)
    ensures var e := Executed(c, s, b);
            && Holds(e.mem, e.executed)
            && Verified(c, s, b, outcome) ==
               Finalized(s.(mem := e.mem), e.executed, if Passes(c, s, b) then Some(Marked(c, b)) else None, outcome)
  {
    ExecutedInMemory(c, s.generator, s.store, s.mem, b.transactions);
  }

  /** And a producer's round is its execution followed by its finality. */
  lemma ProducedInSteps(
      c: Codec, s: NodeState, txs: seq<Transaction>, author: Key, signature: Bytes, timestamp: int64, outcome: bool)
    requires s.info.previous.Some? && IsPow2(|txs|)
    ensures var e, b := Run(c, s.generator, s.store, s.mem, txs), NewBlock(c, s, txs, author, signature, timestamp);
            && Holds(e.mem, e.executed)
            && Verified(c, s, b, outcome) == Finalized(s.(mem := e.mem), e.executed, Some(b), outcome)
  {
    ExecutedInMemory(c, s.generator, s.store, s.mem, txs);
    ProducedIsAcceptable(c, s, s, txs, author, signature, timestamp);
    VerifiedInSteps(c, s, NewBlock(c, s, txs, author, signature, timestamp), outcome);
  }

  datatype Event =
    | SyncBlock(block: Block)
    | Propose(txs: seq<Transaction>, author: Key, signature: Bytes, timestamp: int64, outcome: bool)
    | Verify(block: Block, outcome: bool)
    | Restart

  /** What a restart rebuilds from storage: the faucet's Init, Latest and FetchAllAccounts. */
  function Restarted(s: NodeState): NodeState {
    if s.chain == [] then NodeState(s.store, s.store, None, [], NO_BLOCKS)
    else
      var tip, gen := s.chain[|s.chain| - 1], s.chain[0].info.publicKey;
      var store := WithFaucet(s.store, gen);
      NodeState(store, store, Some(gen), s.chain,
                Restored((tip.info.height + 1) % TWO64, tip.info.hash))
  }

  /** The steps in which Run rebuilds it. */
  lemma RestartInSteps(s: NodeState)
    requires s == NodeState(map[], s.store, None, s.chain, NO_BLOCKS)
    ensures var s1 := if s.chain == [] then s
                      else var gen := s.chain[0].info.publicKey;
                           s.(store := WithFaucet(s.store, gen), generator := Some(gen));
            var s2 := if s.chain == [] then s1
                      else var tip := s.chain[|s.chain| - 1];
                           s1.(info := Restored((tip.info.height + 1) % TWO64, tip.info.hash));
            s2.(mem := s2.mem + s2.store) == Restarted(s)
  {
    assert map[] + s.store == s.store;
    if s.chain != [] {
      var store := WithFaucet(s.store, s.chain[0].info.publicKey);
      assert map[] + store == store;
    }
  }

  ghost predicate Enabled(c: Codec, s: NodeState, e: Event) {
    match e
    case SyncBlock(b) => Requested(s, b) && (b.info.height != 0 ==> !Halts(c, s, b))
    case Propose(txs, _, _, _, _) => s.info.previous.Some? && IsPow2(|txs|)
    case Verify(b, _) => !Halts(c, s, b)
    case Restart => true
  }

  ghost function After(c: Codec, s: NodeState, e: Event): NodeState
    requires Enabled(c, s, e)
  {
    match e
    case SyncBlock(b) => Synced(c, s, b)
    case Propose(txs, author, signature, timestamp, outcome) =>
      Verified(c, s, NewBlock(c, s, txs, author, signature, timestamp), outcome)
    case Verify(b, outcome) => Verified(c, s, b, outcome)
    case Restart => Restarted(s)
  }

  ghost predicate IsStep(c: Codec, s: NodeState, e: Event, t: NodeState) {
    Enabled(c, s, e) && t == After(c, s, e)
  }

  /** Rounds and sync steps in any order, never overlapping. */
  ghost predicate IsRun(c: Codec, states: seq<NodeState>, events: seq<Event>) {
    && |states| == |events| + 1 && states[0] == NEW_NODE
    && forall i {:trigger events[i]} :: 0 <= i < |events| ==> IsStep(c, states[i], events[i], states[i + 1])
  }

  // ----- the hash chain over all runs -----

  /** The stored chain is linked, the counters are its length and its tip's hash. */
  ghost predicate ChainInvariant(c: Codec, s: NodeState) {
    && Linked(c, s.chain)
    && s.info.nextHeight == |s.chain|
    && s.info.previous == if s.chain == [] then None else Some(s.chain[|s.chain| - 1].info.hash)
  }

  lemma LinkedAppend(c: Codec, chain: seq<Block>, b: Block)
    requires Linked(c, chain) && b.info.height == |chain|
    requires chain != [] ==> SealedBlock(c, b) && b.previousBlockHash == chain[|chain| - 1].info.hash
    ensures Linked(c, chain + [b])
  {
    hide SealedBlock;
  }

  lemma AcceptableIsSealed(c: Codec, s: NodeState, b: Block)
    requires Acceptable(c, s, b)
    ensures SealedBlock(c, Marked(c, b)) && s.info.previous == Some(b.previousBlockHash)
  {
  }

  lemma AcceptedKeepsChain(c: Codec, s: NodeState, b: Block)
    requires ChainInvariant(c, s) && Acceptable(c, s, b) && |s.chain| + 1 < TWO64
    ensures ChainInvariant(c, Accepted(c, s, b))
  {
    hide Executed, Committed, SealedBlock;
    var t := Accepted(c, s, b);
    assert Linked(c, t.chain) by {
      AcceptableIsSealed(c, s, b);
      LinkedAppend(c, s.chain, Marked(c, b));
    }
  }

  lemma VerifiedKeepsChain(c: Codec, s: NodeState, b: Block, outcome: bool)
    requires ChainInvariant(c, s) && |s.chain| + 1 < TWO64
    ensures ChainInvariant(c, Verified(c, s, b, outcome))
    ensures |s.chain| <= |Verified(c, s, b, outcome).chain| <= |s.chain| + 1
  {
    hide Linked, Passes, Executed, Committed, Rejected;
    if Acceptable(c, s, b) {
      AcceptedKeepsChain(c, s, b);
    }
  }

  lemma SyncedKeepsChain(c: Codec, s: NodeState, b: Block)
    requires ChainInvariant(c, s) && |s.chain| + 1 < TWO64 && Requested(s, b)
    ensures ChainInvariant(c, Synced(c, s, b))
    ensures |s.chain| <= |Synced(c, s, b).chain| <= |s.chain| + 1
  {
    hide Passes, Executed, Committed, SealedBlock;
    if b.info.height == 0 {
      LinkedAppend(c, s.chain, b);
    } else if Acceptable(c, s, b) {
      AcceptedKeepsChain(c, s, b);
    }
  }

  lemma StepKeepsChain(c: Codec, s: NodeState, e: Event)
    requires ChainInvariant(c, s) && Enabled(c, s, e) && |s.chain| + 1 < TWO64
    ensures ChainInvariant(c, After(c, s, e))
    ensures |s.chain| <= |After(c, s, e).chain| <= |s.chain| + 1
  {
    match e
    case SyncBlock(b) => SyncedKeepsChain(c, s, b);
    case Propose(txs, author, signature, timestamp, outcome) =>
      VerifiedKeepsChain(c, s, NewBlock(c, s, txs, author, signature, timestamp), outcome);
    case Verify(b, outcome) => VerifiedKeepsChain(c, s, b, outcome);
    case Restart =>
  }

  ghost predicate ChainAt(c: Codec, n: int, s: NodeState) {
    ChainInvariant(c, s) && |s.chain| <= n
  }

  /** Every reachable state of every run keeps the hash chain. */
  lemma RunsKeepChain(c: Codec, states: seq<NodeState>, events: seq<Event>, i: nat)
    requires IsRun(c, states, events) && i <= |events| && |events| + 1 < TWO64
    ensures ChainInvariant(c, states[i]) && |states[i].chain| <= i
  {
    forall n, s, e, t | 0 <= n < |events| && ChainAt(c, n, s) && IsStep(c, s, e, t)
      ensures ChainAt(c, n + 1, t)
    {
      StepKeepsChain(c, s, e);
    }
    Along(states, events, (s, e, t) => IsStep(c, s, e, t), (n, s) => ChainAt(c, n, s), i);
  }

  // ----- the ledger over all runs -----

  ghost predicate BalancesBounded(s: NodeState) {
    Bounded(s.mem) && Bounded(s.store)
  }

  lemma CommittedBounded(c: Codec, s: NodeState, b: Block)
    requires BalancesBounded(s)
    ensures Bounded(Executed(c, s, b).mem)
    ensures Bounded(Rejected(s.store, Executed(c, s, b)))
    ensures Bounded(Committed(c, s.generator, s.store, s.mem, b.transactions))
  {
    RunBounded(c, s.generator, s.store, s.mem, b.transactions);
  }

  lemma VerifiedKeepsBounds(c: Codec, s: NodeState, b: Block, outcome: bool)
    requires BalancesBounded(s)
    ensures BalancesBounded(Verified(c, s, b, outcome))
  {
    CommittedBounded(c, s, b);
  }

  lemma SyncedKeepsBounds(c: Codec, s: NodeState, b: Block)
    requires BalancesBounded(s)
    ensures BalancesBounded(Synced(c, s, b))
  {
    if b.info.height != 0 {
      CommittedBounded(c, s, b);
    }
  }

  lemma StepKeepsBounds(c: Codec, s: NodeState, e: Event)
    requires BalancesBounded(s) && Enabled(c, s, e)
    ensures BalancesBounded(After(c, s, e))
  {
    match e
    case SyncBlock(b) => SyncedKeepsBounds(c, s, b);
    case Propose(txs, author, signature, timestamp, outcome) =>
      VerifiedKeepsBounds(c, s, NewBlock(c, s, txs, author, signature, timestamp), outcome);
    case Verify(b, outcome) => VerifiedKeepsBounds(c, s, b, outcome);
    case Restart =>
  }

  ghost predicate BoundedAt(n: int, s: NodeState) {
    BalancesBounded(s)
  }

  /** No balance ever exceeds the initial supply, in memory or in storage, in any
      run; so the subtraction in `Add` never wraps. */
  lemma RunsKeepBounds(c: Codec, states: seq<NodeState>, events: seq<Event>, i: nat)
    requires IsRun(c, states, events) && i <= |events|
    ensures BalancesBounded(states[i])
  {
    forall n, s, e, t | 0 <= n < |events| && BoundedAt(n, s) && IsStep(c, s, e, t)
      ensures BoundedAt(n + 1, t)
    {
      StepKeepsBounds(c, s, e);
    }
    Along(states, events, (s, e, t) => IsStep(c, s, e, t), (n, s) => BoundedAt(n, s), i);
  }

  /** The one step after which memory and storage may disagree: a synced block
      that executed and then failed a check. */
  ghost predicate LeavesMemoryDirty(c: Codec, s: NodeState, e: Event) {
    e.SyncBlock? && e.block.info.height != 0 && CheckBlockInfo(s.info, e.block) && !Passes(c, s, e.block)
  }

  /** What such a step leaves behind: chain, counters and storage as before, and
      memory as the execution left it; so memory and storage agree afterwards if and
      only if the block's calls happened to leave every account as it is stored. */
  lemma DirtyExactly(c: Codec, s: NodeState, b: Block)
    requires LeavesMemoryDirty(c, s, SyncBlock(b))
    ensures var t, e := Synced(c, s, b), Run(c, s.generator, s.store, s.mem, b.transactions);
            && t == s.(mem := e.mem)
            && (Agree(s.mem, s.store) ==>
                  (Agree(t.mem, t.store) <==> forall k :: k in e.executed ==> At(e.mem, k) == At(s.store, k)))
  {
    hide Run, Passes;
    if Agree(s.mem, s.store) {
      BoundaryAgreement(c, s.generator, s.store, s.mem, b.transactions);
    }
  }

  lemma VerifiedKeepsAgreement(c: Codec, s: NodeState, b: Block, outcome: bool)
    requires Agree(s.mem, s.store)
    ensures Agree(Verified(c, s, b, outcome).mem, Verified(c, s, b, outcome).store)
  {
    FinalityAgreement(c, s.generator, s.store, s.mem, b.transactions);
  }

  lemma StepKeepsAgreement(c: Codec, s: NodeState, e: Event)
    requires Agree(s.mem, s.store) && Enabled(c, s, e) && !LeavesMemoryDirty(c, s, e)
    ensures Agree(After(c, s, e).mem, After(c, s, e).store)
  {
    match e
    case SyncBlock(b) =>
      if b.info.height == 0 {
        GenesisAgreement(s, b);
      } else {
        VerifiedKeepsAgreement(c, s, b, true);
      }
    case Propose(txs, author, signature, timestamp, outcome) =>
      VerifiedKeepsAgreement(c, s, NewBlock(c, s, txs, author, signature, timestamp), outcome);
    case Verify(b, outcome) =>
      VerifiedKeepsAgreement(c, s, b, outcome);
    case Restart =>
  }

  lemma GenesisAgreement(s: NodeState, b: Block)
    requires Agree(s.mem, s.store)
    ensures Agree(StoreGenesis(s, b).mem, StoreGenesis(s, b).store)
  {
    var t, gen := StoreGenesis(s, b), b.info.publicKey;
    forall k
      ensures At(t.mem, k) == At(t.store, k)
    {
      if k != gen {
        assert k !in [gen];
        assert At(t.mem, k) == At(s.mem, k) == At(s.store, k) == At(t.store, k);
      }
    }
  }

  /** A step after which memory and storage agree if they did before. */
  ghost predicate IsCleanStep(c: Codec, s: NodeState, e: Event, t: NodeState) {
    IsStep(c, s, e, t) && !LeavesMemoryDirty(c, s, e)
  }

  ghost predicate AgreeAt(n: int, s: NodeState) {
    Agree(s.mem, s.store)
  }

  /** Between rounds, memory and storage agree at every point of every run in
      which no sync step fails after executing. */
  lemma RunsKeepAgreement(c: Codec, states: seq<NodeState>, events: seq<Event>, i: nat)
    requires IsRun(c, states, events) && i <= |events|
    requires forall j {:trigger events[j]} :: 0 <= j < i ==> !LeavesMemoryDirty(c, states[j], events[j])
    ensures Agree(states[i].mem, states[i].store)
  {
    forall n, s, e, t | 0 <= n < i && AgreeAt(n, s) && IsCleanStep(c, s, e, t)
      ensures AgreeAt(n + 1, t)
    {
      StepKeepsAgreement(c, s, e);
    }
    var states', events' := states[..i + 1], events[..i];
    assert forall j {:trigger events'[j]} :: 0 <= j < i ==> events'[j] == events[j];
    Along(states', events', (s, e, t) => IsCleanStep(c, s, e, t), (n, s) => AgreeAt(n, s), i);
  }

  // ----- the supply over all runs -----

  /** The block whose accounts this event commits to storage. Rejected rounds and
      blocks that do not fit the chain commit nothing. */
  ghost function CommittedBlock(c: Codec, s: NodeState, e: Event): Option<Block>
    requires Enabled(c, s, e)
  {
    match e
    case SyncBlock(b) => if b.info.height != 0 && Acceptable(c, s, b) then Some(b) else None
    case Propose(txs, author, signature, timestamp, outcome) =>
      if outcome then Some(NewBlock(c, s, txs, author, signature, timestamp)) else None
    case Verify(b, outcome) => if outcome && CheckBlockInfo(s.info, b) then Some(b) else None
    case Restart => None
  }

  ghost function EventDrift(c: Codec, s: NodeState, e: Event): int
    requires Enabled(c, s, e)
  {
    match CommittedBlock(c, s, e)
    case None => 0
    case Some(b) => BlockDrift(c, s.generator, s.store, s.mem, b.transactions)
  }

  /** What the failing calls of the committed blocks have created and destroyed. */
  ghost function DriftOver(c: Codec, states: seq<NodeState>, events: seq<Event>, i: nat): int
    requires IsRun(c, states, events) && i <= |events|
  {
    if i == 0 then 0
    else
      assert IsStep(c, states[i - 1], events[i - 1], states[i]);
      DriftOver(c, states, events, i - 1) + EventDrift(c, states[i - 1], events[i - 1])
  }

  /** Storage holds what the faucet started with, and `drift` on top. */
  ghost predicate Accounted(s: NodeState, drift: int) {
    && Agree(s.mem, s.store) && BalancesBounded(s)
    && if s.chain == [] then s.store == map[] && drift == 0
       else Total(s.store) == GENERATOR_BALANCE + drift && s.chain[0].info.publicKey in s.store
  }

  /** Storing genesis creates exactly the initial supply. */
  lemma GenesisSupply(s: NodeState, b: Block)
    requires Accounted(s, 0) && s.chain == []
    ensures Accounted(StoreGenesis(s, b), 0)
  {
    GenesisAgreement(s, b);
    TotalPut(map[], b.info.publicKey, Account(0, GENERATOR_BALANCE));
  }

  /** The author of genesis, which no hash covers, is who owns that supply. */
  lemma ReauthoredSupply(b: Block, txs: seq<Transaction>, author: Key)
    ensures var s := StoreGenesis(NEW_NODE, Reauthored(b, txs, author));
            s.generator == Some(author) && s.store == map[author := Account(0, GENERATOR_BALANCE)]
  {
  }

  lemma VerifiedAccounted(c: Codec, s: NodeState, b: Block, outcome: bool, drift: int)
    requires Accounted(s, drift) && ChainInvariant(c, s)
    ensures var more := if outcome && CheckBlockInfo(s.info, b)
                        then BlockDrift(c, s.generator, s.store, s.mem, b.transactions) else 0;
            Accounted(Verified(c, s, b, outcome), drift + more)
  {
    VerifiedKeepsAgreement(c, s, b, outcome);
    VerifiedKeepsBounds(c, s, b, outcome);
    if CheckBlockInfo(s.info, b) && outcome {
      BlockTotal(c, s.generator, s.store, s.mem, b.transactions);
      BlockConserves(c, s.generator, s.store, s.mem, b.transactions);
    }
  }

  lemma StepAccounted(c: Codec, s: NodeState, e: Event, drift: int)
    requires Accounted(s, drift) && ChainInvariant(c, s) && Enabled(c, s, e) && !LeavesMemoryDirty(c, s, e)
    ensures Accounted(After(c, s, e), drift + EventDrift(c, s, e))
  {
    hide Passes, BlockDrift, Bounded;
    match e
    case SyncBlock(b) =>
      if b.info.height == 0 {
        GenesisSupply(s, b);
      } else if Acceptable(c, s, b) {
        VerifiedAccounted(c, s, b, true, drift);
      }
    case Propose(txs, author, signature, timestamp, outcome) =>
      VerifiedAccounted(c, s, NewBlock(c, s, txs, author, signature, timestamp), outcome, drift);
    case Verify(b, outcome) =>
      VerifiedAccounted(c, s, b, outcome, drift);
    case Restart =>
  }

  /** No step leaves memory dirty. */
  ghost predicate StaysClean(c: Codec, states: seq<NodeState>, events: seq<Event>)
    requires |states| == |events| + 1
  {
    forall j {:trigger events[j]} :: 0 <= j < |events| ==> !LeavesMemoryDirty(c, states[j], events[j])
  }

  lemma StepOfRun(c: Codec, states: seq<NodeState>, events: seq<Event>, i: nat)
    requires IsRun(c, states, events) && i < |events|
    ensures IsStep(c, states[i], events[i], states[i + 1])
    ensures DriftOver(c, states, events, i + 1) ==
            DriftOver(c, states, events, i) + EventDrift(c, states[i], events[i])
    ensures StaysClean(c, states, events) ==> !LeavesMemoryDirty(c, states[i], events[i])
  {
    hide IsStep, EventDrift, LeavesMemoryDirty;
    var e := events[i];
  }

  lemma StartAccounted(c: Codec, states: seq<NodeState>, events: seq<Event>)
    requires IsRun(c, states, events)
    ensures Accounted(states[0], DriftOver(c, states, events, 0))
  {
    hide IsStep;
  }

  /** The exact account of every clean run: from genesis on, the stored balances
      add up to the initial supply and the drifts of the failing calls in the
      blocks accepted so far. */
  lemma {:induction false} RunsAccount(c: Codec, states: seq<NodeState>, events: seq<Event>, i: nat)
    requires IsRun(c, states, events) && StaysClean(c, states, events) && i <= |events| && |events| + 1 < TWO64
    ensures Accounted(states[i], DriftOver(c, states, events, i))
  {
    hide After, EventDrift;
    if i == 0 {
      StartAccounted(c, states, events);
    } else {
      RunsAccount(c, states, events, i - 1);
      RunsKeepChain(c, states, events, i - 1);
      StepOfRun(c, states, events, i - 1);
      StepAccounted(c, states[i - 1], events[i - 1], DriftOver(c, states, events, i - 1));
    }
  }

  /** The block this event commits, if any, keeps its failing transactions apart
      from the accounts it has already worked on. */
  ghost predicate FailsApart(c: Codec, s: NodeState, e: Event)
    requires Enabled(c, s, e)
  {
    match CommittedBlock(c, s, e)
    case None => true
    case Some(b) => FailuresApart(c, s.generator, s.store, s.mem, b.transactions)
  }

  /** So do all blocks of the run. */
  ghost predicate AllFailApart(c: Codec, states: seq<NodeState>, events: seq<Event>)
    requires |states| == |events| + 1
  {
    forall j {:trigger events[j]} :: 0 <= j < |events| ==>
      (Enabled(c, states[j], events[j]) ==> FailsApart(c, states[j], events[j]))
  }

  lemma EventHasNoDrift(c: Codec, s: NodeState, e: Event)
    requires Enabled(c, s, e) && FailsApart(c, s, e) && Agree(s.mem, s.store)
    ensures EventDrift(c, s, e) == 0
  {
    match CommittedBlock(c, s, e) {
      case None =>
      case Some(b) => NoDriftWhenApart(c, s.generator, s.store, s.mem, b.transactions);
    }
  }

  lemma {:induction false} NoDriftOver(c: Codec, states: seq<NodeState>, events: seq<Event>, i: nat)
    requires IsRun(c, states, events) && StaysClean(c, states, events) && AllFailApart(c, states, events)
    requires i <= |events|
    ensures DriftOver(c, states, events, i) == 0
  {
    if i > 0 {
      hide IsRun, StaysClean, EventDrift, FailsApart, After, Enabled;
      NoDriftOver(c, states, events, i - 1);
      StepOfRun(c, states, events, i - 1);
      AgreesAtStep(c, states, events, i - 1);
      assert FailsApart(c, states[i - 1], events[i - 1]);
      EventHasNoDrift(c, states[i - 1], events[i - 1]);
    }
  }

  lemma AgreesAtStep(c: Codec, states: seq<NodeState>, events: seq<Event>, i: nat)
    requires IsRun(c, states, events) && StaysClean(c, states, events) && i <= |events|
    ensures Agree(states[i].mem, states[i].store)
  {
    hide LeavesMemoryDirty, IsStep, Agree;
    RunsKeepAgreement(c, states, events, i);
  }

  /** From genesis on, the stored balances add up to the faucet's initial supply
      in every clean run whose accepted blocks keep their failing transactions apart
      from the accounts they have already worked on, whatever blocks are rejected. */
  lemma RunsKeepSupply(c: Codec, states: seq<NodeState>, events: seq<Event>, i: nat)
    requires IsRun(c, states, events) && StaysClean(c, states, events) && AllFailApart(c, states, events)
    requires i <= |events| && |events| + 1 < TWO64 && states[i].chain != []
    ensures Total(states[i].store) == GENERATOR_BALANCE
  {
    hide IsRun, StaysClean, AllFailApart;
    RunsAccount(c, states, events, i);
    NoDriftOver(c, states, events, i);
  }
}
