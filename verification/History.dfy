/** Replaying a chain from genesis, and coming back from a restart. */
module History {
  import opened Common
  import opened Records
  import opened PowersOfTwo
  import opened Sorting
  import opened Ledger
  import opened Blocks
  import opened Blockchains
  import opened Runs

  /** A fresh node that syncs these blocks one after the other. */
  ghost function Replay(c: Codec, chain: seq<Block>): NodeState {
    if chain == [] then NEW_NODE
    else Synced(c, Replay(c, chain[..|chain| - 1]), chain[|chain| - 1])
  }

  /** Every block passes every check on the way. */
  ghost predicate ReplayPasses(c: Codec, chain: seq<Block>) {
    chain == [] ||
    var n := |chain| - 1;
    ReplayPasses(c, chain[..n]) && SyncApplies(c, Replay(c, chain[..n]), chain[n])
  }

  lemma ReplayAppend(c: Codec, chain: seq<Block>, b: Block)
    ensures Replay(c, chain + [b]) == Synced(c, Replay(c, chain), b)
    ensures ReplayPasses(c, chain) && SyncApplies(c, Replay(c, chain), b) ==> ReplayPasses(c, chain + [b])
  {
    var more := chain + [b];
    assert more[..|chain|] == chain;
  }

  /** Every prefix of a chain that passes, passes. */
  lemma {:induction false} PrefixPasses(c: Codec, chain: seq<Block>, n: nat)
    requires ReplayPasses(c, chain) && n <= |chain|
    ensures ReplayPasses(c, chain[..n])
    ensures n < |chain| ==> SyncApplies(c, Replay(c, chain[..n]), chain[n])
    decreases |chain|
  {
    hide SyncApplies, Replay;
    if n == |chain| {
      assert chain[..n] == chain;
    } else {
      var m := |chain| - 1;
      if n < m {
        PrefixPasses(c, chain[..m], n);
        assert chain[..m][..n] == chain[..n];
      }
    }
  }

  /** A round leaves no trace outside the chain: it was ignored, or accepted by a
      node that had verified it, or rejected with every touched account already
      in memory. */
  ghost predicate Traceless(c: Codec, s: NodeState, b: Block, outcome: bool) {
    CheckBlockInfo(s.info, b) ==>
      if outcome then Passes(c, s, b) else AllTouched(c, s.generator, b.transactions) <= s.mem.Keys
  }

  ghost predicate IsRound(e: Event) {
    e.Propose? || e.Verify?
  }

  ghost function RoundBlock(c: Codec, s: NodeState, e: Event): Block
    requires IsRound(e) && Enabled(c, s, e)
  {
    match e
    case Propose(txs, author, signature, timestamp, _) => NewBlock(c, s, txs, author, signature, timestamp)
    case Verify(b, _) => b
  }

  /** A node that synced genesis and then only went through rounds. */
  ghost predicate IsLiveRun(c: Codec, genesis: Block, states: seq<NodeState>, events: seq<Event>) {
    && |states| == |events| + 1 && states[0] == StoreGenesis(NEW_NODE, genesis)
    && genesis.info.height == 0
    && forall i {:trigger events[i]} :: 0 <= i < |events| ==> IsLiveStep(c, states[i], events[i], states[i + 1])
  }

  ghost predicate IsLiveStep(c: Codec, s: NodeState, e: Event, t: NodeState) {
    && IsRound(e) && Enabled(c, s, e)
    && Traceless(c, s, RoundBlock(c, s, e), e.outcome)
    && t == After(c, s, e)
  }

  /** Storing a block through finality and syncing the stored block are one step. */
  lemma StoredBlockSyncs(c: Codec, s: NodeState, b: Block)
    requires Acceptable(c, s, b) && b.info.height != 0
    ensures Acceptable(c, s, Marked(c, b))
    ensures Synced(c, s, Marked(c, b)) == Accepted(c, s, b)
  {
    RunIgnoresStatus(c, s.generator, s.store, s.mem, b.transactions);
    MarkAllIdempotent(c, b.transactions);
  }

  /** What a run keeps: the state is exactly what its own chain replays to. */
  ghost predicate Replayable(c: Codec, s: NodeState) {
    && Replay(c, s.chain) == s && ReplayPasses(c, s.chain)
    && s.chain != [] && ChainInvariant(c, s) && Agree(s.mem, s.store)
  }

  lemma RoundKeepsReplayable(c: Codec, s: NodeState, b: Block, outcome: bool)
    requires Replayable(c, s) && |s.chain| + 1 < TWO64 && Traceless(c, s, b, outcome)
    ensures Replayable(c, Verified(c, s, b, outcome))
  {
    if CheckBlockInfo(s.info, b) {
      if outcome {
        StoredBlockSyncs(c, s, b);
        ReplayAppend(c, s.chain, Marked(c, b));
        AcceptedKeepsChain(c, s, b);
        VerifiedKeepsAgreement(c, s, b, outcome);
      } else {
        RejectRestoresExactly(c, s.generator, s.store, s.mem, b.transactions);
      }
    }
  }

  lemma GenesisReplayable(c: Codec, genesis: Block)
    requires genesis.info.height == 0
    ensures Replayable(c, StoreGenesis(NEW_NODE, genesis))
  {
    ReplayAppend(c, [], genesis);
    assert [] + [genesis] == [genesis];
    GenesisAgreement(NEW_NODE, genesis);
  }

  lemma EventKeepsReplayable(c: Codec, s: NodeState, e: Event, t: NodeState)
    requires Replayable(c, s) && |s.chain| + 1 < TWO64 && IsLiveStep(c, s, e, t)
    ensures Replayable(c, t) && |t.chain| <= |s.chain| + 1
  {
    RoundKeepsReplayable(c, s, RoundBlock(c, s, e), e.outcome);
  }

  /** Replay equals live: after any such run, a fresh node that syncs the live
      node's chain passes every check and ends in the live node's very state. */
  lemma ReplayEqualsLive(c: Codec, genesis: Block, states: seq<NodeState>, events: seq<Event>, i: nat)
    requires IsLiveRun(c, genesis, states, events) && i <= |events| && |events| + 2 < TWO64
    ensures Replay(c, states[i].chain) == states[i] && ReplayPasses(c, states[i].chain)
  {
    GenesisReplayable(c, genesis);
    forall n, s, e, t | 0 <= n < |events| && ReplayableAt(c, n, s) && IsLiveStep(c, s, e, t)
      ensures ReplayableAt(c, n + 1, t)
    {
      EventKeepsReplayable(c, s, e, t);
    }
    Along(states, events, (s, e, t) => IsLiveStep(c, s, e, t), (n, s) => ReplayableAt(c, n, s), i);
  }

  ghost predicate ReplayableAt(c: Codec, n: int, s: NodeState) {
    Replayable(c, s) && |s.chain| <= n + 1
  }

  /** The condition on rejected rounds is exact: a rejected block that touched an
      account memory did not hold leaves a node that no replay of its chain can
      reproduce, since the zero account left behind counts in the state hash. */
  lemma RejectedRoundReplays(c: Codec, s: NodeState, b: Block)
    requires Replayable(c, s) && CheckBlockInfo(s.info, b)
    ensures var t := Verified(c, s, b, false);
            Replay(c, t.chain) == t <==> AllTouched(c, s.generator, b.transactions) <= s.mem.Keys
  {
    RejectRestoresExactly(c, s.generator, s.store, s.mem, b.transactions);
  }

  // ----- restart -----

  function HashOf(b: Block): Digest {
    b.info.hash
  }

  /** The counters are those of counting block by block, and the faucet pays from
      the account that signed genesis. */
  ghost predicate Counted(s: NodeState) {
    && s.info == Stepwise(Image(HashOf, s.chain))
    && s.generator == (if s.chain == [] then None else Some(s.chain[0].info.publicKey))
    && (s.chain != [] ==> s.chain[0].info.publicKey in s.store)
  }

  lemma StepwiseAppend(chain: seq<Block>, b: Block)
    ensures Stepwise(Image(HashOf, chain + [b])) == Advanced(Stepwise(Image(HashOf, chain)), b.info.hash)
  {
    var hashes := Image(HashOf, chain + [b]);
    assert hashes[..|chain|] == Image(HashOf, chain);
  }

  lemma AppendKeepsCount(s: NodeState, t: NodeState, b: Block)
    requires Counted(s) && t.chain == s.chain + [b] && t.info == Advanced(s.info, b.info.hash)
    requires t.generator == if s.chain == [] then Some(b.info.publicKey) else s.generator
    requires t.generator.value in t.store
    ensures Counted(t)
  {
    StepwiseAppend(s.chain, b);
  }

  lemma VerifiedKeepsCount(c: Codec, s: NodeState, b: Block, outcome: bool)
    requires ChainInvariant(c, s) && Counted(s)
    ensures Counted(Verified(c, s, b, outcome))
  {
    if Acceptable(c, s, b) && outcome {
      AppendKeepsCount(s, Accepted(c, s, b), Marked(c, b));
    }
  }

  lemma StepKeepsCount(c: Codec, s: NodeState, e: Event)
    requires ChainInvariant(c, s) && Counted(s) && Enabled(c, s, e) && |s.chain| + 1 < TWO32
    ensures Counted(After(c, s, e))
  {
    match e
    case SyncBlock(b) =>
      if b.info.height == 0 {
        AppendKeepsCount(s, StoreGenesis(s, b), b);
      } else if Acceptable(c, s, b) {
        VerifiedKeepsCount(c, s, b, true);
      }
    case Propose(txs, author, signature, timestamp, outcome) =>
      VerifiedKeepsCount(c, s, NewBlock(c, s, txs, author, signature, timestamp), outcome);
    case Verify(b, outcome) =>
      VerifiedKeepsCount(c, s, b, outcome);
    case Restart => RestartKeepsCount(s);
  }

  lemma TipHash(chain: seq<Block>)
    requires chain != []
    ensures Image(HashOf, chain)[|chain| - 1] == chain[|chain| - 1].info.hash
  {
    ImageAt(HashOf, chain, |chain| - 1);
  }

  lemma SmallHeight(n: nat)
    requires n < TWO32
    ensures (n / TWO32) % 15 == 0 && n % TWO64 == n
  {
  }

  /** What a restart reads off the tip is what counting gave, below height 2^32. */
  lemma TipCounters(chain: seq<Block>)
    requires 0 < |chain| < TWO32 && chain[|chain| - 1].info.height == |chain| - 1
    ensures var tip := chain[|chain| - 1];
            Restored((tip.info.height + 1) % TWO64, tip.info.hash) == Stepwise(Image(HashOf, chain))
  {
    TipHash(chain);
    var hashes := Image(HashOf, chain);
    SmallHeight(|hashes|);
    RestartKeepsCounters(hashes);
  }

  lemma RestartKeepsCount(s: NodeState)
    requires Counted(s) && |s.chain| < TWO32
    requires s.chain != [] ==> s.chain[|s.chain| - 1].info.height == |s.chain| - 1
    ensures Counted(Restarted(s))
  {
    if s.chain == [] {
      assert Image(HashOf, s.chain) == [];
    } else {
      TipCounters(s.chain);
    }
  }

  ghost predicate CountedAt(c: Codec, n: int, s: NodeState) {
    Counted(s) && ChainAt(c, n, s)
  }

  lemma RunsKeepCount(c: Codec, states: seq<NodeState>, events: seq<Event>, i: nat)
    requires IsRun(c, states, events) && i <= |events| && |events| + 1 < TWO32
    ensures Counted(states[i])
  {
    forall n, s, e, t | 0 <= n < |events| && CountedAt(c, n, s) && IsStep(c, s, e, t)
      ensures CountedAt(c, n + 1, t)
    {
      StepKeepsChain(c, s, e);
      StepKeepsCount(c, s, e);
    }
    Along(states, events, (s, e, t) => IsStep(c, s, e, t), (n, s) => CountedAt(c, n, s), i);
  }

  /** A restart gives back every balance and nonce, the chain, the faucet, the
      height and the previous hash; and the epoch and slot exactly when the
      height's upper 32 bits are a multiple of 15. */
  lemma RestartRestores(c: Codec, s: NodeState)
    requires ChainInvariant(c, s) && Counted(s) && Agree(s.mem, s.store) && 0 < |s.chain| < TWO64
    ensures var t := Restarted(s);
            && (forall k :: At(t.mem, k) == At(s.mem, k))
            && t.store == s.store && t.chain == s.chain && t.generator == s.generator
            && t.info.nextHeight == s.info.nextHeight && t.info.previous == s.info.previous
            && (t.info == s.info <==> (|s.chain| / TWO32) % 15 == 0)
  {
    hide SealedBlock, Image, BlockHash;
    RestartKeepsCounters(Image(HashOf, s.chain));
  }

  /** A node started on the directory that genesis generation wrote stands exactly
      where a node stands that synced that genesis block. */
  lemma GenesisDirectory(genesis: Block)
    requires genesis.info.height == 0
    ensures Restarted(NEW_NODE.(chain := [genesis])) == StoreGenesis(NEW_NODE, genesis)
  {
    var gen := genesis.info.publicKey;
    var store: Accounts := map[gen := Account(0, GENERATOR_BALANCE)];
    assert Refetch(map[], store, [gen]) == store;
  }
}
