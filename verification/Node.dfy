/** executers/block_producer.go, executers/faucet.go, nodes/node.go and the
    storing half of nodes/sync/sync_service.go, on the heap. Each method is tied
    to the step of Runs it takes. */
module Nodes {
  import opened Common
  import opened Records
  import opened PowersOfTwo
  import opened Ledger
  import opened StateHash
  import opened Merkle
  import opened Blocks
  import opened Blockchains
  import opened MemoryDbs
  import opened Storage
  import opened ChainStore
  import opened Executers
  import opened Runs

  /** A block under construction or verification. Executing it writes statuses
      into its transactions. */
  class PendingBlock {
    var info: BlockInfo
    const transactions: array<Transaction>
    const previousBlockHash: Digest
    const stateHash: Digest

    constructor (info: BlockInfo, transactions: array<Transaction>, previousBlockHash: Digest, stateHash: Digest)
      ensures this.info == info && this.transactions == transactions
      ensures this.previousBlockHash == previousBlockHash && this.stateHash == stateHash
    {
      this.info, this.transactions := info, transactions;
      this.previousBlockHash, this.stateHash := previousBlockHash, stateHash;
    }

    function Value(): Block
      reads this, transactions
    {
      Block(info, transactions[..], previousBlockHash, stateHash)
    }

    /** HashBlock sets Info.Hash; it fails when the bundle cannot be hashed. */
    method SetHash(c: Codec) returns (ok: bool)
      requires transactions.Length < TWO63
      modifies this
      ensures ok <==> IsPow2(transactions.Length)
      ensures !ok ==> Value() == old(Value())
      ensures ok ==> SealedBlock(c, Value()) && info == old(info).(hash := info.hash)
    {
      var hash := HashBlock(c, Value());
      if hash.None? {
        return false;
      }
      info := info.(hash := hash.value);
      ok := true;
    }
  }

  /** The index answers genesis for height 0; a bucket that stored a chain does,
      unless a later block repeats the hash of genesis. */
  ghost predicate GenesisReadable(c: Codec, chain: seq<Block>) {
    LookupThrough(BucketOf(c, chain), ToHex(0)) ==
    if chain == [] then None else Some(c.encodeBlock(chain[0]))
  }

  lemma FirstIsReadable(c: Codec, b: Block)
    requires b.info.height == 0
    ensures GenesisReadable(c, [] + [b])
  {
    IndexEntry(c, [b], 0);
    ByKeyRefinesChain(c, [b], b.info.hash);
  }

  /** A new block object around executed transactions, hashed. */
  method MakeBlock(c: Codec, info: BlockInfo, transactions: array<Transaction>, previous: Digest, state: Digest)
    returns (blk: PendingBlock, ok: bool)
    requires transactions.Length < TWO63
    ensures fresh(blk) && (ok <==> IsPow2(transactions.Length))
    ensures ok ==>
              var hash := BlockHash(c, transactions[..], previous, state).value;
              blk.Value() == Block(info.(hash := hash), transactions[..], previous, state)
  {
    blk := new PendingBlock(info, transactions, previous, state);
    ok := blk.SetHash(c);
  }

  class Node {
    const c: Codec
    const memory: MemoryDb
    const storage: StorageService
    const executer: Executer
    const blockchain: Blockchain
    ghost var chain: seq<Block>

    /** NewNode over a directory that holds these blocks, empty if it is new. */
    constructor (c: Codec, storage: StorageService, ghost stored: seq<Block>)
      requires storage.Valid() && storage.c == c && storage.blocks.entries == BucketOf(c, stored)
      ensures Valid() && this.c == c && this.storage == storage && chain == stored
      ensures fresh(memory) && fresh(memory.Repr) && fresh(executer) && fresh(blockchain)
      ensures State() == NodeState(map[], storage.Accounts(), None, stored, NO_BLOCKS)
    {
      this.c, this.storage := c, storage;
      var mem := new MemoryDb();
      memory := mem;
      executer := new Executer(c, mem, storage);
      blockchain := new Blockchain();
      chain := stored;
    }

    ghost function Footprint(): set<object>
      reads memory
    {
      {this, memory, storage.accounts, storage.blocks, executer, blockchain} + memory.Repr
    }

    /** The blocks bucket holds exactly the chain. */
    ghost predicate Valid()
      reads Footprint()
    {
      && executer.memory == memory && executer.storage == storage && executer.c == c
      && executer.Valid()
      && storage.blocks.entries == BucketOf(c, chain)
    }

    ghost function State(): NodeState
      requires Valid()
      reads Footprint()
    {
      NodeState(memory.Contents(), storage.Accounts(), executer.generator, chain, blockchain.Info())
    }

    // ----- BlockVerifier -----

    method CheckInfo(blk: PendingBlock) returns (ok: bool)
      requires Valid()
      ensures ok <==> CheckBlockInfo(State().info, blk.Value())
    {
      ok := blk.info.height == blockchain.nextHeight
            && blockchain.previousBlockHash == Some(blk.previousBlockHash);
    }

    method StateHash() returns (hash: Digest)
      requires Valid() && |memory.dbMap| <= TWO62
      ensures Valid() && State() == old(State())
      ensures hash == StateRoot(c, old(State()).mem)
    {
      hash := memory.GetStateHash(c);
    }

    /** CheckStateHash, then CheckBlockHash against the node's own previous hash;
        only the second can end in an error, when the bundle cannot be hashed. */
    method CheckHashes(blk: PendingBlock) returns (ok: bool, halted: bool)
      requires Valid() && |memory.dbMap| <= TWO62 && blk.transactions.Length < TWO63
      requires State().info.previous.Some?
      ensures Valid() && State() == old(State())
      ensures var b, s := blk.Value(), old(State());
              var state := StateRoot(c, s.mem);
              && (ok <==> state == b.stateHash
                          && BlockHash(c, b.transactions, s.info.previous.value, state) == Some(b.info.hash))
              && (halted <==> state == b.stateHash && !IsPow2(|b.transactions|))
    {
      var previous := blockchain.previousBlockHash.value;
      var state := StateHash();
      ok, halted := HashesMatch(state, blk.transactions[..], blk.stateHash, blk.info.hash, previous);
    }

    method HashesMatch(state: Digest, txs: seq<Transaction>, claimed: Digest, hash: Digest, previous: Digest)
      returns (ok: bool, halted: bool)
      requires Valid() && |txs| < TWO63
      ensures Valid() && State() == old(State())
      ensures ok <==> state == claimed && BlockHash(c, txs, previous, state) == Some(hash)
      ensures halted <==> state == claimed && !IsPow2(|txs|)
    {
      if state != claimed {
        return false, false;
      }
      ghost var s := State();
      var root := HashTransactions(c, txs);
      assert State() == s;
      if root.None? {
        return false, true;
      }
      ok := c.sha3(root.value + previous + state) == hash;
      halted := false;
    }

    /** Execute without waiting for finality. */
    method Execute(transactions: array<Transaction>) returns (executed: PublicKeys)
      requires Valid()
      modifies memory, memory.Repr, transactions
      ensures Valid() && fresh(memory.Repr - old(memory.Repr)) && fresh(executed)
      ensures var s, txs := old(State()), old(transactions[..]);
              var e := Ledger.Run(c, s.generator, s.store, s.mem, txs);
              && State() == s.(mem := e.mem) && executed.keys == e.executed && |memory.dbMap| == |e.mem|
              && transactions[..] == MarkAll(c, txs)
    {
      executed := executer.ExecuteNow(transactions);
      assert memory.dbMap.Keys == State().mem.Keys;
    }

    // ----- storing blocks -----

    /** The blocks bucket and the ghost chain grow together. */
    method PutBlock(b: Block)
      requires Valid()
      modifies this`chain, storage.blocks
      ensures memory.Repr == old(memory.Repr)
      ensures Valid() && State() == old(State()).(chain := old(chain) + [b])
    {
      storage.blocks.Put(b.info.hash, ToHex(b.info.height), c.encodeBlock(b));
      BucketAppend(c, chain, b);
      chain := chain + [b];
    }

    method Advance(hash: Digest)
      requires Valid()
      modifies blockchain
      ensures memory.Repr == old(memory.Repr)
      ensures Valid() && State() == old(State()).(info := Advanced(old(State()).info, hash))
    {
      blockchain.Increment(hash);
    }

    method SetCounters(height: uint64, previous: Digest)
      requires Valid()
      modifies blockchain
      ensures memory.Repr == old(memory.Repr)
      ensures Valid() && State() == old(State()).(info := Restored(height, previous))
    {
      blockchain.Init(height, previous);
    }

    method SetGenerator(gen: Key)
      requires Valid()
      modifies executer
      ensures memory.Repr == old(memory.Repr)
      ensures Valid() && State() == old(State()).(generator := Some(gen))
    {
      executer.generator := Some(gen);
    }

    method FetchAccount(k: Key)
      requires Valid()
      modifies memory
      ensures Valid() && fresh(memory.Repr - old(memory.Repr))
      ensures State() == old(State()).(mem := Refetch(old(State()).mem, old(State()).store, [k]))
    {
      storage.FetchAccounts(memory, [k]);
    }

    /** OnBlockStored for every block but genesis. */
    method StoreBlock(b: Block)
      requires Valid()
      modifies this`chain, storage.blocks, blockchain
      ensures memory.Repr == old(memory.Repr)
      ensures Valid()
      ensures State() == WithBlock(old(State()), b)
    {
      PutBlock(b);
      Advance(b.info.hash);
    }

    // ----- genesis, sync and restart -----

    /** Faucet.Init, on a store that has genesis or no block at all. */
    method InitFaucet(now: uint64)
      requires Valid() && c.RoundTrips() && GenesisReadable(c, chain)
      modifies executer, storage.accounts
      ensures memory.Repr == old(memory.Repr)
      ensures Valid()
      ensures State() ==
              if chain == [] then old(State())
              else var gen := chain[0].info.publicKey;
                   old(State()).(store := WithFaucet(old(State()).store, gen), generator := Some(gen))
    {
      hide WithFaucet, BucketOf, ToHex;
      var raw := storage.blocks.GetByIndex(ToHex(0));
      if raw.None? {
        return;
      }
      var gen := c.decodeBlock(raw.value).value.info.publicKey;
      PutFaucetAccount(gen, now);
      SetGenerator(gen);
    }

    method PutFaucetAccount(gen: Key, now: uint64)
      requires Valid() && c.RoundTrips()
      modifies storage.accounts
      ensures memory.Repr == old(memory.Repr)
      ensures Valid() && State() == old(State()).(store := WithFaucet(old(State()).store, gen))
    {
      hide BucketOf, ToHex, Stored;
      var known := storage.accounts.GetByKey(gen);
      if known.None? {
        var account := Account(0, GENERATOR_BALANCE);
        FaucetWritten(c, storage.accounts.entries, gen, ToHex(now), account);
        storage.accounts.Put(gen, ToHex(now), c.encodeAccount(account));
      }
    }

    method FaucetToMemory(gen: Key, now: uint64)
      requires Valid() && c.RoundTrips() && chain != [] && GenesisReadable(c, chain)
      requires gen == chain[0].info.publicKey
      modifies memory, storage.accounts, executer
      ensures Valid() && fresh(memory.Repr - old(memory.Repr))
      ensures var s := old(State());
              var store := WithFaucet(s.store, gen);
              State() == s.(mem := Refetch(s.mem, store, [gen]), store := store, generator := Some(gen))
    {
      hide WithFaucet, BucketOf, GenesisReadable, Refetch;
      InitFaucet(now);
      FetchAccount(gen);
    }

    /** Storing genesis, and OnBlockStored for height 0. */
    method StoreGenesisBlock(b: Block, now: uint64)
      requires Valid() && c.RoundTrips() && chain == [] && b.info.height == 0
      modifies this`chain, memory, storage.accounts, storage.blocks, executer, blockchain
      ensures Valid() && fresh(memory.Repr - old(memory.Repr))
      ensures State() == StoreGenesis(old(State()), b)
    {
      hide GenesisReadable, BucketOf, WithFaucet, Refetch;
      PutBlock(b);
      FirstIsReadable(c, b);
      FaucetToMemory(b.info.publicKey, now);
      Advance(b.info.hash);
    }

    /** The checks and the execution of one block of the sync loop. */
    method SyncCheck(blk: PendingBlock) returns (ok: bool, halted: bool)
      requires Valid() && c.RoundTrips() && blk.transactions.Length < TWO63
      requires |Executed(c, State(), blk.Value()).mem| <= TWO62
      modifies memory, memory.Repr, storage.accounts, blk.transactions
      ensures Valid() && fresh(memory.Repr - old(memory.Repr)) && blk.info == old(blk.info)
      ensures ok <==> Acceptable(c, old(State()), old(blk.Value()))
      ensures halted <==> Halts(c, old(State()), old(blk.Value()))
      ensures ok ==> blk.Value() == Marked(c, old(blk.Value()))
      ensures var s, b := old(State()), old(blk.Value());
              State() == if !CheckBlockInfo(s.info, b) then s
                         else if !ok then s.(mem := Executed(c, s, b).mem)
                         else s.(mem := Executed(c, s, b).mem,
                                 store := Committed(c, s.generator, s.store, s.mem, b.transactions))
    {
      hide Halts, Ledger.Run, Refetch;
      ghost var s, b := State(), blk.Value();
      var executed;
      ok, executed, halted := Verify(blk);
      if ok {
        ExecutedInMemory(c, s.generator, s.store, s.mem, b.transactions);
        var pushed := storage.PushAccounts(memory, executed.keys);
      }
    }

    /** One block of the sync loop. */
    method SyncOne(blk: PendingBlock, now: uint64) returns (ok: bool, halted: bool)
      requires Valid() && c.RoundTrips() && blk.transactions.Length < TWO63
      requires blk.info.height == 0 ==> chain == []
      requires blk.info.height != 0 ==> |Executed(c, State(), blk.Value()).mem| <= TWO62
      modifies Footprint(), blk.transactions
      ensures Valid() && fresh(memory.Repr - old(memory.Repr))
      ensures ok <==> SyncApplies(c, old(State()), old(blk.Value()))
      ensures halted <==> old(blk.info.height) != 0 && Halts(c, old(State()), old(blk.Value()))
      ensures State() == Synced(c, old(State()), old(blk.Value()))
    {
      if blk.info.height == 0 {
        StoreGenesisBlock(blk.Value(), now);
        return true, false;
      }
      ok, halted := SyncCheck(blk);
      if ok {
        StoreBlock(blk.Value());
      }
    }

    method RestoreCounters()
      requires Valid() && c.RoundTrips()
      modifies blockchain
      ensures Valid() && memory.Repr == old(memory.Repr)
      ensures State() ==
              if chain == [] then old(State())
              else var tip := chain[|chain| - 1];
                   old(State()).(info := Restored((tip.info.height + 1) % TWO64, tip.info.hash))
    {
      hide BucketOf, Restored;
      LatestRefinesChain(c, chain);
      var latest := storage.blocks.GetLatest();
      if latest.Some? {
        var tip := c.decodeBlock(latest.value).value;
        SetCounters((tip.info.height + 1) % TWO64, tip.info.hash);
      }
    }

    method FetchAll()
      requires Valid()
      modifies memory
      ensures Valid() && fresh(memory.Repr - old(memory.Repr))
      ensures State() == old(State()).(mem := old(State()).mem + old(State()).store)
    {
      storage.FetchAllAccounts(memory);
    }

    /** Node.Run: the faucet, the counters from the latest block, and every stored
        account into memory. */
    method Run(now: uint64)
      requires Valid() && c.RoundTrips() && GenesisReadable(c, chain)
      requires State() == NodeState(map[], State().store, None, chain, NO_BLOCKS)
      modifies memory, storage.accounts, executer, blockchain
      ensures Valid() && State() == Restarted(old(State()))
    {
      hide GenesisReadable, BucketOf, WithFaucet, Restored;
      InitFaucet(now);
      RestoreCounters();
      RestartInSteps(old(State()));
      FetchAll();
    }

    // ----- rounds -----

    /** BlockProducer.NewBlock, with the transactions cut from the pool. A bundle
        that cannot be hashed fails after it was executed. */
    method NewBlock(transactions: array<Transaction>, author: Key, signature: Bytes, timestamp: int64)
      returns (blk: PendingBlock, executed: PublicKeys, ok: bool)
      requires Valid() && State().info.previous.Some? && transactions.Length < TWO63
      requires |Ledger.Run(c, State().generator, State().store, State().mem, transactions[..]).mem| <= TWO62
      modifies memory, memory.Repr, transactions
      ensures Valid() && fresh(memory.Repr - old(memory.Repr)) && fresh(blk) && fresh(executed)
      ensures ok <==> IsPow2(transactions.Length)
      ensures var s, txs := old(State()), old(transactions[..]);
              var e := Ledger.Run(c, s.generator, s.store, s.mem, txs);
              && State() == s.(mem := e.mem) && executed.keys == e.executed
              && (ok ==> blk.Value() == Runs.NewBlock(c, s, txs, author, signature, timestamp))
    {
      executed := Execute(transactions);
      ghost var keys := executed.keys;
      blk, ok := SealBlock(transactions, author, signature, timestamp);
      assert executed.keys == keys;
    }

    /** The block around executed transactions, hashed over the state they left. */
    method SealBlock(transactions: array<Transaction>, author: Key, signature: Bytes, timestamp: int64)
      returns (blk: PendingBlock, ok: bool)
      requires Valid() && State().info.previous.Some? && transactions.Length < TWO63 && |memory.dbMap| <= TWO62
      ensures Valid() && State() == old(State()) && memory.Repr == old(memory.Repr) && fresh(blk)
      ensures ok <==> IsPow2(transactions.Length)
      ensures ok ==> blk.Value() == Sealed(c, old(State()), old(transactions[..]), author, signature, timestamp)
    {
      hide StateRoot, IsPow2;
      var height, previous := blockchain.nextHeight, blockchain.previousBlockHash.value;
      var state := StateHash();
      blk, ok := MakeBlock(c, BlockInfo(height, state, signature, author, timestamp), transactions, previous, state);
    }

    /** A producer's whole round. */
    method ProducerRound(
        transactions: array<Transaction>, author: Key, signature: Bytes, timestamp: int64, outcome: bool)
      requires Valid() && c.RoundTrips() && State().info.previous.Some?
      requires IsPow2(transactions.Length) && transactions.Length < TWO63
      requires |Ledger.Run(c, State().generator, State().store, State().mem, transactions[..]).mem| <= TWO62
      modifies Footprint(), transactions
      ensures Valid()
      ensures State() ==
              Verified(c, old(State()),
                       Runs.NewBlock(c, old(State()), old(transactions[..]), author, signature, timestamp), outcome)
    {
      hide Verified, Finalized, Runs.NewBlock;
      ProducedInSteps(c, State(), transactions[..], author, signature, timestamp, outcome);
      var blk, executed, ok := NewBlock(transactions, author, signature, timestamp);
      Finality(executed, blk, outcome);
    }

    /** BlockVerifier.Verify: nothing happens to a block that does not fit the
        chain; any other is executed, and then judged. */
    method Verify(blk: PendingBlock) returns (ok: bool, executed: PublicKeys?, halted: bool)
      requires Valid() && blk.transactions.Length < TWO63
      requires |Executed(c, State(), blk.Value()).mem| <= TWO62
      modifies memory, memory.Repr, blk.transactions
      ensures Valid() && fresh(memory.Repr - old(memory.Repr)) && blk.info == old(blk.info)
      ensures executed == null <==> !CheckBlockInfo(old(State()).info, old(blk.Value()))
      ensures executed == null ==> !ok && State() == old(State()) && blk.Value() == old(blk.Value())
      ensures executed != null ==>
                State() == old(State()).(mem := Executed(c, old(State()), old(blk.Value())).mem)
      ensures executed != null ==> fresh(executed) && blk.Value() == Marked(c, old(blk.Value()))
      ensures executed != null ==> executed.keys == Executed(c, old(State()), old(blk.Value())).executed
      ensures executed != null ==> (ok <==> Passes(c, old(State()), old(blk.Value())))
      ensures halted <==> Halts(c, old(State()), old(blk.Value()))
    {
      hide StateRoot, Ledger.Run, MarkAll, BlockHash, IsPow2;
      var fits := CheckInfo(blk);
      if !fits {
        return false, null, false;
      }
      executed := Execute(blk.transactions);
      ok, halted := CheckHashes(blk);
    }

    method FinalizeAccounts(executed: PublicKeys, outcome: bool)
      requires Valid() && c.RoundTrips() && Holds(State().mem, executed.keys)
      modifies memory, storage.accounts
      ensures Valid() && fresh(memory.Repr - old(memory.Repr))
      ensures State() == Finalized(old(State()), old(executed.keys), None, outcome)
    {
      executer.Finalize(executed, outcome);
    }

    /** What the two finality channels do. */
    method Finality(executed: PublicKeys, blk: PendingBlock?, outcome: bool)
      requires Valid() && c.RoundTrips() && Holds(State().mem, executed.keys)
      modifies this`chain, memory, storage.accounts, storage.blocks, blockchain
      ensures Valid() && fresh(memory.Repr - old(memory.Repr))
      ensures State() == Finalized(old(State()), old(executed.keys),
                                   if blk == null then None else Some(old(blk.Value())), outcome)
    {
      hide Refetch, Push, BucketOf;
      FinalizeAccounts(executed, outcome);
      if outcome && blk != null {
        StoreBlock(blk.Value());
      }
    }

    /** A verifier's whole round: verify, vote, wait for the aggregator's outcome.
        An error in between ends the node. */
    method VerifierRound(blk: PendingBlock, outcome: bool) returns (vote: bool, halted: bool)
      requires Valid() && c.RoundTrips() && blk.transactions.Length < TWO63
      requires |Executed(c, State(), blk.Value()).mem| <= TWO62
      modifies Footprint(), blk.transactions
      ensures Valid()
      ensures halted <==> Halts(c, old(State()), old(blk.Value()))
      ensures vote <==> Acceptable(c, old(State()), old(blk.Value()))
      ensures State() ==
              if halted then old(State()).(mem := Executed(c, old(State()), old(blk.Value())).mem)
              else Verified(c, old(State()), old(blk.Value()), outcome)
    {
      hide Finalized, Committed, Rejected, Passes;
      ghost var s, b := State(), blk.Value();
      var executed;
      vote, executed, halted := Verify(blk);
      if executed != null && !halted {
        VerifiedInSteps(c, s, b, outcome);
        Finality(executed, if vote then blk else null, outcome);
      }
    }
  }
}
