/** nodes/sync/sync_service.go: the loop that asks one peer for each missing
    height and applies the answers in order. */
module Sync {
  import opened Common
  import opened Records
  import opened Ledger
  import opened Blocks
  import opened Blockchains
  import opened Runs
  import opened Nodes
  import opened Storage
  import opened ChainStore
  import opened History

  /** What arrives on the channel of one height before its timer: nothing, the
      request's own error, or a block. */
  datatype Answer = TimedOut | Failed | Received(block: Block)

  type Answers = uint64 -> Answer

  datatype SyncResult = Done | GaveUp | Errored | Refused

  /** handleBlockRes hands a block only to the channel of its own height. */
  ghost predicate Dispatched(answers: Answers) {
    forall h :: answers(h).Received? ==>
      answers(h).block.info.height == h && |answers(h).block.transactions| < TWO63
  }

  /** The node after a block was checked, and stored if it passed; `roomy` says
      that memory stayed within the size GetStateHash can pad. */
  datatype Checked = Checked(node: NodeState, ok: bool, halted: bool, roomy: bool)

  type Check = (NodeState, Block) -> Checked

  ghost predicate Roomy(c: Codec, s: NodeState, b: Block) {
    b.info.height != 0 ==> |Executed(c, s, b).mem| <= TWO62
  }

  /** An error in the checks ends the node. */
  ghost predicate SyncHalts(c: Codec, s: NodeState, b: Block) {
    b.info.height != 0 && Halts(c, s, b)
  }

  ghost function CheckAndStore(c: Codec): Check {
    (s: NodeState, b: Block) => Checked(Synced(c, s, b), SyncApplies(c, s, b), SyncHalts(c, s, b), Roomy(c, s, b))
  }

  /** The blocks from `cache` to `target`, one after the other, until one is
      missing or fails its check. */
  ghost function SyncRun(
      check: Check, s: NodeState, answers: Answers, cache: nat, target: uint64): (NodeState, SyncResult)
    requires cache <= target + 1
    decreases target + 1 - cache
  {
    if cache > target then (s, Done)
    else
      match answers(cache)
      case TimedOut => (s, GaveUp)
      case Failed => (s, Errored)
      case Received(b) =>
        if check(s, b).ok then SyncRun(check, check(s, b).node, answers, cache + 1, target)
        else (check(s, b).node, if check(s, b).halted then Errored else Refused)
  }

  /** Every block on the way is roomy. */
  ghost predicate Fits(check: Check, s: NodeState, answers: Answers, cache: nat, target: uint64)
    requires cache <= target + 1
    decreases target + 1 - cache
  {
    cache <= target && answers(cache).Received? ==>
      var r := check(s, answers(cache).block);
      r.roomy && (r.ok ==> Fits(check, r.node, answers, cache + 1, target))
  }

  /** Where the loop stands: as many blocks as the height it waits for. */
  ghost predicate StandsAt(c: Codec, s: NodeState, cache: nat) {
    ChainInvariant(c, s) && |s.chain| == cache
  }

  /** What is stored of a block. */
  function StoredForm(c: Codec, b: Block): Block {
    if b.info.height == 0 then b else Marked(c, b)
  }

  /** A block that passes moves the node up by exactly that block, one that fails
      leaves the chain alone. */
  ghost predicate MovesUp(c: Codec, check: Check) {
    forall s: NodeState, b: Block, cache: nat {:trigger check(s, b), StandsAt(c, s, cache)} ::
      StandsAt(c, s, cache) && b.info.height == cache && cache + 1 < TWO64 ==>
        var r := check(s, b);
        && StandsAt(c, r.node, if r.ok then cache + 1 else cache)
        && r.node.chain == if r.ok then s.chain + [StoredForm(c, b)] else s.chain
  }

  /** Where waiting for one answer leaves the node, and how it ends. */
  ghost function Awaited(c: Codec, s: NodeState, answer: Answer): (NodeState, SyncResult) {
    match answer
    case TimedOut => (s, GaveUp)
    case Failed => (s, Errored)
    case Received(b) =>
      (Synced(c, s, b), if SyncApplies(c, s, b) then Done else if SyncHalts(c, s, b) then Errored else Refused)
  }

  /** `check` does what the node does. Stated so that it is only used where the
      node's own step is spoken of. */
  ghost predicate Performs(c: Codec, check: Check) {
    forall s, b {:trigger Synced(c, s, b)} ::
      check(s, b) == Checked(Synced(c, s, b), SyncApplies(c, s, b), SyncHalts(c, s, b), Roomy(c, s, b))
  }

  lemma TurnMovesUp(c: Codec, check: Check, s: NodeState, b: Block, height: nat)
    requires Performs(c, check) && StandsAt(c, s, height) && b.info.height == height && height + 1 < TWO64
    ensures check(s, b) == Checked(Synced(c, s, b), SyncApplies(c, s, b), SyncHalts(c, s, b), Roomy(c, s, b))
    ensures SyncApplies(c, s, b) ==> StandsAt(c, Synced(c, s, b), height + 1)
  {
    SyncedKeepsChain(c, s, b);
  }

  lemma CheckMovesUp(c: Codec)
    ensures MovesUp(c, CheckAndStore(c))
  {
    forall s: NodeState, b: Block, cache: nat | StandsAt(c, s, cache) && b.info.height == cache && cache + 1 < TWO64
      ensures StandsAt(c, Synced(c, s, b), if SyncApplies(c, s, b) then cache + 1 else cache)
      ensures Synced(c, s, b).chain == if SyncApplies(c, s, b) then s.chain + [StoredForm(c, b)] else s.chain
    {
      SyncedKeepsChain(c, s, b);
    }
  }

  /** The node waits for height `cache`, and from here the run leads to `goal`. */
  ghost predicate OnTrack(
      c: Codec, check: Check, answers: Answers, cache: nat, target: uint64, goal: (NodeState, SyncResult), s: NodeState)
  {
    && StandsAt(c, s, cache) && cache <= target + 1 < TWO64
    && Fits(check, s, answers, cache, target)
    && SyncRun(check, s, answers, cache, target) == goal
  }

  /** `track` stands for OnTrack. Stated so that the loops, which only hand it
      from turn to turn, never look inside. */
  type Track = (nat, NodeState) -> bool

  ghost predicate Means(
      c: Codec, check: Check, answers: Answers, target: uint64, goal: (NodeState, SyncResult), track: Track)
  {
    && Performs(c, check)
    && forall cache: nat, s: NodeState {:trigger StandsAt(c, s, cache)} ::
         track(cache, s) <==> OnTrack(c, check, answers, cache, target, goal, s)
  }

  ghost function TrackOf(
      c: Codec, check: Check, answers: Answers, target: uint64, goal: (NodeState, SyncResult)): Track
  {
    (cache: nat, s: NodeState) => OnTrack(c, check, answers, cache, target, goal, s)
  }

  /** The run that `goal` is the end of, from height `cache` on. */
  lemma TrackStarts(c: Codec, s: NodeState, answers: Answers, cache: nat, target: uint64)
    requires StandsAt(c, s, cache) && cache <= target + 1 < TWO64 && Fits(CheckAndStore(c), s, answers, cache, target)
    ensures var check := CheckAndStore(c);
            var goal := SyncRun(check, s, answers, cache, target);
            var track := TrackOf(c, check, answers, target, goal);
            Means(c, check, answers, target, goal, track) && track(cache, s)
  {
  }

  lemma TrackEnds(
      c: Codec, check: Check, answers: Answers, target: uint64, goal: (NodeState, SyncResult), track: Track,
      s: NodeState)
    requires Means(c, check, answers, target, goal, track) && track(target + 1, s)
    ensures goal == (s, Done)
  {
    var here := StandsAt(c, s, target + 1);
  }

  lemma TrackTurn(
      c: Codec, check: Check, answers: Answers, target: uint64, goal: (NodeState, SyncResult), track: Track,
      cache: uint64, s: NodeState)
    requires Means(c, check, answers, target, goal, track) && track(cache, s) && cache <= target && Dispatched(answers)
    ensures StandsAt(c, s, cache) && cache + 1 < TWO64
    ensures answers(cache).Received? ==> Roomy(c, s, answers(cache).block)
    ensures var (t, r) := Awaited(c, s, answers(cache));
            if r == Done then track(cache + 1, t) else goal == (t, r)
  {
    var here := StandsAt(c, s, cache);
    if answers(cache).Received? {
      var b := answers(cache).block;
      TurnMovesUp(c, check, s, b, cache);
      var there := StandsAt(c, Synced(c, s, b), cache + 1);
    }
  }

  /** `t` is what a sync up to `target` made of the chain `a`. */
  ghost predicate Extends(a: seq<Block>, t: seq<Block>, r: SyncResult, target: uint64) {
    a <= t && |t| <= target + 1 && (r == Done <==> |t| == target + 1)
  }

  lemma ExtendsFurther(a: seq<Block>, b: Block, t: seq<Block>, r: SyncResult, target: uint64)
    requires Extends(a + [b], t, r, target)
    ensures Extends(a, t, r, target) && t[|a|] == b
  {
    assert a == (a + [b])[..|a|];
    assert t[|a|] == (a + [b])[|a|];
  }

  lemma {:induction false} SyncRunKeeps(
      c: Codec, check: Check, s: NodeState, answers: Answers, cache: nat, target: uint64)
    requires MovesUp(c, check) && Dispatched(answers)
    requires cache <= target + 1 < TWO64 && StandsAt(c, s, cache)
    ensures var (t, r) := SyncRun(check, s, answers, cache, target);
            StandsAt(c, t, |t.chain|) && Extends(s.chain, t.chain, r, target)
    decreases target + 1 - cache
  {
    if cache <= target && answers(cache).Received? {
      var b := answers(cache).block;
      if check(s, b).ok {
        SyncRunKeeps(c, check, check(s, b).node, answers, cache + 1, target);
        var (t, r) := SyncRun(check, s, answers, cache, target);
        ExtendsFurther(s.chain, StoredForm(c, b), t.chain, r, target);
      }
    }
  }

  lemma {:induction false} SyncRunStores(
      c: Codec, check: Check, s: NodeState, answers: Answers, cache: nat, target: uint64, h: uint64)
    requires MovesUp(c, check) && Dispatched(answers)
    requires cache <= target + 1 < TWO64 && StandsAt(c, s, cache)
    requires cache <= h < |SyncRun(check, s, answers, cache, target).0.chain|
    ensures answers(h).Received?
    ensures SyncRun(check, s, answers, cache, target).0.chain[h] == StoredForm(c, answers(h).block)
    decreases target + 1 - cache
  {
    if cache <= target && answers(cache).Received? {
      var b := answers(cache).block;
      if check(s, b).ok {
        SyncRunKeeps(c, check, check(s, b).node, answers, cache + 1, target);
        if h == cache {
          var (t, r) := SyncRun(check, s, answers, cache, target);
          ExtendsFurther(s.chain, StoredForm(c, b), t.chain, r, target);
        } else {
          SyncRunStores(c, check, check(s, b).node, answers, cache + 1, target, h);
        }
      }
    }
  }

  /** Whatever happens, the loop leaves a valid chain of checked blocks that
      extends the old one by the answers for consecutive heights; it reports
      success exactly when it reached the target, and then stands right above it. */
  lemma SyncRunExtends(c: Codec, s: NodeState, answers: Answers, cache: nat, target: uint64, h: uint64)
    requires Dispatched(answers) && cache <= target + 1 < TWO64 && StandsAt(c, s, cache)
    ensures var (t, r) := SyncRun(CheckAndStore(c), s, answers, cache, target);
            && ChainInvariant(c, t) && s.chain <= t.chain && |t.chain| <= target + 1
            && (r == Done <==> t.info.nextHeight == target + 1)
            && (cache <= h < |t.chain| ==>
                  answers(h).Received? && t.chain[h] == StoredForm(c, answers(h).block))
  {
    CheckMovesUp(c);
    SyncRunKeeps(c, CheckAndStore(c), s, answers, cache, target);
    if cache <= h < |SyncRun(CheckAndStore(c), s, answers, cache, target).0.chain| {
      SyncRunStores(c, CheckAndStore(c), s, answers, cache, target, h);
    }
  }

  /** `last` was asked to go on with the answer for its next height, and this is
      why it ended as `t` with `r`. */
  ghost predicate EndsBecause(
      c: Codec, answers: Answers, target: uint64, last: NodeState, t: NodeState, r: SyncResult)
  {
    var h := |last.chain|;
    && ChainInvariant(c, last) && t.chain == last.chain && h <= target + 1 && (r == Done <==> h == target + 1)
    && (h <= target ==>
          match answers(h)
          case TimedOut => r == GaveUp && t == last
          case Failed => r == Errored && t == last
          case Received(b) =>
            && t == Synced(c, last, b) && !SyncApplies(c, last, b)
            && r == if h != 0 && Halts(c, last, b) then Errored else Refused)
  }

  lemma EndsHere(c: Codec, s: NodeState, answers: Answers, cache: nat, target: uint64)
    requires Dispatched(answers) && cache <= target + 1 < TWO64 && StandsAt(c, s, cache)
    requires cache <= target && answers(cache).Received? ==> !SyncApplies(c, s, answers(cache).block)
    ensures var (t, r) := SyncRun(CheckAndStore(c), s, answers, cache, target);
            EndsBecause(c, answers, target, s, t, r)
  {
    hide Halts, Acceptable, Linked;
    if cache <= target && answers(cache).Received? {
      StepMovesUp(c, s, answers(cache).block, cache);
    }
  }

  /** Why a sync ended: it stands above its target, or its next height's answer
      timed out, which gives up, or was an error, or was a block that the checks
      refused, or one they could not hash. */
  lemma {:induction false} SyncRunEnds(c: Codec, s: NodeState, answers: Answers, cache: nat, target: uint64)
    returns (last: NodeState)
    requires Dispatched(answers) && cache <= target + 1 < TWO64 && StandsAt(c, s, cache)
    ensures var (t, r) := SyncRun(CheckAndStore(c), s, answers, cache, target);
            EndsBecause(c, answers, target, last, t, r)
    decreases target + 1 - cache
  {
    hide EndsBecause, Synced, SyncApplies, SyncHalts, Roomy, ChainInvariant;
    if cache <= target && answers(cache).Received? && SyncApplies(c, s, answers(cache).block) {
      StepMovesUp(c, s, answers(cache).block, cache);
      last := SyncRunEnds(c, Synced(c, s, answers(cache).block), answers, cache + 1, target);
    } else {
      EndsHere(c, s, answers, cache, target);
      last := s;
    }
  }

  lemma StepMovesUp(c: Codec, s: NodeState, b: Block, cache: nat)
    requires StandsAt(c, s, cache) && b.info.height == cache && cache + 1 < TWO64
    ensures StandsAt(c, Synced(c, s, b), if SyncApplies(c, s, b) then cache + 1 else cache)
    ensures !SyncApplies(c, s, b) ==> Synced(c, s, b).chain == s.chain
  {
    hide SealedBlock, Executed, Committed;
    SyncedKeepsChain(c, s, b);
  }

  /** Syncing over the wire is replaying: a node that gets a peer's blocks for its
      answers replays that peer's chain, up to the target. */
  lemma {:induction false} SyncRunReplays(c: Codec, chain: seq<Block>, answers: Answers, cache: nat, target: uint64)
    requires ReplayPasses(c, chain) && cache <= target + 1 <= |chain|
    requires forall h: uint64 :: h <= target ==> answers(h) == Received(chain[h])
    ensures SyncRun(CheckAndStore(c), Replay(c, chain[..cache]), answers, cache, target)
            == (Replay(c, chain[..target + 1]), Done)
    decreases target + 1 - cache
  {
    hide Synced, SyncApplies, SyncHalts, Roomy;
    if cache <= target {
      var h: uint64 := cache;
      PrefixPasses(c, chain, cache);
      assert chain[..cache + 1] == chain[..cache] + [chain[cache]];
      ReplayAppend(c, chain[..cache], chain[cache]);
      SyncRunReplays(c, chain, answers, cache + 1, target);
    }
  }

  // ----- answers -----

  /** A block response as JSON decodes it, before the sizes of its hashes are
      checked. */
  datatype Response = Response(
    height: uint64, hash: Bytes, signature: Bytes, publicKey: Key, timestamp: int64,
    transactions: seq<Transaction>, previousBlockHash: Bytes, stateHash: Bytes)

  predicate HasHashSizes(m: Response) {
    |m.hash| == HASH_SIZE && |m.previousBlockHash| == HASH_SIZE && |m.stateHash| == HASH_SIZE
  }

  /** The checks of a response; `authentic` is what the signatures of the sender,
      the block and its transactions say. Genesis is signed by nobody. */
  predicate Admitted(m: Response, authentic: bool) {
    && HasHashSizes(m)
    && (m.height != 0 ==> authentic && m.transactions != [] && m.signature != [] && m.timestamp > 0)
  }

  function BlockIn(m: Response): Block
    requires HasHashSizes(m)
  {
    Block(BlockInfo(m.height, m.hash, m.signature, m.publicKey, m.timestamp),
          m.transactions, m.previousBlockHash, m.stateHash)
  }

  /** handleBlockReq's answer: the stored block, sent as it is. */
  function ResponseOf(b: Block): Response {
    Response(b.info.height, b.info.hash, b.info.signature, b.info.publicKey, b.info.timestamp,
             b.transactions, b.previousBlockHash, b.stateHash)
  }

  /** A block arrives as it was served, and the checks admit genesis always, any
      other block exactly if it is authentic, not empty, signed and timed. */
  lemma ServedAsStored(b: Block, authentic: bool)
    ensures HasHashSizes(ResponseOf(b)) && BlockIn(ResponseOf(b)) == b
    ensures Admitted(ResponseOf(b), authentic) <==>
            || b.info.height == 0
            || (authentic && |b.transactions| > 0 && |b.info.signature| > 0 && b.info.timestamp > 0)
  {
  }

  /** What a node answers out of the bucket that holds its chain. */
  ghost function Served(c: Codec, chain: seq<Block>, nextHeight: uint64, h: uint64): Option<Response> {
    // An unsigned subtraction: before there is a block every height passes.
    if h > (nextHeight - 1) % TWO64 then None
    else
      match LookupThrough(BucketOf(c, chain), ToHex(h))
      case None => None
      case Some(raw) => if c.decodeBlock(raw).None? then None else Some(ResponseOf(c.decodeBlock(raw).value))
  }

  /** A node serves exactly the heights of its chain, and for each the block that is
      stored there, every field of it, or two byte strings with one digest are
      computed from the chain. */
  lemma ServesItsChain(c: Codec, s: NodeState, h: uint64)
    requires c.RoundTrips() && ChainInvariant(c, s) && |s.chain| < TWO64
    requires s.chain != [] ==> SealedGenesis(c, s.chain[0])
    ensures h >= |s.chain| ==> Served(c, s.chain, s.info.nextHeight, h).None?
    ensures h < |s.chain| ==>
              || (Served(c, s.chain, s.info.nextHeight, h).Some?
                  && var m := Served(c, s.chain, s.info.nextHeight, h).value;
                     HasHashSizes(m) && BlockIn(m) == s.chain[h])
              || exists j :: h < j < |s.chain|
                             && var (x, y) := RepeatCollision(c, s.chain, h, j); IsCollision(c.sha3, x, y)
  {
    hide BucketOf, ToHex, LookupThrough, SealedBlock, RepeatCollision;
    ByIndexRefinesChain(c, s.chain, h);
    if h < |s.chain| {
      assert c.decodeBlock(c.encodeBlock(s.chain[h])) == Some(s.chain[h]);
    }
  }

  /** What was sent into the channel of each height, in order of arrival. */
  type Offers = map<uint64, seq<Block>>

  function OfferedAt(offers: Offers, h: uint64): seq<Block> {
    if h in offers then offers[h] else []
  }

  ghost predicate Filed(offers: Offers) {
    forall h: uint64, b {:trigger b in OfferedAt(offers, h)} :: b in OfferedAt(offers, h) ==>
      b.info.height == h && |b.transactions| < TWO63
  }

  /** Each channel yields one of the blocks that were sent into it. */
  ghost predicate FromOffers(offers: Offers, answers: Answers) {
    forall h :: answers(h).Received? ==> answers(h).block in OfferedAt(offers, h)
  }

  lemma OffersAreDispatched(offers: Offers, answers: Answers)
    requires Filed(offers) && FromOffers(offers, answers)
    ensures Dispatched(answers)
  {
    forall h | answers(h).Received?
      ensures answers(h).block.info.height == h && |answers(h).block.transactions| < TWO63
    {
      assert answers(h).block in OfferedAt(offers, h);
    }
  }

  lemma FiledNext(offers: Offers, h: uint64, b: Block)
    requires Filed(offers) && b.info.height == h && |b.transactions| < TWO63
    ensures Filed(offers[h := OfferedAt(offers, h) + [b]])
  {
    var more := offers[h := OfferedAt(offers, h) + [b]];
    forall k: uint64, x | x in OfferedAt(more, k)
      ensures x.info.height == k && |x.transactions| < TWO63
    {
      if k != h || x != b {
        assert x in OfferedAt(offers, k);
      }
    }
  }

  class SyncService {
    const node: Node
    var chs: Option<seq<nat>>
    var offers: Offers
    var isSyncing: bool

    constructor (node: Node)
      ensures this.node == node && chs.None? && offers == map[] && Filed(offers) && !isSyncing
    {
      this.node, chs, offers, isSyncing := node, None, map[], false;
    }

    /** The service's own fields are not among what a sync changes in the node. */
    lemma Apart()
      ensures this !in node.Footprint()
    {
    }

    /** StartSync does nothing while a sync runs; otherwise it starts one up to
        the target. */
    method StartSync(target: uint64) returns (spawned: Option<uint64>)
      modifies this`isSyncing
      ensures spawned == (if old(isSyncing) then None else Some(target)) && isSyncing
    {
      if isSyncing {
        return None;
      }
      isSyncing := true;
      spawned := Some(target);
    }

    /** handleBlockReq: nothing for a height the node does not have. */
    method HandleBlockReq(height: uint64) returns (m: Option<Response>)
      requires node.Valid()
      ensures m == Served(node.c, node.chain, node.blockchain.nextHeight, height)
    {
      if height > (node.blockchain.nextHeight - 1) % TWO64 {
        return None;
      }
      var raw := node.storage.blocks.GetByIndex(ToHex(height));
      if raw.None? {
        return None;
      }
      var b := node.c.decodeBlock(raw.value);
      m := if b.None? then None else Some(ResponseOf(b.value));
    }

    /** handleBlockRes: a block that passes the message checks is sent, as it is,
        into the channel of its own height, if one is open. */
    method HandleBlockRes(m: Response, authentic: bool) returns (sent: bool)
      requires Filed(offers) && |m.transactions| < TWO63
      modifies this`offers
      ensures Filed(offers)
      ensures sent <==>
                && |m.hash| == 32 && |m.previousBlockHash| == 32 && |m.stateHash| == 32
                && (m.height == 0 || (authentic && |m.transactions| > 0 && |m.signature| > 0 && m.timestamp > 0))
                && chs.Some? && m.height in chs.value
      ensures sent ==>
                var info := BlockInfo(m.height, m.hash, m.signature, m.publicKey, m.timestamp);
                var b := Block(info, m.transactions, m.previousBlockHash, m.stateHash);
                offers == old(offers)[m.height := OfferedAt(old(offers), m.height) + [b]]
      ensures !sent ==> offers == old(offers)
    {
      if m.height != 0 {
        if !Admitted(m, authentic) {
          return false;
        }
      } else if |m.hash| != HASH_SIZE || |m.previousBlockHash| != HASH_SIZE || |m.stateHash| != HASH_SIZE {
        return false;
      }
      if chs.None? || m.height !in chs.value {
        return false;
      }
      FiledNext(offers, m.height, BlockIn(m));
      offers := offers[m.height := OfferedAt(offers, m.height) + [BlockIn(m)]];
      sent := true;
    }

    /** Decoding a response makes a new block object. */
    static method Decoded(b: Block) returns (blk: PendingBlock)
      ensures fresh(blk) && fresh(blk.transactions) && blk.Value() == b
    {
      var transactions := new Transaction[|b.transactions|](i requires 0 <= i < |b.transactions| => b.transactions[i]);
      assert transactions[..] == b.transactions;
      blk := new PendingBlock(b.info, transactions, b.previousBlockHash, b.stateHash);
    }

    method Apply(b: Block, now: uint64) returns (ok: bool, halted: bool)
      requires node.Valid() && node.c.RoundTrips() && |b.transactions| < TWO63
      requires b.info.height == 0 ==> node.chain == []
      requires Roomy(node.c, node.State(), b)
      modifies node.Footprint()
      ensures node.Valid() && fresh(node.memory.Repr - old(node.memory.Repr))
      ensures ok <==> SyncApplies(node.c, old(node.State()), b)
      ensures halted <==> SyncHalts(node.c, old(node.State()), b)
      ensures node.State() == Synced(node.c, old(node.State()), b)
    {
      hide Synced, SyncApplies, Executed;
      ghost var s := node.State();
      var blk := Decoded(b);
      assert node.State() == s && node.memory.Repr == old(node.memory.Repr);
      ok, halted := node.SyncOne(blk, now);
    }

    /** One turn of the inner loop: wait for a height, check its block, store it. */
    method Await(height: uint64, answers: Answers, now: uint64) returns (r: SyncResult)
      requires node.Valid() && node.c.RoundTrips() && StandsAt(node.c, node.State(), height) && Dispatched(answers)
      requires answers(height).Received? && height != 0 ==>
                 |Executed(node.c, node.State(), answers(height).block).mem| <= TWO62
      modifies node.Footprint()
      ensures node.Valid() && fresh(node.memory.Repr - old(node.memory.Repr))
      ensures (node.State(), r) == Awaited(node.c, old(node.State()), answers(height))
    {
      match answers(height) {
        case TimedOut =>
          return GaveUp;
        case Failed =>
          return Errored;
        case Received(b) =>
          var ok, halted := Apply(b, now);
          r := if ok then Done else if halted then Errored else Refused;
      }
    }

    /** One request to each of the `peerLen` peers, for consecutive heights up to
        the target. */
    method Request(start: uint64, target: uint64, peerLen: nat) returns (current: nat)
      requires start <= target && target + 1 < TWO64 && peerLen >= 1
      modifies this`chs
      ensures start < current <= target + 1
      ensures chs == Some(Numbers(start, current))
      ensures current == if start + peerLen <= target then start + peerLen else target + 1
    {
      current := start;
      chs := Some([]);
      var i := 0;
      while i < peerLen
        invariant 0 <= i <= peerLen && current == start + i <= target
        invariant chs == Some(Numbers(start, current))
      {
        chs := Some(chs.value + [current]);
        assert chs.value == Numbers(start, current + 1);
        current := current + 1;
        i := i + 1;
        if current > target {
          break;
        }
      }
    }
  
    /** One turn of the inner loop. */
    method Turn(
        cache: uint64, target: uint64, answers: Answers, now: uint64,
        ghost check: Check, ghost goal: (NodeState, SyncResult), ghost track: Track, ghost s: NodeState)
      returns (r: SyncResult, ghost t: NodeState)
      requires node.Valid() && node.State() == s && node.c.RoundTrips() && Dispatched(answers)
      requires Means(node.c, check, answers, target, goal, track) && cache <= target && track(cache, s)
      modifies node.Footprint()
      ensures node.Valid() && node.State() == t && fresh(node.memory.Repr - old(node.memory.Repr))
      ensures if r == Done then track(cache + 1, t) else goal == (t, r)
    {
      TrackTurn(node.c, check, answers, target, goal, track, cache, s);
      r := Await(cache, answers, now);
      t := node.State();
    }

    /** The inner loop: apply the answers to one batch in height order. */
    method Drain(
        start: uint64, chLen: nat, target: uint64, answers: Answers, now: uint64,
        ghost check: Check, ghost goal: (NodeState, SyncResult), ghost track: Track, ghost s: NodeState)
      returns (r: SyncResult, ghost t: NodeState)
      requires node.Valid() && node.State() == s && node.c.RoundTrips() && Dispatched(answers)
      requires Means(node.c, check, answers, target, goal, track) && track(start, s)
      requires start + chLen <= target + 1 < TWO64
      modifies node.Footprint()
      ensures node.Valid() && node.State() == t && fresh(node.memory.Repr - old(node.memory.Repr))
      ensures if r == Done then track(start + chLen, t) else goal == (t, r)
    {
      hide Node.Valid, Node.State, Means, Dispatched;
      var cache := start;
      r, t := Done, s;
      for i := 0 to chLen
        invariant node.Valid() && node.State() == t && fresh(node.memory.Repr - old(node.memory.Repr))
        invariant r == Done && cache == start + i && track(cache, t)
      {
        r, t := Turn(cache, target, answers, now, check, goal, track, t);
        if r != Done {
          return;
        }
        cache := cache + 1;
      }
    }

    /** The end of a sync, one way or the other: an error leaves the flag and the
        channels as they are. */
    method Close(r: SyncResult)
      requires node.Valid()
      modifies this
      ensures node.Valid() && node.State() == old(node.State())
      ensures isSyncing == (old(isSyncing) && r == Errored)
      ensures chs == if r == Errored then old(chs) else None
    {
      Apart();
      if r != Errored {
        chs := None;
        isSyncing := false;
      }
    }

    /** Requests change nothing in the node. */
    method Ask(start: uint64, target: uint64, peerLen: nat) returns (current: nat)
      requires node.Valid() && start <= target && target + 1 < TWO64 && peerLen >= 1
      modifies this`chs
      ensures start < current <= target + 1 && chs.Some? && start + |chs.value| == current
      ensures node.Valid() && node.State() == old(node.State()) && node.memory.Repr == old(node.memory.Repr)
    {
      Apart();
      current := Request(start, target, peerLen);
    }

    /** One batch: a request per peer, and the answers. */
    method Batch(
        start: uint64, target: uint64, peerLen: nat, answers: Answers, now: uint64,
        ghost check: Check, ghost goal: (NodeState, SyncResult), ghost track: Track, ghost s: NodeState)
      returns (r: SyncResult, current: nat, ghost t: NodeState)
      requires node.Valid() && node.State() == s && node.c.RoundTrips() && Dispatched(answers)
      requires Means(node.c, check, answers, target, goal, track) && track(start, s)
      requires start <= target && target + 1 < TWO64 && peerLen >= 1
      modifies this`chs, node.Footprint()
      ensures node.Valid() && node.State() == t && fresh(node.memory.Repr - old(node.memory.Repr))
      ensures start < current <= target + 1
      ensures if r == Done then track(current, t) else goal == (t, r)
    {
      hide *;
      current := Ask(start, target, peerLen);
      r, t := Drain(start, |chs.value|, target, answers, now, check, goal, track, s);
    }

    /** One turn of the outer loop, with its exit test. */
    method Cycle(
        start: uint64, target: uint64, peerLen: nat, answers: Answers, now: uint64,
        ghost check: Check, ghost goal: (NodeState, SyncResult), ghost track: Track, ghost s: NodeState)
      returns (r: SyncResult, current: nat, over: bool, ghost t: NodeState)
      requires node.Valid() && node.State() == s && node.c.RoundTrips() && Dispatched(answers)
      requires Means(node.c, check, answers, target, goal, track) && track(start, s)
      requires start <= target && target + 1 < TWO64 && peerLen >= 1
      modifies this`chs, node.Footprint()
      ensures node.Valid() && node.State() == t && fresh(node.memory.Repr - old(node.memory.Repr))
      ensures if over then goal == (t, r) else start < current <= target && track(current, t)
    {
      hide Node.Valid, Node.State, Means, Dispatched;
      r, current, t := Batch(start, target, peerLen, answers, now, check, goal, track, s);
      over := r != Done || current > target;
      if r == Done && over {
        TrackEnds(node.c, check, answers, target, goal, track, t);
      }
    }

    /** The outer loop. */
    method Loop(
        start: uint64, target: uint64, peerLen: nat, answers: Answers, now: uint64,
        ghost check: Check, ghost goal: (NodeState, SyncResult), ghost track: Track)
      returns (r: SyncResult)
      requires node.Valid() && node.c.RoundTrips() && Dispatched(answers)
      requires Means(node.c, check, answers, target, goal, track) && track(start, node.State())
      requires start <= target && target + 1 < TWO64 && peerLen >= 1
      modifies this`chs, node.Footprint()
      ensures node.Valid() && (node.State(), r) == goal
    {
      hide Node.Valid, Node.State, Means, Dispatched;
      var current: nat := start;
      var over := false;
      ghost var t := node.State();
      r := Done;
      while !over
        invariant node.Valid() && node.State() == t && fresh(node.memory.Repr - old(node.memory.Repr))
        invariant if over then goal == (t, r) else current <= target && track(current, t)
        decreases !over, target - current
      {
        r, current, over, t := Cycle(current, target, peerLen, answers, now, check, goal, track, t);
      }
    }

    /** The goroutine that StartSync spawns. An early return leaves a valid chain
        of checked blocks, see SyncRunExtends; an error also leaves isSyncing set,
        so that no later sync starts. */
    method SyncTo(target: uint64, peerLen: nat, answers: Answers, now: uint64) returns (r: SyncResult)
      requires node.Valid() && node.c.RoundTrips() && isSyncing
      requires Filed(offers) && FromOffers(offers, answers)
      requires StandsAt(node.c, node.State(), |node.chain|)
      requires |node.chain| <= target && target + 1 < TWO64 && peerLen >= 1
      requires Fits(CheckAndStore(node.c), node.State(), answers, |node.chain|, target)
      modifies this, node.Footprint()
      ensures node.Valid()
      ensures (node.State(), r) ==
              SyncRun(CheckAndStore(node.c), old(node.State()), answers, |old(node.chain)|, target)
      ensures isSyncing == (r == Errored)
    {
      hide SyncRun, Fits, Means, Filed, FromOffers;
      ghost var check := CheckAndStore(node.c);
      var current := node.blockchain.nextHeight;
      ghost var goal := SyncRun(check, node.State(), answers, current, target);
      TrackStarts(node.c, node.State(), answers, current, target);
      OffersAreDispatched(offers, answers);
      Apart();
      r := Loop(current, target, peerLen, answers, now, check, goal, TrackOf(node.c, check, answers, target, goal));
      Close(r);
    }
  }
}
