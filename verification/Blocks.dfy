/** blocks/block.go and txs/bundle.go: what a block hash covers, and what it
    proves about everything before it. */
module Blocks {
  import opened Common
  import opened Records
  import opened PowersOfTwo
  import opened Sorting
  import opened Merkle

  function Encoded(c: Codec, txs: seq<Transaction>): (raws: seq<Bytes>)
    ensures |raws| == |txs|
  {
    Image(c.encodeTransaction, txs)
  }

  /** HashTransactions: an error for an empty bundle and for any other length
      that is not a power of two. */
  ghost function TxRoot(c: Codec, txs: seq<Transaction>): Option<Digest> {
    if IsPow2(|txs|) then Some(Root(c.sha3, Encoded(c, txs))) else None
  }

  method HashTransactions(c: Codec, txs: seq<Transaction>) returns (hash: Option<Digest>)
    requires |txs| < TWO63
    ensures hash == TxRoot(c, txs)
  {
    if txs == [] {
      BitTestExact(0);
      return None;
    }
    var raws := [];
    for i := 0 to |txs|
      invariant |raws| == i
      invariant forall j :: 0 <= j < i ==> raws[j] == c.encodeTransaction(txs[j])
    {
      raws := raws + [c.encodeTransaction(txs[i])];
    }
    assert raws == Encoded(c, txs);
    var tree := NewMerkleTreeFromRaw(c.sha3, raws);
    match tree
    case Err => hash := None;
    case Ok(root) => hash := Some(root.data);
  }

  /** The 96 bytes a block's hash is taken of. */
  function PreImage(root: Digest, previous: Digest, state: Digest): (s: Bytes)
    ensures |s| == 3 * HASH_SIZE
  {
    root + previous + state
  }

  lemma PreImageInjective(r: Digest, p: Digest, s: Digest, r': Digest, p': Digest, s': Digest)
    requires PreImage(r, p, s) == PreImage(r', p', s')
    ensures r == r' && p == p' && s == s'
  {
    var x, y := PreImage(r, p, s), PreImage(r', p', s');
    assert x[..HASH_SIZE] == r && y[..HASH_SIZE] == r';
    assert x[HASH_SIZE..2 * HASH_SIZE] == p && y[HASH_SIZE..2 * HASH_SIZE] == p';
    assert x[2 * HASH_SIZE..] == s && y[2 * HASH_SIZE..] == s';
  }

  ghost function BlockHash(c: Codec, txs: seq<Transaction>, previous: Digest, state: Digest): Option<Digest> {
    match TxRoot(c, txs)
    case None => None
    case Some(root) => Some(c.sha3(PreImage(root, previous, state)))
  }

  method HashBlock(c: Codec, blk: Block) returns (hash: Option<Digest>)
    requires |blk.transactions| < TWO63
    ensures hash == BlockHash(c, blk.transactions, blk.previousBlockHash, blk.stateHash)
  {
    var root := HashTransactions(c, blk.transactions);
    if root.None? {
      return None;
    }
    hash := Some(c.sha3(root.value + blk.previousBlockHash + blk.stateHash));
  }

  ghost predicate SealedBlock(c: Codec, b: Block) {
    Some(b.info.hash) == BlockHash(c, b.transactions, b.previousBlockHash, b.stateHash)
  }

  /** The 64 bytes that genesis' hash is taken of. */
  function GenesisImage(b: Block): (s: Bytes)
    ensures |s| == 2 * HASH_SIZE
  {
    b.previousBlockHash + b.stateHash
  }

  /** genesis.Generate: no transactions, so only 64 bytes are hashed. */
  predicate SealedGenesis(c: Codec, b: Block) {
    b.info.hash == c.sha3(GenesisImage(b))
  }

  /** Each block stands at its own height and names the block below it; every
      block but the first is sealed by its hash. */
  ghost predicate Linked(c: Codec, chain: seq<Block>) {
    && (forall i :: 0 <= i < |chain| ==> chain[i].info.height == i)
    && (forall i :: 0 < i < |chain| ==> SealedBlock(c, chain[i]))
    && (forall i :: 0 < i < |chain| ==> chain[i].previousBlockHash == chain[i - 1].info.hash)
  }

  // ----- tamper evidence -----

  function Contents(b: Block): (seq<Transaction>, Digest, Digest) {
    (b.transactions, b.previousBlockHash, b.stateHash)
  }

  /** Leaf counts that differ can only be told apart when no transaction encodes
      to the size of an inner node. */
  ghost predicate Comparable(c: Codec, a: Block, b: Block) {
    || |a.transactions| == |b.transactions|
    || (!HasNodeSizedLeaf(Encoded(c, a.transactions)) && !HasNodeSizedLeaf(Encoded(c, b.transactions)))
  }

  /** For two sealed blocks with one hash and different contents, two different
      byte strings with one digest, found by evaluating the hash. */
  ghost function BlockCollision(c: Codec, a: Block, b: Block): (Bytes, Bytes)
    requires SealedBlock(c, a) && SealedBlock(c, b)
  {
    var ra, rb := TxRoot(c, a.transactions).value, TxRoot(c, b.transactions).value;
    var x, y := PreImage(ra, a.previousBlockHash, a.stateHash), PreImage(rb, b.previousBlockHash, b.stateHash);
    if x != y then (x, y) else FindCollision(c.sha3, Encoded(c, a.transactions), Encoded(c, b.transactions))
  }

  lemma EncodedInjective(c: Codec, s: seq<Transaction>, t: seq<Transaction>)
    requires c.RoundTrips() && Encoded(c, s) == Encoded(c, t)
    ensures s == t
  {
    assert |s| == |Encoded(c, s)| == |t|;
    forall i | 0 <= i < |s|
      ensures s[i] == t[i]
    {
      assert Encoded(c, s)[i] == c.encodeTransaction(s[i]);
      assert Encoded(c, t)[i] == c.encodeTransaction(t[i]);
      assert c.decodeTransaction(c.encodeTransaction(s[i])) == Some(s[i]);
      assert c.decodeTransaction(c.encodeTransaction(t[i])) == Some(t[i]);
    }
  }

  lemma HashCoversBlock(c: Codec, a: Block, b: Block)
    requires c.RoundTrips() && SealedBlock(c, a) && SealedBlock(c, b) && Comparable(c, a, b)
    requires a.info.hash == b.info.hash && Contents(a) != Contents(b)
    ensures var (x, y) := BlockCollision(c, a, b); IsCollision(c.sha3, x, y)
  {
    var ra, rb := TxRoot(c, a.transactions).value, TxRoot(c, b.transactions).value;
    if PreImage(ra, a.previousBlockHash, a.stateHash) == PreImage(rb, b.previousBlockHash, b.stateHash) {
      PreImageInjective(ra, a.previousBlockHash, a.stateHash, rb, b.previousBlockHash, b.stateHash);
      if Encoded(c, a.transactions) == Encoded(c, b.transactions) {
        EncodedInjective(c, a.transactions, b.transactions);
      }
      RootsBind(c.sha3, Encoded(c, a.transactions), Encoded(c, b.transactions));
    }
  }

  lemma GenesisImageInjective(a: Block, b: Block)
    requires GenesisImage(a) == GenesisImage(b)
    ensures a.previousBlockHash == b.previousBlockHash && a.stateHash == b.stateHash
  {
    assert GenesisImage(a)[..HASH_SIZE] == a.previousBlockHash && GenesisImage(a)[HASH_SIZE..] == a.stateHash;
    assert GenesisImage(b)[..HASH_SIZE] == b.previousBlockHash && GenesisImage(b)[HASH_SIZE..] == b.stateHash;
  }

  /** Walks two chains down from their tips to the first height at which what
      their hashes were taken of differs. */
  ghost function ChainCollision(c: Codec, a: seq<Block>, b: seq<Block>): (Bytes, Bytes)
    requires Linked(c, a) && Linked(c, b) && |a| == |b| > 0
    decreases |a|
  {
    if |a| == 1 then (GenesisImage(a[0]), GenesisImage(b[0]))
    else
      var n := |a| - 1;
      if Contents(a[n]) != Contents(b[n]) then BlockCollision(c, a[n], b[n])
      else ChainCollision(c, a[..n], b[..n])
  }

  /** All that the hashes cover is the same at every height: everything above
      genesis but authors, signatures and times, and of genesis the two hashes in it. */
  ghost predicate SameHistory(a: seq<Block>, b: seq<Block>) {
    && |a| == |b| > 0
    && a[0].previousBlockHash == b[0].previousBlockHash && a[0].stateHash == b[0].stateHash
    && (forall i :: 0 < i < |a| ==> Contents(a[i]) == Contents(b[i]))
    && (forall i :: 0 <= i < |a| ==> a[i].info.hash == b[i].info.hash)
  }

  ghost predicate AllComparable(c: Codec, a: seq<Block>, b: seq<Block>)
    requires |a| == |b|
  {
    forall i {:trigger Comparable(c, a[i], b[i])} :: 0 < i < |a| ==> Comparable(c, a[i], b[i])
  }

  lemma ComparableBelow(c: Codec, a: seq<Block>, b: seq<Block>, n: nat)
    requires |a| == |b| && AllComparable(c, a, b) && n <= |a|
    ensures AllComparable(c, a[..n], b[..n])
  {
    forall i | 0 < i < n
      ensures Comparable(c, a[..n][i], b[..n][i])
    {
      assert Comparable(c, a[i], b[i]);
    }
  }

  lemma LinkedBelow(c: Codec, chain: seq<Block>)
    requires Linked(c, chain) && |chain| > 1
    ensures var n := |chain| - 1;
            Linked(c, chain[..n]) && SealedBlock(c, chain[n])
            && chain[n].previousBlockHash == chain[..n][n - 1].info.hash
  {
  }

  /** Tamper evidence: two chains of one length with one tip hash hold the same
      transactions, previous hashes and state hashes at every height above genesis
      and the same previous hash and state hash in genesis, or the walk exhibits
      two byte strings with one digest. */
  lemma {:induction false} TipHashCoversChain(c: Codec, a: seq<Block>, b: seq<Block>)
    requires c.RoundTrips() && Linked(c, a) && Linked(c, b) && |a| == |b| > 0 && AllComparable(c, a, b)
    requires SealedGenesis(c, a[0]) && SealedGenesis(c, b[0])
    requires a[|a| - 1].info.hash == b[|a| - 1].info.hash
    ensures SameHistory(a, b) || var (x, y) := ChainCollision(c, a, b); IsCollision(c.sha3, x, y)
    decreases |a|
  {
    if |a| == 1 {
      if GenesisImage(a[0]) == GenesisImage(b[0]) {
        GenesisImageInjective(a[0], b[0]);
      }
    } else {
      var n := |a| - 1;
      LinkedBelow(c, a);
      LinkedBelow(c, b);
      if Contents(a[n]) != Contents(b[n]) {
        assert Comparable(c, a[n], b[n]);
        HashCoversBlock(c, a[n], b[n]);
      } else {
        ComparableBelow(c, a, b, n);
        TipHashCoversChain(c, a[..n], b[..n]);
        if SameHistory(a[..n], b[..n]) {
          SameHistoryExtends(a, b);
        }
      }
    }
  }

  /** Genesis with other transactions and another author. */
  function Reauthored(b: Block, txs: seq<Transaction>, author: Key): Block {
    b.(transactions := txs, info := b.info.(publicKey := author))
  }

  /** What no hash covers: a chain whose genesis is given other transactions and
      another author is still linked and sealed, with every hash as before. */
  lemma GenesisBodyUncovered(c: Codec, chain: seq<Block>, txs: seq<Transaction>, author: Key)
    requires Linked(c, chain) && chain != [] && SealedGenesis(c, chain[0])
    ensures var other := chain[0 := Reauthored(chain[0], txs, author)];
            Linked(c, other) && SealedGenesis(c, other[0]) && SameHistory(chain, other)
  {
    var other := chain[0 := Reauthored(chain[0], txs, author)];
    forall i | 0 < i < |other|
      ensures SealedBlock(c, other[i]) && other[i].previousBlockHash == other[i - 1].info.hash
    {
      assert SealedBlock(c, chain[i]) && chain[i].previousBlockHash == chain[i - 1].info.hash;
    }
  }

  lemma SameHistoryExtends(a: seq<Block>, b: seq<Block>)
    requires |a| == |b| > 1
    requires SameHistory(a[..|a| - 1], b[..|b| - 1])
    requires Contents(a[|a| - 1]) == Contents(b[|b| - 1])
    requires a[|a| - 1].info.hash == b[|b| - 1].info.hash
    ensures SameHistory(a, b)
  {
    var n := |a| - 1;
    forall i | 0 <= i < n
      ensures a[i] == a[..n][i] && b[i] == b[..n][i]
    {
    }
  }

  // ----- no block hash occurs twice -----

  /** The bytes a sealed block's hash was taken of. */
  ghost function SealOf(c: Codec, b: Block): (s: Bytes)
    requires SealedBlock(c, b)
    ensures |s| == 3 * HASH_SIZE && b.info.hash == c.sha3(s)
  {
    PreImage(TxRoot(c, b.transactions).value, b.previousBlockHash, b.stateHash)
  }

  lemma SameSeal(c: Codec, a: Block, b: Block)
    requires SealedBlock(c, a) && SealedBlock(c, b) && SealOf(c, a) == SealOf(c, b)
    ensures a.previousBlockHash == b.previousBlockHash
  {
    PreImageInjective(TxRoot(c, a.transactions).value, a.previousBlockHash, a.stateHash,
                      TxRoot(c, b.transactions).value, b.previousBlockHash, b.stateHash);
  }

  /** Two blocks of one chain with one hash: follow both back until their
      pre-images differ. Genesis hashes 64 bytes and every other block 96, so
      they do by then. */
  ghost function RepeatCollision(c: Codec, chain: seq<Block>, i: nat, j: nat): (Bytes, Bytes)
    requires Linked(c, chain) && i < j < |chain|
    decreases i
  {
    if i == 0 then (GenesisImage(chain[0]), SealOf(c, chain[j]))
    else if SealOf(c, chain[i]) != SealOf(c, chain[j]) then (SealOf(c, chain[i]), SealOf(c, chain[j]))
    else RepeatCollision(c, chain, i - 1, j - 1)
  }

  lemma {:induction false} HashesDoNotRepeat(c: Codec, chain: seq<Block>, i: nat, j: nat)
    requires Linked(c, chain) && i < j < |chain| && SealedGenesis(c, chain[0])
    requires chain[i].info.hash == chain[j].info.hash
    ensures var (x, y) := RepeatCollision(c, chain, i, j); IsCollision(c.sha3, x, y)
    decreases i
  {
    hide TxRoot;
    if i == 0 {
      assert |GenesisImage(chain[0])| == 2 * HASH_SIZE;
    } else if SealOf(c, chain[i]) == SealOf(c, chain[j]) {
      SameSeal(c, chain[i], chain[j]);
      HashesDoNotRepeat(c, chain, i - 1, j - 1);
    }
  }
}
