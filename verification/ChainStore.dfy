/** The blocks bucket as an encoding of an append-only chain: what the getters of
    storage/storage_db.go answer in terms of that chain. */
module ChainStore {
  import opened Common
  import opened Records
  import opened Blocks
  import opened Storage

  /** The bucket after storing these blocks one by one. */
  function BucketOf(c: Codec, chain: seq<Block>): Entries {
    if chain == [] then map[]
    else PutBlock(c, BucketOf(c, chain[..|chain| - 1]), chain[|chain| - 1])
  }

  function PutBlock(c: Codec, e: Entries, b: Block): Entries {
    Stored(e, b.info.hash, ToHex(b.info.height), c.encodeBlock(b))
  }

  lemma BucketAppend(c: Codec, chain: seq<Block>, b: Block)
    ensures BucketOf(c, chain + [b]) == PutBlock(c, BucketOf(c, chain), b)
  {
    assert (chain + [b])[..|chain|] == chain;
  }

  /** The newest block with a given hash. */
  function Newest(chain: seq<Block>, d: Digest): (r: Option<Block>)
    ensures r.Some? ==> r.value in chain && r.value.info.hash == d
    ensures r.None? ==> forall b :: b in chain ==> b.info.hash != d
  {
    if chain == [] then None
    else
      assert chain == chain[..|chain| - 1] + [chain[|chain| - 1]];
      if chain[|chain| - 1].info.hash == d then Some(chain[|chain| - 1])
      else Newest(chain[..|chain| - 1], d)
  }

  ghost predicate AtOwnHeights(chain: seq<Block>) {
    |chain| <= TWO64 && forall i :: 0 <= i < |chain| ==> chain[i].info.height == i
  }

  /** By hash: the newest block that has it. References are shorter than hashes,
      so they are never mistaken for one. */
  lemma {:induction false} ByKeyRefinesChain(c: Codec, chain: seq<Block>, d: Digest)
    ensures Lookup(BucketOf(c, chain), d) ==
            match Newest(chain, d) { case None => None case Some(b) => Some(c.encodeBlock(b)) }
  {
    if chain != [] {
      ByKeyRefinesChain(c, chain[..|chain| - 1], d);
    }
  }

  /** Storing a block touches no other height's index entry: the lengths 32, 8, 6
      and 9 keep the other three entries away from it. */
  lemma IndexAfterPut(c: Codec, e: Entries, b: Block, h: uint64)
    ensures Lookup(PutBlock(c, e, b), ToHex(h)) ==
            if h == b.info.height then Some(b.info.hash) else Lookup(e, ToHex(h))
  {
    var index, key := ToHex(h), b.info.hash;
    assert |index| == 8 && |key| == 32 && |LATEST_KEY| == 6 && |LATEST_INDEX| == 9;
    if h != b.info.height && index == ToHex(b.info.height) {
      ToHexInjective(h, b.info.height);
    }
  }

  /** The index entry of a height holds the hash of the block at that height,
      and is absent above the tip. */
  lemma {:induction false} IndexEntry(c: Codec, chain: seq<Block>, h: uint64)
    requires AtOwnHeights(chain)
    ensures Lookup(BucketOf(c, chain), ToHex(h)) == if h < |chain| then Some(chain[h].info.hash) else None
  {
    if chain != [] {
      var n := |chain| - 1;
      IndexEntry(c, chain[..n], h);
      IndexAfterPut(c, BucketOf(c, chain[..n]), chain[n], h);
    }
  }

  lemma LatestEntries(c: Codec, chain: seq<Block>)
    requires chain != []
    ensures var tip := chain[|chain| - 1];
            && Lookup(BucketOf(c, chain), LATEST_KEY) == Some(tip.info.hash)
            && Lookup(BucketOf(c, chain), LATEST_INDEX) == Some(ToHex(tip.info.height))
  {
  }

  /** "Latest" is the tip of the chain, or nothing when there is none. */
  lemma LatestRefinesChain(c: Codec, chain: seq<Block>)
    ensures LookupThrough(BucketOf(c, chain), LATEST_KEY) ==
            if chain == [] then None else Some(c.encodeBlock(chain[|chain| - 1]))
  {
    if chain != [] {
      LatestEntries(c, chain);
      ByKeyRefinesChain(c, chain, chain[|chain| - 1].info.hash);
    }
  }

  /** By height: the block at that height, unless a later block has its hash, in
      which case two byte strings with one digest can be computed from the chain. */
  lemma ByIndexRefinesChain(c: Codec, chain: seq<Block>, h: uint64)
    requires AtOwnHeights(chain) && Linked(c, chain)
    requires chain != [] ==> SealedGenesis(c, chain[0])
    ensures h >= |chain| ==> LookupThrough(BucketOf(c, chain), ToHex(h)) == None
    ensures h < |chain| ==>
              || LookupThrough(BucketOf(c, chain), ToHex(h)) == Some(c.encodeBlock(chain[h]))
              || exists j :: h < j < |chain|
                             && var (x, y) := RepeatCollision(c, chain, h, j); IsCollision(c.sha3, x, y)
  {
    IndexEntry(c, chain, h);
    if h < |chain| {
      var d := chain[h].info.hash;
      ByKeyRefinesChain(c, chain, d);
      var newest := NewestIndex(chain, d, h);
      if newest != h {
        HashesDoNotRepeat(c, chain, h, newest);
      }
    }
  }

  lemma {:induction false} NewestIndex(chain: seq<Block>, d: Digest, h: nat) returns (j: nat)
    requires h < |chain| && chain[h].info.hash == d
    ensures h <= j < |chain| && chain[j].info.hash == d && Newest(chain, d) == Some(chain[j])
  {
    j := |chain| - 1;
    if chain[j].info.hash != d {
      j := NewestIndex(chain[..j], d, h);
    }
  }
}
