/** The state hash as a function of the account map: leaves sorted by digest,
    padded to a power of two, and joined; whatever order the map was walked in. */
module StateHash {
  import opened Common
  import opened Records
  import opened PowersOfTwo
  import opened Sorting
  import opened Merkle

  /** getMerkleNode: the leaf hashes the key's bytes and the account's JSON. */
  function LeafOf(c: Codec, key: Bytes, a: Account): MerkleNode {
    MerkleNode(None, None, c.sha3(key + c.encodeAccount(a)))
  }

  function DigestRank(n: MerkleNode): int {
    BigEndian(n.data)
  }

  function FakeLeaf(c: Codec): MerkleNode {
    LeafOf(c, c.fakeKey, NEW_ACCOUNT)
  }

  function Padded(c: Codec, leaves: seq<MerkleNode>): (r: seq<MerkleNode>)
    ensures |r| >= |leaves| && |r| == CeilPow2(|leaves|)
  {
    CeilPow2Least(|leaves|);
    leaves + seq(CeilPow2(|leaves|) - |leaves|, _ => FakeLeaf(c))
  }

  /** `order` is one way a loop over the map can visit it. */
  ghost predicate Enumerates(order: seq<Key>, m: Accounts) {
    NoDuplicates(order) && forall k: Key :: k in m <==> k in order
  }

  /** A walk over `all` part-way through, with `left` still to come. */
  ghost predicate Visited(order: seq<Key>, all: set<Key>, left: set<Key>) {
    && NoDuplicates(order) && left <= all && |order| + |left| == |all|
    && forall k: Key :: k in order <==> k in all && k !in left
  }

  lemma VisitNext(order: seq<Key>, all: set<Key>, left: set<Key>, k: Key)
    requires Visited(order, all, left) && k in left
    ensures Visited(order + [k], all, left - {k})
  {
    assert k !in order;
  }

  function LeafMaker(c: Codec, m: Accounts): Key -> MerkleNode {
    (k: Key) => LeafOf(c, k, At(m, k))
  }

  function LeavesInOrder(c: Codec, m: Accounts, order: seq<Key>): (r: seq<MerkleNode>)
    ensures |r| == |order|
  {
    Image(LeafMaker(c, m), order)
  }

  /** The leaves of a map in some order. */
  ghost predicate IsWalk(c: Codec, m: Accounts, walk: seq<MerkleNode>) {
    exists order :: Enumerates(order, m) && walk == LeavesInOrder(c, m, order)
  }

  lemma LeavesSeparated(c: Codec, m: Accounts, order: seq<Key>, s: seq<MerkleNode>)
    requires multiset(s) == multiset(LeavesInOrder(c, m, order))
    ensures RankSeparates(s, DigestRank)
  {
    forall i, j | 0 <= i < |s| && 0 <= j < |s| && DigestRank(s[i]) == DigestRank(s[j])
      ensures s[i] == s[j]
    {
      assert s[i] in multiset(s) && s[j] in multiset(s);
      assert s[i] in LeavesInOrder(c, m, order) && s[j] in LeavesInOrder(c, m, order);
      BigEndianInjective(s[i].data, s[j].data);
    }
  }

  /** Leaves with one rank are one leaf, so the sorted leaf list is unique: it
      depends neither on the walk over the map nor on how the sort breaks ties. */
  lemma LeafListUnique(
      c: Codec, m: Accounts, order: seq<Key>, order': seq<Key>, s: seq<MerkleNode>, s': seq<MerkleNode>)
    requires Enumerates(order, m) && Enumerates(order', m)
    requires SortedBy(s, DigestRank) && multiset(s) == multiset(LeavesInOrder(c, m, order))
    requires SortedBy(s', DigestRank) && multiset(s') == multiset(LeavesInOrder(c, m, order'))
    ensures s == s'
  {
    ListingsOfOneSet(order, order');
    ImageOfPermutation(LeafMaker(c, m), order, order');
    LeavesSeparated(c, m, order, s);
    SortedArrangementUnique(s, s', DigestRank);
  }

  ghost function SomeOrder(m: Accounts): (order: seq<Key>)
    ensures Enumerates(order, m)
    decreases |m|
  {
    if m == map[] then []
    else
      var k :| k in m;
      assert |m - {k}| < |m|;
      SomeOrder(m - {k}) + [k]
  }

  ghost function SortedLeaves(c: Codec, m: Accounts): seq<MerkleNode> {
    Arrange(LeavesInOrder(c, m, SomeOrder(m)), DigestRank)
  }

  /** The state hash of an account map. */
  ghost function StateRoot(c: Codec, m: Accounts): Digest {
    CeilPow2Least(|SortedLeaves(c, m)|);
    Tree(c.sha3, Padded(c, SortedLeaves(c, m))).data
  }

  /** Any two walks over one map, sorted by any means, give the same padded leaf
      list and the same root, which is StateRoot. */
  lemma OrderDoesNotMatter(
      c: Codec, m: Accounts, order: seq<Key>, order': seq<Key>, s: seq<MerkleNode>, s': seq<MerkleNode>)
    requires Enumerates(order, m) && Enumerates(order', m)
    requires SortedBy(s, DigestRank) && multiset(s) == multiset(LeavesInOrder(c, m, order))
    requires SortedBy(s', DigestRank) && multiset(s') == multiset(LeavesInOrder(c, m, order'))
    ensures Padded(c, s) == Padded(c, s')
    ensures IsPow2(|Padded(c, s)|) && Tree(c.sha3, Padded(c, s)).data == StateRoot(c, m)
  {
    LeafListUnique(c, m, order, order', s, s');
    LeafListUnique(c, m, order, SomeOrder(m), s, SortedLeaves(c, m));
    CeilPow2Least(|s|);
  }

  /** `nodes` is what some walk and some sort can make of the map. */
  ghost predicate IsPaddedLeafList(c: Codec, m: Accounts, nodes: seq<MerkleNode>) {
    exists order, s ::
      && Enumerates(order, m)
      && SortedBy(s, DigestRank)
      && multiset(s) == multiset(LeavesInOrder(c, m, order))
      && nodes == Padded(c, s)
  }

  ghost predicate IsSortedAndPadded(c: Codec, walk: seq<MerkleNode>, nodes: seq<MerkleNode>) {
    exists s :: SortedBy(s, DigestRank) && multiset(s) == multiset(walk) && nodes == Padded(c, s)
  }

  lemma SortedWalkIsLeafList(c: Codec, m: Accounts, walk: seq<MerkleNode>, nodes: seq<MerkleNode>)
    requires IsWalk(c, m, walk) && IsSortedAndPadded(c, walk, nodes)
    ensures IsPaddedLeafList(c, m, nodes)
  {
    var order :| Enumerates(order, m) && walk == LeavesInOrder(c, m, order);
    var s :| SortedBy(s, DigestRank) && multiset(s) == multiset(walk) && nodes == Padded(c, s);
  }

  lemma PaddedLeafListRoot(c: Codec, m: Accounts, nodes: seq<MerkleNode>)
    requires IsPaddedLeafList(c, m, nodes)
    ensures IsPow2(|nodes|) && Tree(c.sha3, nodes).data == StateRoot(c, m)
  {
    var order, s :|
      && Enumerates(order, m)
      && SortedBy(s, DigestRank)
      && multiset(s) == multiset(LeavesInOrder(c, m, order))
      && nodes == Padded(c, s);
    OrderDoesNotMatter(c, m, order, order, s, s);
  }

  // ----- binding -----

  /** What the leaf of a key's account is the hash of. */
  function RawLeaf(c: Codec, key: Bytes, a: Account): Bytes {
    key + c.encodeAccount(a)
  }

  function RawMaker(c: Codec, m: Accounts): Key -> Bytes {
    (k: Key) => RawLeaf(c, k, At(m, k))
  }

  function RawPadding(c: Codec): Bytes {
    RawLeaf(c, c.fakeKey, NEW_ACCOUNT)
  }

  function RawRank(h: Hasher): Bytes -> int {
    (raw: Bytes) => BigEndian(h(raw))
  }

  function HashedLeaf(h: Hasher): Bytes -> MerkleNode {
    (raw: Bytes) => MerkleNode(None, None, h(raw))
  }

  ghost function RawsOf(c: Codec, m: Accounts): seq<Bytes> {
    Image(RawMaker(c, m), SomeOrder(m))
  }

  ghost function SortedRaws(c: Codec, m: Accounts): seq<Bytes> {
    Arrange(RawsOf(c, m), RawRank(c.sha3))
  }

  /** The raw leaves of the tree, sorted by digest and padded. */
  ghost function PaddedRaws(c: Codec, m: Accounts): (raws: seq<Bytes>)
    ensures IsPow2(|raws|)
  {
    var raws := SortedRaws(c, m);
    CeilPow2Least(|raws|);
    raws + seq(CeilPow2(|raws|) - |raws|, _ => RawPadding(c))
  }

  lemma LeavesAreImages(h: Hasher, raws: seq<Bytes>)
    ensures Leaves(h, raws) == Image(HashedLeaf(h), raws)
  {
  }

  lemma HashedRaws(c: Codec, m: Accounts)
    ensures Image(HashedLeaf(c.sha3), RawsOf(c, m)) == LeavesInOrder(c, m, SomeOrder(m))
  {
    var order := SomeOrder(m);
    forall i | 0 <= i < |order|
      ensures HashedLeaf(c.sha3)(RawMaker(c, m)(order[i])) == LeafMaker(c, m)(order[i])
    {
    }
  }

  /** Sorting the raw leaves by digest and hashing them gives the sorted leaves. */
  lemma SortedRawsAreLeaves(c: Codec, m: Accounts)
    ensures Leaves(c.sha3, SortedRaws(c, m)) == SortedLeaves(c, m)
  {
    hide Arrange, LeafMaker, RawMaker;
    var raws, sorted, order := RawsOf(c, m), SortedRaws(c, m), SomeOrder(m);
    var leaves := Leaves(c.sha3, sorted);
    LeavesAreImages(c.sha3, sorted);
    ImageOfPermutation(HashedLeaf(c.sha3), sorted, raws);
    HashedRaws(c, m);
    assert SortedBy(leaves, DigestRank) by {
      assert forall i :: 0 <= i < |sorted| ==> DigestRank(leaves[i]) == RawRank(c.sha3)(sorted[i]);
    }
    LeafListUnique(c, m, order, order, leaves, SortedLeaves(c, m));
  }

  lemma LeavesOfPadded(h: Hasher, raws: seq<Bytes>, n: nat, pad: Bytes)
    ensures Leaves(h, raws + seq(n, _ => pad)) == Leaves(h, raws) + seq(n, _ => MerkleNode(None, None, h(pad)))
  {
  }

  /** The state hash is the Merkle root of the raw leaves. */
  lemma StateRootOfRaws(c: Codec, m: Accounts)
    ensures StateRoot(c, m) == Root(c.sha3, PaddedRaws(c, m))
  {
    hide SortedRaws, SortedLeaves, IsPow2, CeilPow2;
    var raws, leaves := SortedRaws(c, m), SortedLeaves(c, m);
    SortedRawsAreLeaves(c, m);
    CeilPow2Least(|raws|);
    var n := CeilPow2(|raws|) - |raws|;
    LeavesOfPadded(c.sha3, raws, n, RawPadding(c));
    assert FakeLeaf(c) == MerkleNode(None, None, c.sha3(RawPadding(c)));
    assert Padded(c, leaves) == leaves + seq(n, _ => FakeLeaf(c));
  }

  lemma SortedMembers(c: Codec, m: Accounts, raw: Bytes)
    ensures raw in SortedRaws(c, m) <==> raw in RawsOf(c, m)
  {
    hide RawsOf, RawRank, Arrange;
    var raws, sorted := RawsOf(c, m), SortedRaws(c, m);
    assert raw in sorted <==> raw in multiset(sorted);
    assert raw in raws <==> raw in multiset(raws);
  }

  ghost predicate IsRawOf(c: Codec, m: Accounts, k: Key, raw: Bytes) {
    k in m && raw == RawLeaf(c, k, m[k])
  }

  lemma RawsOfMembers(c: Codec, m: Accounts, raw: Bytes)
    ensures raw in RawsOf(c, m) <==> exists k: Key :: IsRawOf(c, m, k, raw)
  {
    var order, raws := SomeOrder(m), RawsOf(c, m);
    if raw in raws {
      var i :| 0 <= i < |raws| && raws[i] == raw;
      assert order[i] in order;
      assert IsRawOf(c, m, order[i], raw);
    }
    if k: Key :| IsRawOf(c, m, k, raw) {
      assert k in order;
      var i :| 0 <= i < |order| && order[i] == k;
      assert raws[i] == raw;
    }
  }

  lemma RawsMembers(c: Codec, m: Accounts, raw: Bytes)
    ensures raw in PaddedRaws(c, m) ==> raw == RawPadding(c) || exists k: Key :: IsRawOf(c, m, k, raw)
    ensures forall k: Key :: IsRawOf(c, m, k, raw) ==> raw in PaddedRaws(c, m)
  {
    hide SortedRaws, RawsOf, IsRawOf, RawPadding, IsPow2, CeilPow2;
    SortedMembers(c, m, raw);
    RawsOfMembers(c, m, raw);
    CeilPow2Least(|SortedRaws(c, m)|);
  }

  /** The padding leaf stands for no account. */
  ghost predicate PaddingApart(c: Codec) {
    forall k: Key, a: Account :: RawLeaf(c, k, a) != RawPadding(c)
  }

  /** No leaf of this map, padding included, can pass for an inner node. */
  ghost predicate NoNodeSizedLeaf(c: Codec, m: Accounts) {
    && |RawPadding(c)| != 2 * HASH_SIZE
    && forall k: Key :: k in m ==> |RawLeaf(c, k, m[k])| != 2 * HASH_SIZE
  }

  lemma NoNodeSizedRaw(c: Codec, m: Accounts)
    requires NoNodeSizedLeaf(c, m)
    ensures !HasNodeSizedLeaf(PaddedRaws(c, m))
  {
    var raws := PaddedRaws(c, m);
    forall i | 0 <= i < |raws|
      ensures |raws[i]| != 2 * HASH_SIZE
    {
      RawsMembers(c, m, raws[i]);
      assert raws[i] in raws;
    }
  }

  lemma {:induction false} OrderSize(order: seq<Key>, m: Accounts)
    requires Enumerates(order, m)
    ensures |order| == |m|
    decreases |order|
  {
    if order != [] {
      var n := |order| - 1;
      var k := order[n];
      assert order == order[..n] + [k];
      assert k !in order[..n];
      OrderSize(order[..n], m - {k});
    } else {
      assert m.Keys == {};
    }
  }

  lemma RawsSize(c: Codec, m: Accounts)
    ensures |PaddedRaws(c, m)| == CeilPow2(|m|)
  {
    OrderSize(SomeOrder(m), m);
    CeilPow2Least(|m|);
    assert |SortedRaws(c, m)| == |multiset(SortedRaws(c, m))| == |multiset(RawsOf(c, m))| == |m|;
  }

  lemma RawLeafInjective(c: Codec, k: Key, a: Account, k': Key, a': Account)
    requires c.RoundTrips() && RawLeaf(c, k, a) == RawLeaf(c, k', a')
    ensures k == k' && a == a'
  {
    var x, y := RawLeaf(c, k, a), RawLeaf(c, k', a');
    assert x[..PUBLIC_KEY_SIZE] == k && y[..PUBLIC_KEY_SIZE] == k';
    assert x[PUBLIC_KEY_SIZE..] == c.encodeAccount(a) && y[PUBLIC_KEY_SIZE..] == c.encodeAccount(a');
    assert c.decodeAccount(c.encodeAccount(a)) == Some(a) && c.decodeAccount(c.encodeAccount(a')) == Some(a');
  }

  lemma SameRawsContain(c: Codec, m: Accounts, m': Accounts, k: Key)
    requires c.RoundTrips() && PaddingApart(c) && PaddedRaws(c, m) == PaddedRaws(c, m') && k in m
    ensures k in m' && m'[k] == m[k]
  {
    var raw := RawLeaf(c, k, m[k]);
    RawsMembers(c, m, raw);
    RawsMembers(c, m', raw);
    assert IsRawOf(c, m, k, raw);
    var j: Key :| IsRawOf(c, m', j, raw);
    RawLeafInjective(c, k, m[k], j, m'[j]);
  }

  lemma SameRawsSameMap(c: Codec, m: Accounts, m': Accounts)
    requires c.RoundTrips() && PaddingApart(c) && PaddedRaws(c, m) == PaddedRaws(c, m')
    ensures m == m'
  {
    forall k: Key
      ensures (k in m <==> k in m') && (k in m ==> m[k] == m'[k])
    {
      if k in m {
        SameRawsContain(c, m, m', k);
      }
      if k in m' {
        SameRawsContain(c, m', m, k);
      }
    }
  }

  /** For two maps with one state hash, two byte strings found by walking both
      trees down from their roots. */
  ghost function StateCollision(c: Codec, m: Accounts, m': Accounts): (Bytes, Bytes) {
    FindCollision(c.sha3, PaddedRaws(c, m), PaddedRaws(c, m'))
  }

  /** Leaf counts that differ can only be told apart when no leaf has the size of
      an inner node. */
  ghost predicate ComparableStates(c: Codec, m: Accounts, m': Accounts) {
    CeilPow2(|m|) == CeilPow2(|m'|) || (NoNodeSizedLeaf(c, m) && NoNodeSizedLeaf(c, m'))
  }

  /** The state hash covers every account's key, nonce and balance, and which
      accounts there are: two different maps with one state hash yield two different
      byte strings with one digest. */
  lemma StateRootBinds(c: Codec, m: Accounts, m': Accounts)
    requires c.RoundTrips() && PaddingApart(c) && ComparableStates(c, m, m')
    requires StateRoot(c, m) == StateRoot(c, m') && m != m'
    ensures var (x, y) := StateCollision(c, m, m'); IsCollision(c.sha3, x, y)
  {
    hide PaddedRaws, StateRoot, NoNodeSizedLeaf, PaddingApart;
    StateRootOfRaws(c, m);
    StateRootOfRaws(c, m');
    RawsSize(c, m);
    RawsSize(c, m');
    if NoNodeSizedLeaf(c, m) && NoNodeSizedLeaf(c, m') {
      NoNodeSizedRaw(c, m);
      NoNodeSizedRaw(c, m');
    }
    if PaddedRaws(c, m) == PaddedRaws(c, m') {
      SameRawsSameMap(c, m, m');
    }
    RootsBind(c.sha3, PaddedRaws(c, m), PaddedRaws(c, m'));
  }
}
