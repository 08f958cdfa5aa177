/** common/merkle/merkle_tree.go: the level-by-level builders, the recursive
    tree they compute, and what equal roots say about the leaves. */
module Merkle {
  import opened Common
  import opened PowersOfTwo

  datatype MerkleNode = MerkleNode(left: Option<MerkleNode>, right: Option<MerkleNode>, data: Digest)

  function NewMerkleNode(h: Hasher, left: Option<MerkleNode>, right: Option<MerkleNode>, data: Bytes): MerkleNode
    requires left.None? <==> right.None?
  {
    if left.None? && right.None? then MerkleNode(left, right, h(data))
    else MerkleNode(left, right, h(left.value.data + right.value.data))
  }

  function Join(h: Hasher, left: MerkleNode, right: MerkleNode): MerkleNode {
    NewMerkleNode(h, Some(left), Some(right), [])
  }

  function Leaves(h: Hasher, raws: seq<Bytes>): (level: seq<MerkleNode>)
    ensures |level| == |raws|
  {
    seq(|raws|, i requires 0 <= i < |raws| => NewMerkleNode(h, None, None, raws[i]))
  }

  // ----- the reference definition -----

  /** The tree by recursive halving. */
  function Tree(h: Hasher, level: seq<MerkleNode>): MerkleNode
    requires IsPow2(|level|)
    decreases |level|
  {
    if |level| == 1 then level[0]
    else
      HalfOfPow2(|level|);
      var half := |level| / 2;
      Join(h, Tree(h, level[..half]), Tree(h, level[half..]))
  }

  function Root(h: Hasher, raws: seq<Bytes>): Digest
    requires IsPow2(|raws|)
  {
    Tree(h, Leaves(h, raws)).data
  }

  function Height(node: MerkleNode): nat {
    if node.left.None? || node.right.None? then 0
    else
      var l, r := Height(node.left.value), Height(node.right.value);
      1 + if l < r then r else l
  }

  /** One round of the builders' outer loop. */
  function Paired(h: Hasher, level: seq<MerkleNode>): (next: seq<MerkleNode>)
    requires |level| % 2 == 0
    ensures |next| == |level| / 2
  {
    seq(|level| / 2, i requires 0 <= i < |level| / 2 => Join(h, level[2 * i], level[2 * i + 1]))
  }

  lemma TreeOfHalves(h: Hasher, level: seq<MerkleNode>)
    requires IsPow2(|level|) && |level| > 1
    ensures var half := |level| / 2;
            && 2 * half == |level| && IsPow2(half)
            && Tree(h, level) == Join(h, Tree(h, level[..half]), Tree(h, level[half..]))
  {
    HalfOfPow2(|level|);
  }

  lemma TreeOfTwo(h: Hasher, level: seq<MerkleNode>)
    requires |level| == 2
    ensures IsPow2(|level|) && IsPow2(1) && Paired(h, level) == [Join(h, level[0], level[1])]
    ensures Tree(h, Paired(h, level)) == Tree(h, level)
  {
    OneIsPow2();
    DoubleOfPow2(1);
  }

  lemma PairedNext(h: Hasher, level: seq<MerkleNode>, k: nat)
    requires |level| % 2 == 0 && 2 * k + 1 < |level|
    ensures Paired(h, level)[..k + 1] == Paired(h, level)[..k] + [Join(h, level[2 * k], level[2 * k + 1])]
  {
  }

  /** Pairing neighbours first does not change the tree. */
  lemma {:induction false} PairingKeepsTree(h: Hasher, level: seq<MerkleNode>)
    requires IsPow2(|level|) && |level| > 1
    ensures |level| % 2 == 0 && IsPow2(|level| / 2)
    ensures Tree(h, Paired(h, level)) == Tree(h, level)
    decreases |level|
  {
    TreeOfHalves(h, level);
    var half := |level| / 2;
    if half == 1 {
      TreeOfTwo(h, level);
    } else {
      HalfOfPow2(half);
      PairingKeepsTree(h, level[..half]);
      PairingKeepsTree(h, level[half..]);
      PairedSplits(h, level, half / 2);
      TreeOfHalves(h, Paired(h, level));
    }
  }

  lemma PairedSplits(h: Hasher, level: seq<MerkleNode>, i: nat)
    requires |level| % 2 == 0 && 2 * i <= |level|
    ensures Paired(h, level)[..i] == Paired(h, level[..2 * i])
    ensures Paired(h, level)[i..] == Paired(h, level[2 * i..])
  {
  }

  // ----- the builders -----

  method BuildUp(h: Hasher, data: seq<MerkleNode>) returns (root: MerkleNode)
    requires IsPow2(|data|)
    ensures root == Tree(h, data)
  {
    hide IsPow2;
    var level := data;
    while |level| > 1
      invariant IsPow2(|level|)
      invariant Tree(h, level) == Tree(h, data)
      decreases |level|
    {
      PairingKeepsTree(h, level);
      var newLevel := [];
      var j := 0;
      while j < |level|
        invariant 0 <= j <= |level| && j == 2 * |newLevel|
        invariant newLevel == Paired(h, level)[..|newLevel|]
      {
        var n := NewMerkleNode(h, Some(level[j]), Some(level[j + 1]), []);
        PairedNext(h, level, |newLevel|);
        newLevel := newLevel + [n];
        j := j + 2;
      }
      assert newLevel == Paired(h, level);
      level := newLevel;
    }
    root := level[0];
  }

  /** NewMerkleTreeFromRaw: an error exactly when the leaf count is not a power
      of two, otherwise the tree over the hashed leaves. */
  method NewMerkleTreeFromRaw(h: Hasher, data: seq<Bytes>) returns (tree: Result<MerkleNode>)
    requires |data| < TWO63
    ensures tree.Ok? <==> IsPow2(|data|)
    ensures tree.Ok? ==> tree.value == Tree(h, Leaves(h, data))
  {
    BitTestExact(|data|);
    if !IsPowerOf2(|data|) {
      return Err;
    }
    var level := [];
    for i := 0 to |data|
      invariant level == Leaves(h, data)[..i]
    {
      level := level + [NewMerkleNode(h, None, None, data[i])];
    }
    assert level == Leaves(h, data);
    var root := BuildUp(h, level);
    tree := Ok(root);
  }

  /** NewMerkleTreeFromNodes: only a power-of-two number of nodes keeps
      `level[j+1]` in range, see InRangeExactly. */
  method NewMerkleTreeFromNodes(h: Hasher, data: seq<MerkleNode>) returns (root: MerkleNode)
    requires IsPow2(|data|)
    ensures root == Tree(h, data)
  {
    root := BuildUp(h, data);
  }

  /** Every round of the builders finds an even level until one node is left. */
  predicate EveryRoundInRange(n: nat) {
    n == 1 || (n > 1 && n % 2 == 0 && EveryRoundInRange(n / 2))
  }

  lemma {:induction false} InRangeExactly(n: nat)
    ensures EveryRoundInRange(n) <==> IsPow2(n)
  {
    if n == 1 {
      OneIsPow2();
    } else if n > 1 {
      InRangeExactly(n / 2);
      if EveryRoundInRange(n) {
        DoubleOfPow2(n / 2);
      }
      if IsPow2(n) {
        HalfOfPow2(n);
      }
    }
  }

  /** 2^k leaves give a tree of height k: the builders' loop runs k times. */
  lemma {:induction false} TreeHeight(h: Hasher, raws: seq<Bytes>, k: nat)
    requires |raws| == Pow2(k)
    ensures IsPow2(|raws|)
    ensures Height(Tree(h, Leaves(h, raws))) == k
    decreases k
  {
    assert IsPow2(|raws|);
    if k == 0 {
    } else {
      var half := |raws| / 2;
      assert half == Pow2(k - 1);
      TreeHeight(h, raws[..half], k - 1);
      TreeHeight(h, raws[half..], k - 1);
      assert Leaves(h, raws)[..half] == Leaves(h, raws[..half]);
      assert Leaves(h, raws)[half..] == Leaves(h, raws[half..]);
    }
  }

  // ----- binding -----

  lemma RootOfHalves(h: Hasher, raws: seq<Bytes>)
    requires IsPow2(|raws|) && |raws| > 1
    ensures IsPow2(|raws| / 2) && |raws| % 2 == 0
    ensures Root(h, raws) == h(Root(h, raws[..|raws| / 2]) + Root(h, raws[|raws| / 2..]))
  {
    HalfOfPow2(|raws|);
    var half := |raws| / 2;
    assert Leaves(h, raws)[..half] == Leaves(h, raws[..half]);
    assert Leaves(h, raws)[half..] == Leaves(h, raws[half..]);
  }

  /** A leaf of 64 bytes can pass for an inner node, whose pre-image is two digests. */
  ghost predicate HasNodeSizedLeaf(raws: seq<Bytes>) {
    exists i :: 0 <= i < |raws| && |raws[i]| == 2 * HASH_SIZE
  }

  /** Walks two trees down from their roots and returns the first pair of
      different pre-images it meets. It only evaluates `h`; with equal roots and
      different leaves, the pair it returns is a collision. */
  function FindCollision(h: Hasher, a: seq<Bytes>, b: seq<Bytes>): (xy: (Bytes, Bytes))
    requires IsPow2(|a|) && IsPow2(|b|)
    decreases |a|
  {
    if |a| == 1 && |b| == 1 then (a[0], b[0])
    else if |a| == 1 then
      HalfOfPow2(|b|);
      (a[0], Root(h, b[..|b| / 2]) + Root(h, b[|b| / 2..]))
    else if |b| == 1 then
      HalfOfPow2(|a|);
      (Root(h, a[..|a| / 2]) + Root(h, a[|a| / 2..]), b[0])
    else
      HalfOfPow2(|a|);
      HalfOfPow2(|b|);
      var a0, a1, b0, b1 := a[..|a| / 2], a[|a| / 2..], b[..|b| / 2], b[|b| / 2..];
      var x, y := Root(h, a0) + Root(h, a1), Root(h, b0) + Root(h, b1);
      if x != y then (x, y)
      else if a0 != b0 then FindCollision(h, a0, b0)
      else FindCollision(h, a1, b1)
  }

  /** Binding: equal roots mean equal leaf lists, or the walk returns two
      different byte strings with one hash. Leaf counts need not be equal as
      long as no leaf is exactly 64 bytes long. */
  lemma {:induction false} RootsBind(h: Hasher, a: seq<Bytes>, b: seq<Bytes>)
    requires IsPow2(|a|) && IsPow2(|b|)
    requires |a| == |b| || (!HasNodeSizedLeaf(a) && !HasNodeSizedLeaf(b))
    requires Root(h, a) == Root(h, b)
    requires a != b
    ensures var (x, y) := FindCollision(h, a, b); IsCollision(h, x, y)
    decreases |a|
  {
    if |a| == 1 && |b| == 1 {
      assert a[0] != b[0];
    } else if |a| == 1 {
      RootOfHalves(h, b);
    } else if |b| == 1 {
      RootOfHalves(h, a);
    } else {
      RootOfHalves(h, a);
      RootOfHalves(h, b);
      var a0, a1, b0, b1 := a[..|a| / 2], a[|a| / 2..], b[..|b| / 2], b[|b| / 2..];
      var x, y := Root(h, a0) + Root(h, a1), Root(h, b0) + Root(h, b1);
      assert a == a0 + a1 && b == b0 + b1;
      if x == y {
        assert x[..HASH_SIZE] == Root(h, a0) && y[..HASH_SIZE] == Root(h, b0);
        assert x[HASH_SIZE..] == Root(h, a1) && y[HASH_SIZE..] == Root(h, b1);
        if a0 != b0 {
          RootsBind(h, a0, b0);
        } else {
          RootsBind(h, a1, b1);
        }
      }
    }
  }
}
