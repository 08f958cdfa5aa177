/** memory/memory_db.go for account states: a map of pointers, and the leaves
    of its Merkle tree collected in whatever order the map yields them. */
module MemoryDbs {
  import opened Common
  import opened Records
  import opened PowersOfTwo
  import opened Sorting
  import opened Merkle
  import opened StateHash
  import opened AccountObjects

  class MemoryDb {
    var dbMap: map<Key, AccountState>
    ghost var Repr: set<AccountState>

    constructor ()
      ensures Valid() && fresh(Repr) && dbMap == map[]
    {
      dbMap := map[];
      Repr := {};
    }

    /** No account object is filed under two keys. */
    ghost predicate Valid()
      reads this
    {
      && (forall k :: k in dbMap ==> dbMap[k] in Repr)
      && (forall j, k :: j in dbMap && k in dbMap && j != k ==> dbMap[j] != dbMap[k])
    }

    ghost function Contents(): (m: Accounts)
      requires Valid()
      reads this, Repr
      ensures m.Keys == dbMap.Keys
    {
      map k | k in dbMap :: dbMap[k].Value()
    }

    method Put(key: Key, data: AccountState)
      requires Valid()
      requires data !in Repr || (key in dbMap && dbMap[key] == data)
      modifies this
      ensures Valid() && Repr == old(Repr) + {data} && dbMap == old(dbMap)[key := data]
      ensures Contents() == old(Contents())[key := data.Value()]
    {
      dbMap := dbMap[key := data];
      Repr := Repr + {data};
    }

    /** Mutating one filed object in place changes one entry of the contents. */
    twostate lemma OneMutated(key: Key)
      requires old(Valid()) && dbMap == old(dbMap) && Repr == old(Repr)
      requires key in dbMap && old(allocated(dbMap[key]))
      requires forall o :: o in old(Repr) && o != old(dbMap[key]) ==> unchanged(o)
      ensures Valid() && Contents() == old(Contents())[key := dbMap[key].Value()]
    {
    }

    /** A present key gives the very object that is filed; an absent one gives a
        new zero account that is not. */
    method Get(key: Key) returns (state: AccountState, ok: bool)
      requires Valid()
      ensures ok <==> key in dbMap
      ensures ok ==> state == dbMap[key]
      ensures !ok ==> fresh(state) && state.Value() == NEW_ACCOUNT
    {
      if key in dbMap {
        return dbMap[key], true;
      }
      state := new AccountState(NEW_ACCOUNT);
      ok := false;
    }

    /** The walk fills the first |dbMap| nodes, in the order the map yields its keys. */
    method CollectLeaves(c: Codec, total: nat) returns (nodes: seq<MerkleNode>)
      requires Valid() && |dbMap| <= total
      ensures |nodes| == total && IsWalk(c, Contents(), nodes[..|dbMap|])
    {
      nodes := seq(total, _ => FakeLeaf(c));
      var i := 0;
      var left := dbMap.Keys;
      ghost var order: seq<Key> := [];
      ghost var m := Contents();
      while left != {}
        invariant i == |order| && |nodes| == total && Visited(order, m.Keys, left)
        invariant forall j :: 0 <= j < i ==> nodes[j] == LeafOf(c, order[j], At(m, order[j]))
        decreases left
      {
        var k :| k in left;
        nodes := nodes[i := LeafOf(c, k, dbMap[k].Value())];
        VisitNext(order, m.Keys, left, k);
        order := order + [k];
        left := left - {k};
        i := i + 1;
      }
      assert Enumerates(order, m);
      assert nodes[..i] == LeavesInOrder(c, m, order);
    }

    /** Fill in map order, sort the filled part, pad the rest. */
    method GetMerkleNodes(c: Codec) returns (nodes: seq<MerkleNode>)
      requires Valid() && |dbMap| <= TWO62
      ensures IsPaddedLeafList(c, Contents(), nodes)
    {
      hide IsWalk, CeilPow2, SortedBy;
      var total := NextPowerOf2(|dbMap|);
      CeilPow2Least(|dbMap|);
      nodes := CollectLeaves(c, total);
      var i := |dbMap|;
      var walk := nodes[..i];
      var sorted := SortFunc(walk, DigestRank);
      assert |sorted| == |multiset(sorted)| == |multiset(walk)| == i;
      nodes := sorted + nodes[i..];
      while i < total
        invariant |sorted| <= i <= total == |nodes| && nodes[..|sorted|] == sorted
        invariant forall l :: |sorted| <= l < i ==> nodes[l] == FakeLeaf(c)
      {
        nodes := nodes[i := FakeLeaf(c)];
        i := i + 1;
      }
      assert nodes == Padded(c, sorted);
      SortedWalkIsLeafList(c, Contents(), walk, nodes);
    }

    /** MemoryService.GetStateHash: a function of the accounts held, in spite of
        the walk and the sort being free. */
    method GetStateHash(c: Codec) returns (hash: Digest)
      requires Valid() && |dbMap| <= TWO62
      ensures hash == StateRoot(c, Contents())
    {
      hide IsPaddedLeafList;
      ghost var m := Contents();
      var nodes := GetMerkleNodes(c);
      assert Contents() == m;
      PaddedLeafListRoot(c, m, nodes);
      var root := NewMerkleTreeFromNodes(c.sha3, nodes);
      hash := root.data;
      assert Contents() == m;
    }
  }
}
