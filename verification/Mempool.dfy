/** memory/mempool.go: the pool of pending transactions and the blocks cut from
    it. A transaction is filed under its hash (the source spells it in base58). */
module Mempools {
  import opened Common
  import opened Records
  import opened PowersOfTwo
  import opened Sorting
  import opened Ledger

  type Pool = map<Digest, Transaction>

  /** Every pool key encodes its transaction's hash. */
  ghost predicate Keyed(pool: Pool) {
    forall k :: k in pool ==> pool[k].hash == k
  }

  function Nonce(tx: Transaction): int {
    tx.innerData.nonce
  }

  /** One order in which the map's values can come out. */
  ghost predicate Lists(pool: Pool, all: seq<Transaction>) {
    && NoDuplicates(all) && |all| == |pool|
    && forall tx :: tx in all <==> tx.hash in pool && pool[tx.hash] == tx
  }

  /** The first `n` of the pool by nonce, however ties fall. */
  ghost predicate IsCut(pool: Pool, txs: seq<Transaction>) {
    exists all :: Lists(pool, all) && SortedBy(all, Nonce) && txs <= all
  }

  /** The largest power of two that fits. */
  ghost predicate IsBlockCut(pool: Pool, txs: seq<Transaction>) {
    IsCut(pool, txs) && IsPow2(|txs|) && |txs| <= |pool| < 2 * |txs|
  }

  /** TxBundle.ToKeys */
  function Keys(txs: seq<Transaction>): set<Digest> {
    set tx | tx in txs :: tx.hash
  }

  lemma MarkKeepsKeys(c: Codec, txs: seq<Transaction>)
    ensures Keys(MarkAll(c, txs)) == Keys(txs)
  {
    forall d
      ensures d in Keys(MarkAll(c, txs)) <==> d in Keys(txs)
    {
      if d in Keys(MarkAll(c, txs)) {
        var tx :| tx in MarkAll(c, txs) && tx.hash == d;
        var i :| 0 <= i < |txs| && MarkAll(c, txs)[i] == tx;
        assert txs[i].hash == d;
      }
      if d in Keys(txs) {
        var tx :| tx in txs && tx.hash == d;
        var i :| 0 <= i < |txs| && txs[i] == tx;
        assert MarkAll(c, txs)[i].hash == d;
      }
    }
  }

  function Members(keys: seq<Digest>): set<Digest> {
    set k | k in keys
  }

  class Mempool {
    var pool: Pool

    constructor ()
      ensures pool == map[] && Keyed(pool)
    {
      pool := map[];
    }

    method Append(tx: Transaction)
      requires Keyed(pool)
      modifies this
      ensures pool == old(pool)[tx.hash := tx] && Keyed(pool)
    {
      pool := pool[tx.hash := tx];
    }

    method Remove(keys: seq<Digest>)
      requires Keyed(pool)
      modifies this
      ensures Keyed(pool) && pool == old(pool) - Members(keys)
    {
      for i := 0 to |keys|
        invariant pool == old(pool) - Members(keys[..i])
      {
        assert keys[..i + 1] == keys[..i] + [keys[i]];
        pool := pool - {keys[i]};
      }
      assert keys[..|keys|] == keys;
    }

    /** maps.Values: in whatever order the map yields them. */
    method Values() returns (all: seq<Transaction>)
      requires Keyed(pool)
      ensures Lists(pool, all)
    {
      all := [];
      var left := pool.Keys;
      while left != {}
        invariant left <= pool.Keys && NoDuplicates(all) && |all| + |left| == |pool|
        invariant forall tx :: tx in all <==> tx.hash in pool && tx.hash !in left && pool[tx.hash] == tx
        decreases left
      {
        var k :| k in left;
        all := all + [pool[k]];
        left := left - {k};
      }
    }

    /** `get`: nothing when there are not enough; asked for one, it hands out the
        whole pool, unsorted. */
    method Get(n: int64) returns (txs: seq<Transaction>)
      requires Keyed(pool)
      ensures n <= 0 || n > |pool| ==> txs == []
      ensures n == 1 <= |pool| ==> Lists(pool, txs)
      ensures 1 < n <= |pool| ==> |txs| == n && IsCut(pool, txs)
    {
      if n <= 0 {
        return [];
      }
      var all := Values();
      if n > |all| {
        return [];
      }
      if n == 1 {
        return all;
      }
      var sorted := SortFunc(all, Nonce);
      SortedLists(pool, all, sorted);
      txs := sorted[..n];
    }

    method GetTxsForBlock() returns (txs: seq<Transaction>)
      requires Keyed(pool) && |pool| < TWO62
      ensures if |pool| == 0 then txs == [] else IsBlockCut(pool, txs)
    {
      if |pool| == 0 {
        return [];
      }
      if |pool| == 1 {
        txs := Get(1);
        OneIsPow2();
        assert SortedBy(txs, Nonce) && txs <= txs;
        return;
      }
      var n := LastPowerOf2(|pool|);
      txs := Get(n);
    }
  }

  lemma SortedLists(pool: Pool, all: seq<Transaction>, sorted: seq<Transaction>)
    requires Lists(pool, all) && multiset(sorted) == multiset(all)
    ensures Lists(pool, sorted)
  {
    assert |sorted| == |multiset(sorted)| == |all|;
    forall tx
      ensures tx in sorted <==> tx in all
    {
      assert tx in sorted <==> tx in multiset(sorted);
      assert tx in all <==> tx in multiset(all);
    }
    ArrangedOnce(all, sorted);
  }

  // ----- draining -----

  /** A block was cut and executed, which writes statuses into it; it was accepted,
      and the keys of what was executed were removed. */
  ghost predicate IsDrainStep(c: Codec, pool: Pool, after: Pool) {
    pool != map[] && exists txs :: IsBlockCut(pool, txs) && after == pool - Keys(MarkAll(c, txs))
  }

  lemma {:induction false} KeysCount(pool: Pool, txs: seq<Transaction>)
    requires NoDuplicates(txs) && forall tx :: tx in txs ==> tx.hash in pool && pool[tx.hash] == tx
    ensures |Keys(txs)| == |txs| && Keys(txs) <= pool.Keys
  {
    if txs != [] {
      var n := |txs| - 1;
      assert txs == txs[..n] + [txs[n]];
      KeysCount(pool, txs[..n]);
      assert Keys(txs) == Keys(txs[..n]) + {txs[n].hash};
      assert txs[n].hash !in Keys(txs[..n]);
    }
  }

  lemma CutShrinks(pool: Pool, txs: seq<Transaction>)
    requires Keyed(pool) && IsBlockCut(pool, txs)
    ensures Keyed(pool - Keys(txs)) && |pool - Keys(txs)| == |pool| - |txs|
  {
    var all :| Lists(pool, all) && SortedBy(all, Nonce) && txs <= all;
    assert forall i :: 0 <= i < |txs| ==> txs[i] == all[i];
    KeysCount(pool, txs);
    assert (pool - Keys(txs)).Keys == pool.Keys - Keys(txs);
  }

  /** The number of bits set in `n`. */
  function PopCount(n: nat): nat {
    if n == 0 then 0 else n % 2 + PopCount(n / 2)
  }

  /** Taking away the leading bit takes away one bit. */
  lemma {:induction false} LeadingBit(n: nat, p: nat)
    requires IsPow2(p) && p <= n < 2 * p
    ensures PopCount(n - p) == PopCount(n) - 1
  {
    if p > 1 {
      HalfOfPow2(p);
      LeadingBit(n / 2, p / 2);
      assert (n - p) / 2 == n / 2 - p / 2 && (n - p) % 2 == n % 2;
    }
  }

  lemma StepTakesOneBit(c: Codec, pool: Pool, after: Pool)
    requires Keyed(pool) && IsDrainStep(c, pool, after)
    ensures Keyed(after) && PopCount(|after|) == PopCount(|pool|) - 1
  {
    var txs :| IsBlockCut(pool, txs) && after == pool - Keys(MarkAll(c, txs));
    MarkKeepsKeys(c, txs);
    CutShrinks(pool, txs);
    LeadingBit(|pool|, |txs|);
  }

  /** Without arrivals, and with every block accepted, a pool of n transactions
      takes exactly PopCount(n) blocks: a run of that length has emptied the pool,
      no shorter one has, and none is longer. */
  lemma {:induction false} PoolDrain(c: Codec, pools: seq<Pool>)
    requires pools != [] && Keyed(pools[0])
    requires forall i :: 0 <= i < |pools| - 1 ==> IsDrainStep(c, pools[i], pools[i + 1])
    ensures |pools| - 1 <= PopCount(|pools[0]|)
    ensures pools[|pools| - 1] == map[] <==> |pools| - 1 == PopCount(|pools[0]|)
  {
    if |pools| == 1 {
      PopCountZero(|pools[0]|);
    } else {
      StepTakesOneBit(c, pools[0], pools[1]);
      PoolDrain(c, pools[1..]);
    }
  }

  lemma {:induction false} PopCountZero(n: nat)
    ensures PopCount(n) == 0 <==> n == 0
  {
    if n > 1 {
      PopCountZero(n / 2);
    }
  }
}
