/** Cutting a block by nonce is safe: what memory/mempool.go hands out executes
    without a nonce error in executers/executer.go. */
module NonceOrder {
  import opened Common
  import opened Records
  import opened PowersOfTwo
  import opened Sorting
  import opened Ledger
  import opened Mempools

  /** A call that checks and bumps its sender's nonce. */
  predicate IsCallOf(c: Codec, tx: Transaction, k: Key) {
    tx.innerData.publicKey == k && !Classify(c, tx.innerData.data).Skip?
  }

  /** How many of these calls are `k`'s. */
  function CallsOf(c: Codec, txs: seq<Transaction>, k: Key): (n: nat)
    ensures n <= |txs|
  {
    if txs == [] then 0
    else CallsOf(c, txs[..|txs| - 1], k) + if IsCallOf(c, txs[|txs| - 1], k) then 1 else 0
  }

  /** `k`'s calls start at nonce `a`, skip none, and repeat none. */
  ghost predicate Contiguous(c: Codec, txs: seq<Transaction>, k: Key, a: nat) {
    && (forall i :: 0 <= i < |txs| && IsCallOf(c, txs[i], k) ==> a <= Nonce(txs[i]))
    && (forall i, j ::
          0 <= i < |txs| && 0 <= j < |txs| && IsCallOf(c, txs[i], k) && IsCallOf(c, txs[j], k) && i != j ==>
          Nonce(txs[i]) != Nonce(txs[j]))
    && (forall i {:trigger txs[i]} :: 0 <= i < |txs| && IsCallOf(c, txs[i], k) && a < Nonce(txs[i]) ==>
          HasCall(c, txs, k, Nonce(txs[i]) - 1))
  }

  ghost predicate HasCall(c: Codec, txs: seq<Transaction>, k: Key, nonce: int) {
    exists j :: 0 <= j < |txs| && IsCallOf(c, txs[j], k) && Nonce(txs[j]) == nonce
  }

  /** The nonce-sorted prefix holds a nonce prefix of every sender. */
  lemma PrefixContiguous(c: Codec, all: seq<Transaction>, n: nat, k: Key, a: nat)
    requires SortedBy(all, Nonce) && Contiguous(c, all, k, a) && n <= |all|
    ensures Contiguous(c, all[..n], k, a)
  {
    forall i {:trigger all[..n][i]} | 0 <= i < n && IsCallOf(c, all[..n][i], k) && a < Nonce(all[..n][i])
      ensures HasCall(c, all[..n], k, Nonce(all[..n][i]) - 1)
    {
      assert HasCall(c, all, k, Nonce(all[i]) - 1);
      var j :| 0 <= j < |all| && IsCallOf(c, all[j], k) && Nonce(all[j]) == Nonce(all[i]) - 1;
      assert j < i;
      assert all[..n][j] == all[j];
    }
  }

  /** The calls of `k` among the first i have exactly the nonces from `a` on. */
  ghost predicate Reached(c: Codec, txs: seq<Transaction>, k: Key, a: nat, i: nat)
    requires i <= |txs|
  {
    var n := CallsOf(c, txs[..i], k);
    && (forall j {:trigger txs[j]} :: 0 <= j < i && IsCallOf(c, txs[j], k) ==> Nonce(txs[j]) < a + n)
    && (forall v {:trigger HasCallBefore(c, txs, k, i, v)} :: a <= v < a + n ==> HasCallBefore(c, txs, k, i, v))
  }

  ghost predicate HasCallBefore(c: Codec, txs: seq<Transaction>, k: Key, i: nat, nonce: int)
    requires i <= |txs|
  {
    exists j :: 0 <= j < i && IsCallOf(c, txs[j], k) && Nonce(txs[j]) == nonce
  }

  lemma NotRepeated(c: Codec, txs: seq<Transaction>, k: Key, a: nat, i: nat)
    requires Contiguous(c, txs, k, a) && i < |txs| && IsCallOf(c, txs[i], k)
    ensures !HasCallBefore(c, txs, k, i, Nonce(txs[i]))
  {
  }

  lemma PredecessorBefore(c: Codec, txs: seq<Transaction>, k: Key, a: nat, i: nat)
    requires i < |txs| && SortedBy(txs, Nonce) && Contiguous(c, txs, k, a) && Reached(c, txs, k, a, i)
    requires IsCallOf(c, txs[i], k) && a < Nonce(txs[i])
    ensures Nonce(txs[i]) - 1 < a + CallsOf(c, txs[..i], k)
  {
    assert HasCall(c, txs, k, Nonce(txs[i]) - 1);
    var j :| 0 <= j < |txs| && IsCallOf(c, txs[j], k) && Nonce(txs[j]) == Nonce(txs[i]) - 1;
    assert j < i;
  }

  /** The call at position i carries the nonce its sender has reached. */
  lemma NextNonce(c: Codec, txs: seq<Transaction>, k: Key, a: nat, i: nat)
    requires i < |txs| && SortedBy(txs, Nonce) && Contiguous(c, txs, k, a) && Reached(c, txs, k, a, i)
    requires IsCallOf(c, txs[i], k)
    ensures Nonce(txs[i]) == a + CallsOf(c, txs[..i], k)
  {
    NotRepeated(c, txs, k, a, i);
    if a < Nonce(txs[i]) {
      PredecessorBefore(c, txs, k, a, i);
    }
  }

  lemma CallsNext(c: Codec, txs: seq<Transaction>, k: Key, i: nat)
    requires i < |txs|
    ensures CallsOf(c, txs[..i + 1], k) == CallsOf(c, txs[..i], k) + if IsCallOf(c, txs[i], k) then 1 else 0
  {
    assert txs[..i + 1][..i] == txs[..i];
  }

  lemma ReachedNext(c: Codec, txs: seq<Transaction>, k: Key, a: nat, i: nat)
    requires SortedBy(txs, Nonce) && Contiguous(c, txs, k, a) && i < |txs| && Reached(c, txs, k, a, i)
    ensures Reached(c, txs, k, a, i + 1)
  {
    CallsNext(c, txs, k, i);
    if IsCallOf(c, txs[i], k) {
      NextNonce(c, txs, k, a, i);
    }
    forall v {:trigger HasCallBefore(c, txs, k, i + 1, v)} | a <= v < a + CallsOf(c, txs[..i + 1], k)
      ensures HasCallBefore(c, txs, k, i + 1, v)
    {
      if v < a + CallsOf(c, txs[..i], k) {
        assert HasCallBefore(c, txs, k, i, v);
      } else {
        assert IsCallOf(c, txs[i], k) && Nonce(txs[i]) == v;
      }
    }
  }

  lemma {:induction false} NoncesInOrder(c: Codec, txs: seq<Transaction>, k: Key, a: nat, i: nat)
    requires SortedBy(txs, Nonce) && Contiguous(c, txs, k, a) && i <= |txs|
    ensures Reached(c, txs, k, a, i)
  {
    if i > 0 {
      NoncesInOrder(c, txs, k, a, i - 1);
      ReachedNext(c, txs, k, a, i - 1);
    }
  }

  /** A call that succeeds bumps its sender's nonce and no other. */
  lemma OnlyCallerBumps(c: Codec, gen: Option<Key>, m: Accounts, tx: Transaction, k: Key)
    requires Attempt(c, gen, m, tx).error.None?
    ensures At(Attempt(c, gen, m, tx).mem, k).nonce ==
            if IsCallOf(c, tx, k) then BumpNonce(At(m, k)).nonce else At(m, k).nonce
  {
  }

  /** A call that carries its sender's nonce is not refused for its nonce. */
  lemma GoodNonce(c: Codec, gen: Option<Key>, m: Accounts, tx: Transaction)
    requires IsCallOf(c, tx, tx.innerData.publicKey) ==> Nonce(tx) == At(m, tx.innerData.publicKey).nonce
    ensures Attempt(c, gen, m, tx).error != Some(BadNonce)
  {
  }

  /** Every sender's calls are contiguous from its account's nonce. */
  ghost predicate AllContiguous(c: Codec, txs: seq<Transaction>, m: Accounts) {
    forall k {:trigger At(m, k)} :: Contiguous(c, txs, k, At(m, k).nonce)
  }

  lemma NonceReached(c: Codec, m: Accounts, txs: seq<Transaction>, i: nat)
    requires SortedBy(txs, Nonce) && AllContiguous(c, txs, m) && i < |txs|
    requires IsCallOf(c, txs[i], txs[i].innerData.publicKey)
    ensures var k := txs[i].innerData.publicKey;
            Nonce(txs[i]) == (At(m, k).nonce + CallsOf(c, txs[..i], k)) % TWO64
  {
    var k := txs[i].innerData.publicKey;
    var a := At(m, k).nonce;
    NoncesInOrder(c, txs, k, a, i);
    NextNonce(c, txs, k, a, i);
  }

  /** `k`'s nonce has risen by `count` since `m`. */
  ghost predicate HasRisen(m: Accounts, mem: Accounts, k: Key, count: nat) {
    At(mem, k).nonce == (At(m, k).nonce + count) % TWO64
  }

  lemma NoNonceError(c: Codec, gen: Option<Key>, m: Accounts, mem: Accounts, txs: seq<Transaction>, i: nat)
    requires SortedBy(txs, Nonce) && AllContiguous(c, txs, m) && i < |txs|
    requires var k := txs[i].innerData.publicKey; HasRisen(m, mem, k, CallsOf(c, txs[..i], k))
    ensures Attempt(c, gen, mem, txs[i]).error != Some(BadNonce)
  {
    hide Attempt, Contiguous, SortedBy, IsCallOf;
    if IsCallOf(c, txs[i], txs[i].innerData.publicKey) {
      NonceReached(c, m, txs, i);
    }
    GoodNonce(c, gen, mem, txs[i]);
  }

  lemma NonceRises(
      c: Codec, m: Accounts, mem: Accounts, mem': Accounts, txs: seq<Transaction>, i: nat, k: Key)
    requires i < |txs| && HasRisen(m, mem, k, CallsOf(c, txs[..i], k))
    requires At(mem', k).nonce == if IsCallOf(c, txs[i], k) then BumpNonce(At(mem, k)).nonce else At(mem, k).nonce
    ensures HasRisen(m, mem', k, CallsOf(c, txs[..i + 1], k))
  {
    hide IsCallOf;
    CallsNext(c, txs, k, i);
  }

  lemma StepThatSucceeds(c: Codec, gen: Option<Key>, store: Accounts, e: Execution, tx: Transaction, k: Key)
    requires Attempt(c, gen, e.mem, tx).error.None?
    ensures At(Step(c, gen, store, e, tx).mem, k).nonce ==
            if IsCallOf(c, tx, k) then BumpNonce(At(e.mem, k)).nonce else At(e.mem, k).nonce
  {
    OnlyCallerBumps(c, gen, e.mem, tx, k);
  }

  lemma CallThatSucceeds(
      c: Codec, gen: Option<Key>, store: Accounts, m: Accounts, txs: seq<Transaction>, i: nat, k: Key)
    requires i < |txs| && ErrorAt(c, gen, store, m, txs, i).None?
    ensures var mem, mem' := MemoryAt(c, gen, store, m, txs, i), MemoryAt(c, gen, store, m, txs, i + 1);
            At(mem', k).nonce == if IsCallOf(c, txs[i], k) then BumpNonce(At(mem, k)).nonce else At(mem, k).nonce
  {
    StepThatSucceeds(c, gen, store, Run(c, gen, store, m, txs[..i]), txs[i], k);
    RunNext(c, gen, store, m, txs, i);
  }

  lemma NonceRisesInRun(
      c: Codec, gen: Option<Key>, store: Accounts, m: Accounts, txs: seq<Transaction>, i: nat, k: Key)
    requires i < |txs| && ErrorAt(c, gen, store, m, txs, i).None?
    requires HasRisen(m, MemoryAt(c, gen, store, m, txs, i), k, CallsOf(c, txs[..i], k))
    ensures HasRisen(m, MemoryAt(c, gen, store, m, txs, i + 1), k, CallsOf(c, txs[..i + 1], k))
  {
    CallThatSucceeds(c, gen, store, m, txs, i, k);
    NonceRises(c, m, MemoryAt(c, gen, store, m, txs, i), MemoryAt(c, gen, store, m, txs, i + 1), txs, i, k);
  }

  /** If no call fails for another reason, none fails for its nonce, and every
      sender's nonce rises by the number of its calls in the block. */
  lemma {:induction false} NonceSafe(
      c: Codec, gen: Option<Key>, store: Accounts, m: Accounts, txs: seq<Transaction>, i: nat, k: Key)
    requires SortedBy(txs, Nonce) && AllContiguous(c, txs, m) && i <= |txs|
    requires forall j :: 0 <= j < i ==> ErrorAt(c, gen, store, m, txs, j) in {None, Some(BadNonce)}
    ensures forall j :: 0 <= j < i ==> ErrorAt(c, gen, store, m, txs, j) == None
    ensures HasRisen(m, MemoryAt(c, gen, store, m, txs, i), k, CallsOf(c, txs[..i], k))
    decreases i
  {
    if i > 0 {
      NonceSafe(c, gen, store, m, txs, i - 1, k);
      NonceSafe(c, gen, store, m, txs, i - 1, txs[i - 1].innerData.publicKey);
      NoNonceError(c, gen, m, MemoryAt(c, gen, store, m, txs, i - 1), txs, i - 1);
      NonceRisesInRun(c, gen, store, m, txs, i - 1, k);
    }
  }

  /** Nonce-safe block cutting: from a pool in which every sender's calls start at
      its account's nonce and follow one another, whatever block is cut holds a
      nonce prefix of every sender; and if none of its transactions fails for
      another reason, none fails at all, and every sender's nonce rises by the
      number of its chosen calls. */
  lemma CutIsNonceSafe(
      c: Codec, gen: Option<Key>, store: Accounts, m: Accounts, all: seq<Transaction>, n: nat, k: Key)
    requires SortedBy(all, Nonce) && AllContiguous(c, all, m) && n <= |all|
    requires forall j :: 0 <= j < n ==> ErrorAt(c, gen, store, m, all, j) in {None, Some(BadNonce)}
    ensures Contiguous(c, all[..n], k, At(m, k).nonce)
    ensures forall j :: 0 <= j < n ==> ErrorAt(c, gen, store, m, all, j) == None
    ensures HasRisen(m, Run(c, gen, store, m, all[..n]).mem, k, CallsOf(c, all[..n], k))
  {
    PrefixContiguous(c, all, n, k, At(m, k).nonce);
    NonceSafe(c, gen, store, m, all, n, k);
  }

  // ----- from the pool itself -----

  ghost predicate IsPooledCall(c: Codec, pool: Pool, k: Key, d: Digest) {
    d in pool && IsCallOf(c, pool[d], k)
  }

  ghost predicate HasPooledCall(c: Codec, pool: Pool, k: Key, nonce: int) {
    exists d :: IsPooledCall(c, pool, k, d) && Nonce(pool[d]) == nonce
  }

  /** `k`'s pooled calls start at nonce `a`, skip none, and repeat none. */
  ghost predicate PooledFrom(c: Codec, pool: Pool, k: Key, a: nat) {
    && (forall d :: IsPooledCall(c, pool, k, d) ==> a <= Nonce(pool[d]))
    && (forall d, e :: IsPooledCall(c, pool, k, d) && IsPooledCall(c, pool, k, e) && d != e ==>
          Nonce(pool[d]) != Nonce(pool[e]))
    && (forall d :: IsPooledCall(c, pool, k, d) && a < Nonce(pool[d]) ==>
          HasPooledCall(c, pool, k, Nonce(pool[d]) - 1))
  }

  lemma ListedContiguous(c: Codec, pool: Pool, all: seq<Transaction>, k: Key, a: nat)
    requires Keyed(pool) && Lists(pool, all) && PooledFrom(c, pool, k, a)
    ensures Contiguous(c, all, k, a)
  {
    forall i | 0 <= i < |all| && IsCallOf(c, all[i], k)
      ensures IsPooledCall(c, pool, k, all[i].hash) && pool[all[i].hash] == all[i]
    {
      assert all[i] in all;
    }
    forall i {:trigger all[i]} | 0 <= i < |all| && IsCallOf(c, all[i], k) && a < Nonce(all[i])
      ensures HasCall(c, all, k, Nonce(all[i]) - 1)
    {
      var tx := all[i];
      assert IsPooledCall(c, pool, k, tx.hash);
      assert HasPooledCall(c, pool, k, Nonce(tx) - 1);
      var d :| IsPooledCall(c, pool, k, d) && Nonce(pool[d]) == Nonce(tx) - 1;
      assert pool[d] in all;
    }
  }

  lemma ErrorInPrefix(
      c: Codec, gen: Option<Key>, store: Accounts, m: Accounts, all: seq<Transaction>, n: nat, j: nat)
    requires j < n <= |all|
    ensures ErrorAt(c, gen, store, m, all[..n], j) == ErrorAt(c, gen, store, m, all, j)
  {
    assert all[..n][..j] == all[..j];
  }

  /** The same for whatever GetTxsForBlock may cut from a pool. */
  lemma BlockCutIsNonceSafe(
      c: Codec, gen: Option<Key>, store: Accounts, m: Accounts, pool: Pool, txs: seq<Transaction>, k: Key)
    requires Keyed(pool) && IsCut(pool, txs)
    requires forall j {:trigger At(m, j)} :: PooledFrom(c, pool, j, At(m, j).nonce)
    requires forall j :: 0 <= j < |txs| ==> ErrorAt(c, gen, store, m, txs, j) in {None, Some(BadNonce)}
    ensures forall j :: 0 <= j < |txs| ==> ErrorAt(c, gen, store, m, txs, j) == None
    ensures HasRisen(m, Run(c, gen, store, m, txs).mem, k, CallsOf(c, txs, k))
  {
    var all :| Lists(pool, all) && SortedBy(all, Nonce) && txs <= all;
    var n := |txs|;
    assert txs == all[..n];
    forall j
      ensures Contiguous(c, all, j, At(m, j).nonce)
    {
      ListedContiguous(c, pool, all, j, At(m, j).nonce);
    }
    forall j | 0 <= j < n
      ensures ErrorAt(c, gen, store, m, all, j) == ErrorAt(c, gen, store, m, txs, j)
    {
      ErrorInPrefix(c, gen, store, m, all, n, j);
    }
    CutIsNonceSafe(c, gen, store, m, all, n, k);
  }
}
