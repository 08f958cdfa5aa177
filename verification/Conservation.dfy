/** What a block does to the sum of all balances, and why the unsigned
    arithmetic of accounts never wraps. */
module Conservation {
  import opened Common
  import opened Records
  import opened Ledger

  ghost function Total(m: Accounts): nat {
    if m == map[] then 0
    else
      var k :| k in m;
      m[k].balance + Total(m - {k})
  }

  lemma {:induction false} TotalRemove(m: Accounts, k: Key)
    requires k in m
    ensures Total(m) == m[k].balance + Total(m - {k})
  {
    var j :| j in m && Total(m) == m[j].balance + Total(m - {j});
    if j != k {
      TotalRemove(m - {j}, k);
      TotalRemove(m - {k}, j);
      assert m - {j} - {k} == m - {k} - {j};
    }
  }

  lemma TotalPut(m: Accounts, k: Key, a: Account)
    ensures Total(m[k := a]) == Total(m) - At(m, k).balance + a.balance
  {
    var r := m[k := a];
    TotalRemove(r, k);
    if k in m {
      TotalRemove(m, k);
      assert r - {k} == m - {k};
    } else {
      assert r - {k} == m;
    }
  }

  /** The total reads absent accounts as empty ones. */
  lemma {:induction false} TotalOfAgreeing(m: Accounts, n: Accounts)
    requires Agree(m, n)
    ensures Total(m) == Total(n)
    decreases |m| + |n|
  {
    if k :| k in m {
      TotalDrop(m, n, k);
    } else if k :| k in n {
      TotalDrop(n, m, k);
    }
  }

  lemma {:induction false} TotalDrop(m: Accounts, n: Accounts, k: Key)
    requires Agree(m, n) && k in m
    ensures Total(m) == Total(n)
    decreases |m| + |n|, 0
  {
    var m', n' := m - {k}, n - {k};
    TotalRemove(m, k);
    assert At(m, k) == At(n, k);
    forall j
      ensures At(m', j) == At(n', j)
    {
      assert At(m, j) == At(n, j);
    }
    assert |m'| < |m|;
    if k in n {
      TotalRemove(n, k);
      assert |n'| < |n|;
    } else {
      assert n' == n;
    }
    TotalOfAgreeing(m', n');
  }

  // ----- one call -----

  /** No balance exceeds what the faucet started with. */
  ghost predicate Bounded(m: Accounts) {
    forall k :: k in m ==> m[k].balance <= GENERATOR_BALANCE
  }

  lemma BoundedRoom(a: Account)
    requires a.balance <= GENERATOR_BALANCE
    ensures Room(a) == GENERATOR_BALANCE - a.balance
  {
  }

  lemma BoundedPut(m: Accounts, k: Key, a: Account)
    requires Bounded(m) && a.balance <= GENERATOR_BALANCE
    ensures Bounded(m[k := a])
  {
  }

  /** Moving an amount between two entries keeps the total, also when they are
      one entry. */
  lemma MoveKeepsTotal(m: Accounts, from: Key, to: Key, amount: nat, payer: Account, receiver: Account, paid: Account)
    requires from in m && payer.balance == m[from].balance - amount
    requires receiver.balance == At(m[from := payer], to).balance && paid.balance == receiver.balance + amount
    ensures Total(m[from := payer][to := paid]) == Total(m)
  {
    TotalPut(m, from, payer);
    TotalPut(m[from := payer], to, paid);
  }

  /** Subtracting and adding moves money without making any, also when payer and
      receiver are the same account. */
  lemma PayConserves(m: Accounts, from: Key, to: Key, amount: uint64, newcomer: Account)
    requires from in m && Bounded(m) && (to !in m ==> newcomer.balance == 0)
    ensures var o := Pay(m, from, to, amount, newcomer);
            && Bounded(o.mem)
            && (o.error.None? ==> Total(o.mem) == Total(m))
  {
    if amount <= m[from].balance {
      var payer := m[from].(balance := m[from].balance - amount);
      var m1 := m[from := payer];
      BoundedPut(m, from, payer);
      var receiver := if to in m1 then m1[to] else newcomer;
      BoundedRoom(receiver);
      if amount <= Room(receiver) {
        var paid := Credit(receiver, amount);
        assert paid.balance == receiver.balance + amount;
        MoveKeepsTotal(m, from, to, amount, payer, receiver, paid);
        BoundedPut(m1, to, paid);
      }
    }
  }

  lemma BumpKeepsTotal(m: Accounts, k: Key)
    requires k in m
    ensures Total(m[k := BumpNonce(m[k])]) == Total(m)
  {
    TotalPut(m, k, BumpNonce(m[k]));
  }

  lemma AirdropConserves(m: Accounts, gen: Key, to: Key, nonce: uint64, amount: uint64)
    requires Bounded(m)
    ensures var o := ApplyAirdrop(m, gen, to, nonce, amount);
            && Bounded(o.mem)
            && (o.error.None? ==> Total(o.mem) == Total(m))
  {
    if gen in m && At(m, to).nonce == nonce {
      var bumped := BumpNonce(At(m, to));
      if to in m {
        BumpKeepsTotal(m, to);
        PayConserves(m[to := bumped], gen, to, amount, bumped);
      } else {
        PayConserves(m, gen, to, amount, bumped);
      }
    }
  }

  lemma TransferConserves(m: Accounts, from: Key, nonce: uint64, to: Key, amount: uint64)
    requires Bounded(m)
    ensures var o := ApplyTransfer(m, from, nonce, to, amount);
            && Bounded(o.mem)
            && (o.error.None? ==> Total(o.mem) == Total(m))
  {
    if from in m && m[from].nonce == nonce {
      BumpKeepsTotal(m, from);
      PayConserves(m[from := BumpNonce(m[from])], from, to, amount, NEW_ACCOUNT);
    }
  }

  /** A successful call keeps the total; every call keeps balances bounded, so
      the subtraction inside `Add` does not wrap. */
  lemma AttemptConserves(c: Codec, gen: Option<Key>, m: Accounts, tx: Transaction)
    requires Bounded(m)
    ensures var o := Attempt(c, gen, m, tx);
            && Bounded(o.mem)
            && (o.error.None? ==> Total(o.mem) == Total(m))
  {
    var caller, nonce := tx.innerData.publicKey, tx.innerData.nonce;
    match Classify(c, tx.innerData.data)
    case Skip =>
    case Airdrop(amount) =>
      if gen.Some? {
        AirdropConserves(m, gen.value, caller, nonce, amount);
      }
    case Transfer(amount, to) => TransferConserves(m, caller, nonce, to, amount);
  }

  lemma TwoWithinTotal(m: Accounts, j: Key, k: Key)
    requires j != k
    ensures At(m, j).balance + At(m, k).balance <= Total(m)
  {
    if j in m {
      TotalRemove(m, j);
    }
    if k in m {
      TotalRemove(m - {j}, k);
      assert j !in m ==> m - {j} == m;
    }
  }

  lemma PayNeverOverflows(m: Accounts, from: Key, to: Key, amount: uint64, newcomer: Account)
    requires from in m && Bounded(m) && (to !in m ==> newcomer.balance == 0) && Total(m) <= GENERATOR_BALANCE
    ensures Pay(m, from, to, amount, newcomer).error != Some(Overflow)
  {
    if amount <= m[from].balance {
      var m1 := m[from := m[from].(balance := m[from].balance - amount)];
      var receiver := if to in m1 then m1[to] else newcomer;
      if from != to {
        TwoWithinTotal(m, from, to);
      }
      BoundedRoom(receiver);
    }
  }

  /** While memory holds no more than the initial supply, "overflow" after a
      successful subtraction cannot happen. */
  lemma OverflowUnreachable(c: Codec, gen: Option<Key>, m: Accounts, tx: Transaction)
    requires Bounded(m) && Total(m) <= GENERATOR_BALANCE
    ensures Attempt(c, gen, m, tx).error != Some(Overflow)
  {
    var caller, nonce := tx.innerData.publicKey, tx.innerData.nonce;
    match Classify(c, tx.innerData.data)
    case Skip =>
    case Airdrop(amount) =>
      if gen.Some? && gen.value in m {
        var bumped := BumpNonce(At(m, caller));
        if caller in m {
          BumpKeepsTotal(m, caller);
          PayNeverOverflows(m[caller := bumped], gen.value, caller, amount, bumped);
        } else {
          PayNeverOverflows(m, gen.value, caller, amount, bumped);
        }
      }
    case Transfer(amount, to) =>
      if caller in m {
        BumpKeepsTotal(m, caller);
        PayNeverOverflows(m[caller := BumpNonce(m[caller])], caller, to, amount, NEW_ACCOUNT);
      }
  }

  // ----- whole blocks -----

  lemma {:induction false} RunBounded(
      c: Codec, gen: Option<Key>, store: Accounts, m: Accounts, txs: seq<Transaction>)
    requires Bounded(m) && Bounded(store)
    ensures Bounded(Run(c, gen, store, m, txs).mem)
  {
    if txs != [] {
      var n := |txs| - 1;
      RunBounded(c, gen, store, m, txs[..n]);
      AttemptConserves(c, gen, Run(c, gen, store, m, txs[..n]).mem, txs[n]);
    }
  }

  function Holding(m: Accounts, keys: seq<Key>): nat {
    if keys == [] then 0 else Holding(m, keys[..|keys| - 1]) + At(m, keys[|keys| - 1]).balance
  }

  /** Refetching keys replaces what memory held under them by what storage holds. */
  lemma {:induction false} TotalRefetch(m: Accounts, store: Accounts, keys: seq<Key>)
    requires NoDuplicates(keys)
    ensures Total(Refetch(m, store, keys)) == Total(m) - Holding(m, keys) + Holding(store, keys)
  {
    if keys == [] {
      assert Refetch(m, store, keys) == m;
    } else {
      var n := |keys| - 1;
      var k, rest := keys[n], keys[..n];
      TotalRefetch(m, store, rest);
      RefetchLast(m, store, keys);
      TotalPut(Refetch(m, store, rest), k, At(store, k));
      assert k !in rest;
    }
  }

  /** What one transaction adds to the total: nothing when it succeeds, and the
      difference between the stored and the current version of the accounts it
      touches when it fails. */
  function StepDrift(c: Codec, gen: Option<Key>, store: Accounts, m: Accounts, tx: Transaction): int {
    if Attempt(c, gen, m, tx).error.None? then 0
    else Holding(store, Touched(c, gen, tx)) - Holding(m, Touched(c, gen, tx))
  }

  function BlockDrift(c: Codec, gen: Option<Key>, store: Accounts, m: Accounts, txs: seq<Transaction>): int {
    if txs == [] then 0
    else
      var rest := txs[..|txs| - 1];
      BlockDrift(c, gen, store, m, rest)
      + StepDrift(c, gen, store, Run(c, gen, store, m, rest).mem, txs[|txs| - 1])
  }

  lemma StepTotal(c: Codec, gen: Option<Key>, store: Accounts, e: Execution, tx: Transaction)
    requires Bounded(e.mem)
    ensures Total(Step(c, gen, store, e, tx).mem) == Total(e.mem) + StepDrift(c, gen, store, e.mem, tx)
  {
    if Attempt(c, gen, e.mem, tx).error.None? {
      AttemptConserves(c, gen, e.mem, tx);
    } else {
      FailureUndone(c, gen, store, e, tx);
      TotalRefetch(e.mem, store, Touched(c, gen, tx));
    }
  }

  /** The exact account: a block changes the total by the drift of its failing
      transactions, and by nothing else. */
  lemma {:induction false} BlockTotal(
      c: Codec, gen: Option<Key>, store: Accounts, m: Accounts, txs: seq<Transaction>)
    requires Bounded(m) && Bounded(store)
    ensures Total(Run(c, gen, store, m, txs).mem) == Total(m) + BlockDrift(c, gen, store, m, txs)
  {
    if txs != [] {
      var n := |txs| - 1;
      BlockTotal(c, gen, store, m, txs[..n]);
      RunBounded(c, gen, store, m, txs[..n]);
      StepTotal(c, gen, store, Run(c, gen, store, m, txs[..n]), txs[n]);
    }
  }

  ghost predicate Apart(xs: seq<Key>, ys: seq<Key>) {
    forall k :: k in xs ==> k !in ys
  }

  /** No failing transaction touches an account that an earlier transaction of
      the block has successfully worked on. */
  ghost predicate FailuresApart(
      c: Codec, gen: Option<Key>, store: Accounts, m: Accounts, txs: seq<Transaction>)
  {
    txs == [] ||
    var n := |txs| - 1;
    var e := Run(c, gen, store, m, txs[..n]);
    && FailuresApart(c, gen, store, m, txs[..n])
    && (Attempt(c, gen, e.mem, txs[n]).error.Some? ==> Apart(Touched(c, gen, txs[n]), e.executed))
  }

  lemma {:induction false} HoldingOfAgreeing(m: Accounts, store: Accounts, keys: seq<Key>)
    requires forall k :: k in keys ==> At(m, k) == At(store, k)
    ensures Holding(m, keys) == Holding(store, keys)
  {
    if keys != [] {
      HoldingOfAgreeing(m, store, keys[..|keys| - 1]);
    }
  }

  lemma {:induction false} NoDriftWhenApart(
      c: Codec, gen: Option<Key>, store: Accounts, m: Accounts, txs: seq<Transaction>)
    requires Agree(m, store) && FailuresApart(c, gen, store, m, txs)
    ensures BlockDrift(c, gen, store, m, txs) == 0
  {
    if txs != [] {
      var n := |txs| - 1;
      var e := Run(c, gen, store, m, txs[..n]);
      NoDriftWhenApart(c, gen, store, m, txs[..n]);
      BoundaryAgreement(c, gen, store, m, txs[..n]);
      if Attempt(c, gen, e.mem, txs[n]).error.Some? {
        HoldingOfAgreeing(e.mem, store, Touched(c, gen, txs[n]));
      }
    }
  }

  /** From agreement, a block keeps the total exactly when the drifts of its
      failing transactions cancel, which they do when failures stay apart from
      the accounts already worked on; a rejected block always keeps it. */
  lemma BlockConserves(
      c: Codec, gen: Option<Key>, store: Accounts, m: Accounts, txs: seq<Transaction>)
    requires Agree(m, store) && Bounded(m) && Bounded(store)
    ensures var e := Run(c, gen, store, m, txs);
            && Total(m) == Total(store)
            && (Total(e.mem) == Total(m) <==> BlockDrift(c, gen, store, m, txs) == 0)
            && (FailuresApart(c, gen, store, m, txs) ==> Total(e.mem) == Total(m))
            && Total(Rejected(store, e)) == Total(store)
            && Total(Committed(c, gen, store, m, txs)) == Total(e.mem)
  {
    var e := Run(c, gen, store, m, txs);
    BlockTotal(c, gen, store, m, txs);
    FinalityAgreement(c, gen, store, m, txs);
    TotalOfAgreeing(m, store);
    TotalOfAgreeing(Rejected(store, e), store);
    TotalOfAgreeing(e.mem, Committed(c, gen, store, m, txs));
    if FailuresApart(c, gen, store, m, txs) {
      NoDriftWhenApart(c, gen, store, m, txs);
    }
  }

  lemma TransferOfTen(c: Codec, a: Key, b: Key, pay: Transaction)
    requires a != b
    requires pay.innerData.publicKey == a && pay.innerData.nonce == 0
    requires Classify(c, pay.innerData.data) == Transfer(10, b)
    ensures Attempt(c, None, map[a := Account(0, 10), b := Account(0, 0)], pay)
            == Outcome(None, map[a := Account(1, 0), b := Account(0, 10)])
  {
    var m: Accounts := map[a := Account(0, 10), b := Account(0, 0)];
    var m1 := m[a := Account(1, 10)];
    assert BumpNonce(m[a]) == Account(1, 10);
    var o := Pay(m1, a, b, 10, NEW_ACCOUNT);
    assert o.mem == map[a := Account(1, 0), b := Account(0, 10)];
  }

  lemma FirstPayment(c: Codec, a: Key, b: Key, pay: Transaction) returns (e: Execution)
    requires a != b
    requires pay.innerData.publicKey == a && pay.innerData.nonce == 0
    requires Classify(c, pay.innerData.data) == Transfer(10, b)
    ensures var m := map[a := Account(0, 10), b := Account(0, 0)];
            && e == Run(c, None, m, m, [pay]) && Total(e.mem) == Total(m)
            && e.mem == map[a := Account(1, 0), b := Account(0, 10)]
  {
    var m: Accounts := map[a := Account(0, 10), b := Account(0, 0)];
    e := Run(c, None, m, m, [] + [pay]);
    assert [] + [pay] == [pay];
    TransferOfTen(c, a, b, pay);
    RunAppend(c, None, m, m, [], pay);
    StepTotal(c, None, m, Execution(m, []), pay);
  }

  /** The hypothesis is needed. A transfer of 10 from `a` to `b`, then a
      transaction of `a` that fails: `a` is refetched from storage with its 10
      back, `b` keeps the 10 it was paid. The total grows by 10. */
  lemma FailureCanMint(c: Codec, a: Key, b: Key, pay: Transaction, bad: Transaction)
    requires a != b
    requires pay.innerData.publicKey == a && pay.innerData.nonce == 0
    requires Classify(c, pay.innerData.data) == Transfer(10, b)
    requires bad.innerData.publicKey == a && bad.innerData.nonce == 0
    requires Classify(c, bad.innerData.data) == Transfer(10, a)
    ensures var m := map[a := Account(0, 10), b := Account(0, 0)];
            Total(Run(c, None, m, m, [pay, bad]).mem) == Total(m) + 10
  {
    var m: Accounts := map[a := Account(0, 10), b := Account(0, 0)];
    var e := FirstPayment(c, a, b, pay);
    RunAppend(c, None, m, m, [pay], bad);
    assert [pay] + [bad] == [pay, bad];
    StepTotal(c, None, m, e, bad);
    SelfTransferTouches(c, a, bad);
  }

  lemma SelfTransferTouches(c: Codec, a: Key, tx: Transaction)
    requires tx.innerData.publicKey == a
    requires Classify(c, tx.innerData.data) == Transfer(10, a)
    ensures forall m :: Holding(m, Touched(c, None, tx)) == At(m, a).balance
  {
    var keys := Touched(c, None, tx);
    assert |keys| == 1 && keys[0] == a && keys[..0] == [];
  }
}
