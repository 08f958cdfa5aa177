/** What a call does, seen from outside: which calls run, exactly when a payment
    succeeds and what it moves, and which accounts a block hands to finality. */
module Calls {
  import opened Common
  import opened Records
  import opened Ledger
  import opened Conservation

  // ----- which calls run -----

  /** A call runs as an airdrop or a transfer if and only if it decodes, its kind
      says so, its parameters decode, and its amount is above zero and below the
      initial supply; everything else is passed over. */
  lemma CallsThatRun(c: Codec, data: Bytes, amount: uint64, to: Key)
    ensures Classify(c, data) == Airdrop(amount) <==>
            exists params ::
              && c.decodeCall(data) == Some(Call(1, params)) && c.decodeAirdrop(params) == Some(amount)
              && amount != 0 && amount < 10_000_000_000_000_000_000
    ensures Classify(c, data) == Transfer(amount, to) <==>
            exists params ::
              && c.decodeCall(data) == Some(Call(2, params))
              && c.decodeTransfer(params) == Some(TransferParam(amount, to))
              && amount != 0 && amount < 10_000_000_000_000_000_000
  {
    if c.decodeCall(data).Some? {
      var call := c.decodeCall(data).value;
      assert call == Call(call.kind, call.params);
      if call.kind == 2 && c.decodeTransfer(call.params).Some? {
        var p := c.decodeTransfer(call.params).value;
        assert p == TransferParam(p.amount, p.to);
      }
    }
  }

  // ----- payments -----

  /** Everybody but these two stands as before. */
  ghost predicate OthersStand(m: Accounts, m': Accounts, j: Key, k: Key) {
    forall i :: i != j && i != k ==> (i in m' <==> i in m) && (i in m ==> m'[i] == m[i])
  }

  /** The payer has the amount, and the receiver room for it below the initial
      supply. A payment to oneself needs no room. */
  ghost predicate CanMove(m: Accounts, payer: Key, receiver: Key, amount: uint64) {
    && payer in m && amount <= m[payer].balance
    && (payer != receiver ==> At(m, receiver).balance + amount <= GENERATOR_BALANCE)
  }

  /** What a payment on behalf of `caller` leaves: the amount has moved, which
      shows only between two accounts, the caller's nonce is one up, and nothing
      else has changed. */
  ghost predicate HasMoved(m: Accounts, m': Accounts, payer: Key, receiver: Key, amount: uint64, caller: Key) {
    && payer in m && payer in m' && receiver in m'
    && m'[payer].balance == m[payer].balance - (if payer == receiver then 0 else amount)
    && (payer != receiver ==> m'[receiver].balance == At(m, receiver).balance + amount)
    && m'[payer].nonce == (m[payer].nonce + if payer == caller then 1 else 0) % TWO64
    && m'[receiver].nonce == (At(m, receiver).nonce + if receiver == caller then 1 else 0) % TWO64
    && OthersStand(m, m', payer, receiver)
  }

  lemma PaymentExactly(m: Accounts, from: Key, to: Key, amount: uint64, newcomer: Account)
    requires Bounded(m) && from in m && (to in m || newcomer.balance == 0)
    ensures var o, had := Pay(m, from, to, amount, newcomer), if to in m then m[to] else newcomer;
            && (o.error.None? <==> CanMove(m, from, to, amount))
            && (o.error.None? ==>
                  && from in o.mem && to in o.mem && OthersStand(m, o.mem, from, to)
                  && o.mem[from] == (if from == to then m[from] else m[from].(balance := m[from].balance - amount))
                  && (from != to ==> o.mem[to] == had.(balance := had.balance + amount)))
  {
    if amount <= m[from].balance {
      var m1 := m[from := m[from].(balance := m[from].balance - amount)];
      BoundedRoom(if to in m1 then m1[to] else newcomer);
    }
  }

  /** A transfer succeeds if and only if the caller is in memory and the call
      carries its nonce, the receiver is in memory too, the caller has the amount
      and the receiver has room for it. It moves exactly that amount from the
      caller to the receiver. */
  lemma TransferExactly(c: Codec, gen: Option<Key>, m: Accounts, tx: Transaction, amount: uint64, to: Key)
    requires Bounded(m) && Classify(c, tx.innerData.data) == Transfer(amount, to)
    ensures var caller, o := tx.innerData.publicKey, Attempt(c, gen, m, tx);
            && (o.error.None? <==>
                  && caller in m && m[caller].nonce == tx.innerData.nonce && to in m
                  && CanMove(m, caller, to, amount))
            && (o.error.None? ==> HasMoved(m, o.mem, caller, to, amount, caller))
  {
    hide Pay;
    var caller := tx.innerData.publicKey;
    if caller in m {
      var m1 := m[caller := BumpNonce(m[caller])];
      BoundedPut(m, caller, BumpNonce(m[caller]));
      PaymentExactly(m1, caller, to, amount, NEW_ACCOUNT);
    }
  }

  /** An airdrop succeeds if and only if there is a faucet and it is in memory, the
      call carries its caller's nonce, which is zero for an account that memory does
      not hold, the faucet has the amount and the caller has room for it. It moves
      exactly that amount from the faucet to the caller. */
  lemma AirdropExactly(c: Codec, gen: Option<Key>, m: Accounts, tx: Transaction, amount: uint64)
    requires Bounded(m) && Classify(c, tx.innerData.data) == Airdrop(amount)
    ensures var caller, o := tx.innerData.publicKey, Attempt(c, gen, m, tx);
            && (o.error.None? <==>
                  && gen.Some? && At(m, caller).nonce == tx.innerData.nonce
                  && CanMove(m, gen.value, caller, amount))
            && (o.error.None? ==> HasMoved(m, o.mem, gen.value, caller, amount, caller))
  {
    hide Pay;
    var caller := tx.innerData.publicKey;
    if gen.Some? && gen.value in m {
      var bumped := BumpNonce(At(m, caller));
      var m1 := if caller in m then m[caller := bumped] else m;
      if caller in m {
        BoundedPut(m, caller, bumped);
      }
      PaymentExactly(m1, gen.value, caller, amount, bumped);
    }
  }

  // ----- what a block hands to finality -----

  /** Call `i` has no error when the block runs, and touches `k`. */
  ghost predicate SucceedsOn(
      c: Codec, gen: Option<Key>, store: Accounts, m: Accounts, txs: seq<Transaction>, i: nat, k: Key)
    requires i < |txs|
  {
    ErrorAt(c, gen, store, m, txs, i).None? && k in Touched(c, gen, txs[i])
  }

  ghost predicate IsWorkedOn(
      c: Codec, gen: Option<Key>, store: Accounts, m: Accounts, txs: seq<Transaction>, k: Key)
  {
    exists i :: 0 <= i < |txs| && SucceedsOn(c, gen, store, m, txs, i, k)
  }

  lemma WorkedOnNext(c: Codec, gen: Option<Key>, store: Accounts, m: Accounts, txs: seq<Transaction>, k: Key)
    requires txs != []
    ensures var n := |txs| - 1;
            IsWorkedOn(c, gen, store, m, txs, k) <==>
            IsWorkedOn(c, gen, store, m, txs[..n], k) || SucceedsOn(c, gen, store, m, txs, n, k)
  {
    hide Attempt, Touched, Run;
    var n := |txs| - 1;
    forall i | 0 <= i < n
      ensures SucceedsOn(c, gen, store, m, txs[..n], i, k) <==> SucceedsOn(c, gen, store, m, txs, i, k)
    {
      assert txs[..n][..i] == txs[..i];
    }
  }

  /** The keys handed to finality are those of the calls that had no error, each
      once: what a failing call touched is not among them unless another call put
      it there. */
  lemma {:induction false} ExecutedExactly(
      c: Codec, gen: Option<Key>, store: Accounts, m: Accounts, txs: seq<Transaction>, k: Key)
    ensures NoDuplicates(Run(c, gen, store, m, txs).executed)
    ensures k in Run(c, gen, store, m, txs).executed <==> IsWorkedOn(c, gen, store, m, txs, k)
  {
    if txs != [] {
      hide Attempt, Touched, Refetch, IsWorkedOn, NoDuplicates;
      var n := |txs| - 1;
      var e := Run(c, gen, store, m, txs[..n]);
      ExecutedExactly(c, gen, store, m, txs[..n], k);
      WorkedOnNext(c, gen, store, m, txs, k);
      AddKeysOnce(e.executed, Touched(c, gen, txs[n]));
      AddKeysMembers(e.executed, Touched(c, gen, txs[n]));
    }
  }

  lemma {:induction false} AddKeysOnce(keys: seq<Key>, more: seq<Key>)
    requires NoDuplicates(keys)
    ensures NoDuplicates(AddKeys(keys, more))
  {
    if more != [] {
      AddKeysOnce(keys, more[..|more| - 1]);
    }
  }

  /** So storage takes memory's version of those accounts and of no others. */
  lemma CommittedExactly(
      c: Codec, gen: Option<Key>, store: Accounts, m: Accounts, txs: seq<Transaction>, k: Key)
    ensures var after := Committed(c, gen, store, m, txs);
            var mine := IsWorkedOn(c, gen, store, m, txs, k);
            && (mine ==> k in after && after[k] == At(Run(c, gen, store, m, txs).mem, k))
            && (!mine ==> (k in after <==> k in store) && At(after, k) == At(store, k))
  {
    hide Run, IsWorkedOn;
    ExecutedExactly(c, gen, store, m, txs, k);
    ExecutedInMemory(c, gen, store, m, txs);
  }
}
