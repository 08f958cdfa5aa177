/** executers/executer.go on the heap: calls mutate the account objects that
    memory files, failed calls are undone from storage. */
module Executers {
  import opened Common
  import opened Records
  import opened Ledger
  import opened AccountObjects
  import opened MemoryDbs
  import opened Storage

  /** publicKeys: an ordered collection without repetition. */
  class PublicKeys {
    var keys: seq<Key>

    constructor ()
      ensures keys == []
    {
      keys := [];
    }

    method Add(k: Key)
      modifies this
      ensures keys == AddKey(old(keys), k)
    {
      if k !in keys {
        keys := keys + [k];
      }
    }

    method AddBoth(j: Key, k: Key)
      modifies this
      ensures keys == AddKeys(old(keys), AddKey([j], k))
    {
      AddTwoKeys(keys, j, k);
      Add(j);
      Add(k);
    }
  }

  /** A call's accounts are recorded as executed if it succeeded, as dirty if not. */
  ghost predicate Recorded(
      error: Option<Failure>, touched: seq<Key>, before: seq<Key>, executed: seq<Key>, dirty: seq<Key>)
  {
    if error.None? then executed == AddKeys(before, touched) else executed == before && dirty == touched
  }

  ghost function PartlyMarked(c: Codec, txs: seq<Transaction>, i: nat): seq<Transaction>
    requires i <= |txs|
  {
    MarkAll(c, txs)[..i] + txs[i..]
  }

  lemma PartlyMarkedNext(c: Codec, txs: seq<Transaction>, i: nat)
    requires i < |txs|
    ensures PartlyMarked(c, txs, i)[i] == txs[i]
    ensures PartlyMarked(c, txs, i + 1) == PartlyMarked(c, txs, i)[i := Mark(c, txs[i])]
    ensures PartlyMarked(c, txs, 0) == txs && PartlyMarked(c, txs, |txs|) == MarkAll(c, txs)
  {
  }

  /** The three ways a payment can end, in terms of memory after each step. */
  lemma PayCases(m: Accounts, from: Key, to: Key, amount: uint64, newcomer: Account)
    requires from in m
    ensures amount > m[from].balance ==> Ledger.Pay(m, from, to, amount, newcomer) == Outcome(Some(NotEnough), m)
    ensures amount <= m[from].balance ==>
              var m1 := m[from := m[from].(balance := m[from].balance - amount)];
              var receiver := if to in m1 then m1[to] else newcomer;
              Ledger.Pay(m, from, to, amount, newcomer) ==
              if amount > Room(receiver) then Outcome(Some(Overflow), m1)
              else Outcome(None, m1[to := Credit(receiver, amount)])
  {
  }

  class Executer {
    const c: Codec
    const memory: MemoryDb
    const storage: StorageService
    var generator: Option<Key>

    constructor (c: Codec, memory: MemoryDb, storage: StorageService)
      ensures this.c == c && this.memory == memory && this.storage == storage && generator == None
    {
      this.c, this.memory, this.storage, generator := c, memory, storage, None;
    }

    ghost predicate Valid()
      reads memory, storage.accounts
    {
      memory.Valid() && storage.Valid() && storage.c == c
    }

    /** Subtract, Add, then both objects are put back: the common tail of the two
        calls. `from` and `to` may be one object. */
    method Pay(from: Key, fromState: AccountState, to: Key, toState: AccountState, amount: uint64)
      returns (error: Option<Failure>)
      requires memory.Valid() && from in memory.dbMap && memory.dbMap[from] == fromState
      requires if to in memory.dbMap then memory.dbMap[to] == toState else toState !in memory.Repr
      modifies memory, memory.Repr, toState
      ensures memory.Valid() && memory.Repr == old(memory.Repr) + (if error.None? then {toState} else {})
      ensures Outcome(error, memory.Contents()) ==
              Ledger.Pay(old(memory.Contents()), from, to, amount, old(toState.Value()))
    {
      hide Room;
      hide Ledger.Pay, Room, Credit;
      ghost var m, newcomer := memory.Contents(), toState.Value();
      PayCases(m, from, to, amount, newcomer);
      var enough := SubtractFrom(from, fromState, amount);
      if !enough {
        assert m[from := m[from]] == m;
        return Some(NotEnough);
      }
      assert toState.Value() == if to in memory.Contents() then memory.Contents()[to] else newcomer;
      error := CreditTo(from, fromState, to, toState, amount);
    }

    /** The receiver's half of a payment, and the puts. */
    method CreditTo(from: Key, fromState: AccountState, to: Key, toState: AccountState, amount: uint64)
      returns (error: Option<Failure>)
      requires memory.Valid() && from in memory.dbMap && memory.dbMap[from] == fromState
      requires if to in memory.dbMap then memory.dbMap[to] == toState else toState !in memory.Repr
      modifies memory, toState
      ensures memory.Valid() && memory.Repr == old(memory.Repr) + (if error.None? then {toState} else {})
      ensures Outcome(error, memory.Contents()) ==
              if amount > Room(old(toState.Value())) then Outcome(Some(Overflow), old(memory.Contents()))
              else Outcome(None, old(memory.Contents())[to := Credit(old(toState.Value()), amount)])
    {
      hide Room, Credit;
      ghost var m1 := memory.Contents();
      var fits := AddTo(to, toState, amount);
      if !fits {
        return Some(Overflow);
      }
      PutBoth(from, fromState, to, toState);
      assert memory.Contents() == m1[to := toState.Value()];
      error := None;
    }

    method SubtractFrom(from: Key, fromState: AccountState, amount: uint64) returns (ok: bool)
      requires memory.Valid() && from in memory.dbMap && memory.dbMap[from] == fromState
      modifies fromState
      ensures memory.Valid() && (ok <==> amount <= old(fromState.balance))
      ensures fromState.Value() ==
              if ok then old(fromState.Value()).(balance := old(fromState.balance) - amount) else old(fromState.Value())
      ensures memory.Contents() == old(memory.Contents())[from := fromState.Value()]
    {
      ok := fromState.Subtract(amount);
      memory.OneMutated(from);
    }

    method AddTo(to: Key, toState: AccountState, amount: uint64) returns (ok: bool)
      requires memory.Valid()
      requires if to in memory.dbMap then memory.dbMap[to] == toState else toState !in memory.Repr
      modifies toState
      ensures memory.Valid() && (ok <==> amount <= Room(old(toState.Value())))
      ensures toState.Value() == if ok then Credit(old(toState.Value()), amount) else old(toState.Value())
      ensures memory.Contents() ==
              if ok && to in memory.dbMap then old(memory.Contents())[to := toState.Value()]
              else old(memory.Contents())
    {
      ghost var m := memory.Contents();
      ok := toState.Add(amount);
      if to in memory.dbMap {
        memory.OneMutated(to);
        assert m[to := m[to]] == m;
      }
    }

    /** Both objects are put back under their keys; only the receiver's can be new. */
    method PutBoth(from: Key, fromState: AccountState, to: Key, toState: AccountState)
      requires memory.Valid() && from in memory.dbMap && memory.dbMap[from] == fromState
      requires if to in memory.dbMap then memory.dbMap[to] == toState else toState !in memory.Repr
      modifies memory
      ensures memory.Valid() && memory.Repr == old(memory.Repr) + {toState}
      ensures memory.Contents() == old(memory.Contents())[to := toState.Value()]
    {
      ghost var m := memory.Contents();
      memory.Put(from, fromState);
      assert m[from := m[from]] == m;
      memory.Put(to, toState);
    }

    method AirdropImpl(to: Key, nonce: uint64, from: Key, amount: uint64) returns (error: Option<Failure>)
      requires memory.Valid()
      modifies memory, memory.Repr
      ensures memory.Valid() && fresh(memory.Repr - old(memory.Repr))
      ensures Outcome(error, memory.Contents()) ==
              ApplyAirdrop(old(memory.Contents()), from, to, nonce, amount)
    {
      hide Room, Credit;
      var fromState, known := memory.Get(from);
      if !known {
        return Some(UnknownAccount);
      }
      var toState, present := memory.Get(to);
      label Found:
      var expected := toState.CheckNonce(nonce);
      if present {
        memory.OneMutated@Found(to);
      }
      if !expected {
        return Some(BadNonce);
      }
      error := Pay(from, fromState, to, toState, amount);
    }

    method TransferImpl(from: Key, nonce: uint64, to: Key, amount: uint64) returns (error: Option<Failure>)
      requires memory.Valid()
      modifies memory, memory.Repr
      ensures memory.Valid() && fresh(memory.Repr - old(memory.Repr))
      ensures Outcome(error, memory.Contents()) ==
              ApplyTransfer(old(memory.Contents()), from, nonce, to, amount)
    {
      hide Room, Credit;
      var fromState, known := memory.Get(from);
      if !known {
        return Some(UnknownAccount);
      }
      var expected := fromState.CheckNonce(nonce);
      memory.OneMutated(from);
      if !expected {
        return Some(BadNonce);
      }
      var toState, present := memory.Get(to);
      if !present {
        return Some(UnknownAccount);
      }
      error := Pay(from, fromState, to, toState, amount);
    }

    /** executeAirdrop and executeTransfer: run the call and record its accounts. */
    method ExecuteAirdrop(amount: uint64, caller: Key, nonce: uint64, executed: PublicKeys, dirty: PublicKeys)
      returns (error: Option<Failure>)
      requires memory.Valid() && executed != dirty && dirty.keys == []
      modifies memory, memory.Repr, executed, dirty
      ensures memory.Valid() && fresh(memory.Repr - old(memory.Repr))
      ensures Outcome(error, memory.Contents()) ==
              if generator.None? then Outcome(Some(NoGenerator), old(memory.Contents()))
              else ApplyAirdrop(old(memory.Contents()), generator.value, caller, nonce, amount)
      ensures var touched := if generator.None? then [] else AddKey([caller], generator.value);
              Recorded(error, touched, old(executed.keys), executed.keys, dirty.keys)
    {
      if generator.None? {
        return Some(NoGenerator);
      }
      error := AirdropImpl(caller, nonce, generator.value, amount);
      Record(error, caller, generator.value, executed, dirty);
    }

    method ExecuteTransfer(amount: uint64, to: Key, caller: Key, nonce: uint64, executed: PublicKeys, dirty: PublicKeys)
      returns (error: Option<Failure>)
      requires memory.Valid() && executed != dirty && dirty.keys == []
      modifies memory, memory.Repr, executed, dirty
      ensures memory.Valid() && fresh(memory.Repr - old(memory.Repr))
      ensures Outcome(error, memory.Contents()) ==
              ApplyTransfer(old(memory.Contents()), caller, nonce, to, amount)
      ensures Recorded(error, AddKey([caller], to), old(executed.keys), executed.keys, dirty.keys)
    {
      error := TransferImpl(caller, nonce, to, amount);
      Record(error, caller, to, executed, dirty);
    }

    method Record(error: Option<Failure>, j: Key, k: Key, executed: PublicKeys, dirty: PublicKeys)
      requires memory.Valid() && executed != dirty && dirty.keys == []
      modifies executed, dirty
      ensures memory.Valid() && memory.Contents() == old(memory.Contents())
      ensures Recorded(error, AddKey([j], k), old(executed.keys), executed.keys, dirty.keys)
    {
      if error.Some? {
        AddKeysToNone(AddKey([j], k));
        dirty.AddBoth(j, k);
      } else {
        executed.AddBoth(j, k);
      }
    }

    method Revert(dirty: PublicKeys)
      requires Valid()
      modifies memory
      ensures Valid() && fresh(memory.Repr - old(memory.Repr))
      ensures memory.Contents() == Refetch(old(memory.Contents()), storage.Accounts(), dirty.keys)
    {
      storage.FetchAccounts(memory, dirty.keys);
    }

    /** The call of one transaction, and its revert if it failed. */
    method ExecuteCall(tx: Transaction, executed: PublicKeys)
      requires Valid()
      modifies memory, memory.Repr, executed
      ensures Valid() && fresh(memory.Repr - old(memory.Repr))
      ensures storage.Accounts() == old(storage.Accounts())
      ensures Execution(memory.Contents(), executed.keys) ==
              Step(c, generator, storage.Accounts(), Execution(old(memory.Contents()), old(executed.keys)), tx)
    {
      hide ApplyAirdrop, ApplyTransfer, Refetch;
      ghost var store := storage.Accounts();
      var dirty := new PublicKeys();
      var caller, nonce := tx.innerData.publicKey, tx.innerData.nonce;
      var error;
      ghost var m, before := memory.Contents(), executed.keys;
      ghost var o, touched := Attempt(c, generator, m, tx), Touched(c, generator, tx);
      match Classify(c, tx.innerData.data) {
        case Skip =>
          return;
        case Airdrop(amount) =>
          error := ExecuteAirdrop(amount, caller, nonce, executed, dirty);
        case Transfer(amount, to) =>
          error := ExecuteTransfer(amount, to, caller, nonce, executed, dirty);
      }
      assert Outcome(error, memory.Contents()) == o;
      assert Recorded(error, touched, before, executed.keys, dirty.keys);
      if error.Some? {
        Revert(dirty);
      }
    }

    /** One turn of the loop. */
    method ExecuteAt(transactions: array<Transaction>, i: nat, executed: PublicKeys)
      requires Valid() && i < transactions.Length
      modifies memory, memory.Repr, executed, transactions
      ensures Valid() && fresh(memory.Repr - old(memory.Repr))
      ensures storage.Accounts() == old(storage.Accounts())
      ensures Execution(memory.Contents(), executed.keys) ==
              Step(c, generator, storage.Accounts(),
                   Execution(old(memory.Contents()), old(executed.keys)), old(transactions[i]))
      ensures transactions[..] == old(transactions[..])[i := Mark(c, old(transactions[i]))]
    {
      ghost var txs := transactions[..];
      var tx := transactions[i];
      ExecuteCall(tx, executed);
      assert transactions[..] == txs;
      if !Classify(c, tx.innerData.data).Skip? {
        // A failed call is marked false first, and then true like any other.
        transactions[i] := tx.(status := true);
      }
    }

    /** The block's first i calls have run. */
    ghost predicate PartWay(
        transactions: array<Transaction>, executed: PublicKeys,
        store: Accounts, m: Accounts, txs: seq<Transaction>, i: nat)
      reads this, memory, memory.Repr, storage.accounts, transactions, executed
    {
      && Valid() && storage.Accounts() == store && i <= |txs|
      && Execution(memory.Contents(), executed.keys) == Run(c, generator, store, m, txs[..i])
      && transactions[..] == PartlyMarked(c, txs, i)
    }

    method ExecuteNext(
        transactions: array<Transaction>, i: nat, executed: PublicKeys,
        ghost store: Accounts, ghost m: Accounts, ghost txs: seq<Transaction>)
      requires i < |txs| && PartWay(transactions, executed, store, m, txs, i)
      modifies memory, memory.Repr, executed, transactions
      ensures PartWay(transactions, executed, store, m, txs, i + 1)
      ensures fresh(memory.Repr - old(memory.Repr))
    {
      RunNext(c, generator, store, m, txs, i);
      PartlyMarkedNext(c, txs, i);
      ExecuteAt(transactions, i, executed);
    }

    /** Every call in order; the statuses are set in the caller's array. */
    method ExecuteNow(transactions: array<Transaction>) returns (executed: PublicKeys)
      requires Valid()
      modifies memory, memory.Repr, transactions
      ensures Valid() && fresh(memory.Repr - old(memory.Repr)) && fresh(executed)
      ensures storage.Accounts() == old(storage.Accounts())
      ensures Execution(memory.Contents(), executed.keys) ==
              Run(c, generator, storage.Accounts(), old(memory.Contents()), old(transactions[..]))
      ensures transactions[..] == MarkAll(c, old(transactions[..]))
    {
      ghost var m, store, txs := memory.Contents(), storage.Accounts(), transactions[..];
      executed := new PublicKeys();
      for i := 0 to transactions.Length
        invariant PartWay(transactions, executed, store, m, txs, i)
        invariant fresh(memory.Repr - old(memory.Repr))
      {
        ExecuteNext(transactions, i, executed, store, m, txs);
      }
      assert txs[..transactions.Length] == txs;
    }

    /** waitForFinality: push what was executed, or fetch it back. */
    method Finalize(executed: PublicKeys, ok: bool)
      requires Valid() && c.RoundTrips() && Holds(memory.Contents(), executed.keys)
      modifies memory, storage.accounts
      ensures Valid() && fresh(memory.Repr - old(memory.Repr))
      ensures ok ==> memory.Contents() == old(memory.Contents())
      ensures ok ==> storage.Accounts() == Push(old(storage.Accounts()), old(memory.Contents()), executed.keys)
      ensures !ok ==> storage.Accounts() == old(storage.Accounts())
      ensures !ok ==> memory.Contents() == Refetch(old(memory.Contents()), storage.Accounts(), executed.keys)
    {
      if ok {
        var pushed := storage.PushAccounts(memory, executed.keys);
      } else {
        Revert(executed);
      }
    }
  }
}
