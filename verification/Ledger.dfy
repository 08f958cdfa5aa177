/** What executing, reverting and committing a block means, on values: memory
    over storage, with the source's partial mutations spelled out. */
module Ledger {
  import opened Common
  import opened Records

  datatype Failure = NoGenerator | UnknownAccount | BadNonce | NotEnough | Overflow

  /** Memory after one call. A failed call may have mutated accounts already. */
  datatype Outcome = Outcome(error: Option<Failure>, mem: Accounts)

  function BumpNonce(a: Account): Account {
    a.(nonce := (a.nonce + 1) % TWO64)
  }

  /** The room `Add` sees: an unsigned subtraction, which wraps. */
  function Room(a: Account): uint64 {
    (GENERATOR_BALANCE - a.balance) % TWO64
  }

  function Credit(a: Account, amount: uint64): Account {
    a.(balance := (a.balance + amount) % TWO64)
  }

  /** Subtract, Add and the two puts shared by airdropImpl and transferImpl.
      `newcomer` is the receiver's object when memory does not hold it yet. */
  function Pay(m: Accounts, from: Key, to: Key, amount: uint64, newcomer: Account): Outcome
    requires from in m
  {
    if amount > m[from].balance then Outcome(Some(NotEnough), m)
    else
      var m1 := m[from := m[from].(balance := m[from].balance - amount)];
      var receiver := if to in m1 then m1[to] else newcomer;
      if amount > Room(receiver) then Outcome(Some(Overflow), m1)
      else Outcome(None, m1[to := Credit(receiver, amount)])
  }

  function ApplyAirdrop(m: Accounts, gen: Key, to: Key, nonce: uint64, amount: uint64): Outcome {
    if gen !in m then Outcome(Some(UnknownAccount), m)
    else if At(m, to).nonce != nonce then Outcome(Some(BadNonce), m)
    else
      var bumped := BumpNonce(At(m, to));
      Pay(if to in m then m[to := bumped] else m, gen, to, amount, bumped)
  }

  function ApplyTransfer(m: Accounts, from: Key, nonce: uint64, to: Key, amount: uint64): Outcome {
    if from !in m then Outcome(Some(UnknownAccount), m)
    else if m[from].nonce != nonce then Outcome(Some(BadNonce), m)
    else
      var m1 := m[from := BumpNonce(m[from])];
      if to !in m1 then Outcome(Some(UnknownAccount), m1)
      else Pay(m1, from, to, amount, NEW_ACCOUNT)
  }

  /** publicKeys.add */
  function AddKey(keys: seq<Key>, k: Key): seq<Key> {
    if k in keys then keys else keys + [k]
  }

  function AddKeys(keys: seq<Key>, more: seq<Key>): seq<Key> {
    if more == [] then keys
    else AddKey(AddKeys(keys, more[..|more| - 1]), more[|more| - 1])
  }

  lemma {:induction false} AddKeysMembers(keys: seq<Key>, more: seq<Key>)
    ensures forall k :: k in AddKeys(keys, more) <==> k in keys || k in more
  {
    if more != [] {
      AddKeysMembers(keys, more[..|more| - 1]);
      assert more == more[..|more| - 1] + [more[|more| - 1]];
    }
  }

  lemma AddTwoKeys(keys: seq<Key>, j: Key, k: Key)
    ensures AddKeys(keys, AddKey([j], k)) == AddKey(AddKey(keys, j), k)
    ensures AddKey(AddKey([], j), k) == AddKey([j], k)
  {
    assert [j][..0] == [] && [j, k][..1] == [j];
    assert AddKeys(keys, [j]) == AddKey(keys, j);
  }

  lemma AddKeysToNone(keys: seq<Key>)
    requires NoDuplicates(keys)
    ensures AddKeys([], keys) == keys
  {
    if keys != [] {
      AddKeysToNone(keys[..|keys| - 1]);
      assert keys == keys[..|keys| - 1] + [keys[|keys| - 1]];
    }
  }

  /** The accounts a transaction works on, in the order they are recorded. */
  function Touched(c: Codec, gen: Option<Key>, tx: Transaction): seq<Key> {
    match Classify(c, tx.innerData.data)
    case Skip => []
    case Airdrop(_) =>
      if gen.None? then [] else AddKey([tx.innerData.publicKey], gen.value)
    case Transfer(_, to) => AddKey([tx.innerData.publicKey], to)
  }

  function Attempt(c: Codec, gen: Option<Key>, m: Accounts, tx: Transaction): Outcome {
    var caller, nonce := tx.innerData.publicKey, tx.innerData.nonce;
    match Classify(c, tx.innerData.data)
    case Skip => Outcome(None, m)
    case Airdrop(amount) =>
      if gen.None? then Outcome(Some(NoGenerator), m)
      else ApplyAirdrop(m, gen.value, caller, nonce, amount)
    case Transfer(amount, to) => ApplyTransfer(m, caller, nonce, to, amount)
  }

  function KeySet(keys: seq<Key>): set<Key> {
    set k | k in keys
  }

  /** FetchAccounts: memory takes the stored version of each key, zero if there is none. */
  function Refetch(m: Accounts, store: Accounts, keys: seq<Key>): (r: Accounts)
    ensures r.Keys == m.Keys + KeySet(keys)
    ensures forall k :: At(r, k) == if k in keys then At(store, k) else At(m, k)
  {
    map k | k in m.Keys + KeySet(keys) :: if k in keys then At(store, k) else m[k]
  }

  /** PushAccounts: storage takes memory's version of each key. */
  ghost predicate Holds(m: Accounts, keys: seq<Key>) {
    forall k :: k in keys ==> k in m
  }

  function Push(store: Accounts, m: Accounts, keys: seq<Key>): (r: Accounts)
    requires Holds(m, keys)
    ensures r.Keys == store.Keys + KeySet(keys)
    ensures forall k :: At(r, k) == if k in keys then At(m, k) else At(store, k)
  {
    map k | k in store.Keys + KeySet(keys) :: if k in keys then m[k] else store[k]
  }

  lemma RefetchLast(m: Accounts, store: Accounts, keys: seq<Key>)
    requires keys != []
    ensures var n := |keys| - 1;
            Refetch(m, store, keys) == Refetch(m, store, keys[..n])[keys[n] := At(store, keys[n])]
  {
    hide At;
    var n := |keys| - 1;
    assert forall k :: k in keys <==> k in keys[..n] || k == keys[n] by {
      assert keys == keys[..n] + [keys[n]];
    }
  }

  lemma RefetchNone(m: Accounts, store: Accounts)
    ensures Refetch(m, store, []) == m
  {
  }

  lemma RefetchNext(m: Accounts, store: Accounts, keys: seq<Key>, i: nat)
    requires i < |keys|
    ensures Refetch(m, store, keys[..i + 1]) == Refetch(m, store, keys[..i])[keys[i] := At(store, keys[i])]
  {
    assert keys[..i + 1][..i] == keys[..i];
    RefetchLast(m, store, keys[..i + 1]);
  }

  lemma PushNext(store: Accounts, m: Accounts, keys: seq<Key>, i: nat)
    requires i < |keys| && Holds(m, keys[..i]) && keys[i] in m
    ensures Holds(m, keys[..i + 1])
    ensures Push(store, m, keys[..i + 1]) == Push(store, m, keys[..i])[keys[i] := m[keys[i]]]
  {
    assert forall k :: k in keys[..i + 1] <==> k in keys[..i] || k == keys[i] by {
      assert keys[..i + 1] == keys[..i] + [keys[i]];
    }
  }

  /** A block part-way through: memory so far and the keys of the calls that succeeded. */
  datatype Execution = Execution(mem: Accounts, executed: seq<Key>)

  /** One turn of ExecuteNow's loop. */
  function Step(c: Codec, gen: Option<Key>, store: Accounts, e: Execution, tx: Transaction): Execution {
    var o := Attempt(c, gen, e.mem, tx);
    if o.error.None? then Execution(o.mem, AddKeys(e.executed, Touched(c, gen, tx)))
    else Execution(Refetch(o.mem, store, Touched(c, gen, tx)), e.executed)
  }

  function Run(c: Codec, gen: Option<Key>, store: Accounts, m: Accounts, txs: seq<Transaction>): Execution {
    if txs == [] then Execution(m, [])
    else Step(c, gen, store, Run(c, gen, store, m, txs[..|txs| - 1]), txs[|txs| - 1])
  }

  lemma RunAppend(
      c: Codec, gen: Option<Key>, store: Accounts, m: Accounts, txs: seq<Transaction>, tx: Transaction)
    ensures Run(c, gen, store, m, txs + [tx]) == Step(c, gen, store, Run(c, gen, store, m, txs), tx)
  {
    var more := txs + [tx];
    assert more[..|more| - 1] == txs;
  }

  lemma RunNext(
      c: Codec, gen: Option<Key>, store: Accounts, m: Accounts, txs: seq<Transaction>, i: nat)
    requires i < |txs|
    ensures Run(c, gen, store, m, txs[..i + 1]) == Step(c, gen, store, Run(c, gen, store, m, txs[..i]), txs[i])
  {
    RunAppend(c, gen, store, m, txs[..i], txs[i]);
    assert txs[..i + 1] == txs[..i] + [txs[i]];
  }

  /** The status ExecuteNow leaves: true whenever it did not pass over the call. */
  function Mark(c: Codec, tx: Transaction): Transaction {
    if Classify(c, tx.innerData.data).Skip? then tx else tx.(status := true)
  }

  function MarkAll(c: Codec, txs: seq<Transaction>): (r: seq<Transaction>)
    ensures |r| == |txs|
  {
    seq(|txs|, i requires 0 <= i < |txs| => Mark(c, txs[i]))
  }

  /** Memory when call `i` of a block starts. */
  function MemoryAt(c: Codec, gen: Option<Key>, store: Accounts, m: Accounts, txs: seq<Transaction>, i: nat): Accounts
    requires i <= |txs|
  {
    Run(c, gen, store, m, txs[..i]).mem
  }

  /** The error of call `i` when a block runs. */
  function ErrorAt(
      c: Codec, gen: Option<Key>, store: Accounts, m: Accounts, txs: seq<Transaction>, i: nat): Option<Failure>
    requires i < |txs|
  {
    Attempt(c, gen, MemoryAt(c, gen, store, m, txs, i), txs[i]).error
  }

  /** Which statuses say what happened: that of a call that was run, if and only
      if it had no error; that of one that was passed over, if and only if it was
      true already. Nothing but the status is written. */
  lemma StatusExactly(
      c: Codec, gen: Option<Key>, store: Accounts, m: Accounts, txs: seq<Transaction>, i: nat)
    requires i < |txs|
    ensures (MarkAll(c, txs)[i].status <==> ErrorAt(c, gen, store, m, txs, i).None?)
            <==> if Classify(c, txs[i].innerData.data).Skip? then txs[i].status
                 else ErrorAt(c, gen, store, m, txs, i).None?
    ensures MarkAll(c, txs)[i] == txs[i].(status := MarkAll(c, txs)[i].status)
  {
  }

  /** An airdrop before there is a faucet fails, and its status ends up true. */
  lemma FailureEndsTrue(c: Codec, tx: Transaction)
    requires Classify(c, tx.innerData.data).Airdrop?
    ensures ErrorAt(c, None, map[], map[], [tx], 0) == Some(NoGenerator)
    ensures MarkAll(c, [tx])[0].status
  {
  }

  function Rejected(store: Accounts, e: Execution): Accounts {
    Refetch(e.mem, store, e.executed)
  }

  // ----- one call -----

  /** The frame of each part of a call: what it may change and add. */
  ghost predicate IsFrame(m: Accounts, o: Outcome, touched: seq<Key>) {
    && (forall k :: k !in touched ==> At(o.mem, k) == At(m, k))
    && (o.error.Some? ==> o.mem.Keys == m.Keys)
    && (o.error.None? ==> o.mem.Keys == m.Keys + KeySet(touched))
  }

  lemma PayFrame(m: Accounts, from: Key, to: Key, amount: uint64, newcomer: Account)
    requires from in m
    ensures IsFrame(m, Pay(m, from, to, amount, newcomer), [from, to])
  {
  }

  lemma AirdropFrame(m: Accounts, gen: Key, to: Key, nonce: uint64, amount: uint64)
    ensures IsFrame(m, ApplyAirdrop(m, gen, to, nonce, amount), [gen, to])
  {
    hide Pay;
    var bumped := BumpNonce(At(m, to));
    if gen in m {
      PayFrame(if to in m then m[to := bumped] else m, gen, to, amount, bumped);
    }
  }

  lemma TransferFrame(m: Accounts, from: Key, nonce: uint64, to: Key, amount: uint64)
    ensures IsFrame(m, ApplyTransfer(m, from, nonce, to, amount), [from, to])
  {
    hide Pay;
    if from in m {
      PayFrame(m[from := BumpNonce(m[from])], from, to, amount, NEW_ACCOUNT);
    }
  }

  lemma SameFrame(m: Accounts, o: Outcome, touched: seq<Key>, same: seq<Key>)
    requires IsFrame(m, o, touched) && forall k :: k in touched <==> k in same
    ensures IsFrame(m, o, same)
  {
  }

  /** A call changes nothing outside the accounts it touches; if it fails it has
      not added an account to memory; if it succeeds memory holds what it touched. */
  lemma AttemptFrame(c: Codec, gen: Option<Key>, m: Accounts, tx: Transaction)
    ensures var o := Attempt(c, gen, m, tx);
            && (forall k :: k !in Touched(c, gen, tx) ==> At(o.mem, k) == At(m, k))
            && (o.error.Some? ==> o.mem.Keys == m.Keys)
            && (o.error.None? ==> o.mem.Keys == m.Keys + KeySet(Touched(c, gen, tx)))
  {
    hide ApplyAirdrop, ApplyTransfer, At;
    var caller, nonce := tx.innerData.publicKey, tx.innerData.nonce;
    match Classify(c, tx.innerData.data)
    case Skip =>
    case Airdrop(amount) =>
      if gen.Some? {
        AirdropFrame(m, gen.value, caller, nonce, amount);
        SameFrame(m, Attempt(c, gen, m, tx), [gen.value, caller], Touched(c, gen, tx));
      }
    case Transfer(amount, to) =>
      TransferFrame(m, caller, nonce, to, amount);
      SameFrame(m, Attempt(c, gen, m, tx), [caller, to], Touched(c, gen, tx));
  }

  /** Whatever a failing call mutated before it failed, its revert leaves memory
      as if the call had never started and only the fetch had happened. */
  lemma FailureUndone(c: Codec, gen: Option<Key>, store: Accounts, e: Execution, tx: Transaction)
    requires Attempt(c, gen, e.mem, tx).error.Some?
    ensures Step(c, gen, store, e, tx).mem == Refetch(e.mem, store, Touched(c, gen, tx))
  {
    AttemptFrame(c, gen, e.mem, tx);
    var r, r' := Step(c, gen, store, e, tx).mem, Refetch(e.mem, store, Touched(c, gen, tx));
    assert r.Keys == r'.Keys;
    forall k | k in r
      ensures r[k] == r'[k]
    {
      assert At(r, k) == At(r', k);
    }
  }

  lemma StepIgnoresStatus(c: Codec, gen: Option<Key>, store: Accounts, e: Execution, tx: Transaction)
    ensures Step(c, gen, store, e, Mark(c, tx)) == Step(c, gen, store, e, tx)
    ensures Mark(c, Mark(c, tx)) == Mark(c, tx)
  {
    assert Mark(c, tx).innerData == tx.innerData;
  }

  /** Re-execution sees the same calls: the statuses it sets are not read back. */
  lemma {:induction false} RunIgnoresStatus(
      c: Codec, gen: Option<Key>, store: Accounts, m: Accounts, txs: seq<Transaction>)
    ensures Run(c, gen, store, m, MarkAll(c, txs)) == Run(c, gen, store, m, txs)
  {
    if txs != [] {
      var n := |txs| - 1;
      var e, marked := Run(c, gen, store, m, txs[..n]), MarkAll(c, txs);
      RunIgnoresStatus(c, gen, store, m, txs[..n]);
      assert marked[..n] == MarkAll(c, txs[..n]);
      StepIgnoresStatus(c, gen, store, e, txs[n]);
      assert Run(c, gen, store, m, marked) == Step(c, gen, store, e, marked[n]);
    }
  }

  lemma MarkAllIdempotent(c: Codec, txs: seq<Transaction>)
    ensures MarkAll(c, MarkAll(c, txs)) == MarkAll(c, txs)
  {
    forall i | 0 <= i < |txs|
      ensures Mark(c, Mark(c, txs[i])) == Mark(c, txs[i])
    {
      assert Mark(c, txs[i]).innerData == txs[i].innerData;
    }
  }

  // ----- two-level agreement -----

  /** Memory and storage agree on every key outside `keys`, absent read as zero. */
  ghost predicate AgreeExcept(m: Accounts, store: Accounts, keys: seq<Key>) {
    forall k :: k !in keys ==> At(m, k) == At(store, k)
  }

  ghost predicate Agree(m: Accounts, store: Accounts) {
    forall k :: At(m, k) == At(store, k)
  }

  /** At every transaction boundary memory and storage agree outside `executed`,
      and memory holds every executed key. */
  lemma {:induction false} BoundaryAgreement(
      c: Codec, gen: Option<Key>, store: Accounts, m: Accounts, txs: seq<Transaction>)
    requires Agree(m, store)
    ensures var e := Run(c, gen, store, m, txs);
            && AgreeExcept(e.mem, store, e.executed)
            && Holds(e.mem, e.executed)
  {
    if txs != [] {
      var n := |txs| - 1;
      BoundaryAgreement(c, gen, store, m, txs[..n]);
      AttemptFrame(c, gen, Run(c, gen, store, m, txs[..n]).mem, txs[n]);
      AddKeysMembers(Run(c, gen, store, m, txs[..n]).executed, Touched(c, gen, txs[n]));
    }
  }

  lemma {:induction false} ExecutedInMemory(
      c: Codec, gen: Option<Key>, store: Accounts, m: Accounts, txs: seq<Transaction>)
    ensures Holds(Run(c, gen, store, m, txs).mem, Run(c, gen, store, m, txs).executed)
  {
    if txs != [] {
      var n := |txs| - 1;
      var e := Run(c, gen, store, m, txs[..n]);
      ExecutedInMemory(c, gen, store, m, txs[..n]);
      AttemptFrame(c, gen, e.mem, txs[n]);
      AddKeysMembers(e.executed, Touched(c, gen, txs[n]));
    }
  }

  /** Storage after finality accepted the block. */
  function Committed(c: Codec, gen: Option<Key>, store: Accounts, m: Accounts, txs: seq<Transaction>): Accounts {
    var e := Run(c, gen, store, m, txs);
    ExecutedInMemory(c, gen, store, m, txs);
    Push(store, e.mem, e.executed)
  }

  /** Finality either way leaves the two levels in agreement everywhere: an
      accepted block pushes memory down, a rejected one pulls the unchanged
      storage up. */
  lemma FinalityAgreement(c: Codec, gen: Option<Key>, store: Accounts, m: Accounts, txs: seq<Transaction>)
    requires Agree(m, store)
    ensures var e := Run(c, gen, store, m, txs);
            && Agree(e.mem, Committed(c, gen, store, m, txs))
            && Agree(Rejected(store, e), store)
  {
    BoundaryAgreement(c, gen, store, m, txs);
  }

  function AllTouched(c: Codec, gen: Option<Key>, txs: seq<Transaction>): set<Key> {
    if txs == [] then {}
    else AllTouched(c, gen, txs[..|txs| - 1]) + KeySet(Touched(c, gen, txs[|txs| - 1]))
  }

  /** Executing a block enters every touched account into memory, even through
      calls that fail: their revert fetches a zero account. */
  lemma {:induction false} RunDomain(
      c: Codec, gen: Option<Key>, store: Accounts, m: Accounts, txs: seq<Transaction>)
    ensures var e := Run(c, gen, store, m, txs);
            && e.mem.Keys == m.Keys + AllTouched(c, gen, txs)
            && Holds(e.mem, e.executed)
  {
    hide Attempt, Touched, Refetch;
    if txs != [] {
      var n := |txs| - 1;
      RunDomain(c, gen, store, m, txs[..n]);
      AttemptFrame(c, gen, Run(c, gen, store, m, txs[..n]).mem, txs[n]);
      AddKeysMembers(Run(c, gen, store, m, txs[..n]).executed, Touched(c, gen, txs[n]));
    }
  }

  /** A rejected block gives back exactly the memory it started from if and only
      if every account its calls touch was in memory before. Otherwise zero
      accounts stay behind, and they count in the state hash. */
  lemma RejectRestoresExactly(
      c: Codec, gen: Option<Key>, store: Accounts, m: Accounts, txs: seq<Transaction>)
    requires Agree(m, store)
    ensures Rejected(store, Run(c, gen, store, m, txs)) == m <==> AllTouched(c, gen, txs) <= m.Keys
  {
    FinalityAgreement(c, gen, store, m, txs);
    RunDomain(c, gen, store, m, txs);
    var r := Rejected(store, Run(c, gen, store, m, txs));
    assert r.Keys == m.Keys + AllTouched(c, gen, txs);
    if AllTouched(c, gen, txs) <= m.Keys {
      forall k | k in m
        ensures r[k] == m[k]
      {
        assert At(r, k) == At(m, k);
      }
    }
  }
}
