/** storage/storage_db.go and storage/storage_service.go: one flat bucket that
    holds contents, an index and two "latest" entries side by side, and the
    movement of accounts between it and memory. */
module Storage {
  import opened Common
  import opened Records
  import opened Ledger
  import opened AccountObjects
  import opened MemoryDbs

  type Entries = map<Bytes, Bytes>

  /** "latest" and "latestIdx" in ASCII. */
  const LATEST_KEY: Bytes := [108, 97, 116, 101, 115, 116]
  const LATEST_INDEX: Bytes := [108, 97, 116, 101, 115, 116, 73, 100, 120]

  function LowByte(n: nat): byte {
    (n % 256) as byte
  }

  /** binary.Write of an unsigned integer of `size` bytes, big-endian. */
  function BigEndianBytes(n: nat, size: nat): (s: Bytes)
    ensures |s| == size
  {
    if size == 0 then [] else BigEndianBytes(n / 256, size - 1) + [LowByte(n)]
  }

  /** The number that was written can be read back. */
  lemma {:induction false} BigEndianRoundTrip(n: nat, size: nat)
    requires n < Power256(size)
    ensures BigEndian(BigEndianBytes(n, size)) == n
  {
    if size > 0 {
      var s := BigEndianBytes(n, size);
      BigEndianRoundTrip(n / 256, size - 1);
      assert s[..|s| - 1] == BigEndianBytes(n / 256, size - 1);
      assert s[|s| - 1] == LowByte(n);
    }
  }

  function Power256(k: nat): int {
    if k == 0 then 1 else 256 * Power256(k - 1)
  }

  /** Indexes are written as 8-byte words. */
  function IndexSize(): nat {
    8
  }

  function ToHex(n: uint64): (s: Bytes)
    ensures |s| == 8
  {
    BigEndianBytes(n, IndexSize())
  }

  lemma ToHexInjective(m: uint64, n: uint64)
    requires ToHex(m) == ToHex(n)
    ensures m == n
  {
    assert Power256(8) == TWO64;
    BigEndianRoundTrip(m, 8);
    BigEndianRoundTrip(n, 8);
  }

  // ----- the bucket as a value -----

  function Lookup(e: Entries, key: Bytes): Option<Bytes> {
    if key in e then Some(e[key]) else None
  }

  /** Reading through an entry that holds a key; an absent one reads nothing. */
  function LookupThrough(e: Entries, ref: Bytes): Option<Bytes> {
    match Lookup(e, ref)
    case None => None
    case Some(key) => Lookup(e, key)
  }

  /** StorageDb.Put: content under its key, and three references to it. */
  function Stored(e: Entries, key: Bytes, index: Bytes, content: Bytes): Entries {
    e[key := content][index := key][LATEST_KEY := key][LATEST_INDEX := index]
  }

  class Bucket {
    var entries: Entries

    constructor ()
      ensures entries == map[]
    {
      entries := map[];
    }

    method Put(key: Bytes, index: Bytes, content: Bytes)
      modifies this
      ensures entries == Stored(old(entries), key, index, content)
    {
      entries := entries[key := content];
      entries := entries[index := key];
      entries := entries[LATEST_KEY := key];
      entries := entries[LATEST_INDEX := index];
    }

    method GetByKey(key: Bytes) returns (r: Option<Bytes>)
      ensures r == Lookup(entries, key)
    {
      r := if key in entries then Some(entries[key]) else None;
    }

    method GetByIndex(index: Bytes) returns (r: Option<Bytes>)
      ensures r == LookupThrough(entries, index)
    {
      var key := GetByKey(index);
      if key.None? {
        return None;
      }
      r := GetByKey(key.value);
    }

    method GetLatest() returns (r: Option<Bytes>)
      ensures r == LookupThrough(entries, LATEST_KEY)
    {
      r := GetByIndex(LATEST_KEY);
    }
  }

  // ----- the accounts in it -----

  /** Every 32-byte key holds an account; the other lengths are references. */
  ghost predicate Readable(c: Codec, e: Entries) {
    forall k :: k in e && |k| == PUBLIC_KEY_SIZE ==> c.decodeAccount(e[k]).Some?
  }

  ghost function AccountsIn(c: Codec, e: Entries): (m: Accounts)
    requires Readable(c, e)
    ensures forall k: Key :: k in m <==> k in e
  {
    map k: Key | k in e :: c.decodeAccount(e[k]).value
  }

  lemma AccountWritten(c: Codec, e: Entries, k: Key, a: Account)
    requires c.RoundTrips() && Readable(c, e)
    ensures Readable(c, e[k := c.encodeAccount(a)])
    ensures AccountsIn(c, e[k := c.encodeAccount(a)]) == AccountsIn(c, e)[k := a]
  {
  }

  lemma ReferenceWritten(c: Codec, e: Entries, ref: Bytes, value: Bytes)
    requires Readable(c, e) && |ref| != PUBLIC_KEY_SIZE
    ensures Readable(c, e[ref := value])
    ensures AccountsIn(c, e[ref := value]) == AccountsIn(c, e)
  {
  }

  /** The faucet's put, the only account that also gets references: the key
      lengths 32, 8, 6 and 9 keep them apart. */
  lemma FaucetWritten(c: Codec, e: Entries, k: Key, timestamp: Bytes, a: Account)
    requires c.RoundTrips() && Readable(c, e) && |timestamp| == 8
    ensures Readable(c, Stored(e, k, timestamp, c.encodeAccount(a)))
    ensures AccountsIn(c, Stored(e, k, timestamp, c.encodeAccount(a))) == AccountsIn(c, e)[k := a]
  {
    var e1 := e[k := c.encodeAccount(a)];
    AccountWritten(c, e, k, a);
    ReferenceWritten(c, e1, timestamp, k);
    ReferenceWritten(c, e1[timestamp := k], LATEST_KEY, k);
    ReferenceWritten(c, e1[timestamp := k][LATEST_KEY := k], LATEST_INDEX, timestamp);
  }

  /** Memory with the stored accounts a cursor has been past laid over it, while
      `left` is still to come. */
  ghost function Overlaid(before: Accounts, store: Accounts, left: set<Bytes>): Accounts {
    before + map k | k in store && k !in left :: store[k]
  }

  lemma OverlaidNext(before: Accounts, store: Accounts, left: set<Bytes>, k: Bytes)
    requires k in left
    ensures Overlaid(before, store, left - {k}) ==
            if |k| == PUBLIC_KEY_SIZE && k in store then Overlaid(before, store, left)[k := store[k]]
            else Overlaid(before, store, left)
  {
    if |k| != PUBLIC_KEY_SIZE {
      assert forall j :: j in store ==> j != k;
    }
  }

  lemma OverlaidDone(before: Accounts, store: Accounts)
    ensures Overlaid(before, store, {}) == before + store
  {
  }

  class StorageService {
    const c: Codec
    const blocks: Bucket
    const accounts: Bucket

    constructor (c: Codec)
      ensures this.c == c && fresh(blocks) && fresh(accounts) && blocks != accounts
      ensures blocks.entries == map[] && accounts.entries == map[]
    {
      this.c := c;
      blocks := new Bucket();
      accounts := new Bucket();
    }

    ghost predicate Valid()
      reads accounts
    {
      blocks != accounts && Readable(c, accounts.entries)
    }

    ghost function Accounts(): Accounts
      requires Valid()
      reads accounts
    {
      AccountsIn(c, accounts.entries)
    }

    /** One key's stored account, or a zero one, becomes a new object in memory. */
    method FetchOne(mem: MemoryDb, key: Key)
      requires Valid() && mem.Valid()
      modifies mem
      ensures mem.Valid() && fresh(mem.Repr - old(mem.Repr))
      ensures mem.Contents() == old(mem.Contents())[key := At(Accounts(), key)]
    {
      var raw := accounts.GetByKey(key);
      var state := new AccountState(
        if raw.None? then NEW_ACCOUNT else c.decodeAccount(raw.value).value);
      mem.Put(key, state);
    }

    method FetchAccounts(mem: MemoryDb, keys: seq<Key>)
      requires Valid() && mem.Valid()
      modifies mem
      ensures mem.Valid() && fresh(mem.Repr - old(mem.Repr))
      ensures mem.Contents() == Refetch(old(mem.Contents()), Accounts(), keys)
    {
      ghost var before, store := mem.Contents(), Accounts();
      RefetchNone(before, store);
      for i := 0 to |keys|
        invariant mem.Valid() && fresh(mem.Repr - old(mem.Repr))
        invariant mem.Contents() == Refetch(before, store, keys[..i])
      {
        RefetchNext(before, store, keys, i);
        FetchOne(mem, keys[i]);
      }
      assert keys[..|keys|] == keys;
    }

    /** PushAccounts: one database transaction, rolled back when memory misses a key. */
    method PushAccounts(mem: MemoryDb, keys: seq<Key>) returns (ok: bool)
      requires Valid() && mem.Valid() && c.RoundTrips()
      modifies accounts
      ensures Valid() && mem.Contents() == old(mem.Contents())
      ensures ok <==> Holds(mem.Contents(), keys)
      ensures ok ==> Accounts() == Push(old(Accounts()), mem.Contents(), keys)
      ensures !ok ==> accounts.entries == old(accounts.entries)
    {
      hide Push, AccountsIn;
      ghost var store, m := Accounts(), mem.Contents();
      var transaction := accounts.entries;
      for i := 0 to |keys|
        invariant Holds(m, keys[..i]) && Readable(c, transaction)
        invariant AccountsIn(c, transaction) == Push(store, m, keys[..i])
        invariant mem.Contents() == m && accounts.entries == old(accounts.entries)
      {
        if keys[i] !in mem.dbMap {
          return false;
        }
        var state := mem.dbMap[keys[i]];
        AccountWritten(c, transaction, keys[i], state.Value());
        transaction := transaction[keys[i] := c.encodeAccount(state.Value())];
        PushNext(store, m, keys, i);
      }
      assert keys[..|keys|] == keys;
      accounts.entries := transaction;
      ok := true;
    }

    method PutStored(mem: MemoryDb, k: Key)
      requires Valid() && mem.Valid() && k in accounts.entries
      modifies mem
      ensures mem.Valid() && fresh(mem.Repr - old(mem.Repr))
      ensures k in Accounts() && mem.Contents() == old(mem.Contents())[k := Accounts()[k]]
    {
      var state := new AccountState(c.decodeAccount(accounts.entries[k]).value);
      mem.Put(k, state);
    }

    /** FetchAllAccounts: a cursor over the whole bucket, taking 32-byte keys only. */
    method FetchAllAccounts(mem: MemoryDb)
      requires Valid() && mem.Valid()
      modifies mem
      ensures mem.Valid() && fresh(mem.Repr - old(mem.Repr))
      ensures mem.Contents() == old(mem.Contents()) + Accounts()
    {
      ghost var before, store := mem.Contents(), Accounts();
      var left := accounts.entries.Keys;
      while left != {}
        invariant left <= accounts.entries.Keys
        invariant mem.Valid() && fresh(mem.Repr - old(mem.Repr))
        invariant mem.Contents() == Overlaid(before, store, left)
        decreases left
      {
        var k: Bytes :| k in left;
        OverlaidNext(before, store, left, k);
        left := left - {k};
        if |k| == PUBLIC_KEY_SIZE {
          PutStored(mem, k);
        }
      }
      OverlaidDone(before, store);
    }
  }
}
