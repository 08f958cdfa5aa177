/** The values that travel between nodes and into the database, and the opaque
    codecs that turn them into bytes. */
module Records {
  import opened Common

  /** accounts.AccountState as a value: what JSON stores of it. */
  datatype Account = Account(nonce: uint64, balance: uint64)

  const NEW_ACCOUNT := Account(0, 0)

  type Accounts = map<Key, Account>

  /** An absent account reads as one with nonce and balance zero. */
  function At(m: Accounts, k: Key): Account {
    if k in m then m[k] else NEW_ACCOUNT
  }

  datatype TransactionData = TransactionData(
    data: Bytes, publicKey: Key, nonce: uint64, signature: Bytes, timestamp: int64)

  datatype Transaction = Transaction(hash: Digest, innerData: TransactionData, status: bool)

  datatype BlockInfo = BlockInfo(
    height: uint64, hash: Digest, signature: Bytes, publicKey: Key, timestamp: int64)

  datatype Block = Block(
    info: BlockInfo, transactions: seq<Transaction>, previousBlockHash: Digest, stateHash: Digest)

  /** rpc.Call before its parameters are decoded. */
  datatype Call = Call(kind: byte, params: Bytes)

  datatype TransferParam = TransferParam(amount: uint64, to: Bytes)

  /** SHA3-256, JSON in both directions, and the base58 constant of the padding leaf. */
  datatype Codec = Codec(
    sha3: Hasher,
    decodeCall: Bytes -> Option<Call>,
    decodeAirdrop: Bytes -> Option<uint64>,
    decodeTransfer: Bytes -> Option<TransferParam>,
    encodeTransaction: Transaction -> Bytes,
    decodeTransaction: Bytes -> Option<Transaction>,
    encodeAccount: Account -> Bytes,
    decodeAccount: Bytes -> Option<Account>,
    encodeBlock: Block -> Bytes,
    decodeBlock: Bytes -> Option<Block>,
    fakeKey: Bytes)
  {
    /** What is asked of JSON: reading back what was written. */
    ghost predicate RoundTrips() {
      && (forall t :: decodeTransaction(encodeTransaction(t)) == Some(t))
      && (forall a :: decodeAccount(encodeAccount(a)) == Some(a))
      && (forall b :: decodeBlock(encodeBlock(b)) == Some(b))
    }
  }

  // ----- rpc/rpc_kind.go -----

  const AIRDROP: byte := 1
  const TRANSFER: byte := 2

  /** What ExecuteNow does with a transaction: run one of the two calls, or pass
      over it (undecodable, unverified, or not a state-changing call). */
  datatype Action = Skip | Airdrop(amount: uint64) | Transfer(amount: uint64, to: Key)

  predicate ValidAmount(amount: uint64) {
    0 < amount < GENERATOR_BALANCE
  }

  function Classify(c: Codec, data: Bytes): Action {
    match c.decodeCall(data)
    case None => Skip
    case Some(call) =>
      if call.kind == AIRDROP then
        match c.decodeAirdrop(call.params)
        case None => Skip
        case Some(amount) => if ValidAmount(amount) then Airdrop(amount) else Skip
      else if call.kind == TRANSFER then
        match c.decodeTransfer(call.params)
        case None => Skip
        case Some(p) =>
          if ValidAmount(p.amount) && |p.to| == PUBLIC_KEY_SIZE then Transfer(p.amount, p.to) else Skip
      else Skip
  }
}
