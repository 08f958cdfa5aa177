/** accounts/account.go: the account objects that memory hands out by pointer. */
module AccountObjects {
  import opened Common
  import opened Records
  import opened Ledger

  class AccountState {
    var nonce: uint64
    var balance: uint64

    function Value(): Account
      reads this
    {
      Account(nonce, balance)
    }

    constructor (a: Account)
      ensures Value() == a
    {
      nonce, balance := a.nonce, a.balance;
    }

    method Subtract(amount: uint64) returns (ok: bool)
      modifies this
      ensures ok <==> amount <= old(balance)
      ensures Value() == if ok then old(Value()).(balance := old(balance) - amount) else old(Value())
    {
      if amount > balance {
        return false;
      }
      balance := balance - amount;
      ok := true;
    }

    /** Exact on unsigned words, wrap-around included. */
    method Add(amount: uint64) returns (ok: bool)
      modifies this
      ensures ok <==> amount <= Room(old(Value()))
      ensures Value() == if ok then Credit(old(Value()), amount) else old(Value())
      ensures old(balance) <= GENERATOR_BALANCE && ok ==>
                balance == old(balance) + amount <= GENERATOR_BALANCE
    {
      var max := (GENERATOR_BALANCE - balance) % TWO64;
      if amount > max {
        return false;
      }
      balance := (balance + amount) % TWO64;
      ok := true;
    }

    method CheckNonce(n: uint64) returns (ok: bool)
      modifies this
      ensures ok <==> old(nonce) == n
      ensures Value() == if ok then BumpNonce(old(Value())) else old(Value())
    {
      ok := nonce == n;
      if ok {
        nonce := (nonce + 1) % TWO64;
      }
    }
  }
}
