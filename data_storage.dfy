/**
 * The account store: a registry from id to account and an id counter, changed
 * in place by its methods. Each method is proved against the specification
 * functions of module Ledger.
 */
module Data {
  import opened Ledger

  class DataStorage {
    /** The accounts, keyed by id. */
    var accounts: Registry
    /** The next id to hand out. */
    var accountId: int

    /** The object invariant: the store is well-formed. */
    ghost predicate Valid()
      reads this
    {
      WellFormed(State())
    }

    /** The abstract value of the store. */
    ghost function State(): Store
      reads this
    {
      Store(accounts, accountId)
    }

    /** A new store holds no accounts and will hand out 0 first. */
    constructor ()
      ensures Valid()
      ensures State() == Empty
    {
      accounts := map[];
      accountId := 0;
    }

    /**
     * Creates an account under the counter's current value, advances the counter,
     * and returns the new id. The insertion only happens if the key is absent,
     * but on a valid store it always is.
     */
    method AddAccount(name: string, balance: int) returns (id: int)
      requires Valid()
      modifies this
      ensures Valid()
      ensures State() == Added(old(State()), name, balance)
      ensures id == old(accountId) && id !in old(accounts)
      ensures accountId == old(accountId) + 1
      ensures accounts == old(accounts)[id := Account(id, name, balance)]
    {
      // getAndIncrement
      var account := Account(accountId, name, balance);
      accountId := accountId + 1;
      // putIfAbsent
      if account.id !in accounts {
        accounts := accounts[account.id := account];
      }
      id := account.id;
    }

    /**
     * Moves amount from sourceId to receiverId. The two accounts are looked up,
     * their locks are entered larger id first (entering the lock of an absent
     * account fails, as synchronizing on null does), the source balance is
     * checked, and only then is the source debited and the receiver credited.
     */
    method RecordTransfer(sourceId: int, receiverId: int, amount: int) returns (outcome: TransferOutcome)
      requires Valid()
      modifies this
      ensures Valid()
      ensures accountId == old(accountId)
      ensures TransferResult(outcome, accounts) == Transfer(old(accounts), sourceId, receiverId, amount)
    {
      var sourceAccount := Get(accounts, sourceId);
      var receiverAccount := Get(accounts, receiverId);
      // the lock objects are the accounts stored under the ordered ids
      var order := LockOrder(sourceId, receiverId);
      var lock1 := Get(accounts, order.0);
      var lock2 := Get(accounts, order.1);
      if lock1.None? {
        return MissingAccount;
      }
      if lock2.None? {
        return MissingAccount;
      }
      if sourceAccount.value.balance < amount {
        return InsufficientFunds;
      }
      Withdraw(sourceId, amount);
      Deposit(receiverId, amount);
      outcome := Ok;
    }

    /** The account stored under id, or None (an IllegalArgumentException) if there is none. */
    method GetAccount(id: int) returns (result: Option<Account>)
      ensures result.Some? <==> id in accounts
      ensures result.Some? ==> result.value == accounts[id]
    {
      var found := Get(accounts, id);
      if found.None? {
        return None;
      }
      result := found;
    }

    /** A copy of all stored accounts, one entry per account. */
    method GetAllAccounts() returns (list: seq<Account>)
      requires Valid()
      ensures list == Listed(accounts, accountId)
      ensures |list| == |accounts|
      ensures forall i :: 0 <= i < |list| ==> list[i].id in accounts && accounts[list[i].id] == list[i]
      ensures forall i, j :: 0 <= i < j < |list| ==> list[i].id != list[j].id
      ensures forall id :: id in accounts ==> exists i :: 0 <= i < |list| && list[i].id == id
    {
      // every key of a valid store lies in [0, accountId), so visiting those ids
      // in turn meets each stored account once
      list := [];
      for k := 0 to accountId
        invariant list == Listed(accounts, k)
      {
        if k in accounts {
          list := list + [accounts[k]];
        }
      }
      ListedAll(State());
    }

    /** Debits the account stored under id, reading its current balance. */
    method Withdraw(id: int, amount: int)
      requires Valid() && id in accounts
      modifies this
      ensures Valid() && accountId == old(accountId)
      ensures accounts == Withdrawn(old(accounts), id, amount)
    {
      var source := accounts[id];
      accounts := accounts[id := source.(balance := source.balance - amount)];
    }

    /** Credits the account stored under id, reading its current balance. */
    method Deposit(id: int, amount: int)
      requires Valid() && id in accounts
      modifies this
      ensures Valid() && accountId == old(accountId)
      ensures accounts == Deposited(old(accounts), id, amount)
    {
      var receiver := accounts[id];
      accounts := accounts[id := receiver.(balance := receiver.balance + amount)];
    }

    /** Discards every account and restarts the counter at 0. */
    method ClearDataStorage()
      modifies this
      ensures Valid()
      ensures State() == Empty
    {
      accounts := map[];
      accountId := 0;
    }
  }
}
