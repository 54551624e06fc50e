/**
 * The account ledger as a sequential state machine: the values the store keeps,
 * the specification of each operation on them, and the properties they promise
 * (fresh ids, the effect of a transfer, conservation of the total balance).
 * The class in module Data is proved against these definitions.
 */
module Ledger {

  datatype Option<T> = None | Some(value: T)

  /** An account: its id, a display name, and the current balance. */
  datatype Account = Account(id: int, name: string, balance: int)

  /** The registry, from account id to the account stored under it. */
  type Registry = map<int, Account>

  /** The whole state of the store: the registry and the id counter. */
  datatype Store = Store(accounts: Registry, counter: int)

  /** How a transfer ends: normally, on the insufficient-funds check, or on an absent account. */
  datatype TransferOutcome = Ok | InsufficientFunds | MissingAccount

  datatype TransferResult = TransferResult(outcome: TransferOutcome, accounts: Registry)

  /** The state of a freshly created or freshly cleared store. */
  const Empty := Store(map[], 0)

  /**
   * The store's invariant: the counter is non-negative, every key lies below it,
   * and every account is stored under its own id.
   */
  ghost predicate WellFormed(s: Store) {
    && s.counter >= 0
    && forall id :: id in s.accounts ==> 0 <= id < s.counter && s.accounts[id].id == id
  }

  /** A map lookup that yields None (Java's null) for an absent key. */
  function Get(accounts: Registry, id: int): (r: Option<Account>)
    ensures r.Some? <==> id in accounts
    ensures r.Some? ==> r.value == accounts[id]
  {
    if id in accounts then Some(accounts[id]) else None
  }

  // ---------------------------------------------------------------- creation

  /**
   * Creating an account: the new account takes the counter's current value as
   * its id, is inserted only if that key is absent, and the counter advances by one.
   * On a well-formed store the key is always absent, so the insertion always happens.
   */
  function Added(s: Store, name: string, balance: int): (r: Store)
    ensures r.counter == s.counter + 1
    ensures WellFormed(s) ==> s.counter !in s.accounts
    ensures WellFormed(s) ==> WellFormed(r)
    ensures WellFormed(s) ==> r.accounts == s.accounts[s.counter := Account(s.counter, name, balance)]
  {
    var account := Account(s.counter, name, balance);
    var accounts := if account.id in s.accounts then s.accounts else s.accounts[account.id := account];
    Store(accounts, s.counter + 1)
  }

  /** Creating one account per entry, in order. */
  function AddedAll(s: Store, entries: seq<(string, int)>): Store
    decreases |entries|
  {
    if entries == [] then s
    else AddedAll(Added(s, entries[0].0, entries[0].1), entries[1..])
  }

  /**
   * N creations on a well-formed store use the ids counter, counter + 1, ...,
   * counter + N - 1, in order, each holding its own name and balance; they add
   * exactly N accounts and leave the old accounts as they were.
   */
  lemma {:induction false} AddedAllFresh(s: Store, entries: seq<(string, int)>)
    requires WellFormed(s)
    ensures WellFormed(AddedAll(s, entries))
    ensures AddedAll(s, entries).counter == s.counter + |entries|
    ensures |AddedAll(s, entries).accounts| == |s.accounts| + |entries|
    ensures forall id :: id in AddedAll(s, entries).accounts <==> id in s.accounts || s.counter <= id < s.counter + |entries|
    ensures forall id :: id in s.accounts ==> AddedAll(s, entries).accounts[id] == s.accounts[id]
    ensures forall i :: 0 <= i < |entries| ==>
      AddedAll(s, entries).accounts[s.counter + i] == Account(s.counter + i, entries[i].0, entries[i].1)
    decreases |entries|
  {
    if entries != [] {
      var s' := Added(s, entries[0].0, entries[0].1);
      assert s'.accounts == s.accounts[s.counter := Account(s.counter, entries[0].0, entries[0].1)];
      assert |s'.accounts| == |s.accounts| + 1;
      AddedAllFresh(s', entries[1..]);
      var r := AddedAll(s, entries);
      assert r == AddedAll(s', entries[1..]);
      forall id | id in s.accounts
        ensures r.accounts[id] == s.accounts[id]
      {
        assert s'.accounts[id] == s.accounts[id];
      }
      forall i | 0 <= i < |entries|
        ensures r.accounts[s.counter + i] == Account(s.counter + i, entries[i].0, entries[i].1)
      {
        if i > 0 {
          assert entries[1..][i - 1] == entries[i];
        }
      }
    }
  }

  /** Creating the accounts of entries and then one more is creating those of entries + [e]. */
  lemma {:induction false} AddedAllSnoc(s: Store, entries: seq<(string, int)>, e: (string, int))
    ensures AddedAll(s, entries + [e]) == Added(AddedAll(s, entries), e.0, e.1)
    decreases |entries|
  {
    if entries == [] {
      assert AddedAll(Added(s, e.0, e.1), []) == Added(s, e.0, e.1);
      assert entries + [e] == [e];
    } else {
      assert (entries + [e])[1..] == entries[1..] + [e];
      AddedAllSnoc(Added(s, entries[0].0, entries[0].1), entries[1..], e);
    }
  }

  /**
   * After a reset, N creations give the ids 0, 1, ..., N - 1: N distinct accounts,
   * account i holding the i-th name and balance, and nothing else.
   */
  lemma AddedAllAfterClear(entries: seq<(string, int)>)
    ensures var s := AddedAll(Empty, entries);
      && WellFormed(s)
      && s.counter == |entries|
      && |s.accounts| == |entries|
      && (forall id :: id in s.accounts <==> 0 <= id < |entries|)
      && (forall i :: 0 <= i < |entries| ==> s.accounts[i] == Account(i, entries[i].0, entries[i].1))
  {
    AddedAllFresh(Empty, entries);
  }

  // ---------------------------------------------------------------- listing

  /** The accounts stored under the ids 0, 1, ..., n - 1, in that order. */
  function Listed(accounts: Registry, n: int): seq<Account>
    decreases n
  {
    if n <= 0 then [] else Listed(accounts, n - 1) + (if n - 1 in accounts then [accounts[n - 1]] else [])
  }

  /** The ids below n that hold an account. */
  function KeysBelow(accounts: Registry, n: int): set<int> {
    set id | id in accounts && 0 <= id < n
  }

  /** Listing the ids below n yields as many accounts as there are keys below n. */
  lemma {:induction false} ListedLength(accounts: Registry, n: int)
    ensures |Listed(accounts, n)| == |KeysBelow(accounts, n)|
    decreases n
  {
    if n > 0 {
      ListedLength(accounts, n - 1);
      assert KeysBelow(accounts, n) == KeysBelow(accounts, n - 1) + (if n - 1 in accounts then {n - 1} else {});
    } else {
      assert KeysBelow(accounts, n) == {};
    }
  }

  /**
   * Every listed entry is the account stored under its own id, which lies below n,
   * and the ids increase along the list.
   */
  lemma {:induction false} ListedEntries(accounts: Registry, n: int)
    requires forall id :: id in accounts ==> accounts[id].id == id
    ensures forall i :: 0 <= i < |Listed(accounts, n)| ==>
      && 0 <= Listed(accounts, n)[i].id < n
      && Listed(accounts, n)[i].id in accounts
      && accounts[Listed(accounts, n)[i].id] == Listed(accounts, n)[i]
    ensures forall i, j :: 0 <= i < j < |Listed(accounts, n)| ==> Listed(accounts, n)[i].id < Listed(accounts, n)[j].id
    decreases n
  {
    if n > 0 {
      ListedEntries(accounts, n - 1);
    }
  }

  /** Every account stored under an id below n is listed. */
  lemma {:induction false} ListedCovers(accounts: Registry, n: int)
    requires forall id :: id in accounts ==> accounts[id].id == id
    ensures forall id :: id in accounts && 0 <= id < n ==>
      exists i :: 0 <= i < |Listed(accounts, n)| && Listed(accounts, n)[i].id == id
    decreases n
  {
    if n > 0 {
      ListedCovers(accounts, n - 1);
      var before := Listed(accounts, n - 1);
      forall id | id in accounts && 0 <= id < n
        ensures exists i :: 0 <= i < |Listed(accounts, n)| && Listed(accounts, n)[i].id == id
      {
        if id < n - 1 {
          var i :| 0 <= i < |before| && before[i].id == id;
          assert Listed(accounts, n)[i] == before[i];
        } else {
          assert Listed(accounts, n)[|Listed(accounts, n)| - 1].id == id;
        }
      }
    }
  }

  /** Listing a well-formed store up to its counter yields every stored account once. */
  lemma ListedAll(s: Store)
    requires WellFormed(s)
    ensures |Listed(s.accounts, s.counter)| == |s.accounts|
    ensures forall i :: 0 <= i < |Listed(s.accounts, s.counter)| ==>
      Listed(s.accounts, s.counter)[i].id in s.accounts &&
      s.accounts[Listed(s.accounts, s.counter)[i].id] == Listed(s.accounts, s.counter)[i]
    ensures forall i, j :: 0 <= i < j < |Listed(s.accounts, s.counter)| ==>
      Listed(s.accounts, s.counter)[i].id != Listed(s.accounts, s.counter)[j].id
    ensures forall id :: id in s.accounts ==>
      exists i :: 0 <= i < |Listed(s.accounts, s.counter)| && Listed(s.accounts, s.counter)[i].id == id
  {
    ListedLength(s.accounts, s.counter);
    ListedEntries(s.accounts, s.counter);
    ListedCovers(s.accounts, s.counter);
    assert KeysBelow(s.accounts, s.counter) == s.accounts.Keys;
  }

  // ---------------------------------------------------------------- transfer

  /**
   * The order in which a transfer takes the two account locks: the larger id first.
   * The result is the pair of ids in some order, larger first, so it does not
   * depend on the direction of the transfer.
   */
  function LockOrder(sourceId: int, receiverId: int): (order: (int, int))
    ensures order.0 >= order.1
    ensures (order.0 == sourceId && order.1 == receiverId) || (order.0 == receiverId && order.1 == sourceId)
  {
    if sourceId > receiverId then (sourceId, receiverId) else (receiverId, sourceId)
  }

  /** Transfers A to B and B to A take the locks in the same order. */
  lemma LockOrderSymmetric(a: int, b: int)
    ensures LockOrder(a, b) == LockOrder(b, a)
  {
  }

  /** The registry after taking amount from the balance of the account under id. */
  function Withdrawn(accounts: Registry, id: int, amount: int): (r: Registry)
    requires id in accounts
    ensures r.Keys == accounts.Keys
    ensures r[id] == accounts[id].(balance := accounts[id].balance - amount)
    ensures forall k :: k in accounts && k != id ==> r[k] == accounts[k]
  {
    var source := accounts[id];
    accounts[id := source.(balance := source.balance - amount)]
  }

  /** The registry after adding amount to the balance of the account under id. */
  function Deposited(accounts: Registry, id: int, amount: int): (r: Registry)
    requires id in accounts
    ensures r.Keys == accounts.Keys
    ensures r[id] == accounts[id].(balance := accounts[id].balance + amount)
    ensures forall k :: k in accounts && k != id ==> r[k] == accounts[k]
  {
    var receiver := accounts[id];
    accounts[id := receiver.(balance := receiver.balance + amount)]
  }

  /**
   * A transfer of amount from sourceId to receiverId. An absent account fails
   * first; a source balance below amount fails next; otherwise the source is
   * debited and then the receiver credited, reading the balance again, so a
   * self-transfer nets to nothing. Nothing changes on failure.
   */
  function Transfer(accounts: Registry, sourceId: int, receiverId: int, amount: int): (r: TransferResult)
    ensures r.outcome == MissingAccount <==> sourceId !in accounts || receiverId !in accounts
    ensures r.outcome == InsufficientFunds <==>
      sourceId in accounts && receiverId in accounts && accounts[sourceId].balance < amount
    ensures r.outcome != Ok ==> r.accounts == accounts
    ensures r.accounts.Keys == accounts.Keys
    ensures forall id :: id in accounts ==>
      r.accounts[id].id == accounts[id].id && r.accounts[id].name == accounts[id].name
    ensures r.outcome == Ok && sourceId != receiverId ==>
      && r.accounts[sourceId].balance == accounts[sourceId].balance - amount
      && r.accounts[receiverId].balance == accounts[receiverId].balance + amount
    ensures forall id :: id in accounts && id != sourceId && id != receiverId ==> r.accounts[id] == accounts[id]
    ensures r.outcome == Ok && sourceId == receiverId ==> r.accounts == accounts
  {
    if sourceId !in accounts || receiverId !in accounts then
      TransferResult(MissingAccount, accounts)
    else if accounts[sourceId].balance < amount then
      TransferResult(InsufficientFunds, accounts)
    else
      TransferResult(Ok, Deposited(Withdrawn(accounts, sourceId, amount), receiverId, amount))
  }

  /** A transfer keeps the store well-formed. */
  lemma TransferWellFormed(s: Store, sourceId: int, receiverId: int, amount: int)
    requires WellFormed(s)
    ensures WellFormed(Store(Transfer(s.accounts, sourceId, receiverId, amount).accounts, s.counter))
  {
  }

  /** The registry after running the transfers (source, receiver, amount) one after another. */
  function TransferAll(accounts: Registry, transfers: seq<(int, int, int)>): (r: Registry)
    ensures r.Keys == accounts.Keys
    decreases |transfers|
  {
    if transfers == [] then accounts
    else
      var t := transfers[0];
      TransferAll(Transfer(accounts, t.0, t.1, t.2).accounts, transfers[1..])
  }

  /** Each transfer of the run succeeds on the registry the ones before it leave. */
  predicate AllOk(accounts: Registry, transfers: seq<(int, int, int)>)
    decreases |transfers|
  {
    transfers == [] ||
      var t := transfers[0];
      var result := Transfer(accounts, t.0, t.1, t.2);
      result.outcome == Ok && AllOk(result.accounts, transfers[1..])
  }

  /** The amounts the transfers take from id. */
  function Debits(transfers: seq<(int, int, int)>, id: int): int
    decreases |transfers|
  {
    if transfers == [] then 0
    else (if transfers[0].0 == id then transfers[0].2 else 0) + Debits(transfers[1..], id)
  }

  /** The amounts the transfers give to id. */
  function Credits(transfers: seq<(int, int, int)>, id: int): int
    decreases |transfers|
  {
    if transfers == [] then 0
    else (if transfers[0].1 == id then transfers[0].2 else 0) + Credits(transfers[1..], id)
  }

  /**
   * Transfers of non-negative amounts between existing accounts, where each
   * source holds at least everything the run takes from it, all succeed one
   * after another; every balance ends at its initial value plus what the run
   * gives to it minus what it takes from it, whatever the order.
   */
  lemma {:induction false} TransferAllNet(accounts: Registry, transfers: seq<(int, int, int)>)
    requires forall n :: 0 <= n < |transfers| ==>
      transfers[n].0 in accounts && transfers[n].1 in accounts && transfers[n].2 >= 0
    requires forall n :: 0 <= n < |transfers| ==>
      accounts[transfers[n].0].balance >= Debits(transfers, transfers[n].0)
    ensures AllOk(accounts, transfers)
    ensures forall id :: id in accounts ==>
      TransferAll(accounts, transfers)[id].balance ==
        accounts[id].balance + Credits(transfers, id) - Debits(transfers, id)
    decreases |transfers|
  {
    if transfers != [] {
      var t := transfers[0];
      var rest := transfers[1..];
      assert Debits(transfers, t.0) >= t.2 by { DebitsNonNegative(rest, t.0); }
      var result := Transfer(accounts, t.0, t.1, t.2);
      assert result.outcome == Ok;
      var next := result.accounts;
      forall id | id in accounts
        ensures next[id].balance == accounts[id].balance
          + (if t.1 == id then t.2 else 0) - (if t.0 == id then t.2 else 0)
      {
      }
      forall n | 0 <= n < |rest|
        ensures next[rest[n].0].balance >= Debits(rest, rest[n].0)
      {
        assert rest[n] == transfers[n + 1];
      }
      forall n | 0 <= n < |rest|
        ensures rest[n].0 in next && rest[n].1 in next && rest[n].2 >= 0
      {
        assert rest[n] == transfers[n + 1];
      }
      TransferAllNet(next, rest);
    }
  }

  /** A run of non-negative transfers takes a non-negative amount from each account. */
  lemma {:induction false} DebitsNonNegative(transfers: seq<(int, int, int)>, id: int)
    requires forall n :: 0 <= n < |transfers| ==> transfers[n].2 >= 0
    ensures Debits(transfers, id) >= 0
    decreases |transfers|
  {
    if transfers != [] {
      assert forall n :: 0 <= n < |transfers[1..]| ==> transfers[1..][n] == transfers[n + 1];
      DebitsNonNegative(transfers[1..], id);
    }
  }

  // ---------------------------------------------------------------- totals

  /** The balance stored under id, or 0 if there is none. */
  function BalanceOf(accounts: Registry, id: int): int {
    if id in accounts then accounts[id].balance else 0
  }

  /** The sum of the balances stored under the ids 0, 1, ..., n - 1. */
  function Sum(accounts: Registry, n: int): int
    decreases n
  {
    if n <= 0 then 0 else Sum(accounts, n - 1) + BalanceOf(accounts, n - 1)
  }

  /** The sum of all balances: on a well-formed store every id lies below the counter. */
  function Total(s: Store): int {
    Sum(s.accounts, s.counter)
  }

  /** Storing an account under id changes the sum below n by the change of that one balance. */
  lemma {:induction false} SumUpdate(accounts: Registry, id: int, account: Account, n: int)
    ensures Sum(accounts[id := account], n) ==
      Sum(accounts, n) + (if 0 <= id < n then account.balance - BalanceOf(accounts, id) else 0)
    decreases n
  {
    if n > 0 {
      SumUpdate(accounts, id, account, n - 1);
    }
  }

  /** A transfer, whatever its outcome, leaves the sum of all balances unchanged. */
  lemma TransferConservesTotal(s: Store, sourceId: int, receiverId: int, amount: int)
    requires WellFormed(s)
    ensures Total(Store(Transfer(s.accounts, sourceId, receiverId, amount).accounts, s.counter)) == Total(s)
  {
    if Transfer(s.accounts, sourceId, receiverId, amount).outcome == Ok {
      var debited := Withdrawn(s.accounts, sourceId, amount);
      SumUpdate(s.accounts, sourceId, debited[sourceId], s.counter);
      SumUpdate(debited, receiverId, debited[receiverId].(balance := debited[receiverId].balance + amount), s.counter);
    }
  }

  /** Creating an account adds exactly its initial balance to the total. */
  lemma AddedTotal(s: Store, name: string, balance: int)
    requires WellFormed(s)
    ensures Total(Added(s, name, balance)) == Total(s) + balance
  {
    SumUpdate(s.accounts, s.counter, Account(s.counter, name, balance), s.counter);
  }
}
