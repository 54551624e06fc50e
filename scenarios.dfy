/**
 * The repository's unit-test scenarios, restated as sequential methods and
 * proved from the contracts of the store and the facade alone. Where the tests
 * start threads, each scenario method makes the same calls one after another in
 * the order they are written. Lemmas beside them state the same results for
 * every order in which the eight creations, or the three transfers of each
 * transfer test, can follow each other.
 */
module Scenarios {
  import opened Ledger
  import opened Data
  import TransferService

  /** The name/balance pairs the store tests create, in order. */
  const ExpectedAccounts: seq<(string, int)> := [
    ("anna", 1000), ("john", 2000), ("tom", 1500), ("alex", 2350),
    ("kate", 4000), ("denis", 2300), ("helen", 4000), ("john", 2300)
  ]

  /** Creates one account per entry, in order, returning the ids handed out. */
  method CreateAccounts(storage: DataStorage, entries: seq<(string, int)>) returns (ids: seq<int>)
    requires storage.Valid()
    modifies storage
    ensures storage.Valid()
    ensures storage.State() == AddedAll(old(storage.State()), entries)
    ensures |ids| == |entries|
    ensures forall i :: 0 <= i < |ids| ==> ids[i] == old(storage.accountId) + i
  {
    ids := [];
    for k := 0 to |entries|
      invariant storage.Valid()
      invariant storage.State() == AddedAll(old(storage.State()), entries[..k])
      invariant storage.accountId == old(storage.accountId) + k
      invariant |ids| == k
      invariant forall i :: 0 <= i < k ==> ids[i] == old(storage.accountId) + i
    {
      AddedAllSnoc(old(storage.State()), entries[..k], entries[k]);
      assert entries[..k + 1] == entries[..k] + [entries[k]];
      var id := storage.AddAccount(entries[k].0, entries[k].1);
      ids := ids + [id];
    }
    assert entries[..|entries|] == entries;
  }

  /** A reset store followed by the creations of the store tests. */
  method SetUpAccounts() returns (storage: DataStorage)
    ensures fresh(storage) && storage.Valid()
    ensures storage.accountId == |storage.accounts| == |ExpectedAccounts|
    ensures forall id :: id in storage.accounts <==> 0 <= id < |ExpectedAccounts|
    ensures forall i :: 0 <= i < |ExpectedAccounts| ==>
      storage.accounts[i] == Account(i, ExpectedAccounts[i].0, ExpectedAccounts[i].1)
  {
    storage := new DataStorage();
    storage.ClearDataStorage();
    var ids := CreateAccounts(storage, ExpectedAccounts);
    AddedAllAfterClear(ExpectedAccounts);
  }

  /** Two creations after a reset get the ids 0 and 1 and keep their names. */
  method CreateAndGetAnAccount() returns (id1: int, id2: int, name1: string, name2: string)
    ensures id1 == 0 && id2 == 1
    ensures name1 == "user1" && name2 == "user2"
  {
    var storage := new DataStorage();
    storage.ClearDataStorage();
    id1 := TransferService.CreateAccount(storage, "user1", 1700);
    id2 := TransferService.CreateAccount(storage, "user2", 2000);
    var account1 := storage.GetAccount(0);
    var account2 := storage.GetAccount(1);
    name1 := account1.value.name;
    name2 := account2.value.name;
  }

  /** Moving 200 from account 0 (1700) to account 1 (2000) answers 200 and leaves 1500 and 2200. */
  method TransferMoneySuccessfully() returns (status: int, balance0: int, balance1: int)
    ensures status == 200
    ensures balance0 == 1500 && balance1 == 2200
  {
    var storage := new DataStorage();
    storage.ClearDataStorage();
    var id1 := TransferService.CreateAccount(storage, "user1", 1700);
    var id2 := TransferService.CreateAccount(storage, "user2", 2000);
    status := TransferService.TransferMoney(storage, 0, 1, 200);
    var account1 := storage.GetAccount(0);
    var account2 := storage.GetAccount(1);
    balance0 := account1.value.balance;
    balance1 := account2.value.balance;
  }

  /** Moving 3000 from account 1 (2000) answers 406 and leaves both balances as they were. */
  method TransferMoneyExceedingBalance() returns (status: int, balance0: int, balance1: int)
    ensures status == 406
    ensures balance0 == 1700 && balance1 == 2000
  {
    var storage := new DataStorage();
    storage.ClearDataStorage();
    var id1 := TransferService.CreateAccount(storage, "user1", 1700);
    var id2 := TransferService.CreateAccount(storage, "user2", 2000);
    status := TransferService.TransferMoney(storage, 1, 0, 3000);
    var account1 := storage.GetAccount(0);
    var account2 := storage.GetAccount(1);
    balance0 := account1.value.balance;
    balance1 := account2.value.balance;
  }

  /** Eight creations give eight accounts with distinct ids and the expected name/balance pairs. */
  method CreateAccountThreadSafely() returns (list: seq<Account>)
    ensures |list| == |ExpectedAccounts|
    ensures forall i, j :: 0 <= i < j < |list| ==> list[i].id != list[j].id
    ensures forall k :: 0 <= k < |ExpectedAccounts| ==> HasEntry(list, ExpectedAccounts[k])
  {
    var storage := SetUpAccounts();
    list := storage.GetAllAccounts();
    ListedFindsEntries(storage.accounts, list, ExpectedAccounts);
  }

  /** Some account in the list has the entry's name and balance. */
  predicate HasEntry(list: seq<Account>, entry: (string, int)) {
    exists i :: 0 <= i < |list| && list[i].name == entry.0 && list[i].balance == entry.1
  }

  /**
   * A listing that covers every id of a registry whose accounts 0 .. N - 1 hold
   * the given entries contains every entry's name/balance pair.
   */
  lemma ListedFindsEntries(accounts: Registry, list: seq<Account>, entries: seq<(string, int)>)
    requires forall i :: 0 <= i < |entries| ==> i in accounts && accounts[i] == Account(i, entries[i].0, entries[i].1)
    requires forall i :: 0 <= i < |list| ==> list[i].id in accounts && accounts[list[i].id] == list[i]
    requires forall id :: id in accounts ==> exists i :: 0 <= i < |list| && list[i].id == id
    ensures forall k :: 0 <= k < |entries| ==> HasEntry(list, entries[k])
  {
    forall k | 0 <= k < |entries|
      ensures HasEntry(list, entries[k])
    {
      assert k in accounts;
      var i :| 0 <= i < |list| && list[i].id == k;
      assert list[i] == accounts[k];
    }
  }

  /**
   * Creating the same name/balance pairs in any order lists as many accounts as
   * pairs, with distinct ids, and every pair of the target among them.
   */
  lemma CreationAnyOrder(entries: seq<(string, int)>, target: seq<(string, int)>)
    requires multiset(entries) == multiset(target)
    ensures var s := AddedAll(Empty, entries);
      var list := Listed(s.accounts, s.counter);
      && |list| == |target|
      && (forall i, j :: 0 <= i < j < |list| ==> list[i].id != list[j].id)
      && (forall k :: 0 <= k < |target| ==> HasEntry(list, target[k]))
  {
    var s := AddedAll(Empty, entries);
    var list := Listed(s.accounts, s.counter);
    AddedAllAfterClear(entries);
    ListedAll(s);
    ListedFindsEntries(s.accounts, list, entries);
    assert |entries| == |multiset(entries)| == |multiset(target)| == |target|;
    forall k | 0 <= k < |target|
      ensures HasEntry(list, target[k])
    {
      assert target[k] in multiset(target);
      assert target[k] in multiset(entries);
      var i :| 0 <= i < |entries| && entries[i] == target[k];
      assert HasEntry(list, entries[i]);
    }
  }

  /**
   * Whichever order the eight creations of the thread-safety test follow each
   * other in, the listing holds eight accounts with distinct ids and every
   * expected name/balance pair.
   */
  lemma CreateAccountThreadSafelyAnyOrder(entries: seq<(string, int)>)
    requires multiset(entries) == multiset(ExpectedAccounts)
    ensures var s := AddedAll(Empty, entries);
      var list := Listed(s.accounts, s.counter);
      && |list| == |ExpectedAccounts|
      && (forall i, j :: 0 <= i < j < |list| ==> list[i].id != list[j].id)
      && (forall k :: 0 <= k < |ExpectedAccounts| ==> HasEntry(list, ExpectedAccounts[k]))
  {
    CreationAnyOrder(entries, ExpectedAccounts);
  }

  /** Transfers 0 to 7, 1 to 7 and 7 to 5 all succeed and leave the balances the test expects. */
  method SendMoneyToTheAccountMakingTransfer() returns (balance1: int, balance7: int, balance5: int, balance0: int)
    ensures balance1 == 2000 - 200
    ensures balance7 == 2300 + 200 + 250 - 300
    ensures balance5 == 2300 + 300
    ensures balance0 == 1000 - 250
  {
    var storage := SetUpAccounts();
    var outcome := storage.RecordTransfer(0, 7, 250);
    outcome := storage.RecordTransfer(1, 7, 200);
    outcome := storage.RecordTransfer(7, 5, 300);
    var account1 := storage.GetAccount(1);
    var account7 := storage.GetAccount(7);
    var account5 := storage.GetAccount(5);
    var account0 := storage.GetAccount(0);
    balance1, balance7 := account1.value.balance, account7.value.balance;
    balance5, balance0 := account5.value.balance, account0.value.balance;
  }

  /** Transfers 0 to 7, 2 to 7 and 7 to 0, in both directions between 0 and 7, leave the expected balances. */
  method SendMoneyWithDeadlockPossibility() returns (balance7: int, balance2: int, balance0: int)
    ensures balance7 == 2300 + 250 + 200 - 300
    ensures balance2 == 1500 - 200
    ensures balance0 == 1000 - 250 + 300
  {
    var storage := SetUpAccounts();
    var outcome := storage.RecordTransfer(0, 7, 250);
    outcome := storage.RecordTransfer(2, 7, 200);
    outcome := storage.RecordTransfer(7, 0, 300);
    var account7 := storage.GetAccount(7);
    var account2 := storage.GetAccount(2);
    var account0 := storage.GetAccount(0);
    balance7, balance2, balance0 := account7.value.balance, account2.value.balance, account0.value.balance;
  }

  /** The three transfers of the first threaded transfer test. */
  const MakingTransfer: seq<(int, int, int)> := [(0, 7, 250), (1, 7, 200), (7, 5, 300)]

  /** The three transfers of the second threaded transfer test, two of them between 0 and 7 in opposite directions. */
  const DeadlockPossibility: seq<(int, int, int)> := [(0, 7, 250), (2, 7, 200), (7, 0, 300)]

  /** Some order of the three transfers: i, j and k are 0, 1 and 2 in some order. */
  predicate IsOrderOfThree(i: int, j: int, k: int) {
    0 <= i < 3 && 0 <= j < 3 && 0 <= k < 3 && i != j && j != k && i != k
  }

  /** What a run of three transfers takes from and gives to an account. */
  lemma RunOfThree(a: (int, int, int), b: (int, int, int), c: (int, int, int), id: int)
    ensures Debits([a, b, c], id) ==
      (if a.0 == id then a.2 else 0) + (if b.0 == id then b.2 else 0) + (if c.0 == id then c.2 else 0)
    ensures Credits([a, b, c], id) ==
      (if a.1 == id then a.2 else 0) + (if b.1 == id then b.2 else 0) + (if c.1 == id then c.2 else 0)
  {
    assert [a, b, c][1..] == [b, c];
    assert [b, c][1..] == [c];
    assert [c][1..] == [];
    assert Debits([c], id) == (if c.0 == id then c.2 else 0);
    assert Credits([c], id) == (if c.1 == id then c.2 else 0);
    assert Debits([b, c], id) == (if b.0 == id then b.2 else 0) + Debits([c], id);
    assert Credits([b, c], id) == (if b.1 == id then b.2 else 0) + Credits([c], id);
  }

  /** Running three transfers in another order takes and gives the same amounts. */
  lemma ReorderedThree(ts: seq<(int, int, int)>, i: int, j: int, k: int, id: int)
    requires |ts| == 3 && IsOrderOfThree(i, j, k)
    ensures Debits([ts[i], ts[j], ts[k]], id) == Debits(ts, id)
    ensures Credits([ts[i], ts[j], ts[k]], id) == Credits(ts, id)
  {
    RunOfThree(ts[i], ts[j], ts[k], id);
    RunOfThree(ts[0], ts[1], ts[2], id);
    assert ts == [ts[0], ts[1], ts[2]];
  }

  /**
   * Whichever order the transfers 0 to 7, 1 to 7 and 7 to 5 run in, one after
   * another, each succeeds and the balances end as the test expects.
   */
  lemma MakingTransferAnyOrder(accounts: Registry, i: int, j: int, k: int)
    requires IsOrderOfThree(i, j, k)
    requires 0 in accounts && 1 in accounts && 5 in accounts && 7 in accounts
    requires accounts[0].balance == 1000 && accounts[1].balance == 2000
    requires accounts[5].balance == 2300 && accounts[7].balance == 2300
    ensures AllOk(accounts, [MakingTransfer[i], MakingTransfer[j], MakingTransfer[k]])
    ensures var r := TransferAll(accounts, [MakingTransfer[i], MakingTransfer[j], MakingTransfer[k]]);
      && r[1].balance == 2000 - 200
      && r[7].balance == 2300 + 200 + 250 - 300
      && r[5].balance == 2300 + 300
      && r[0].balance == 1000 - 250
  {
    var run := [MakingTransfer[i], MakingTransfer[j], MakingTransfer[k]];
    var ts := MakingTransfer;
    ReorderedThree(ts, i, j, k, 0);
    ReorderedThree(ts, i, j, k, 1);
    ReorderedThree(ts, i, j, k, 5);
    ReorderedThree(ts, i, j, k, 7);
    RunOfThree(ts[0], ts[1], ts[2], 0);
    RunOfThree(ts[0], ts[1], ts[2], 1);
    RunOfThree(ts[0], ts[1], ts[2], 5);
    RunOfThree(ts[0], ts[1], ts[2], 7);
    assert ts == [ts[0], ts[1], ts[2]];
    assert Debits(run, 0) == 250 && Debits(run, 1) == 200 && Debits(run, 7) == 300;
    assert Credits(run, 0) == 0 && Credits(run, 1) == 0 && Credits(run, 5) == 300 && Credits(run, 7) == 450;
    assert Debits(run, 5) == 0;
    assert forall n :: 0 <= n < 3 ==> run[n] in ts;
    TransferAllNet(accounts, run);
  }

  /**
   * Whichever order the transfers 0 to 7, 2 to 7 and 7 to 0 run in, one after
   * another, each succeeds and the balances end as the test expects.
   */
  lemma DeadlockPossibilityAnyOrder(accounts: Registry, i: int, j: int, k: int)
    requires IsOrderOfThree(i, j, k)
    requires 0 in accounts && 2 in accounts && 7 in accounts
    requires accounts[0].balance == 1000 && accounts[2].balance == 1500 && accounts[7].balance == 2300
    ensures AllOk(accounts, [DeadlockPossibility[i], DeadlockPossibility[j], DeadlockPossibility[k]])
    ensures var r := TransferAll(accounts, [DeadlockPossibility[i], DeadlockPossibility[j], DeadlockPossibility[k]]);
      && r[7].balance == 2300 + 250 + 200 - 300
      && r[2].balance == 1500 - 200
      && r[0].balance == 1000 - 250 + 300
  {
    var run := [DeadlockPossibility[i], DeadlockPossibility[j], DeadlockPossibility[k]];
    var ts := DeadlockPossibility;
    ReorderedThree(ts, i, j, k, 0);
    ReorderedThree(ts, i, j, k, 2);
    ReorderedThree(ts, i, j, k, 7);
    RunOfThree(ts[0], ts[1], ts[2], 0);
    RunOfThree(ts[0], ts[1], ts[2], 2);
    RunOfThree(ts[0], ts[1], ts[2], 7);
    assert ts == [ts[0], ts[1], ts[2]];
    assert Debits(run, 0) == 250 && Debits(run, 2) == 200 && Debits(run, 7) == 300;
    assert Credits(run, 0) == 300 && Credits(run, 2) == 0 && Credits(run, 7) == 450;
    assert forall n :: 0 <= n < 3 ==> run[n] in ts;
    TransferAllNet(accounts, run);
  }
}
