# Account ledger of the e-payments transfer service

This project models the in-memory account ledger of a small money-transfer
service, and the facade in front of it, in Dafny.

The ledger (`DataStorage`) keeps a registry from integer id to account and an id
counter. The counter starts at 0 and advances by one on every creation. The
ledger can create an account, look one up, list all of them, transfer an amount
between two of them, and reset itself. A transfer looks up both accounts. It
takes their locks larger id first, checks the source balance, and only then
debits the source and credits the receiver. The facade (`TransferService`)
hands account creation to the ledger unchanged. It maps the outcome of a
transfer to a response status: 200, 406 or 500.

Files:

- `ledger.dfy`, module `Ledger`: the ledger as a sequential state machine on
  values. It holds the `Account` and `Store` datatypes, the invariant
  `WellFormed`, and a specification function with its own contract for each of
  `Get`, `Added`, `LockOrder`, `Withdrawn`, `Deposited` and `Transfer`. The
  plainly defined functions `AddedAll` (N creations), `Listed` (the listing,
  by increasing id), `TransferAll` (a run of transfers) and `Total` (the sum of
  all balances) are described by lemmas instead: fresh ids, the list returned by
  a listing, the net effect of a run, and conservation of the total balance.
- `data_storage.dfy`, module `Data`: class `DataStorage`. Its fields are
  `accounts` and `accountId`, and its methods change them in place. Each method
  is proved against the function of the same operation in `Ledger`, and keeps
  the invariant `Valid()`.
- `transfer_service.dfy`, module `TransferService`: the status mapping `Status`
  and the two facade operations.
- `scenarios.dfy`, module `Scenarios`: the repository's unit-test scenarios,
  restated as sequential methods. Each one is proved from the contracts above
  alone, and its postcondition states the values the test asserts. For each of
  the three threaded tests, a lemma also states the same results for every
  serial order of its calls.

Modelling choices:

- An account is a value, `Account(id, name, balance)`. `withdraw` and `deposit`
  change the balance of the one object stored under an id. The model rewrites
  that map entry instead, and each step reads the entry's current balance. This
  matches the code, because both steps read the balance from that same object.
  It is why a self-transfer nets to zero.
- The registry lookup of the source (`ConcurrentHashMap.get`) returns `null`
  for an absent key. This is `Get`, which returns `None`. Entering a
  `synchronized` block on a missing account throws a `NullPointerException`
  before any balance is read. In the model that is the outcome `MissingAccount`.
  The insufficient-funds `IllegalArgumentException` is the outcome
  `InsufficientFunds`.
- An unknown account is not checked for before locking. The code fails with a
  null dereference on entering the lock, so the facade answers 500, not the 406
  of a rejected request. The model follows the code.
- Amounts are not validated. The only check is that the source balance is at
  least the amount. A negative amount passes that check whenever the source
  balance is at least that amount (always, if the source balance is
  non-negative), and then moves money from the receiver to the source. The
  model does the same.
- `getAccount` on an absent id throws `IllegalArgumentException`. Here
  `GetAccount` returns `None` for it.

## Model

| member | source | states |
|---|---|---|
| `Ledger.Get` | src/main/java/com/epayments/data/DataStorage.java:46-47 | the lookup yields an account exactly when the id is a key, and then the account stored under it |
| `Ledger.Added` | src/main/java/com/epayments/data/DataStorage.java:28-31 | creation advances the counter by one; on a well-formed store the counter's old value is not yet a key, so the insert always happens, the new account holds that id, name and balance, and the store stays well-formed |
| `Ledger.AddedAllFresh` | src/main/java/com/epayments/data/DataStorage.java:28-31 | N creations use the ids counter .. counter+N-1 in call order, add exactly N accounts with the given name/balance pairs, and leave older accounts untouched |
| `Ledger.AddedAllAfterClear` | src/main/java/com/epayments/data/DataStorage.java:115-118 | after a reset, N creations give exactly the ids 0 .. N-1, account i holding the i-th name and balance, N accounts in all |
| `Ledger.ListedLength` | src/main/java/com/epayments/data/DataStorage.java:86-88 | the listing has one entry per key visited |
| `Ledger.ListedEntries` | src/main/java/com/epayments/data/DataStorage.java:86-88 | every listed entry is the account stored under its own id, and no id is listed twice |
| `Ledger.ListedCovers` | src/main/java/com/epayments/data/DataStorage.java:86-88 | every stored account within the range visited appears in the listing |
| `Ledger.ListedAll` | src/main/java/com/epayments/data/DataStorage.java:86-88 | listing a well-formed store gives exactly one entry per stored account: as many entries as accounts, each one stored, ids distinct, none missing |
| `Ledger.LockOrder` | src/main/java/com/epayments/data/DataStorage.java:50-56 | the first lock is the larger of the two ids and the second the other one |
| `Ledger.LockOrderSymmetric` | src/main/java/com/epayments/data/DataStorage.java:48-56 | transfers A to B and B to A take the locks in the same order |
| `Ledger.Withdrawn` | src/main/java/com/epayments/data/DataStorage.java:106-110 | only the account under the id changes, and its balance drops by the amount |
| `Ledger.Deposited` | src/main/java/com/epayments/data/DataStorage.java:95-99 | only the account under the id changes, and its balance rises by the amount |
| `Ledger.Transfer` | src/main/java/com/epayments/data/DataStorage.java:41-67 | an absent source or receiver fails whatever the balances; otherwise a source balance below the amount fails; any failure changes nothing; on success between distinct ids the source drops by the amount and the receiver rises by it; every other account, every id and every name stays as it was; a successful self-transfer changes nothing |
| `Ledger.TransferWellFormed` | src/main/java/com/epayments/data/DataStorage.java:41-67 | a transfer keeps the store's invariant |
| `Ledger.TransferConservesTotal` | src/main/java/com/epayments/data/DataStorage.java:58-66 | the sum of all balances is the same after a transfer, whatever its outcome |
| `Ledger.AddedTotal` | src/main/java/com/epayments/data/DataStorage.java:28-31 | creating an account adds exactly its initial balance to the sum of all balances |
| `Data.DataStorage.constructor` | src/main/java/com/epayments/data/DataStorage.java:16-20 | a new store is empty, its counter is 0, and it is valid |
| `Data.DataStorage.AddAccount` | src/main/java/com/epayments/data/DataStorage.java:28-32 | returns the counter's old value, which was not a key; the counter advances by one; the registry gains exactly that account; the store stays valid |
| `Data.DataStorage.RecordTransfer` | src/main/java/com/epayments/data/DataStorage.java:41-67 | the outcome and the new registry are those of `Transfer` on the old registry; the counter is unchanged; the store stays valid |
| `Data.DataStorage.GetAccount` | src/main/java/com/epayments/data/DataStorage.java:74-80 | fails exactly when the id is absent, and otherwise returns the stored account |
| `Data.DataStorage.GetAllAccounts` | src/main/java/com/epayments/data/DataStorage.java:86-88 | returns one entry per stored account: as many entries as accounts, each entry the account stored under its id, ids distinct, every account present |
| `Data.DataStorage.Withdraw` | src/main/java/com/epayments/data/DataStorage.java:106-110 | the registry becomes `Withdrawn` of the old one; the counter is unchanged |
| `Data.DataStorage.Deposit` | src/main/java/com/epayments/data/DataStorage.java:95-99 | the registry becomes `Deposited` of the old one; the counter is unchanged |
| `Data.DataStorage.ClearDataStorage` | src/main/java/com/epayments/data/DataStorage.java:115-118 | the registry is emptied and the counter reset to 0 |
| `TransferService.Status` | src/main/java/com/epayments/TransferService.java:40-47 | 200 exactly for a normal return, 406 exactly for insufficient funds, 500 exactly for a missing account: every outcome gets exactly one of the three |
| `TransferService.TransferStatus` | src/main/java/com/epayments/TransferService.java:38-48 | the status, in terms of the store: 200 exactly when both accounts exist and the source covers the amount; 406 exactly when both exist and it does not; 500 exactly when one is absent; the store is unchanged unless 200 |
| `TransferService.CreateAccount` | src/main/java/com/epayments/TransferService.java:25-27 | returns exactly the id the store hands out, with the store's creation effect |
| `TransferService.TransferMoney` | src/main/java/com/epayments/TransferService.java:38-48 | answers `Status` of the store's transfer outcome and leaves the store as that transfer does |
| `Scenarios.CreateAccounts` | src/test/java/com/epayments/data/DataStorageTest.java:36-40 | creating a list of accounts in order returns the consecutive ids from the counter, and moves the store on as N creations do |
| `Scenarios.SetUpAccounts` | src/test/java/com/epayments/data/DataStorageTest.java:20-40 | after a reset and the eight creations, the ids are 0 .. 7 and account i holds the i-th expected name and balance |
| `Scenarios.CreateAndGetAnAccount` | src/test/java/com/epayments/TransferServiceTest.java:25-36 | after a reset the two creations get ids 0 and 1, and lookups give back the names user1 and user2 |
| `Scenarios.TransferMoneySuccessfully` | src/test/java/com/epayments/TransferServiceTest.java:38-49 | moving 200 from 1700 to 2000 answers 200 and leaves 1500 and 2200 |
| `Scenarios.TransferMoneyExceedingBalance` | src/test/java/com/epayments/TransferServiceTest.java:51-62 | moving 3000 out of 2000 answers 406 and leaves 1700 and 2000 |
| `Scenarios.CreateAccountThreadSafely` | src/test/java/com/epayments/data/DataStorageTest.java:42-82 | eight creations list eight accounts with distinct ids, and every expected name/balance pair is among them |
| `Scenarios.ListedFindsEntries` | src/test/java/com/epayments/data/DataStorageTest.java:79-81 | a listing covering every account contains every created name/balance pair |
| `Scenarios.SendMoneyToTheAccountMakingTransfer` | src/test/java/com/epayments/data/DataStorageTest.java:84-118 | transfers 0→7, 1→7 and 7→5 leave the balances that the test expects |
| `Scenarios.SendMoneyWithDeadlockPossibility` | src/test/java/com/epayments/data/DataStorageTest.java:120-152 | transfers 0→7, 2→7 and 7→0 leave the balances that the test expects |
| `Ledger.TransferAll` | src/main/java/com/epayments/data/DataStorage.java:41-67 | a run of transfers one after another keeps the set of account ids |
| `Ledger.TransferAllNet` | src/main/java/com/epayments/data/DataStorage.java:41-67 | when every transfer of a run names stored accounts and a non-negative amount, and each source holds all it sends in the run, every step succeeds (`AllOk`) and every account ends at its balance plus what the run credits it minus what it debits it |
| `Ledger.DebitsNonNegative` | src/main/java/com/epayments/data/DataStorage.java:41-67 | with non-negative amounts, what a run debits an account is never negative |
| `Scenarios.ReorderedThree` | src/test/java/com/epayments/data/DataStorageTest.java:84-152 | running three transfers in any other order debits and credits each account the same amounts |
| `Scenarios.MakingTransferAnyOrder` | src/test/java/com/epayments/data/DataStorageTest.java:84-118 | in every serial order of 0→7, 1→7 and 7→5, each transfer succeeds and the balances end as the test expects |
| `Scenarios.DeadlockPossibilityAnyOrder` | src/test/java/com/epayments/data/DataStorageTest.java:120-152 | in every serial order of 0→7, 2→7 and 7→0, each transfer succeeds and the balances end as the test expects |
| `Scenarios.CreationAnyOrder` | src/test/java/com/epayments/data/DataStorageTest.java:42-82 | creating any rearrangement of the same name/balance pairs after a reset lists as many accounts as pairs, with distinct ids, and every pair among them |
| `Scenarios.CreateAccountThreadSafelyAnyOrder` | src/test/java/com/epayments/data/DataStorageTest.java:42-82 | in every order of the eight creations, the listing holds eight accounts with distinct ids and every expected name/balance pair, as the test asserts |

## Left out

- Concurrency: the model leaves out the tests' threads, the `synchronized` blocks as mutual exclusion, and the atomicity of `AtomicInteger` and `ConcurrentHashMap`. So deadlock freedom and atomic visibility of the withdraw+deposit pair are not proved. The lock order is modelled only as a pure function of the two ids. The threaded scenarios are restated as their calls one after another in the test's order. The any-order lemmas also cover every serial order: of the eight creations (`CreationAnyOrder`, on the listing of `AddedAll` rather than through the class) and of the three transfers of each transfer test.
- Floating point: balances and amounts are unbounded integers rather than `double`. The tests' 0.001 tolerance and IEEE rounding do not arise.
- HTTP: the JAX-RS annotations, `Response` building and the transport are left out. Only the status codes remain, as integers.
- Static globals: the static fields are fields of one `DataStorage` object, which the facade methods take as a parameter.
- Aliasing of accounts: `getAccount` and `getAllAccounts` return the live `Account` objects, so a later transfer is visible through them. The model returns values, that is, snapshots at the time of the call.
- `Account.java` is not part of this model. It is modelled from its uses: `getId`, `getName`, `getBalance` and `setBalance`.
- Exception messages: the texts of the thrown exceptions are not modelled. Only which exception is thrown matters.
- Data.DataStorage.AddAccount: does not model the 32-bit wrap-around of `AtomicInteger` after 2^31 creations. The counter is unbounded, so ids never repeat.
- Data.DataStorage.GetAllAccounts: its first ensures, `list == Listed(accounts, accountId)`, fixes an increasing-id order, which `ConcurrentHashMap.values()` does not promise. The callers here rely only on the order-free ensures: one entry per stored account, each the stored value, ids distinct, none missing.
