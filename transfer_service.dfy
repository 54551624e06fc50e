/**
 * The transfer facade: account creation is handed to the store unchanged, and
 * the outcome of a store transfer is mapped to a response status.
 */
module TransferService {
  import opened Ledger
  import opened Data

  const StatusOk := 200
  const StatusNotAcceptable := 406
  const StatusInternalServerError := 500

  /**
   * The response status of a transfer: 200 when the store returns normally,
   * 406 for the insufficient-funds IllegalArgumentException, and 500 for any
   * other exception, which is what an absent account produces.
   */
  function Status(outcome: TransferOutcome): (code: int)
    ensures code == StatusOk <==> outcome == Ok
    ensures code == StatusNotAcceptable <==> outcome == InsufficientFunds
    ensures code == StatusInternalServerError <==> outcome == MissingAccount
  {
    match outcome
    case Ok => StatusOk
    case InsufficientFunds => StatusNotAcceptable
    case MissingAccount => StatusInternalServerError
  }

  /**
   * The status of a transfer in terms of the store it runs on: 200 exactly when
   * both accounts exist and the source holds at least amount, 406 exactly when
   * both exist and it holds less, 500 exactly when one is absent; the store is
   * unchanged unless the status is 200.
   */
  lemma TransferStatus(accounts: Registry, sourceId: int, receiverId: int, amount: int)
    ensures var t := Transfer(accounts, sourceId, receiverId, amount);
      && (Status(t.outcome) == StatusOk <==>
            sourceId in accounts && receiverId in accounts && accounts[sourceId].balance >= amount)
      && (Status(t.outcome) == StatusNotAcceptable <==>
            sourceId in accounts && receiverId in accounts && accounts[sourceId].balance < amount)
      && (Status(t.outcome) == StatusInternalServerError <==>
            sourceId !in accounts || receiverId !in accounts)
      && (Status(t.outcome) != StatusOk ==> t.accounts == accounts)
  {
  }

  /** Creates an account in the store and returns exactly the id the store hands out. */
  method CreateAccount(storage: DataStorage, name: string, balance: int) returns (id: int)
    requires storage.Valid()
    modifies storage
    ensures storage.Valid()
    ensures id == old(storage.accountId)
    ensures storage.State() == Added(old(storage.State()), name, balance)
  {
    id := storage.AddAccount(name, balance);
  }

  /** Runs the transfer in the store and answers with the status of its outcome. */
  method TransferMoney(storage: DataStorage, sourceAccount: int, receiverAccount: int, amount: int)
    returns (status: int)
    requires storage.Valid()
    modifies storage
    ensures storage.Valid()
    ensures storage.accountId == old(storage.accountId)
    ensures var t := Transfer(old(storage.accounts), sourceAccount, receiverAccount, amount);
      status == Status(t.outcome) && storage.accounts == t.accounts
  {
    var outcome := storage.RecordTransfer(sourceAccount, receiverAccount, amount);
    status := Status(outcome);
  }
}
