/** TransactionController: the use and cancel endpoints. Each calls the
    service; when the service throws, it records a failed USE transaction
    for the request's account and amount and throws the error again.
    Requests arrive already checked by their Bean Validation constraints. */
module Controller {
  import opened Domain
  import opened Repository
  import opened Transactions

  /** UseBalance.RequestDto. */
  datatype UseBalanceRequest = UseBalanceRequest(userId: UserId, accountNumber: AccountNumber, amount: int)

  /** CancelBalance.RequestDto; the transaction id comes from the path. */
  datatype CancelBalanceRequest = CancelBalanceRequest(accountNumber: AccountNumber, amount: int)

  /** The constraints on UseBalance.RequestDto: @Min(1) user id, @Size(10)
      account number, amount within @Min(10) and @Max(1_000_000_000). */
  predicate UseRequestOk(req: UseBalanceRequest) {
    req.userId >= 1 && |req.accountNumber| == ACCOUNT_NUMBER_LENGTH && ValidAmount(req.amount)
  }

  /** The constraints on CancelBalance.RequestDto. */
  predicate CancelRequestOk(req: CancelBalanceRequest) {
    |req.accountNumber| == ACCOUNT_NUMBER_LENGTH && ValidAmount(req.amount)
  }

  /** The catch branch shared by both endpoints: record the failure through
      saveFailedUseTransaction, then rethrow. An exception from the recorder
      itself escapes in place of the original one. */
  function RecordFailure(
    t: Tables, accountNumber: AccountNumber, amount: int, thrown: ErrorCode, freshId: TransactionId, now: Time)
    : (s: Step<Transaction>)
    requires freshId !in t.transactions
    ensures s.result.Err?
    ensures Extends(t, s.next)
    ensures s.next.users == t.users && s.next.accounts == t.accounts && s.next.order == t.order
  {
    var f := SaveFailedUseTransactionStep(t, accountNumber, amount, thrown, freshId, now);
    match f.result
    case Err(e) => Step(f.next, Err(e))
    case Ok(_) => Step(f.next, Err(thrown))
  }

  /** POST /transactions/use as a function of the tables. The service call
      saves nothing when it throws, so one id serves whichever save happens. */
  function HandleUseBalance(t: Tables, req: UseBalanceRequest, freshId: TransactionId, now: Time)
    : (s: Step<Transaction>)
    requires freshId !in t.transactions
    ensures Extends(t, s.next)
  {
    var used := UseBalanceStep(t, req.userId, req.accountNumber, req.amount, freshId, now);
    match used.result
    case Ok(_) => used
    case Err(e) => RecordFailure(used.next, req.accountNumber, req.amount, e, freshId, now)
  }

  /** POST /transactions/{transactionId}/cancel as a function of the tables. */
  function HandleCancelBalance(
    t: Tables, transactionId: TransactionId, req: CancelBalanceRequest, freshId: TransactionId, now: Time)
    : (s: Step<Transaction>)
    requires freshId !in t.transactions
    ensures Extends(t, s.next)
  {
    var canceled := CancelBalanceStep(t, transactionId, req.accountNumber, req.amount, freshId, now);
    match canceled.result
    case Ok(_) => canceled
    case Err(e) => RecordFailure(canceled.next, req.accountNumber, req.amount, e, freshId, now)
  }

  // ---------------------------------------------------------------------
  // Properties of the failure-audit bridge

  /** What the catch branch leaves behind: when the account exists, exactly
      one USE/F record with the request's account, amount and the thrown
      code, and the thrown code is what escapes; when it does not, nothing
      is recorded and ACCOUNT_NOT_FOUND escapes instead. Balances never change. */
  lemma RecordFailureEffect(
    t: Tables, accountNumber: AccountNumber, amount: int, thrown: ErrorCode, freshId: TransactionId, now: Time)
    requires freshId !in t.transactions
    ensures var s := RecordFailure(t, accountNumber, amount, thrown, freshId, now);
      && s.next.accounts == t.accounts
      && (accountNumber in t.accounts ==>
            && s.result == Err(thrown)
            && s.next.transactions.Keys == t.transactions.Keys + {freshId}
            && var x := s.next.transactions[freshId];
               && s.next == t.(transactions := t.transactions[freshId := x])
               && x.transactionType == Use && x.resultType == F && x.errorCode == Some(thrown)
               && x.amount == amount && x.accountNumber == t.accounts[accountNumber].accountNumber
               && x.balanceSnapshot == t.accounts[accountNumber].balance)
      && (accountNumber !in t.accounts ==> s == Step(t, Err(AccountNotFound)))
  {
    SaveFailedUseTransactionEffect(t, accountNumber, amount, thrown, freshId, now);
  }

  /** A successful use is returned unchanged and no failure record is
      written; a failed use leaves every balance as it was and either records
      the failure and rethrows the service's code, or, for an unknown
      account, throws ACCOUNT_NOT_FOUND having recorded nothing. */
  lemma HandleUseBalanceOutcome(t: Tables, req: UseBalanceRequest, freshId: TransactionId, now: Time)
    requires freshId !in t.transactions
    ensures var used := UseBalanceStep(t, req.userId, req.accountNumber, req.amount, freshId, now);
      var s := HandleUseBalance(t, req, freshId, now);
      && (used.result.Ok? ==> s == used)
      && (used.result.Err? ==> s.result.Err? && s.next.accounts == t.accounts)
      && (used.result.Err? && req.accountNumber in t.accounts ==>
            && s.result == used.result
            && s.next.transactions.Keys == t.transactions.Keys + {freshId}
            && s.next.transactions[freshId].transactionType == Use
            && s.next.transactions[freshId].resultType == F
            && var x := s.next.transactions[freshId];
               && s.next == t.(transactions := t.transactions[freshId := x])
               && x.errorCode == Some(used.result.code)
               && x.amount == req.amount && x.accountNumber == t.accounts[req.accountNumber].accountNumber
               && x.balanceSnapshot == t.accounts[req.accountNumber].balance)
      && (req.accountNumber !in t.accounts ==> s == Step(t, Err(AccountNotFound)))
  {
    var used := UseBalanceStep(t, req.userId, req.accountNumber, req.amount, freshId, now);
    if used.result.Err? {
      RecordFailureEffect(t, req.accountNumber, req.amount, used.result.code, freshId, now);
    }
  }

  /** The same for cancel. The failure is recorded as a USE transaction,
      since saveFailedUseTransaction always writes type USE. */
  lemma HandleCancelBalanceOutcome(
    t: Tables, transactionId: TransactionId, req: CancelBalanceRequest, freshId: TransactionId, now: Time)
    requires freshId !in t.transactions
    ensures var canceled := CancelBalanceStep(t, transactionId, req.accountNumber, req.amount, freshId, now);
      var s := HandleCancelBalance(t, transactionId, req, freshId, now);
      && (canceled.result.Ok? ==> s == canceled)
      && (canceled.result.Err? ==> s.result.Err? && s.next.accounts == t.accounts)
      && (canceled.result.Err? && req.accountNumber in t.accounts ==>
            && s.result == canceled.result
            && s.next.transactions.Keys == t.transactions.Keys + {freshId}
            && s.next.transactions[freshId].transactionType == Use
            && s.next.transactions[freshId].resultType == F
            && var x := s.next.transactions[freshId];
               && s.next == t.(transactions := t.transactions[freshId := x])
               && x.errorCode == Some(canceled.result.code)
               && x.amount == req.amount && x.accountNumber == t.accounts[req.accountNumber].accountNumber
               && x.balanceSnapshot == t.accounts[req.accountNumber].balance)
      && (req.accountNumber !in t.accounts ==> s == Step(t, Err(AccountNotFound)))
  {
    var canceled := CancelBalanceStep(t, transactionId, req.accountNumber, req.amount, freshId, now);
    if canceled.result.Err? {
      RecordFailureEffect(t, req.accountNumber, req.amount, canceled.result.code, freshId, now);
    }
  }

  /** The recorder's own ACCOUNT_NOT_FOUND hides the error the service threw:
      a use for an unknown user on an unknown account is thrown USER_NOT_FOUND
      by the service but reaches the caller as ACCOUNT_NOT_FOUND. */
  lemma RecorderErrorMasksServiceError(t: Tables, req: UseBalanceRequest, freshId: TransactionId, now: Time)
    requires freshId !in t.transactions
    requires req.userId !in t.users && req.accountNumber !in t.accounts
    ensures UseBalanceStep(t, req.userId, req.accountNumber, req.amount, freshId, now).result == Err(UserNotFound)
    ensures HandleUseBalance(t, req, freshId, now).result == Err(AccountNotFound)
  {
  }

  /** The use endpoint keeps the invariant for a request that passed its
      constraints. */
  lemma HandleUseBalancePreservesConsistency(t: Tables, req: UseBalanceRequest, freshId: TransactionId, now: Time)
    requires Consistent(t)
    requires UseRequestOk(req)
    requires freshId !in t.transactions
    ensures Consistent(HandleUseBalance(t, req, freshId, now).next)
  {
    var used := UseBalanceStep(t, req.userId, req.accountNumber, req.amount, freshId, now);
    if used.result.Ok? {
      UseBalancePreservesConsistency(t, req.userId, req.accountNumber, req.amount, freshId, now);
    } else {
      SaveFailedUseTransactionPreservesConsistency(t, req.accountNumber, req.amount, used.result.code, freshId, now);
    }
  }

  /** The cancel endpoint keeps the invariant for a request that passed its
      constraints. */
  lemma HandleCancelBalancePreservesConsistency(
    t: Tables, transactionId: TransactionId, req: CancelBalanceRequest, freshId: TransactionId, now: Time)
    requires Consistent(t)
    requires CancelRequestOk(req)
    requires freshId !in t.transactions
    ensures Consistent(HandleCancelBalance(t, transactionId, req, freshId, now).next)
  {
    var canceled := CancelBalanceStep(t, transactionId, req.accountNumber, req.amount, freshId, now);
    if canceled.result.Ok? {
      CancelBalancePreservesConsistency(t, transactionId, req.accountNumber, req.amount, freshId, now);
    } else {
      SaveFailedUseTransactionPreservesConsistency(
        t, req.accountNumber, req.amount, canceled.result.code, freshId, now);
    }
  }

  /** TransactionController over its TransactionService. */
  class TransactionController {
    const service: TransactionService

    constructor (service: TransactionService)
      ensures this.service == service
    {
      this.service := service;
    }

    /** useBalance: call the service; on an AccountException record the
        failure and rethrow. */
    method UseBalance(req: UseBalanceRequest, freshId: TransactionId, now: Time) returns (r: Result<Transaction>)
      requires service.store.Valid()
      requires UseRequestOk(req)
      requires freshId !in service.store.transactions
      modifies service.store
      ensures service.store.Valid()
      ensures Step(service.store.Snapshot(), r) == HandleUseBalance(old(service.store.Snapshot()), req, freshId, now)
    {
      r := service.UseBalance(req.userId, req.accountNumber, req.amount, freshId, now);
      if r.Err? {
        var recorded := service.SaveFailedUseTransaction(req.accountNumber, req.amount, r.code, freshId, now);
        if recorded.Err? {
          r := Err(recorded.code);
        }
      }
    }

    /** cancelBalance: call the service; on an AccountException record the
        failure and rethrow. */
    method CancelBalance(transactionId: TransactionId, req: CancelBalanceRequest, freshId: TransactionId, now: Time)
      returns (r: Result<Transaction>)
      requires service.store.Valid()
      requires CancelRequestOk(req)
      requires freshId !in service.store.transactions
      modifies service.store
      ensures service.store.Valid()
      ensures Step(service.store.Snapshot(), r)
           == HandleCancelBalance(old(service.store.Snapshot()), transactionId, req, freshId, now)
    {
      r := service.CancelBalance(transactionId, req.accountNumber, req.amount, freshId, now);
      if r.Err? {
        var recorded := service.SaveFailedUseTransaction(req.accountNumber, req.amount, r.code, freshId, now);
        if recorded.Err? {
          r := Err(recorded.code);
        }
      }
    }
  }
}
