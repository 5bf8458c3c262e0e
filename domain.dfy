/** Value types of the account ledger: the Account and Transaction entities,
    their status enums, the error codes a request can fail with, and the
    constants the services and the request objects fix. */
module Domain {

  /** Id of an AccountUser (a Java Long). */
  type UserId = int
  /** An instant, supplied by the caller in place of LocalDateTime.now(). */
  type Time = int
  type AccountNumber = string
  type TransactionId = string

  /** Length of a generated account number (AccountService.ACCOUNT_NUMBER_LENGTH). */
  const ACCOUNT_NUMBER_LENGTH: nat := 10
  /** Most IN_USE accounts one user may hold (AccountService.MAX_ACCOUNT_PER_USER). */
  const MAX_ACCOUNT_PER_USER: nat := 10
  /** Bounds the request objects put on a use or cancel amount (@Min / @Max). */
  const MIN_AMOUNT: int := 10
  const MAX_AMOUNT: int := 1_000_000_000

  predicate ValidAmount(amount: int) {
    MIN_AMOUNT <= amount <= MAX_AMOUNT
  }

  datatype Option<+T> = None | Some(value: T)

  /** The ErrorCode enum: the names declared in ErrorCode.java, then the transaction
      codes the service and its tests import, in PascalCase. */
  datatype ErrorCode =
    | InternalServerError
    | InvalidRequest
    | TransactionLock
    | CreateAccountTransactionLock
    | AccountNumberAlreadyExists
    | UserNotFound
    | MaxAccountPerUser
    | AccountNotFound
    | UserAccountUnMatch
    | AccountAlreadyUnregistered
    | BalanceNotEmpty
    | AmountExceedBalance
    | TransactionNotFound
    | TransactionAccountUnMatch
    | CancelMustFully
    | TransactionAlreadyCanceled
    | CancelBalanceMustUseTransaction
    | CancelBalanceMustSuccessTransaction

  /** A service call either returns a value or throws an AccountException
      carrying an error code. */
  datatype Result<+T> = Ok(value: T) | Err(code: ErrorCode)

  datatype AccountStatus = InUse | Unregistered

  datatype TransactionType = Use | Cancel

  /** S is a successful transaction, F a failed one. */
  datatype TransactionResultType = S | F

  /** An Account entity; the owning AccountUser is represented by its id. */
  datatype Account = Account(
    owner: UserId,
    accountNumber: AccountNumber,
    status: AccountStatus,
    balance: int,
    registeredAt: Time,
    unregisteredAt: Option<Time>)

  /** A Transaction entity; its account is represented by the account number,
      which is unique and never reused. isCanceled is the flag the tests set
      on a target transaction; no operation of the services sets it. */
  datatype Transaction = Transaction(
    transactionType: TransactionType,
    resultType: TransactionResultType,
    errorCode: Option<ErrorCode>,
    accountNumber: AccountNumber,
    amount: int,
    balanceSnapshot: int,
    transactionId: TransactionId,
    transactedAt: Time,
    isCanceled: bool)
}
