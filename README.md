# Account ledger: accounts, balance use and cancel, failure audit

This project models the core of a small banking back end. It has three parts:

- **AccountService** opens, closes and lists accounts.
  - `createAccount` refuses a user who already holds 10 IN_USE accounts.
  - It then draws a 10-digit account number, redrawing while the number is taken.
  - It stores an IN_USE account holding the initial balance.
- **TransactionService** changes balances.
  - `useBalance` debits an account after ordered checks, then saves a USE/S record.
  - `cancelBalance` credits back the full amount of an earlier transaction, then saves a CANCEL/S record.
  - `saveFailedUseTransaction` saves a USE/F record carrying an error code.
- **TransactionController** runs the failure-audit bridge. When a use or cancel throws, it records the failure through `saveFailedUseTransaction` and throws the same exception again, unless the recorder itself throws.

Every request is one atomic step over four tables: users, accounts by number, the order in which accounts were stored, and transactions by id.

Each operation is written twice:

1. A pure step function over a `Tables` value (`CreateAccountStep`, `UseBalanceStep`, `HandleUseBalance`, …). It returns the new tables and either a result or the `ErrorCode` thrown.
2. A method of a class that updates a shared `Store` in place. Its `ensures` ties the new store and the returned value to the step function.

The properties are lemmas about the step functions:

- which error each operation throws, in the order of its checks;
- what a successful call changes, and that nothing else changes;
- that a failed call changes nothing;
- that every operation keeps the store invariant `Consistent`;
- how use and cancel combine.

`Consistent` requires the following:

- balances are non-negative;
- account numbers are well formed and keyed by themselves;
- each account's owner is a stored user;
- an account has an `unregisteredAt` exactly when it is UNREGISTERED;
- the store order lists each account once;
- each record belongs to a stored account, has an amount a request can carry, and has an error code exactly when it failed;
- no record is marked canceled, since no operation in TransactionService.java or AccountService.java sets `isCanceled`. TRANSACTION_ALREADY_CANCELED is therefore never thrown from a consistent store (`Transactions.NoCancelOfCanceledInConsistentStore`);
- every user holds at most 10 IN_USE accounts.

Every operation also satisfies `Extends`:

- users stay;
- accounts are never removed;
- an account's owner, number and registration time never change;
- an UNREGISTERED account never returns to IN_USE;
- stored transactions never change.

Values the program takes from its environment are parameters:

- the transaction id from `UUID.randomUUID()` is `freshId`, assumed not yet stored;
- the digits `Random.nextInt(10)` would return are `rolls`;
- `LocalDateTime.now()` is `now`.

The model follows the code as written. Four of its behaviours are worth naming, each with the lemma that shows it:

- **The audit write can mask the original error.** In both endpoints the catch block calls `saveFailedUseTransaction` before `throw e` (TransactionController.java:34-41). If the request names a missing account, that call itself throws ACCOUNT_NOT_FOUND, which escapes in place of `e`. `Controller.RecorderErrorMasksServiceError` shows a use that the service rejects with USER_NOT_FOUND reaching the caller as ACCOUNT_NOT_FOUND.
- **Cancel checks neither the owner nor the status.** `cancelBalance` compares only the target's account and amount (TransactionService.java:91-99), while `useBalance` also checks the owner and refuses an UNREGISTERED account (TransactionService.java:77-89). The validation as written in TransactionService.java:91-99 therefore does not refuse a cancel on an UNREGISTERED account, and the model credits it (`Transactions.CancelIgnoresOwnerAndStatus`). Whether the entity method `Account.cancelBalance` makes a check of its own is not known; see "## Left out".
- **Cancel never marks the original.** `cancelBalance` saves a new CANCEL/S record and leaves the target as it was (TransactionService.java:65-67); no line of TransactionService.java sets `isCanceled`. The service tests nonetheless expect a canceled target to be refused with TRANSACTION_ALREADY_CANCELED (TransactionServiceTest.java:418-447). With the validation as written alone a USE can be cancelled twice, crediting the account twice (`Transactions.RepeatedCancelAccepted`).
- **Failed cancels are recorded as USE.** In this revision `saveFailedUseTransaction` takes no transaction type and always writes USE (TransactionService.java:70-75), and the cancel endpoint calls it too (TransactionController.java:57-64). The tests call a four-argument form that takes the type first (TransactionServiceTest.java:240, TransactionControllerTest.java:116-120); TransactionService.java has no such overload, so the model writes USE.

Three cancel guards exist only in the service tests (TransactionServiceTest.java:418-509):

- an already-canceled target gives TRANSACTION_ALREADY_CANCELED;
- a CANCEL target gives CANCEL_BALANCE_MUST_USE_TRANSACTION;
- a failed target gives CANCEL_BALANCE_MUST_SUCCESS_TRANSACTION.

The model adds them as an extension in `Transactions.ValidateCancelBalance`. They run after the account-match check and before the full-amount check, because the tests expect them even when the amount also differs. The validation exactly as written in TransactionService.java:91-99 is kept as `ValidateCancelBalanceAsWritten`, and `CancelGuardsOnlyAddRejections` relates the two. The order among the three new guards is not fixed by the tests; the model uses the order listed above.

Every failed request on a stored account leaves a USE/F record behind (`Controller.RecordFailureEffect`), so the added guards change behaviour on states the program reaches. The validation as written accepts a cancel of such a record with its own amount, crediting money that was never debited; the model refuses it with CANCEL_BALANCE_MUST_SUCCESS_TRANSACTION. The same holds for a CANCEL/S target, which the model refuses with CANCEL_BALANCE_MUST_USE_TRANSACTION. `Transactions.WrittenValidationAcceptsFailedTarget` states both cases.

Files:

- `domain.dfy` holds the entities, enums and error codes.
- `repository.dfy` holds the tables, the IN_USE count and listing, the invariant and the `Store` class.
- `accounts.dfy` models AccountService.
- `transactions.dfy` models TransactionService.
- `controller.dfy` models TransactionController.

## Model

| member | source | states |
|---|---|---|
| `Repository.FindAllInUse` | src/main/java/kr/co/zerobase/account/service/AccountService.java:83-84 | The listing holds only accounts owned by the user, IN_USE and stored. It holds every stored IN_USE account of the user, and its length is the IN_USE count. |
| `Repository.CountMonotone` | src/main/java/kr/co/zerobase/account/service/AccountService.java:112-119 | Fewer matching accounts never give a larger IN_USE count. |
| `Repository.CountUnaffected` | src/main/java/kr/co/zerobase/account/service/AccountService.java:112-119 | Two account tables on which every listed number matches alike give the same IN_USE count. |
| `Repository.CountAppend` | src/main/java/kr/co/zerobase/account/service/AccountService.java:112-119 | Storing one more account adds one to the count exactly when it is an IN_USE account of that user. |
| `Repository.CountAfterUnregister` | src/main/java/kr/co/zerobase/account/service/AccountService.java:90-95 | Replacing an IN_USE account that is listed once by an UNREGISTERED one lowers its owner's count by exactly one, so UNREGISTERED accounts are not counted. |
| `Repository.CountOthersAfterUnregister` | src/main/java/kr/co/zerobase/account/service/AccountService.java:90-95 | Unregistering one user's account leaves every other user's count unchanged. |
| `Repository.CountAfterInsert` | src/main/java/kr/co/zerobase/account/service/AccountService.java:53-59 | Storing a new number adds one to its owner's count when it is IN_USE and leaves all other counts unchanged. |
| `Repository.InsertAccount` | src/main/java/kr/co/zerobase/account/service/AccountService.java:53 | saveAndFlush of a new account succeeds exactly when no stored account has its number. |
| `Repository.InsertAccountKeepsConsistency` | src/main/java/kr/co/zerobase/account/service/AccountService.java:53-59 | Storing a well-formed, fresh IN_USE account with a non-negative balance keeps the invariant. The owner must exist and hold fewer than 10 IN_USE accounts. |
| `Repository.Store.constructor` | src/main/java/kr/co/zerobase/account/service/AccountService.java:42-43 | A store starts with the given users and no accounts or transactions, and is consistent. |
| `Repository.Store.SaveAndFlush` | src/main/java/kr/co/zerobase/account/service/AccountService.java:53-63 | Adds the account and appends its number to the store order. On a duplicate number it reports failure and changes nothing. |
| `Repository.Store.SaveAccount` | src/main/java/kr/co/zerobase/account/service/AccountService.java:74 | Replaces the stored account under its number and changes nothing else. |
| `Repository.Store.SaveTransaction` | src/main/java/kr/co/zerobase/account/service/TransactionService.java:112 | Adds the record under its id and changes nothing else. |
| `Accounts.DigitChar` | src/main/java/kr/co/zerobase/account/service/AccountService.java:104 | Appending one `nextInt(10)` value writes one character from '0' to '9'. |
| `Accounts.Spell` | src/main/java/kr/co/zerobase/account/service/AccountService.java:103-105 | The text of a digit sequence has one character per digit, each that digit's character. |
| `Accounts.Candidate` | src/main/java/kr/co/zerobase/account/service/AccountService.java:101-106 | Each round of the loop draws a well-formed number of exactly 10 decimal digits. |
| `Accounts.FirstFreshCandidate` | src/main/java/kr/co/zerobase/account/service/AccountService.java:97-110 | The number the loop returns is well formed and not held by any stored account. |
| `Accounts.FirstFreshCandidateIsFirst` | src/main/java/kr/co/zerobase/account/service/AccountService.java:101-107 | The returned number is the draw of some round, and the draw of every earlier round was already taken. |
| `Accounts.DrawCandidate` | src/main/java/kr/co/zerobase/account/service/AccountService.java:102-105 | Clearing the buffer and appending 10 draws produces exactly that round's candidate. |
| `Accounts.GenerateAccountNumber` | src/main/java/kr/co/zerobase/account/service/AccountService.java:97-110 | The do-while loop returns the first drawn number that is not stored: 10 decimal digits and fresh. |
| `Accounts.CreateAccountStep` | src/main/java/kr/co/zerobase/account/service/AccountService.java:45-64 | createAccount never removes or reopens accounts, never touches stored transactions, and changes nothing when it throws. |
| `Accounts.DeleteAccountStep` | src/main/java/kr/co/zerobase/account/service/AccountService.java:66-77 | deleteAccount only moves accounts forward (IN_USE to UNREGISTERED), keeps the store order and transactions, and changes nothing when it throws. |
| `Accounts.CreateAccountErrors` | src/main/java/kr/co/zerobase/account/service/AccountService.java:45-64 | In both directions: USER_NOT_FOUND exactly when the user is missing. MAX_ACCOUNT_PER_USER exactly when the user exists and holds 10 or more IN_USE accounts. Otherwise success. ACCOUNT_NUMBER_ALREADY_EXISTS is never thrown. |
| `Accounts.CreateAccountSuccess` | src/main/java/kr/co/zerobase/account/service/AccountService.java:53-59 | A successful create stores exactly one new account: the user's, IN_USE, holding the initial balance, under a fresh well-formed number, appended to the store order. All else is unchanged. The user's IN_USE count rises by one; every other user's stays the same. |
| `Accounts.CreateAccountPreservesConsistency` | src/main/java/kr/co/zerobase/account/service/AccountService.java:45-64 | createAccount with a non-negative initial balance keeps the invariant, including the 10-account ceiling. |
| `Accounts.DeleteAccountErrors` | src/main/java/kr/co/zerobase/account/service/AccountService.java:121-133 | In both directions, the first failing check decides the result: USER_NOT_FOUND, then ACCOUNT_NOT_FOUND, then USER_ACCOUNT_UN_MATCH, then ACCOUNT_ALREADY_UNREGISTERED, then BALANCE_NOT_EMPTY. Otherwise the delete succeeds. |
| `Accounts.DeleteAccountSuccess` | src/main/java/kr/co/zerobase/account/service/AccountService.java:73-74 | A successful delete changes only that account. The account was the user's, IN_USE, with balance 0; it becomes UNREGISTERED with unregisteredAt = now. The owner's IN_USE count falls by one; every other user's stays the same. |
| `Accounts.DeleteAccountPreservesConsistency` | src/main/java/kr/co/zerobase/account/service/AccountService.java:66-77 | deleteAccount keeps the invariant. |
| `Accounts.FindAllInUseAppend` | src/main/java/kr/co/zerobase/account/service/AccountService.java:83-87 | Listing two store-order segments one after the other gives the listing of each segment in turn, so the listing keeps the store order. |
| `Accounts.FindAllInUseNumbers` | src/main/java/kr/co/zerobase/account/service/AccountService.java:83-84 | When stored accounts are keyed by their own numbers, every listed account's number is in the store order. |
| `Accounts.FindAllInUseDistinct` | src/main/java/kr/co/zerobase/account/service/AccountService.java:83-84 | A store order without repeats, over accounts keyed by their own numbers, lists no account number twice. |
| `Accounts.FindAllInUseExact` | src/main/java/kr/co/zerobase/account/service/AccountService.java:79-88 | In a consistent store the listing holds exactly the user's IN_USE accounts, each as stored, with number and balance unchanged. No account appears twice, so the list length, the IN_USE count that the 10-account limit tests, is the number of distinct IN_USE accounts. It holds at most 10 of them. |
| `Accounts.AccountService.CreateAccount` | src/main/java/kr/co/zerobase/account/service/AccountService.java:45-64 | Updates the store and returns what `CreateAccountStep` gives, and keeps the store consistent. |
| `Accounts.AccountService.DeleteAccount` | src/main/java/kr/co/zerobase/account/service/AccountService.java:66-77 | Updates the store and returns what `DeleteAccountStep` gives, and keeps the store consistent. |
| `Accounts.AccountService.GetAccountsByUserId` | src/main/java/kr/co/zerobase/account/service/AccountService.java:79-88 | Throws USER_NOT_FOUND exactly when the user is missing. Otherwise returns the user's IN_USE accounts in store order. |
| `Transactions.NewTransaction` | src/main/java/kr/co/zerobase/account/service/TransactionService.java:107-123 | A saved record names its account, snapshots that account's balance as it stands, carries the fresh id, and is not canceled. |
| `Transactions.UseBalanceStep` | src/main/java/kr/co/zerobase/account/service/TransactionService.java:45-56 | useBalance keeps users and store order, never removes or reopens accounts, never changes stored records, and changes nothing when it throws. |
| `Transactions.CancelBalanceStep` | src/main/java/kr/co/zerobase/account/service/TransactionService.java:58-68 | The same guarantees for cancelBalance. |
| `Transactions.SaveFailedUseTransactionStep` | src/main/java/kr/co/zerobase/account/service/TransactionService.java:70-75 | saveFailedUseTransaction never changes an account and never changes stored records. It saves nothing when it throws. |
| `Transactions.UseBalanceErrors` | src/main/java/kr/co/zerobase/account/service/TransactionService.java:77-89 | In both directions, the first failing check decides the result: USER_NOT_FOUND, then ACCOUNT_NOT_FOUND, then USER_ACCOUNT_UN_MATCH, then ACCOUNT_ALREADY_UNREGISTERED, then AMOUNT_EXCEED_BALANCE. Otherwise the use succeeds. |
| `Transactions.UseBalanceSuccess` | src/main/java/kr/co/zerobase/account/service/TransactionService.java:53-55 | A successful use debits the account by the amount, leaving a balance of 0 or more. It adds exactly one USE/S record under the fresh id, with the amount and a snapshot equal to the new balance. Nothing else changes. |
| `Transactions.UseBalancePreservesConsistency` | src/main/java/kr/co/zerobase/account/service/TransactionService.java:45-56 | useBalance with an amount in [10, 1 000 000 000] keeps the invariant, so balances stay at 0 or more. |
| `Transactions.CancelBalanceErrors` | src/main/java/kr/co/zerobase/account/service/TransactionService.java:91-105 | In both directions, the first failing check decides the result: TRANSACTION_NOT_FOUND, then ACCOUNT_NOT_FOUND, then TRANSACTION_ACCOUNT_UN_MATCH, then the three added guards, then CANCEL_MUST_FULLY. Otherwise the cancel succeeds. |
| `Transactions.CancelBalanceSuccess` | src/main/java/kr/co/zerobase/account/service/TransactionService.java:65-67 | A successful cancel has the target's amount. It credits the account by that amount and adds exactly one CANCEL/S record whose snapshot is the new balance. The target record is left as it was. |
| `Transactions.CancelBalancePreservesConsistency` | src/main/java/kr/co/zerobase/account/service/TransactionService.java:58-68 | cancelBalance with an amount in [10, 1 000 000 000] keeps the invariant. |
| `Transactions.CancelIgnoresOwnerAndStatus` | src/main/java/kr/co/zerobase/account/service/TransactionService.java:91-99 | Changing the account's owner or status changes neither cancel's outcome nor the credited balance. |
| `Transactions.CancelGuardsOnlyAddRejections` | src/test/java/kr/co/zerobase/account/service/TransactionServiceTest.java:418-509 | What the validation as written rejects, the extended one also rejects. What the extended one accepts, the one as written also accepts. On an uncanceled USE/S target the two agree. |
| `Transactions.SaveFailedUseTransactionEffect` | src/main/java/kr/co/zerobase/account/service/TransactionService.java:70-75 | Throws ACCOUNT_NOT_FOUND exactly when the account is missing. Otherwise adds exactly one USE/F record with the given amount and error code and a snapshot of the unchanged balance. |
| `Transactions.SaveFailedUseTransactionPreservesConsistency` | src/main/java/kr/co/zerobase/account/service/TransactionService.java:70-75 | Recording a failure keeps the invariant. |
| `Transactions.UseThenCancelRestoresBalances` | src/main/java/kr/co/zerobase/account/service/TransactionService.java:53-67 | A full cancel of a successful use, at the same account, succeeds and restores every account exactly as it was before the use. |
| `Transactions.RepeatedCancelAccepted` | src/main/java/kr/co/zerobase/account/service/TransactionService.java:58-68 | After a successful cancel, the same cancel succeeds again and the account ends up credited twice. |
| `Transactions.WrittenValidationAcceptsFailedTarget` | src/test/java/kr/co/zerobase/account/service/TransactionServiceTest.java:449-509 | On a target of the account that is not canceled, the validation as written accepts a cancel of its own amount. The extended one refuses a USE/F target with CANCEL_BALANCE_MUST_SUCCESS_TRANSACTION and a CANCEL target with CANCEL_BALANCE_MUST_USE_TRANSACTION. |
| `Transactions.NoCancelOfCanceledInConsistentStore` | src/test/java/kr/co/zerobase/account/service/TransactionServiceTest.java:418-447 | From a consistent store, cancelBalance never throws TRANSACTION_ALREADY_CANCELED, because no operation in TransactionService.java or AccountService.java marks a record canceled. |
| `Transactions.RecordKeepsConsistency` | src/main/java/kr/co/zerobase/account/service/TransactionService.java:112-122 | Adding a well-formed record for a stored account, under a fresh id, keeps the invariant. |
| `Transactions.BalanceChangeKeepsConsistency` | src/main/java/kr/co/zerobase/account/service/TransactionService.java:53-55 | Giving one account a new non-negative balance and adding a well-formed record for it keeps the invariant. |
| `Transactions.TransactionService.SaveTransaction` | src/main/java/kr/co/zerobase/account/service/TransactionService.java:107-123 | Builds the record from the account as it stands and adds it under the fresh id, changing nothing else. |
| `Transactions.TransactionService.UseBalance` | src/main/java/kr/co/zerobase/account/service/TransactionService.java:45-56 | Updates the store and returns what `UseBalanceStep` gives, and keeps the store consistent. |
| `Transactions.TransactionService.CancelBalance` | src/main/java/kr/co/zerobase/account/service/TransactionService.java:58-68 | Updates the store and returns what `CancelBalanceStep` gives, and keeps the store consistent. |
| `Transactions.TransactionService.SaveFailedUseTransaction` | src/main/java/kr/co/zerobase/account/service/TransactionService.java:70-75 | Updates the store and returns what `SaveFailedUseTransactionStep` gives, and keeps the store consistent. |
| `Controller.RecordFailure` | src/main/java/kr/co/zerobase/account/controller/TransactionController.java:34-42 | The catch branch always ends in an exception. It never changes an account, and it only ever adds records. |
| `Controller.HandleUseBalance` | src/main/java/kr/co/zerobase/account/controller/TransactionController.java:22-43 | The use endpoint only extends the tables. |
| `Controller.HandleCancelBalance` | src/main/java/kr/co/zerobase/account/controller/TransactionController.java:45-66 | The cancel endpoint only extends the tables. |
| `Controller.RecordFailureEffect` | src/main/java/kr/co/zerobase/account/controller/TransactionController.java:34-42 | For a stored account, writes exactly one USE/F record: the request's account and amount, the thrown code, and the current balance. It then rethrows that code. For a missing account, writes nothing and throws ACCOUNT_NOT_FOUND. No balance changes. |
| `Controller.HandleUseBalanceOutcome` | src/main/java/kr/co/zerobase/account/controller/TransactionController.java:27-42 | A successful use is returned as the service gave it, with no failure record. A failed use leaves every balance unchanged. For a stored account it adds exactly one USE/F record, with the request's account and amount, the service's code and the current balance, and rethrows that code. For a missing one it throws ACCOUNT_NOT_FOUND and records nothing. |
| `Controller.HandleCancelBalanceOutcome` | src/main/java/kr/co/zerobase/account/controller/TransactionController.java:50-65 | The same for cancel. The failure record has type USE and carries the request's account and amount. |
| `Controller.RecorderErrorMasksServiceError` | src/main/java/kr/co/zerobase/account/controller/TransactionController.java:35-41 | When both the user and the account are missing, the service throws USER_NOT_FOUND but the caller receives ACCOUNT_NOT_FOUND. |
| `Controller.HandleUseBalancePreservesConsistency` | src/main/java/kr/co/zerobase/account/controller/TransactionController.java:22-43 | The use endpoint keeps the invariant for a request that passed its constraints. |
| `Controller.HandleCancelBalancePreservesConsistency` | src/main/java/kr/co/zerobase/account/controller/TransactionController.java:45-66 | The cancel endpoint keeps the invariant for a request that passed its constraints. |
| `Controller.TransactionController.UseBalance` | src/main/java/kr/co/zerobase/account/controller/TransactionController.java:22-43 | Calls the service and, on a failure, the recorder. The store and the result are what `HandleUseBalance` gives, and the store stays consistent. |
| `Controller.TransactionController.CancelBalance` | src/main/java/kr/co/zerobase/account/controller/TransactionController.java:45-66 | The same for cancel, as `HandleCancelBalance` gives. |

## Left out

- The Redisson distributed lock and its AOP aspect (LockService, LockAopAspect) are not modelled, nor the remapping of the lock's error code. They exist for concurrency, and every operation here is one atomic step.
- HTTP routing, AccountController, GlobalExceptionHandler, ErrorResponse and the DTO projections are not modelled. The model returns the entities themselves: `Account` for AccountDto, `Transaction` for TransactionDto.
- The HTTP status numbers in ErrorCode are not modelled; only the codes' names are.
- Bean Validation of the request objects is taken as preconditions. These are `UseRequestOk` and `CancelRequestOk`, and an initial balance of 0 or more, which `Accounts.AccountService.CreateAccount` requires.
- The account table is keyed by account number, so `Store.SaveAndFlush` treats a duplicate number as a failed save. Account.java:25 declares no unique constraint on `accountNumber`; the assumption is harmless, because `Accounts.CreateAccountErrors` proves that createAccount never reaches a duplicate.
- The entity methods `Account.useBalance`, `Account.cancelBalance` and `Account.unregister` are called by the services (TransactionService.java:53,65 and AccountService.java:73), but Account.java shows only the entity's fields. Their effects are written out in the step functions and follow what the tests expect: a debit by the amount (TransactionServiceTest.java:111-113), a credit by the amount (TransactionServiceTest.java:298) and status UNREGISTERED with an `unregisteredAt` time (AccountServiceTest.java:141-143). Any check these methods might make themselves is not modelled.
- JPA is replaced by in-memory maps and a sequence that records the store order. The rollback of `@Transactional` is not modelled. No operation in the two services writes before its last check, so nothing needs rolling back. The managed entity's balance change is written back explicitly with `Store.SaveAccount`.
- `UUID.randomUUID()` is replaced by the parameter `freshId`. Uniqueness of the id is assumed, not derived.
- `LocalDateTime.now()` is replaced by the parameter `now`.
- `Random.nextInt(10)` is replaced by a finite sequence of digits, `rolls`. Accounts.GenerateAccountNumber requires that some round of those digits yields a number that is not yet stored. A run that draws taken numbers forever is therefore not modelled.
- The Long arithmetic of balances is modelled on unbounded integers. A cancel that would push a balance past 2^63 - 1 is not modelled. A use cannot overflow, because it only subtracts at most the balance.
- `getAccountUser`, `getAccount` and `getTransaction` are not separate members. Each is a membership test on the users, accounts or transactions table inside the step functions.
- AccountUser is represented by its id.
- `Objects.equals` on possibly-null ids and account numbers is modelled as plain equality, since no value in the model is null.
- A `queryTransaction` lookup is asserted by the service tests but has no method in TransactionService.java, so it is not modelled.
- The commented-out one-year age check on cancel is not modelled.
