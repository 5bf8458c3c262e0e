/** TransactionService: debiting an account (use), reversing a debit
    (cancel), and recording a failed use. UUID.randomUUID() is replaced by
    the id `freshId` the caller supplies, assumed not yet stored, and
    LocalDateTime.now() by the instant `now`. */
module Transactions {
  import opened Domain
  import opened Repository

  /** validateUseBalance: owner, then status, then funds. */
  function ValidateUseBalance(userId: UserId, account: Account, amount: int): Option<ErrorCode> {
    if userId != account.owner then Some(UserAccountUnMatch)
    else if account.status == Unregistered then Some(AccountAlreadyUnregistered)
    else if amount > account.balance then Some(AmountExceedBalance)
    else None
  }

  /** validateCancelBalance exactly as TransactionService.java writes it: the target must
      belong to the account, and the amount must be the target's amount. */
  function ValidateCancelBalanceAsWritten(target: Transaction, account: Account, amount: int): Option<ErrorCode> {
    if target.accountNumber != account.accountNumber then Some(TransactionAccountUnMatch)
    else if amount != target.amount then Some(CancelMustFully)
    else None
  }

  /** validateCancelBalance with the guards the service tests expect as well:
      the target must not be canceled, must be a USE and must have succeeded.
      They come after the account check and before the full-amount check. */
  function ValidateCancelBalance(target: Transaction, account: Account, amount: int): Option<ErrorCode> {
    if target.accountNumber != account.accountNumber then Some(TransactionAccountUnMatch)
    else if target.isCanceled then Some(TransactionAlreadyCanceled)
    else if target.transactionType == Cancel then Some(CancelBalanceMustUseTransaction)
    else if target.resultType == F then Some(CancelBalanceMustSuccessTransaction)
    else if amount != target.amount then Some(CancelMustFully)
    else None
  }

  /** The record saveTransaction builds: its snapshot is the balance of the
      account as it stands when the record is written. */
  function NewTransaction(
    transactionType: TransactionType, resultType: TransactionResultType, account: Account, amount: int,
    errorCode: Option<ErrorCode>, freshId: TransactionId, now: Time): (x: Transaction)
    ensures x.accountNumber == account.accountNumber && x.balanceSnapshot == account.balance
    ensures x.transactionId == freshId && !x.isCanceled
  {
    Transaction(transactionType, resultType, errorCode, account.accountNumber, amount, account.balance,
                freshId, now, false)
  }

  /** useBalance as a function of the tables: find the user and the account,
      validate, debit the account and record a USE/S transaction. */
  function UseBalanceStep(
    t: Tables, userId: UserId, accountNumber: AccountNumber, amount: int, freshId: TransactionId, now: Time)
    : (s: Step<Transaction>)
    requires freshId !in t.transactions
    ensures Extends(t, s.next)
    ensures s.result.Err? ==> s.next == t
    ensures s.next.users == t.users && s.next.order == t.order
  {
    if userId !in t.users then Step(t, Err(UserNotFound))
    else if accountNumber !in t.accounts then Step(t, Err(AccountNotFound))
    else
      var account := t.accounts[accountNumber];
      match ValidateUseBalance(userId, account, amount)
      case Some(e) => Step(t, Err(e))
      case None =>
        var debited := account.(balance := account.balance - amount);
        var x := NewTransaction(Use, S, debited, amount, None, freshId, now);
        Step(t.(accounts := t.accounts[accountNumber := debited],
                transactions := t.transactions[freshId := x]), Ok(x))
  }

  /** cancelBalance as a function of the tables: find the target transaction
      and the account, validate, credit the account and record a CANCEL/S
      transaction. Neither the account's owner nor its status is checked. */
  function CancelBalanceStep(
    t: Tables, transactionId: TransactionId, accountNumber: AccountNumber, amount: int,
    freshId: TransactionId, now: Time)
    : (s: Step<Transaction>)
    requires freshId !in t.transactions
    ensures Extends(t, s.next)
    ensures s.result.Err? ==> s.next == t
    ensures s.next.users == t.users && s.next.order == t.order
  {
    if transactionId !in t.transactions then Step(t, Err(TransactionNotFound))
    else if accountNumber !in t.accounts then Step(t, Err(AccountNotFound))
    else
      var account := t.accounts[accountNumber];
      match ValidateCancelBalance(t.transactions[transactionId], account, amount)
      case Some(e) => Step(t, Err(e))
      case None =>
        var credited := account.(balance := account.balance + amount);
        var x := NewTransaction(Cancel, S, credited, amount, None, freshId, now);
        Step(t.(accounts := t.accounts[accountNumber := credited],
                transactions := t.transactions[freshId := x]), Ok(x))
  }

  /** saveFailedUseTransaction as a function of the tables: find the account
      and record a USE/F transaction carrying the error code. */
  function SaveFailedUseTransactionStep(
    t: Tables, accountNumber: AccountNumber, amount: int, errorCode: ErrorCode, freshId: TransactionId, now: Time)
    : (s: Step<()>)
    requires freshId !in t.transactions
    ensures Extends(t, s.next)
    ensures s.result.Err? ==> s.next == t
    ensures s.next.users == t.users && s.next.accounts == t.accounts && s.next.order == t.order
  {
    if accountNumber !in t.accounts then Step(t, Err(AccountNotFound))
    else
      var x := NewTransaction(Use, F, t.accounts[accountNumber], amount, Some(errorCode), freshId, now);
      Step(t.(transactions := t.transactions[freshId := x]), Ok(()))
  }

  // ---------------------------------------------------------------------
  // Properties of use

  /** Which error useBalance throws: the first failing check, in the order
      user, account, owner, status, funds. */
  lemma UseBalanceErrors(
    t: Tables, userId: UserId, accountNumber: AccountNumber, amount: int, freshId: TransactionId, now: Time)
    requires freshId !in t.transactions
    ensures var r := UseBalanceStep(t, userId, accountNumber, amount, freshId, now).result;
      && (r == Err(UserNotFound) <==> userId !in t.users)
      && (r == Err(AccountNotFound) <==> userId in t.users && accountNumber !in t.accounts)
      && (r == Err(UserAccountUnMatch) <==>
            userId in t.users && accountNumber in t.accounts && t.accounts[accountNumber].owner != userId)
      && (r == Err(AccountAlreadyUnregistered) <==>
            userId in t.users && accountNumber in t.accounts && t.accounts[accountNumber].owner == userId
            && t.accounts[accountNumber].status == Unregistered)
      && (r == Err(AmountExceedBalance) <==>
            userId in t.users && InUseBy(t.accounts, accountNumber, userId)
            && amount > t.accounts[accountNumber].balance)
      && (r.Ok? <==>
            userId in t.users && InUseBy(t.accounts, accountNumber, userId)
            && amount <= t.accounts[accountNumber].balance)
  {
  }

  /** A successful use debits the account by the amount, which leaves its
      balance non-negative, and adds exactly one USE/S record under the fresh
      id whose snapshot is the new balance. Nothing else changes. */
  lemma UseBalanceSuccess(
    t: Tables, userId: UserId, accountNumber: AccountNumber, amount: int, freshId: TransactionId, now: Time)
    requires freshId !in t.transactions
    requires UseBalanceStep(t, userId, accountNumber, amount, freshId, now).result.Ok?
    ensures var s := UseBalanceStep(t, userId, accountNumber, amount, freshId, now);
      var before := t.accounts[accountNumber];
      var x := s.result.value;
      && InUseBy(t.accounts, accountNumber, userId)
      && s.next.accounts == t.accounts[accountNumber := before.(balance := before.balance - amount)]
      && s.next.accounts[accountNumber].balance >= 0
      && s.next.transactions == t.transactions[freshId := x]
      && s.next.transactions.Keys == t.transactions.Keys + {freshId}
      && x.transactionType == Use && x.resultType == S && x.errorCode == None
      && x.amount == amount && x.accountNumber == before.accountNumber
      && x.balanceSnapshot == s.next.accounts[accountNumber].balance
      && x.transactionId == freshId && x.transactedAt == now
  {
  }

  /** useBalance keeps the invariant for a request amount within the bounds
      the request object enforces. */
  lemma UseBalancePreservesConsistency(
    t: Tables, userId: UserId, accountNumber: AccountNumber, amount: int, freshId: TransactionId, now: Time)
    requires Consistent(t)
    requires ValidAmount(amount)
    requires freshId !in t.transactions
    ensures Consistent(UseBalanceStep(t, userId, accountNumber, amount, freshId, now).next)
  {
    var s := UseBalanceStep(t, userId, accountNumber, amount, freshId, now);
    if s.result.Ok? {
      BalanceChangeKeepsConsistency(t, accountNumber, s.next.accounts[accountNumber].balance, s.result.value);
    }
  }

  // ---------------------------------------------------------------------
  // Properties of cancel

  /** Which error cancelBalance throws: the first failing check, in the
      order transaction, account, account match, already canceled, type,
      result, full amount. */
  lemma CancelBalanceErrors(
    t: Tables, transactionId: TransactionId, accountNumber: AccountNumber, amount: int,
    freshId: TransactionId, now: Time)
    requires freshId !in t.transactions
    ensures var r := CancelBalanceStep(t, transactionId, accountNumber, amount, freshId, now).result;
      && (r == Err(TransactionNotFound) <==> transactionId !in t.transactions)
      && (r == Err(AccountNotFound) <==> transactionId in t.transactions && accountNumber !in t.accounts)
      && (transactionId in t.transactions && accountNumber in t.accounts ==>
            var target := t.transactions[transactionId];
            var matches := target.accountNumber == t.accounts[accountNumber].accountNumber;
            && (r == Err(TransactionAccountUnMatch) <==> !matches)
            && (r == Err(TransactionAlreadyCanceled) <==> matches && target.isCanceled)
            && (r == Err(CancelBalanceMustUseTransaction) <==>
                  matches && !target.isCanceled && target.transactionType == Cancel)
            && (r == Err(CancelBalanceMustSuccessTransaction) <==>
                  matches && !target.isCanceled && target.transactionType == Use && target.resultType == F)
            && (r == Err(CancelMustFully) <==>
                  matches && !target.isCanceled && target.transactionType == Use && target.resultType == S
                  && amount != target.amount)
            && (r.Ok? <==>
                  matches && !target.isCanceled && target.transactionType == Use && target.resultType == S
                  && amount == target.amount))
  {
  }

  /** A successful cancel credits the account by the amount and adds exactly
      one CANCEL/S record under the fresh id whose snapshot is the new
      balance. Nothing else changes; in particular the target record is not
      marked canceled. */
  lemma CancelBalanceSuccess(
    t: Tables, transactionId: TransactionId, accountNumber: AccountNumber, amount: int,
    freshId: TransactionId, now: Time)
    requires freshId !in t.transactions
    requires CancelBalanceStep(t, transactionId, accountNumber, amount, freshId, now).result.Ok?
    ensures var s := CancelBalanceStep(t, transactionId, accountNumber, amount, freshId, now);
      var before := t.accounts[accountNumber];
      var x := s.result.value;
      && amount == t.transactions[transactionId].amount
      && s.next.accounts == t.accounts[accountNumber := before.(balance := before.balance + amount)]
      && s.next.transactions == t.transactions[freshId := x]
      && s.next.transactions.Keys == t.transactions.Keys + {freshId}
      && s.next.transactions[transactionId] == t.transactions[transactionId]
      && x.transactionType == Cancel && x.resultType == S && x.errorCode == None
      && x.amount == amount && x.accountNumber == before.accountNumber
      && x.balanceSnapshot == s.next.accounts[accountNumber].balance
      && x.transactionId == freshId && x.transactedAt == now
  {
  }

  /** cancelBalance keeps the invariant for a request amount within the
      bounds the request object enforces: a credit cannot make a balance
      negative. */
  lemma CancelBalancePreservesConsistency(
    t: Tables, transactionId: TransactionId, accountNumber: AccountNumber, amount: int,
    freshId: TransactionId, now: Time)
    requires Consistent(t)
    requires ValidAmount(amount)
    requires freshId !in t.transactions
    ensures Consistent(CancelBalanceStep(t, transactionId, accountNumber, amount, freshId, now).next)
  {
    var s := CancelBalanceStep(t, transactionId, accountNumber, amount, freshId, now);
    if s.result.Ok? {
      assert AccountOk(t, accountNumber);
      BalanceChangeKeepsConsistency(t, accountNumber, s.next.accounts[accountNumber].balance, s.result.value);
    }
  }

  /** cancelBalance never looks at the account's owner or status: giving the
      account another owner or another status changes neither the outcome
      nor the credited balance, so an UNREGISTERED account can be credited. */
  lemma CancelIgnoresOwnerAndStatus(
    t: Tables, transactionId: TransactionId, accountNumber: AccountNumber, amount: int,
    freshId: TransactionId, now: Time, owner: UserId, status: AccountStatus)
    requires freshId !in t.transactions
    requires accountNumber in t.accounts
    ensures var other := t.(accounts := t.accounts[accountNumber :=
                              t.accounts[accountNumber].(owner := owner, status := status)]);
      var s := CancelBalanceStep(t, transactionId, accountNumber, amount, freshId, now);
      var s' := CancelBalanceStep(other, transactionId, accountNumber, amount, freshId, now);
      && s'.result.Ok? == s.result.Ok?
      && (s.result.Err? ==> s'.result == s.result)
      && (s.result.Ok? ==> s'.next.accounts[accountNumber].balance == s.next.accounts[accountNumber].balance
                           && s'.result.value == s.result.value)
  {
  }

  /** The test-asserted guards only add rejections: whatever the as-written
      validation rejects is still rejected, whatever the extended one accepts
      the as-written one accepts, and on an uncanceled successful USE target the
      two give the same answer. */
  lemma CancelGuardsOnlyAddRejections(target: Transaction, account: Account, amount: int)
    ensures ValidateCancelBalanceAsWritten(target, account, amount).Some? ==>
              ValidateCancelBalance(target, account, amount).Some?
    ensures ValidateCancelBalance(target, account, amount).None? ==>
              ValidateCancelBalanceAsWritten(target, account, amount).None?
    ensures !target.isCanceled && target.transactionType == Use && target.resultType == S ==>
              ValidateCancelBalance(target, account, amount) == ValidateCancelBalanceAsWritten(target, account, amount)
    ensures ValidateCancelBalance(target, account, amount) == Some(CancelMustFully) ==>
              ValidateCancelBalanceAsWritten(target, account, amount) == Some(CancelMustFully)
  {
  }

  // ---------------------------------------------------------------------
  // Properties of a failed-use record

  /** saveFailedUseTransaction throws ACCOUNT_NOT_FOUND exactly when the
      account is missing, and otherwise adds one USE/F record with the given
      amount and error code whose snapshot is the unchanged balance. */
  lemma SaveFailedUseTransactionEffect(
    t: Tables, accountNumber: AccountNumber, amount: int, errorCode: ErrorCode, freshId: TransactionId, now: Time)
    requires freshId !in t.transactions
    ensures var s := SaveFailedUseTransactionStep(t, accountNumber, amount, errorCode, freshId, now);
      && (s.result.Err? <==> accountNumber !in t.accounts)
      && (s.result.Err? ==> s.result.code == AccountNotFound)
      && (s.result.Ok? ==>
            && s.next.transactions.Keys == t.transactions.Keys + {freshId}
            && var x := s.next.transactions[freshId];
               && s.next.transactions == t.transactions[freshId := x]
               && x.transactionType == Use && x.resultType == F && x.errorCode == Some(errorCode)
               && x.amount == amount && x.accountNumber == t.accounts[accountNumber].accountNumber
               && x.balanceSnapshot == t.accounts[accountNumber].balance
               && x.transactionId == freshId && x.transactedAt == now)
  {
  }

  /** saveFailedUseTransaction keeps the invariant for a request amount
      within the bounds the request object enforces. */
  lemma SaveFailedUseTransactionPreservesConsistency(
    t: Tables, accountNumber: AccountNumber, amount: int, errorCode: ErrorCode, freshId: TransactionId, now: Time)
    requires Consistent(t)
    requires ValidAmount(amount)
    requires freshId !in t.transactions
    ensures Consistent(SaveFailedUseTransactionStep(t, accountNumber, amount, errorCode, freshId, now).next)
  {
    var s := SaveFailedUseTransactionStep(t, accountNumber, amount, errorCode, freshId, now);
    if s.result.Ok? {
      var x := s.next.transactions[freshId];
      RecordKeepsConsistency(t, x);
    }
  }

  // ---------------------------------------------------------------------
  // Use and cancel together

  /** Cancelling a successful use in full, at the same account, succeeds
      and gives every account back the balance it had before the use. */
  lemma UseThenCancelRestoresBalances(
    t: Tables, userId: UserId, accountNumber: AccountNumber, amount: int,
    useId: TransactionId, cancelId: TransactionId, now: Time, later: Time)
    requires accountNumber in t.accounts ==> t.accounts[accountNumber].accountNumber == accountNumber
    requires useId !in t.transactions && cancelId !in t.transactions && cancelId != useId
    requires UseBalanceStep(t, userId, accountNumber, amount, useId, now).result.Ok?
    ensures var u := UseBalanceStep(t, userId, accountNumber, amount, useId, now);
      var c := CancelBalanceStep(u.next, useId, accountNumber, amount, cancelId, later);
      && c.result.Ok?
      && c.next.accounts == t.accounts
  {
    var u := UseBalanceStep(t, userId, accountNumber, amount, useId, now);
    var before := t.accounts[accountNumber];
    assert u.next.accounts[accountNumber].accountNumber == accountNumber;
    var c := CancelBalanceStep(u.next, useId, accountNumber, amount, cancelId, later);
    assert c.next.accounts[accountNumber] == before;
  }

  /** No operation sets isCanceled, so a use that was cancelled can be
      cancelled again in full, crediting the account a second time. */
  lemma RepeatedCancelAccepted(
    t: Tables, transactionId: TransactionId, accountNumber: AccountNumber, amount: int,
    firstId: TransactionId, secondId: TransactionId, now: Time, later: Time)
    requires firstId !in t.transactions && secondId !in t.transactions && secondId != firstId
    requires CancelBalanceStep(t, transactionId, accountNumber, amount, firstId, now).result.Ok?
    ensures var first := CancelBalanceStep(t, transactionId, accountNumber, amount, firstId, now);
      var second := CancelBalanceStep(first.next, transactionId, accountNumber, amount, secondId, later);
      && second.result.Ok?
      && second.next.accounts[accountNumber].balance == t.accounts[accountNumber].balance + 2 * amount
  {
    var first := CancelBalanceStep(t, transactionId, accountNumber, amount, firstId, now);
    assert first.next.transactions[transactionId] == t.transactions[transactionId];
    assert first.next.accounts[accountNumber].accountNumber == t.accounts[accountNumber].accountNumber;
  }

  /** The failure record every failed request leaves behind is a cancel
      target the validation as written accepts with its own amount, though it
      never debited anything; the extended validation refuses it. A CANCEL/S
      target is treated the same way. */
  lemma WrittenValidationAcceptsFailedTarget(target: Transaction, account: Account)
    requires target.accountNumber == account.accountNumber && !target.isCanceled
    ensures ValidateCancelBalanceAsWritten(target, account, target.amount).None?
    ensures target.transactionType == Use && target.resultType == F ==>
      ValidateCancelBalance(target, account, target.amount) == Some(CancelBalanceMustSuccessTransaction)
    ensures target.transactionType == Cancel ==>
      ValidateCancelBalance(target, account, target.amount) == Some(CancelBalanceMustUseTransaction)
  {
  }

  /** No operation of the services marks a record canceled, so from a consistent store
      cancelBalance never throws TRANSACTION_ALREADY_CANCELED. */
  lemma NoCancelOfCanceledInConsistentStore(
    t: Tables, transactionId: TransactionId, accountNumber: AccountNumber, amount: int,
    freshId: TransactionId, now: Time)
    requires Consistent(t)
    requires freshId !in t.transactions
    ensures CancelBalanceStep(t, transactionId, accountNumber, amount, freshId, now).result
         != Err(TransactionAlreadyCanceled)
  {
    if transactionId in t.transactions {
      assert RecordOk(t, transactionId);
    }
  }

  // ---------------------------------------------------------------------
  // Invariant helpers

  /** Adding one well-formed record for a stored account keeps the invariant. */
  lemma RecordKeepsConsistency(t: Tables, x: Transaction)
    requires Consistent(t)
    requires x.transactionId !in t.transactions
    requires x.accountNumber in t.accounts && ValidAmount(x.amount)
    requires (x.resultType == F <==> x.errorCode.Some?) && !x.isCanceled
    ensures Consistent(t.(transactions := t.transactions[x.transactionId := x]))
  {
    var u := t.(transactions := t.transactions[x.transactionId := x]);
    forall n | n in u.accounts ensures AccountOk(u, n) {
      assert AccountOk(t, n);
    }
    forall id | id in u.transactions ensures RecordOk(u, id) {
      if id != x.transactionId {
        assert RecordOk(t, id);
      }
    }
  }

  /** Giving one stored account a new non-negative balance and adding a
      well-formed record for it keeps the invariant. */
  lemma BalanceChangeKeepsConsistency(t: Tables, n: AccountNumber, balance: int, x: Transaction)
    requires Consistent(t)
    requires n in t.accounts && balance >= 0
    requires x.transactionId !in t.transactions
    requires x.accountNumber == n && ValidAmount(x.amount)
    requires (x.resultType == F <==> x.errorCode.Some?) && !x.isCanceled
    ensures var changed := t.accounts[n := t.accounts[n].(balance := balance)];
      Consistent(t.(accounts := changed, transactions := t.transactions[x.transactionId := x]))
  {
    var changed := t.accounts[n := t.accounts[n].(balance := balance)];
    var mid := t.(accounts := changed);
    forall m | m in mid.accounts ensures AccountOk(mid, m) {
      assert AccountOk(t, m);
    }
    forall id | id in mid.transactions ensures RecordOk(mid, id) {
      assert RecordOk(t, id);
    }
    forall w | w in mid.users ensures CountInUse(mid.order, mid.accounts, w) <= MAX_ACCOUNT_PER_USER {
      CountUnaffected(t.order, t.accounts, changed, w);
    }
    assert Consistent(mid);
    RecordKeepsConsistency(mid, x);
  }

  /** TransactionService: the repositories it uses are one shared store. */
  class TransactionService {
    const store: Store

    constructor (store: Store)
      ensures this.store == store
    {
      this.store := store;
    }

    /** saveTransaction: build the record from the account as it now stands
        and save it. */
    method SaveTransaction(
      transactionType: TransactionType, resultType: TransactionResultType, account: Account, amount: int,
      errorCode: Option<ErrorCode>, freshId: TransactionId, now: Time)
      returns (x: Transaction)
      modifies store
      ensures x == NewTransaction(transactionType, resultType, account, amount, errorCode, freshId, now)
      ensures store.Snapshot() == old(store.Snapshot()).(transactions := old(store.transactions)[freshId := x])
    {
      x := NewTransaction(transactionType, resultType, account, amount, errorCode, freshId, now);
      store.SaveTransaction(x);
    }

    /** useBalance: the ordered checks, then debit and record. The debit is
        a change to the managed Account entity, written back to the store. */
    method UseBalance(userId: UserId, accountNumber: AccountNumber, amount: int, freshId: TransactionId, now: Time)
      returns (r: Result<Transaction>)
      requires store.Valid()
      requires ValidAmount(amount)
      requires freshId !in store.transactions
      modifies store
      ensures store.Valid()
      ensures Step(store.Snapshot(), r) == UseBalanceStep(old(store.Snapshot()), userId, accountNumber, amount, freshId, now)
    {
      ghost var t0 := store.Snapshot();
      if userId !in store.users {
        return Err(UserNotFound);
      }
      if accountNumber !in store.accounts {
        return Err(AccountNotFound);
      }
      var account := store.accounts[accountNumber];
      var invalid := ValidateUseBalance(userId, account, amount);
      if invalid.Some? {
        return Err(invalid.value);
      }
      account := account.(balance := account.balance - amount);
      ghost var expected := UseBalanceStep(t0, userId, accountNumber, amount, freshId, now);
      assert expected.next.accounts == t0.accounts[accountNumber := account];
      store.SaveAccount(account);
      var x := SaveTransaction(Use, S, account, amount, None, freshId, now);
      r := Ok(x);
      assert expected == Step(t0.(accounts := t0.accounts[accountNumber := account],
                                  transactions := t0.transactions[freshId := x]), r);
      UseBalancePreservesConsistency(t0, userId, accountNumber, amount, freshId, now);
    }

    /** cancelBalance: the ordered checks, then credit and record. */
    method CancelBalance(
      transactionId: TransactionId, accountNumber: AccountNumber, amount: int, freshId: TransactionId, now: Time)
      returns (r: Result<Transaction>)
      requires store.Valid()
      requires ValidAmount(amount)
      requires freshId !in store.transactions
      modifies store
      ensures store.Valid()
      ensures Step(store.Snapshot(), r)
           == CancelBalanceStep(old(store.Snapshot()), transactionId, accountNumber, amount, freshId, now)
    {
      ghost var t0 := store.Snapshot();
      if transactionId !in store.transactions {
        return Err(TransactionNotFound);
      }
      if accountNumber !in store.accounts {
        return Err(AccountNotFound);
      }
      var target := store.transactions[transactionId];
      var account := store.accounts[accountNumber];
      var invalid := ValidateCancelBalance(target, account, amount);
      if invalid.Some? {
        return Err(invalid.value);
      }
      account := account.(balance := account.balance + amount);
      ghost var expected := CancelBalanceStep(t0, transactionId, accountNumber, amount, freshId, now);
      assert expected.next.accounts == t0.accounts[accountNumber := account];
      store.SaveAccount(account);
      var x := SaveTransaction(Cancel, S, account, amount, None, freshId, now);
      r := Ok(x);
      assert expected == Step(t0.(accounts := t0.accounts[accountNumber := account],
                                  transactions := t0.transactions[freshId := x]), r);
      CancelBalancePreservesConsistency(t0, transactionId, accountNumber, amount, freshId, now);
    }

    /** saveFailedUseTransaction: find the account and record a USE/F
        transaction with the error code. */
    method SaveFailedUseTransaction(
      accountNumber: AccountNumber, amount: int, errorCode: ErrorCode, freshId: TransactionId, now: Time)
      returns (r: Result<()>)
      requires store.Valid()
      requires ValidAmount(amount)
      requires freshId !in store.transactions
      modifies store
      ensures store.Valid()
      ensures Step(store.Snapshot(), r)
           == SaveFailedUseTransactionStep(old(store.Snapshot()), accountNumber, amount, errorCode, freshId, now)
    {
      ghost var t0 := store.Snapshot();
      if accountNumber !in store.accounts {
        return Err(AccountNotFound);
      }
      var account := store.accounts[accountNumber];
      var _ := SaveTransaction(Use, F, account, amount, Some(errorCode), freshId, now);
      r := Ok(());
      SaveFailedUseTransactionPreservesConsistency(t0, accountNumber, amount, errorCode, freshId, now);
    }
  }
}
