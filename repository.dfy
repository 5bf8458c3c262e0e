/** The persisted state behind AccountUserRepository, AccountRepository and
    TransactionRepository, as in-memory tables, with the two queries of
    AccountSpecification (findAll and count of a user's IN_USE accounts). */
module Repository {
  import opened Domain

  /** Users by id, accounts keyed by account number, the order in which
      accounts were stored, and transactions keyed by transaction id. */
  datatype Tables = Tables(
    users: set<UserId>,
    accounts: map<AccountNumber, Account>,
    order: seq<AccountNumber>,
    transactions: map<TransactionId, Transaction>)

  /** The state after an operation and what the operation returned or threw. */
  datatype Step<+T> = Step(next: Tables, result: Result<T>)

  /** Exactly ACCOUNT_NUMBER_LENGTH decimal digits. */
  predicate IsAccountNumber(s: string) {
    |s| == ACCOUNT_NUMBER_LENGTH && forall i :: 0 <= i < |s| ==> '0' <= s[i] <= '9'
  }

  /** The specification equalAccountUser(user).and(equalAccountStatus(IN_USE)). */
  predicate InUseBy(accounts: map<AccountNumber, Account>, n: AccountNumber, user: UserId) {
    n in accounts && accounts[n].owner == user && accounts[n].status == InUse
  }

  /** accountRepository.count(spec): how many of the stored accounts the user holds IN_USE. */
  function CountInUse(order: seq<AccountNumber>, accounts: map<AccountNumber, Account>, user: UserId): nat
  {
    if order == [] then 0
    else
      CountInUse(order[..|order| - 1], accounts, user)
      + (if InUseBy(accounts, order[|order| - 1], user) then 1 else 0)
  }

  /** accountRepository.findAll(spec): the user's IN_USE accounts, in store order. */
  function FindAllInUse(order: seq<AccountNumber>, accounts: map<AccountNumber, Account>, user: UserId)
    : (r: seq<Account>)
    ensures forall a :: a in r ==> a.owner == user && a.status == InUse && a in accounts.Values
    ensures forall n :: n in order && InUseBy(accounts, n, user) ==> accounts[n] in r
    ensures |r| == CountInUse(order, accounts, user)
  {
    if order == [] then []
    else
      var n := order[|order| - 1];
      FindAllInUse(order[..|order| - 1], accounts, user)
      + (if InUseBy(accounts, n, user) then [accounts[n]] else [])
  }

  /** Fewer matching entries give a count that is no larger. */
  lemma {:induction false} CountMonotone(
    order: seq<AccountNumber>, before: map<AccountNumber, Account>, after: map<AccountNumber, Account>, user: UserId)
    requires forall n :: n in order && InUseBy(after, n, user) ==> InUseBy(before, n, user)
    ensures CountInUse(order, after, user) <= CountInUse(order, before, user)
  {
    if order != [] {
      CountMonotone(order[..|order| - 1], before, after, user);
    }
  }

  /** Entries that match alike give equal counts. */
  lemma CountUnaffected(
    order: seq<AccountNumber>, before: map<AccountNumber, Account>, after: map<AccountNumber, Account>, user: UserId)
    requires forall n :: n in order ==> (InUseBy(after, n, user) <==> InUseBy(before, n, user))
    ensures CountInUse(order, after, user) == CountInUse(order, before, user)
  {
    CountMonotone(order, before, after, user);
    CountMonotone(order, after, before, user);
  }

  /** Storing one more account adds one to its owner's count when it is IN_USE. */
  lemma CountAppend(order: seq<AccountNumber>, accounts: map<AccountNumber, Account>, n: AccountNumber, user: UserId)
    ensures CountInUse(order + [n], accounts, user)
         == CountInUse(order, accounts, user) + (if InUseBy(accounts, n, user) then 1 else 0)
  {
    assert (order + [n])[..|order|] == order;
  }

  /** Replacing one IN_USE account that is listed once by an UNREGISTERED one
      lowers its owner's count by one. */
  lemma {:induction false} CountAfterUnregister(
    order: seq<AccountNumber>, accounts: map<AccountNumber, Account>, n: AccountNumber, closed: Account,
    user: UserId)
    requires InUseBy(accounts, n, user) && closed.status == Unregistered
    requires n in order
    requires forall i, j :: 0 <= i < j < |order| ==> order[i] != order[j]
    ensures CountInUse(order, accounts[n := closed], user) == CountInUse(order, accounts, user) - 1
  {
    var after := accounts[n := closed];
    var init := order[..|order| - 1];
    if order[|order| - 1] == n {
      forall m | m in init ensures InUseBy(after, m, user) <==> InUseBy(accounts, m, user) {
        var i :| 0 <= i < |init| && init[i] == m;
        assert order[i] != order[|order| - 1];
      }
      CountUnaffected(init, accounts, after, user);
    } else {
      var k :| 0 <= k < |order| && order[k] == n;
      assert k < |order| - 1 && init[k] == n;
      CountAfterUnregister(init, accounts, n, closed, user);
    }
  }

  /** ... and leaves every other user's count as it was. */
  lemma CountOthersAfterUnregister(
    order: seq<AccountNumber>, accounts: map<AccountNumber, Account>, n: AccountNumber, closed: Account,
    user: UserId, other: UserId)
    requires InUseBy(accounts, n, user) && closed.status == Unregistered
    requires other != user
    ensures CountInUse(order, accounts[n := closed], other) == CountInUse(order, accounts, other)
  {
    CountUnaffected(order, accounts, accounts[n := closed], other);
  }

  /** Appending one new account to the tables adds one to its owner's count
      when it is IN_USE and leaves every other count as it was. */
  lemma CountAfterInsert(t: Tables, a: Account, user: UserId)
    requires OrderOk(t)
    requires a.accountNumber !in t.accounts
    ensures var after := t.accounts[a.accountNumber := a];
      CountInUse(t.order + [a.accountNumber], after, user)
      == CountInUse(t.order, t.accounts, user) + (if a.owner == user && a.status == InUse then 1 else 0)
  {
    var after := t.accounts[a.accountNumber := a];
    CountAppend(t.order, after, a.accountNumber, user);
    CountUnaffected(t.order, t.accounts, after, user);
  }

  /** The account-table part of the invariant: each stored account is keyed by
      its own number, which is a well-formed account number; its owner exists;
      its balance is not negative; and it has an unregisteredAt exactly when
      it is UNREGISTERED. */
  ghost predicate AccountOk(t: Tables, n: AccountNumber)
    requires n in t.accounts
  {
    var a := t.accounts[n];
    && a.accountNumber == n
    && IsAccountNumber(n)
    && a.owner in t.users
    && a.balance >= 0
    && (a.status == Unregistered <==> a.unregisteredAt.Some?)
  }

  /** The store order lists every stored account exactly once. */
  ghost predicate OrderOk(t: Tables) {
    && (forall i :: 0 <= i < |t.order| ==> t.order[i] in t.accounts)
    && (forall n :: n in t.accounts ==> n in t.order)
    && (forall i, j :: 0 <= i < j < |t.order| ==> t.order[i] != t.order[j])
  }

  /** The transaction-table part of the invariant: each record is keyed by its
      own id, belongs to a stored account, has an amount a validated request
      allows, carries an error code exactly when it is F, and is not canceled
      (no operation of the services sets that flag). */
  ghost predicate RecordOk(t: Tables, id: TransactionId)
    requires id in t.transactions
  {
    var x := t.transactions[id];
    && x.transactionId == id
    && x.accountNumber in t.accounts
    && ValidAmount(x.amount)
    && (x.resultType == F <==> x.errorCode.Some?)
    && !x.isCanceled
  }

  /** The invariant every operation keeps. */
  ghost predicate Consistent(t: Tables) {
    && (forall n :: n in t.accounts ==> AccountOk(t, n))
    && OrderOk(t)
    && (forall id :: id in t.transactions ==> RecordOk(t, id))
    && (forall u :: u in t.users ==> CountInUse(t.order, t.accounts, u) <= MAX_ACCOUNT_PER_USER)
  }

  /** How one stored account may change: owner, number and registration time
      stay, and an UNREGISTERED account stays UNREGISTERED with the same
      unregisteredAt (no operation moves an account back to IN_USE). */
  predicate Evolves(before: Account, after: Account) {
    && after.owner == before.owner
    && after.accountNumber == before.accountNumber
    && after.registeredAt == before.registeredAt
    && (before.status == Unregistered ==>
          after.status == Unregistered && after.unregisteredAt == before.unregisteredAt)
  }

  /** How the tables may change in one operation: the users stay, no account
      is removed and each evolves, and every stored transaction stays as it was. */
  ghost predicate Extends(before: Tables, after: Tables) {
    && after.users == before.users
    && (forall n :: n in before.accounts ==> n in after.accounts && Evolves(before.accounts[n], after.accounts[n]))
    && (forall id :: id in before.transactions ==>
          id in after.transactions && after.transactions[id] == before.transactions[id])
  }

  /** accountRepository.saveAndFlush of a new account: None when the number is
      already stored (the unique-key violation), else the tables with it added. */
  function InsertAccount(t: Tables, a: Account): (r: Option<Tables>)
    ensures r.Some? <==> a.accountNumber !in t.accounts
  {
    if a.accountNumber in t.accounts then None
    else Some(t.(accounts := t.accounts[a.accountNumber := a], order := t.order + [a.accountNumber]))
  }

  /** Storing a new well-formed IN_USE account of an existing user who holds
      fewer than MAX_ACCOUNT_PER_USER IN_USE accounts keeps the invariant. */
  lemma InsertAccountKeepsConsistency(t: Tables, a: Account)
    requires Consistent(t)
    requires a.accountNumber !in t.accounts && IsAccountNumber(a.accountNumber)
    requires a.owner in t.users && a.balance >= 0 && a.status == InUse && a.unregisteredAt == None
    requires CountInUse(t.order, t.accounts, a.owner) < MAX_ACCOUNT_PER_USER
    ensures InsertAccount(t, a).Some? && Consistent(InsertAccount(t, a).value)
  {
    var n := a.accountNumber;
    var u := InsertAccount(t, a).value;
    assert u.accounts == t.accounts[n := a] && u.order == t.order + [n];
    forall m | m in u.accounts ensures AccountOk(u, m) {
      if m != n {
        assert AccountOk(t, m);
      }
    }
    assert n !in t.order;
    forall i | 0 <= i < |u.order| ensures u.order[i] in u.accounts {
      if i < |t.order| {
        assert u.order[i] == t.order[i];
      }
    }
    forall i, j | 0 <= i < j < |u.order| ensures u.order[i] != u.order[j] {
      if j < |t.order| {
        assert u.order[i] == t.order[i] && u.order[j] == t.order[j];
      } else {
        assert u.order[i] == t.order[i];
      }
    }
    forall id | id in u.transactions ensures RecordOk(u, id) {
      assert RecordOk(t, id);
    }
    forall w | w in u.users ensures CountInUse(u.order, u.accounts, w) <= MAX_ACCOUNT_PER_USER {
      CountAfterInsert(t, a, w);
    }
  }

  /** The tables behind the repositories, updated in place by the services. */
  class Store {
    var users: set<UserId>
    var accounts: map<AccountNumber, Account>
    var order: seq<AccountNumber>
    var transactions: map<TransactionId, Transaction>

    function Snapshot(): Tables
      reads this
    {
      Tables(users, accounts, order, transactions)
    }

    ghost predicate Valid()
      reads this
    {
      Consistent(Snapshot())
    }

    /** A store with the given users and no accounts or transactions. */
    constructor (users: set<UserId>)
      ensures Snapshot() == Tables(users, map[], [], map[])
      ensures Valid()
    {
      this.users := users;
      accounts := map[];
      order := [];
      transactions := map[];
    }

    /** saveAndFlush of a new account; false on a duplicate account number. */
    method SaveAndFlush(a: Account) returns (ok: bool)
      modifies this
      ensures InsertAccount(old(Snapshot()), a) == if ok then Some(Snapshot()) else None
      ensures !ok ==> Snapshot() == old(Snapshot())
    {
      ok := a.accountNumber !in accounts;
      if ok {
        accounts := accounts[a.accountNumber := a];
        order := order + [a.accountNumber];
      }
    }

    /** save of an account already stored under its number. */
    method SaveAccount(a: Account)
      modifies this
      ensures Snapshot() == old(Snapshot()).(accounts := old(accounts)[a.accountNumber := a])
    {
      accounts := accounts[a.accountNumber := a];
    }

    /** transactionRepository.save of a new record. */
    method SaveTransaction(x: Transaction)
      modifies this
      ensures Snapshot() == old(Snapshot()).(transactions := old(transactions)[x.transactionId := x])
    {
      transactions := transactions[x.transactionId := x];
    }
  }
}
