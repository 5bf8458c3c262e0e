/** AccountService: creating, closing and listing accounts.
    The Random of the service is replaced by the digits it would draw
    (`rolls`), and LocalDateTime.now() by the instant `now`. */
module Accounts {
  import opened Domain
  import opened Repository

  /** One value of random.nextInt(10). */
  type Digit = d: int | 0 <= d < 10

  /** The character StringBuilder.append(int) writes for a digit. */
  function DigitChar(d: Digit): (c: char)
    ensures '0' <= c <= '9'
  {
    ('0' as int + d) as char
  }

  /** The decimal text of a sequence of digits. */
  function Spell(ds: seq<Digit>): (s: string)
    ensures |s| == |ds|
    ensures forall i :: 0 <= i < |ds| ==> s[i] == DigitChar(ds[i])
  {
    if ds == [] then [] else Spell(ds[..|ds| - 1]) + [DigitChar(ds[|ds| - 1])]
  }

  /** The draws hold a whole candidate for the given round of the retry loop. */
  predicate Fits(rolls: seq<Digit>, round: nat) {
    ACCOUNT_NUMBER_LENGTH * (round + 1) <= |rolls|
  }

  /** The account number drawn in the given round: ACCOUNT_NUMBER_LENGTH draws. */
  function Candidate(rolls: seq<Digit>, round: nat): (c: AccountNumber)
    requires Fits(rolls, round)
    ensures IsAccountNumber(c)
  {
    Spell(rolls[ACCOUNT_NUMBER_LENGTH * round .. ACCOUNT_NUMBER_LENGTH * (round + 1)])
  }

  /** Some round from the given one on draws a number that is not stored:
      the assumption under which the rejection-sampling loop stops. */
  predicate HasFreshCandidate(accounts: map<AccountNumber, Account>, rolls: seq<Digit>, round: nat)
    decreases |rolls| - ACCOUNT_NUMBER_LENGTH * round
  {
    && Fits(rolls, round)
    && (Candidate(rolls, round) !in accounts || HasFreshCandidate(accounts, rolls, round + 1))
  }

  /** The number the retry loop returns when started at the given round: the
      first drawn candidate that is not stored. */
  function FirstFreshCandidate(accounts: map<AccountNumber, Account>, rolls: seq<Digit>, round: nat)
    : (c: AccountNumber)
    requires HasFreshCandidate(accounts, rolls, round)
    decreases |rolls| - ACCOUNT_NUMBER_LENGTH * round
    ensures IsAccountNumber(c) && c !in accounts
  {
    if Candidate(rolls, round) !in accounts then Candidate(rolls, round)
    else FirstFreshCandidate(accounts, rolls, round + 1)
  }

  /** The number the loop returns is the candidate of some round `last`, and
      the candidates of all rounds before it were already stored. */
  lemma {:induction false} FirstFreshCandidateIsFirst(
    accounts: map<AccountNumber, Account>, rolls: seq<Digit>, round: nat)
    returns (last: nat)
    requires HasFreshCandidate(accounts, rolls, round)
    decreases |rolls| - ACCOUNT_NUMBER_LENGTH * round
    ensures round <= last && Fits(rolls, last)
    ensures FirstFreshCandidate(accounts, rolls, round) == Candidate(rolls, last)
    ensures forall earlier :: round <= earlier < last ==> Candidate(rolls, earlier) in accounts
  {
    if Candidate(rolls, round) !in accounts {
      last := round;
    } else {
      last := FirstFreshCandidateIsFirst(accounts, rolls, round + 1);
    }
  }

  /** One pass of the loop body of generateAccountNumber: a cleared buffer
      with ACCOUNT_NUMBER_LENGTH random digits appended, read from the draws
      of the given round. */
  method DrawCandidate(rolls: seq<Digit>, round: nat) returns (buffer: AccountNumber)
    requires Fits(rolls, round)
    ensures buffer == Candidate(rolls, round)
  {
    var drawn := ACCOUNT_NUMBER_LENGTH * round;
    ghost var ds := rolls[drawn .. drawn + ACCOUNT_NUMBER_LENGTH];
    buffer := [];
    for i := 0 to ACCOUNT_NUMBER_LENGTH
      invariant |buffer| == i
      invariant forall j :: 0 <= j < i ==> buffer[j] == DigitChar(ds[j])
    {
      buffer := buffer + [DigitChar(rolls[drawn + i])];
    }
    assert |buffer| == |Spell(ds)|;
  }

  /** generateAccountNumber: clear the buffer, append ACCOUNT_NUMBER_LENGTH
      random digits, and repeat while an account with that number exists. */
  method GenerateAccountNumber(accounts: map<AccountNumber, Account>, rolls: seq<Digit>)
    returns (number: AccountNumber)
    requires HasFreshCandidate(accounts, rolls, 0)
    ensures number == FirstFreshCandidate(accounts, rolls, 0)
    ensures IsAccountNumber(number) && number !in accounts
  {
    var round: nat := 0;
    number := DrawCandidate(rolls, round);
    while number in accounts
      invariant HasFreshCandidate(accounts, rolls, round)
      invariant number == Candidate(rolls, round)
      invariant FirstFreshCandidate(accounts, rolls, round) == FirstFreshCandidate(accounts, rolls, 0)
      decreases |rolls| - ACCOUNT_NUMBER_LENGTH * round
    {
      round := round + 1;
      number := DrawCandidate(rolls, round);
    }
  }

  /** validateCreateAccount: the user may not already hold MAX_ACCOUNT_PER_USER IN_USE accounts. */
  function ValidateCreateAccount(t: Tables, user: UserId): Option<ErrorCode> {
    if CountInUse(t.order, t.accounts, user) >= MAX_ACCOUNT_PER_USER then Some(MaxAccountPerUser) else None
  }

  /** validateDeleteAccount: owner, then status, then balance. */
  function ValidateDeleteAccount(user: UserId, account: Account): Option<ErrorCode> {
    if user != account.owner then Some(UserAccountUnMatch)
    else if account.status == Unregistered then Some(AccountAlreadyUnregistered)
    else if account.balance > 0 then Some(BalanceNotEmpty)
    else None
  }

  /** createAccount as a function of the tables: find the user, check the
      ceiling, generate a number and store a new IN_USE account; a unique-key
      violation on the number is reported as ACCOUNT_NUMBER_ALREADY_EXISTS. */
  function CreateAccountStep(t: Tables, userId: UserId, initialBalance: int, rolls: seq<Digit>, now: Time)
    : (s: Step<Account>)
    requires HasFreshCandidate(t.accounts, rolls, 0)
    ensures Extends(t, s.next)
    ensures s.result.Err? ==> s.next == t
    ensures s.next.transactions == t.transactions
  {
    if userId !in t.users then Step(t, Err(UserNotFound))
    else
      match ValidateCreateAccount(t, userId)
      case Some(e) => Step(t, Err(e))
      case None =>
        var account := Account(userId, FirstFreshCandidate(t.accounts, rolls, 0), InUse, initialBalance, now, None);
        match InsertAccount(t, account)
        case None => Step(t, Err(AccountNumberAlreadyExists))
        case Some(stored) => Step(stored, Ok(account))
  }

  /** deleteAccount as a function of the tables: find the user and the
      account, validate, and mark the account UNREGISTERED at `now`. */
  function DeleteAccountStep(t: Tables, userId: UserId, accountNumber: AccountNumber, now: Time)
    : (s: Step<Account>)
    ensures Extends(t, s.next)
    ensures s.result.Err? ==> s.next == t
    ensures s.next.order == t.order && s.next.transactions == t.transactions
  {
    if userId !in t.users then Step(t, Err(UserNotFound))
    else if accountNumber !in t.accounts then Step(t, Err(AccountNotFound))
    else
      var account := t.accounts[accountNumber];
      match ValidateDeleteAccount(userId, account)
      case Some(e) => Step(t, Err(e))
      case None =>
        var closed := account.(status := Unregistered, unregisteredAt := Some(now));
        Step(t.(accounts := t.accounts[accountNumber := closed]), Ok(closed))
  }

  // ---------------------------------------------------------------------
  // Properties of account creation

  /** Which error createAccount throws, in the order of its checks. The
      ACCOUNT_NUMBER_ALREADY_EXISTS branch is never taken, because the
      generated number is never stored yet. */
  lemma CreateAccountErrors(t: Tables, userId: UserId, initialBalance: int, rolls: seq<Digit>, now: Time)
    requires HasFreshCandidate(t.accounts, rolls, 0)
    ensures var r := CreateAccountStep(t, userId, initialBalance, rolls, now).result;
      && (r == Err(UserNotFound) <==> userId !in t.users)
      && (r == Err(MaxAccountPerUser) <==>
            userId in t.users && CountInUse(t.order, t.accounts, userId) >= MAX_ACCOUNT_PER_USER)
      && r != Err(AccountNumberAlreadyExists)
      && (r.Ok? <==> userId in t.users && CountInUse(t.order, t.accounts, userId) < MAX_ACCOUNT_PER_USER)
  {
  }

  /** A successful create stores exactly one new account, at the end of the
      store order: owned by the user, IN_USE, holding the initial balance,
      under a fresh well-formed number. Nothing else changes, and the user's
      IN_USE count grows by one while every other user's stays. */
  lemma CreateAccountSuccess(t: Tables, userId: UserId, initialBalance: int, rolls: seq<Digit>, now: Time)
    requires Consistent(t)
    requires HasFreshCandidate(t.accounts, rolls, 0)
    requires CreateAccountStep(t, userId, initialBalance, rolls, now).result.Ok?
    ensures var s := CreateAccountStep(t, userId, initialBalance, rolls, now);
      var a := s.result.value;
      && a == Account(userId, a.accountNumber, InUse, initialBalance, now, None)
      && IsAccountNumber(a.accountNumber) && a.accountNumber !in t.accounts
      && s.next == t.(accounts := t.accounts[a.accountNumber := a], order := t.order + [a.accountNumber])
      && CountInUse(s.next.order, s.next.accounts, userId) == CountInUse(t.order, t.accounts, userId) + 1
      && forall u :: u != userId ==>
           CountInUse(s.next.order, s.next.accounts, u) == CountInUse(t.order, t.accounts, u)
  {
    var s := CreateAccountStep(t, userId, initialBalance, rolls, now);
    forall u ensures CountInUse(s.next.order, s.next.accounts, u)
                  == CountInUse(t.order, t.accounts, u) + (if u == userId then 1 else 0)
    {
      CountAfterInsert(t, s.result.value, u);
    }
  }

  /** createAccount keeps the invariant, given a request whose initial
      balance passed its @Min(0) check. */
  lemma CreateAccountPreservesConsistency(
    t: Tables, userId: UserId, initialBalance: int, rolls: seq<Digit>, now: Time)
    requires Consistent(t)
    requires initialBalance >= 0
    requires HasFreshCandidate(t.accounts, rolls, 0)
    ensures Consistent(CreateAccountStep(t, userId, initialBalance, rolls, now).next)
  {
    var s := CreateAccountStep(t, userId, initialBalance, rolls, now);
    if s.result.Ok? {
      InsertAccountKeepsConsistency(t, s.result.value);
    }
  }

  // ---------------------------------------------------------------------
  // Properties of account deletion

  /** Which error deleteAccount throws, in the order of its checks. */
  lemma DeleteAccountErrors(t: Tables, userId: UserId, accountNumber: AccountNumber, now: Time)
    ensures var r := DeleteAccountStep(t, userId, accountNumber, now).result;
      && (r == Err(UserNotFound) <==> userId !in t.users)
      && (r == Err(AccountNotFound) <==> userId in t.users && accountNumber !in t.accounts)
      && (r == Err(UserAccountUnMatch) <==>
            userId in t.users && accountNumber in t.accounts && t.accounts[accountNumber].owner != userId)
      && (r == Err(AccountAlreadyUnregistered) <==>
            userId in t.users && accountNumber in t.accounts && t.accounts[accountNumber].owner == userId
            && t.accounts[accountNumber].status == Unregistered)
      && (r == Err(BalanceNotEmpty) <==>
            userId in t.users && InUseBy(t.accounts, accountNumber, userId)
            && t.accounts[accountNumber].balance > 0)
      && (r.Ok? <==>
            userId in t.users && InUseBy(t.accounts, accountNumber, userId)
            && t.accounts[accountNumber].balance <= 0)
  {
  }

  /** A successful delete changes that one account only: it becomes
      UNREGISTERED at `now`, keeping its owner, number, balance and
      registration time. In a consistent store its balance is 0, and its
      owner's IN_USE count drops by one while every other user's stays. */
  lemma DeleteAccountSuccess(t: Tables, userId: UserId, accountNumber: AccountNumber, now: Time)
    requires Consistent(t)
    requires DeleteAccountStep(t, userId, accountNumber, now).result.Ok?
    ensures var s := DeleteAccountStep(t, userId, accountNumber, now);
      var before := t.accounts[accountNumber];
      && before.owner == userId && before.status == InUse && before.balance == 0
      && s.result.value == before.(status := Unregistered, unregisteredAt := Some(now))
      && s.next == t.(accounts := t.accounts[accountNumber := s.result.value])
      && CountInUse(s.next.order, s.next.accounts, userId) == CountInUse(t.order, t.accounts, userId) - 1
      && forall u :: u != userId ==>
           CountInUse(s.next.order, s.next.accounts, u) == CountInUse(t.order, t.accounts, u)
  {
    var s := DeleteAccountStep(t, userId, accountNumber, now);
    assert AccountOk(t, accountNumber);
    assert accountNumber in t.order;
    CountAfterUnregister(t.order, t.accounts, accountNumber, s.result.value, userId);
    forall u | u != userId
      ensures CountInUse(s.next.order, s.next.accounts, u) == CountInUse(t.order, t.accounts, u)
    {
      CountOthersAfterUnregister(t.order, t.accounts, accountNumber, s.result.value, userId, u);
    }
  }

  /** deleteAccount keeps the invariant. */
  lemma DeleteAccountPreservesConsistency(t: Tables, userId: UserId, accountNumber: AccountNumber, now: Time)
    requires Consistent(t)
    ensures Consistent(DeleteAccountStep(t, userId, accountNumber, now).next)
  {
    if DeleteAccountStep(t, userId, accountNumber, now).result.Ok? {
      DeleteAccountSuccess(t, userId, accountNumber, now);
    }
  }

  // ---------------------------------------------------------------------
  // Properties of the account listing

  /** Listing the accounts of a concatenation of store orders lists each part
      in turn, so the listing keeps the store order. */
  lemma {:induction false} FindAllInUseAppend(
    front: seq<AccountNumber>, back: seq<AccountNumber>, accounts: map<AccountNumber, Account>, user: UserId)
    ensures FindAllInUse(front + back, accounts, user)
         == FindAllInUse(front, accounts, user) + FindAllInUse(back, accounts, user)
    decreases |back|
  {
    if back == [] {
      assert front + back == front;
    } else {
      var init := back[..|back| - 1];
      assert (front + back)[..|front + back| - 1] == front + init;
      FindAllInUseAppend(front, init, accounts, user);
    }
  }

  /** When every stored account is keyed by its own number, each listed
      account's number comes from the store order. */
  lemma {:induction false} FindAllInUseNumbers(
    order: seq<AccountNumber>, accounts: map<AccountNumber, Account>, user: UserId)
    requires forall n :: n in order && n in accounts ==> accounts[n].accountNumber == n
    ensures forall a :: a in FindAllInUse(order, accounts, user) ==> a.accountNumber in order
  {
    if order != [] {
      var init := order[..|order| - 1];
      FindAllInUseNumbers(init, accounts, user);
      forall a | a in FindAllInUse(order, accounts, user) ensures a.accountNumber in order {
        if a in FindAllInUse(init, accounts, user) {
          assert a.accountNumber in init;
        }
      }
    }
  }

  /** No two entries of a listing carry the same account number. */
  predicate DistinctNumbers(r: seq<Account>) {
    forall i, j :: 0 <= i < j < |r| ==> r[i].accountNumber != r[j].accountNumber
  }

  /** A store order without repeats, over accounts keyed by their own numbers,
      lists no account number twice. */
  lemma {:induction false} FindAllInUseDistinct(
    order: seq<AccountNumber>, accounts: map<AccountNumber, Account>, user: UserId)
    requires forall n :: n in order && n in accounts ==> accounts[n].accountNumber == n
    requires forall i, j :: 0 <= i < j < |order| ==> order[i] != order[j]
    ensures DistinctNumbers(FindAllInUse(order, accounts, user))
  {
    if order != [] {
      var init := order[..|order| - 1];
      var n := order[|order| - 1];
      assert forall i, j :: 0 <= i < j < |init| ==> init[i] == order[i] && init[j] == order[j];
      FindAllInUseDistinct(init, accounts, user);
      FindAllInUseNumbers(init, accounts, user);
      var front := FindAllInUse(init, accounts, user);
      if InUseBy(accounts, n, user) {
        assert n !in init by {
          forall k | 0 <= k < |init| ensures init[k] != n {
            assert init[k] == order[k];
          }
        }
        forall i | 0 <= i < |front| ensures front[i].accountNumber != n {
          assert front[i] in front;
        }
        var r := FindAllInUse(order, accounts, user);
        assert r == front + [accounts[n]];
        forall i, j | 0 <= i < j < |r| ensures r[i].accountNumber != r[j].accountNumber {
          if j == |front| {
            assert r[i] == front[i] && r[j] == accounts[n];
          } else {
            assert r[i] == front[i] && r[j] == front[j];
          }
        }
      } else {
        assert FindAllInUse(order, accounts, user) == front;
      }
    }
  }

  /** In a consistent store the listing holds each of the user's IN_USE
      accounts once, each as stored under its own number, and at most
      MAX_ACCOUNT_PER_USER of them. */
  lemma FindAllInUseExact(t: Tables, user: UserId)
    requires Consistent(t)
    requires user in t.users
    ensures var r := FindAllInUse(t.order, t.accounts, user);
      && (forall a :: a in r <==> a.accountNumber in t.accounts && t.accounts[a.accountNumber] == a
                                  && a.owner == user && a.status == InUse)
      && (forall i, j :: 0 <= i < j < |r| ==> r[i] != r[j])
      && |r| <= MAX_ACCOUNT_PER_USER
  {
    var r := FindAllInUse(t.order, t.accounts, user);
    forall n | n in t.order && n in t.accounts ensures t.accounts[n].accountNumber == n {
      assert AccountOk(t, n);
    }
    FindAllInUseDistinct(t.order, t.accounts, user);
    forall a | a in r ensures a.accountNumber in t.accounts && t.accounts[a.accountNumber] == a {
      var n :| n in t.accounts && t.accounts[n] == a;
      assert AccountOk(t, n);
    }
    forall a: Account | a.accountNumber in t.accounts && t.accounts[a.accountNumber] == a && a.owner == user
               && a.status == InUse
      ensures a in r
    {
      assert a.accountNumber in t.order;
    }
  }

  /** AccountService: the repositories it uses are one shared store. */
  class AccountService {
    const store: Store

    constructor (store: Store)
      ensures this.store == store
    {
      this.store := store;
    }

    /** createAccount: USER_NOT_FOUND, MAX_ACCOUNT_PER_USER, or a new IN_USE
        account under a freshly generated number. */
    method CreateAccount(userId: UserId, initialBalance: int, rolls: seq<Digit>, now: Time)
      returns (r: Result<Account>)
      requires store.Valid()
      requires initialBalance >= 0
      requires HasFreshCandidate(store.accounts, rolls, 0)
      modifies store
      ensures store.Valid()
      ensures Step(store.Snapshot(), r) == CreateAccountStep(old(store.Snapshot()), userId, initialBalance, rolls, now)
    {
      ghost var t0 := store.Snapshot();
      if userId !in store.users {
        return Err(UserNotFound);
      }
      var invalid := ValidateCreateAccount(store.Snapshot(), userId);
      if invalid.Some? {
        return Err(invalid.value);
      }
      var number := GenerateAccountNumber(store.accounts, rolls);
      var account := Account(userId, number, InUse, initialBalance, now, None);
      var ok := store.SaveAndFlush(account);
      r := if ok then Ok(account) else Err(AccountNumberAlreadyExists);
      CreateAccountPreservesConsistency(t0, userId, initialBalance, rolls, now);
    }

    /** deleteAccount: the ordered checks, then unregister and save. */
    method DeleteAccount(userId: UserId, accountNumber: AccountNumber, now: Time)
      returns (r: Result<Account>)
      requires store.Valid()
      modifies store
      ensures store.Valid()
      ensures Step(store.Snapshot(), r) == DeleteAccountStep(old(store.Snapshot()), userId, accountNumber, now)
    {
      ghost var t0 := store.Snapshot();
      if userId !in store.users {
        return Err(UserNotFound);
      }
      if accountNumber !in store.accounts {
        return Err(AccountNotFound);
      }
      var account := store.accounts[accountNumber];
      var invalid := ValidateDeleteAccount(userId, account);
      if invalid.Some? {
        return Err(invalid.value);
      }
      account := account.(status := Unregistered, unregisteredAt := Some(now));
      store.SaveAccount(account);
      r := Ok(account);
      DeleteAccountPreservesConsistency(t0, userId, accountNumber, now);
    }

    /** getAccountsByUserId: USER_NOT_FOUND, or the user's IN_USE accounts in
        store order. */
    method GetAccountsByUserId(userId: UserId) returns (r: Result<seq<Account>>)
      ensures r.Err? <==> userId !in store.users
      ensures r.Err? ==> r.code == UserNotFound
      ensures r.Ok? ==> r.value == FindAllInUse(store.order, store.accounts, userId)
    {
      if userId !in store.users {
        return Err(UserNotFound);
      }
      r := Ok(FindAllInUse(store.order, store.accounts, userId));
    }
  }
}
