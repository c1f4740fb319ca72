/**
 * The persistent state behind the REST endpoints (the `users`, `tokens` and
 * `transactions` collections), the refusals a request can meet, and the
 * invariant every request keeps.
 */
module Store {
  import opened Common
  import opened Clock
  import opened Text
  import opened UserModel
  import opened TokenModel
  import opened TransactionModel
  import opened Ledger

  /** The three collections, each in insertion order (oldest first). */
  datatype State = State(users: seq<User>, tokens: seq<Token>, ledger: seq<Transaction>)

  const Empty: State := State([], [], [])

  /** Every refusal the routes answer with. */
  datatype Failure =
    | UnknownUser            // the authenticated caller's id resolves to no user
    | DuplicateIdentity      // e-mail or phone already registered
    | InvalidToken           // no unused registration token with that code
    | TokenTypeMismatch      // the token is for the other tier
    | InvalidReferralCode    // a referral code that no user holds
    | NoFreshCode            // the random draws ran out before a code not yet in use came up
    | MissingRequiredField   // the schema's `required` validation refused the document
    | InvalidCredentials     // unknown e-mail or wrong password
    | AccountNotActive
    | InvalidUserType
    | NotFound
    | AlreadyActive
    | NoRegistrationToken
    | NegativeSkip           // a page before the first
    | DailyLimitReached
    | MissingBankDetails
    | BelowMinimum
    | InsufficientBalance
    | OutsidePayoutWindow
    | IncompleteBankDetails
    | InvalidAccountNumber

  /**
   * The answer to one request together with the state it leaves behind;
   * each request is one atomic step.
   */
  datatype Reply<+T> = Reply(state: State, result: Result<T, Failure>)

  /** The reference the next ledger entry receives. */
  function NextReference(s: State, prefix: string): (r: Reference)
    ensures forall i :: 0 <= i < |s.ledger| && s.ledger[i].reference.serial == i ==> s.ledger[i].reference != r
  {
    Reference(prefix, |s.ledger|)
  }

  // ---------------------------------------------------------------------------
  // The invariant.

  predicate TokenWellFormed(t: Token, userCount: nat)
  {
    && IsUpperCase(t.code)
    && t.price == TokenPrice(t.userType)
    && (t.isUsed <==> t.usedBy.Some?)
    && (t.isUsed <==> t.usedAt.Some?)
    && (t.usedBy.Some? ==> t.usedBy.value < userCount)
  }

  /** Codes are unique and upper-case, and a user consumed at most one token. */
  predicate TokensValid(s: State)
  {
    && (forall i :: 0 <= i < |s.tokens| ==> TokenWellFormed(s.tokens[i], |s.users|))
    && (forall i, j :: 0 <= i < |s.tokens| && 0 <= j < |s.tokens| && i != j ==>
          s.tokens[i].code != s.tokens[j].code)
    && (forall i, j :: 0 <= i < |s.tokens| && 0 <= j < |s.tokens| && i != j && s.tokens[i].usedBy.Some? ==>
          s.tokens[i].usedBy != s.tokens[j].usedBy)
  }

  /** E-mail is stored lower-case; a referrer registered before the user it referred. */
  predicate UserWellFormed(u: User, id: UserId)
  {
    && IsLowerCase(u.email)
    && (u.referredBy.Some? ==> u.referredBy.value < id)
  }

  /** E-mail, phone and referral code each identify at most one user. */
  predicate UsersValid(s: State)
  {
    && (forall id :: 0 <= id < |s.users| ==> UserWellFormed(s.users[id], id))
    && (forall i, j :: 0 <= i < |s.users| && 0 <= j < |s.users| && i != j ==>
          && s.users[i].email != s.users[j].email
          && s.users[i].phone != s.users[j].phone
          && s.users[i].referralCode != s.users[j].referralCode)
  }

  /**
   * Entry `i` carries serial `i` (so references are unique), belongs to an
   * existing user, has a positive amount, and is pending exactly when it is
   * a withdrawal.
   */
  predicate EntryWellFormed(t: Transaction, i: nat, userCount: nat)
  {
    && t.reference.serial == i
    && t.user < userCount
    && (t.metadata.referredUser.Some? ==> t.metadata.referredUser.value < userCount)
    && t.amount > 0
    && t.status == (if t.txType == Withdrawal then Pending else Completed)
  }

  predicate LedgerValid(s: State)
  {
    forall i :: 0 <= i < |s.ledger| ==> EntryWellFormed(s.ledger[i], i, |s.users|)
  }

  /**
   * The ad counter agrees with the ledger: no ad view is later than the last
   * ad date, the counter is the number of ad views on that day, and a basic
   * user has at most `DailyAdCap` ad views on any day.
   */
  ghost predicate AdCounter(l: seq<Transaction>, id: UserId, u: User)
  {
    && u.lastAdDate.Some?
    && (forall i :: 0 <= i < |l| && l[i].user == id && l[i].txType == AdView ==>
          l[i].createdAt.day <= u.lastAdDate.value.day)
    && u.adsWatchedToday == Total(l, AdViewsOn(id, u.lastAdDate.value.day))
    && (u.userType == Basic ==> forall d :: Total(l, AdViewsOn(id, d)) <= DailyAdCap)
  }

  /**
   * One user's wallet is exactly what its ledger entries say: the balance is
   * the sum of its credits minus its withdrawals and is never negative, the
   * total earned is the sum of its ad earnings, an active user has exactly one
   * registration entry (an inactive one none), and exactly one referral bonus
   * was paid for it if it is active and was referred (none otherwise).
   */
  ghost predicate Account(l: seq<Transaction>, id: UserId, u: User)
  {
    && u.balance >= 0
    && u.balance == Total(l, Net(id))
    && u.totalEarned == Total(l, Earned(id))
    && Total(l, Registrations(id)) == (if u.isActive then 1 else 0)
    && Total(l, BonusesFor(id)) == (if u.isActive && u.referredBy.Some? then 1 else 0)
    && AdCounter(l, id, u)
  }

  ghost predicate AccountsValid(s: State)
  {
    forall id :: 0 <= id < |s.users| ==> Account(s.ledger, id, s.users[id])
  }

  ghost predicate Valid(s: State)
  {
    TokensValid(s) && UsersValid(s) && LedgerValid(s) && AccountsValid(s)
  }

  /** The clock has not gone back behind any user's last ad date. */
  predicate NotBefore(s: State, now: Instant)
  {
    forall id :: 0 <= id < |s.users| && s.users[id].lastAdDate.Some? ==> s.users[id].lastAdDate.value.day <= now.day
  }

  // ---------------------------------------------------------------------------
  // Facts the operations' proofs are built from.

  lemma EmptyValid()
    ensures Valid(Empty)
  {
  }

  /** An entry that neither belongs to `id` nor pays a bonus for `id` leaves id's account as it was. */
  lemma AccountFrame(l: seq<Transaction>, e: Transaction, id: UserId, u: User)
    requires Account(l, id, u)
    requires e.user != id && e.metadata.referredUser != Some(id)
    ensures Account(l + [e], id, u)
  {
    TotalAppend(l, e, Net(id));
    TotalAppend(l, e, Earned(id));
    TotalAppend(l, e, Registrations(id));
    TotalAppend(l, e, BonusesFor(id));
    forall d
      ensures Total(l + [e], AdViewsOn(id, d)) == Total(l, AdViewsOn(id, d))
    {
      TotalAppend(l, e, AdViewsOn(id, d));
    }
  }

  /** Every measure of `id` after an append, in one place. */
  lemma AppendMeasures(l: seq<Transaction>, e: Transaction, id: UserId)
    ensures Total(l + [e], Net(id)) == Total(l, Net(id)) + Weight(e, Net(id))
    ensures Total(l + [e], Earned(id)) == Total(l, Earned(id)) + Weight(e, Earned(id))
    ensures Total(l + [e], Registrations(id)) == Total(l, Registrations(id)) + Weight(e, Registrations(id))
    ensures Total(l + [e], BonusesFor(id)) == Total(l, BonusesFor(id)) + Weight(e, BonusesFor(id))
    ensures forall d :: Total(l + [e], AdViewsOn(id, d)) == Total(l, AdViewsOn(id, d)) + Weight(e, AdViewsOn(id, d))
    ensures forall i :: 0 <= i < |l| ==> (l + [e])[i] == l[i]
  {
    TotalAppend(l, e, Net(id));
    TotalAppend(l, e, Earned(id));
    TotalAppend(l, e, Registrations(id));
    TotalAppend(l, e, BonusesFor(id));
    forall d
      ensures Total(l + [e], AdViewsOn(id, d)) == Total(l, AdViewsOn(id, d)) + Weight(e, AdViewsOn(id, d))
    {
      TotalAppend(l, e, AdViewsOn(id, d));
    }
  }

  /** Accounts of all users but `id` survive an entry that does not concern them. */
  lemma AccountsFrame(l: seq<Transaction>, e: Transaction, users: seq<User>, id: UserId)
    requires forall k :: 0 <= k < |users| && k != id ==> Account(l, k, users[k])
    requires e.metadata.referredUser.None? || e.metadata.referredUser == Some(id)
    requires e.user == id
    ensures forall k :: 0 <= k < |users| && k != id ==> Account(l + [e], k, users[k])
  {
    forall k | 0 <= k < |users| && k != id
      ensures Account(l + [e], k, users[k])
    {
      AccountFrame(l, e, k, users[k]);
    }
  }

  /** A user that no entry mentions starts with a wallet that matches the ledger. */
  lemma FreshAccount(l: seq<Transaction>, id: UserId, u: User)
    requires forall i :: 0 <= i < |l| ==> l[i].user < id
    requires forall i :: 0 <= i < |l| && l[i].metadata.referredUser.Some? ==> l[i].metadata.referredUser.value < id
    requires u.balance == 0 && u.totalEarned == 0 && u.adsWatchedToday == 0
    requires !u.isActive && u.lastAdDate.Some?
    ensures Account(l, id, u)
  {
    TotalZero(l, Net(id));
    TotalZero(l, Earned(id));
    TotalZero(l, Registrations(id));
    TotalZero(l, BonusesFor(id));
    forall d
      ensures Total(l, AdViewsOn(id, d)) == 0
    {
      TotalZero(l, AdViewsOn(id, d));
    }
  }

  /** Changing only wallet, counter, activation or bank fields keeps the identity invariants. */
  lemma SameIdentities(s: State, s': State)
    requires UsersValid(s) && TokensValid(s) && LedgerValid(s)
    requires |s'.users| == |s.users| && s'.tokens == s.tokens
    requires forall i :: 0 <= i < |s.users| ==>
      && s'.users[i].email == s.users[i].email
      && s'.users[i].phone == s.users[i].phone
      && s'.users[i].referralCode == s.users[i].referralCode
      && s'.users[i].referredBy == s.users[i].referredBy
    ensures UsersValid(s') && TokensValid(s')
  {
    forall i | 0 <= i < |s'.users|
      ensures UserWellFormed(s'.users[i], i)
    {
      assert UserWellFormed(s.users[i], i);
    }
  }

  /** Appending a well-formed entry with the next serial keeps the ledger invariant. */
  lemma LedgerAppend(s: State, e: Transaction)
    requires LedgerValid(s)
    requires EntryWellFormed(e, |s.ledger|, |s.users|)
    ensures LedgerValid(s.(ledger := s.ledger + [e]))
  {
  }

  /** Ledger references never repeat: entries at different positions have different references. */
  lemma ReferencesUnique(s: State, i: nat, j: nat)
    requires LedgerValid(s)
    requires i < |s.ledger| && j < |s.ledger| && i != j
    ensures s.ledger[i].reference != s.ledger[j].reference
  {
    assert EntryWellFormed(s.ledger[i], i, |s.users|);
    assert EntryWellFormed(s.ledger[j], j, |s.users|);
  }

  /** In every valid state a basic user has at most 50 recorded ad views on any calendar day. */
  lemma BasicDailyCap(s: State, id: UserId, day: int)
    requires Valid(s)
    requires id < |s.users| && s.users[id].userType == Basic
    ensures Total(s.ledger, AdViewsOn(id, day)) <= 50
  {
    assert Account(s.ledger, id, s.users[id]);
  }

  /** In every valid state a referral bonus was paid at most once for each user. */
  lemma BonusAtMostOnce(s: State, id: UserId)
    requires Valid(s)
    requires id < |s.users|
    ensures Total(s.ledger, BonusesFor(id)) <= 1
    ensures !s.users[id].isActive ==> Total(s.ledger, BonusesFor(id)) == 0
  {
    assert Account(s.ledger, id, s.users[id]);
  }

  /** In every valid state balances are never negative and equal the user's ledger. */
  lemma BalanceMatchesLedger(s: State, id: UserId)
    requires Valid(s)
    requires id < |s.users|
    ensures s.users[id].balance >= 0
    ensures s.users[id].balance == Total(s.ledger, Net(id))
  {
    assert Account(s.ledger, id, s.users[id]);
  }
}
