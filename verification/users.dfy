/** The account pages: bank details, transaction list and referral statistics. */
module Users {
  import opened Common
  import opened Clock
  import opened Seqs
  import opened UserModel
  import opened TransactionModel
  import opened Ledger
  import opened Store
  import Withdrawals

  /**
   * PUT /users/bank-details. The three fields are all required (an empty
   * string counts as missing) and the account number needs at least ten
   * characters; both checks come before the user is looked up. On success
   * the stored bank account becomes exactly the three fields given.
   */
  function UpdateBankDetails(s: State, id: UserId, bankName: string, accountNumber: string, accountName: string)
    : (rep: Reply<BankAccount>)
    ensures rep.result.Err? ==> rep.state == s
    ensures rep.result.Err? ==> rep.result.error in {IncompleteBankDetails, InvalidAccountNumber, UnknownUser}
    ensures rep.result == Err(IncompleteBankDetails) <==> bankName == "" || accountNumber == "" || accountName == ""
    ensures rep.result == Err(InvalidAccountNumber) <==>
      bankName != "" && accountNumber != "" && accountName != "" && |accountNumber| < 10
    ensures rep.result == Err(UnknownUser) <==>
      bankName != "" && accountName != "" && |accountNumber| >= 10 && id >= |s.users|
    ensures rep.result.Ok? ==>
      && id < |s.users| && |rep.state.users| == |s.users|
      && rep.result.value == BankAccount(bankName, accountNumber, accountName)
      && rep.state.users[id] == s.users[id].(bankAccount := Some(rep.result.value))
      && (forall j :: 0 <= j < |s.users| && j != id ==> rep.state.users[j] == s.users[j])
      && rep.state.tokens == s.tokens && rep.state.ledger == s.ledger
  {
    if bankName == "" || accountNumber == "" || accountName == "" then Reply(s, Err(IncompleteBankDetails))
    else if |accountNumber| < 10 then Reply(s, Err(InvalidAccountNumber))
    else if id >= |s.users| then Reply(s, Err(UnknownUser))
    else
      var b := BankAccount(bankName, accountNumber, accountName);
      Reply(s.(users := s.users[id := s.users[id].(bankAccount := Some(b))]), Ok(b))
  }

  lemma BankDetailsPreserveValid(s: State, id: UserId, bankName: string, accountNumber: string, accountName: string)
    requires Valid(s)
    ensures Valid(UpdateBankDetails(s, id, bankName, accountNumber, accountName).state)
  {
    var rep := UpdateBankDetails(s, id, bankName, accountNumber, accountName);
    if rep.result.Ok? {
      SameIdentities(s, rep.state);
      assert Account(s.ledger, id, s.users[id]);
    }
  }

  /**
   * Once bank details are accepted, a withdrawal request is never refused
   * for missing bank details again.
   */
  lemma BankDetailsEnableWithdrawal(s: State, id: UserId, bankName: string, accountNumber: string, accountName: string,
                                    amount: int, now: Instant)
    requires UpdateBankDetails(s, id, bankName, accountNumber, accountName).result.Ok?
    ensures var s' := UpdateBankDetails(s, id, bankName, accountNumber, accountName).state;
      Withdrawals.RequestWithdrawal(s', id, amount, now).result != Err(MissingBankDetails)
  {
    var s' := UpdateBankDetails(s, id, bankName, accountNumber, accountName).state;
    assert !Withdrawals.LacksBankDetails(s'.users[id]);
  }

  // ---------------------------------------------------------------------------
  // GET /users/transactions.

  function IsEntryOf(id: UserId): Transaction -> bool
  {
    (t: Transaction) => t.user == id
  }

  /** The caller's ledger entries, newest first, at most 50. */
  function TransactionsOf(s: State, id: UserId): (r: seq<Transaction>)
    ensures |r| == Min(50, CountWhere(s.ledger, IsEntryOf(id)))
    ensures forall i :: 0 <= i < |r| ==> r[i] in s.ledger && r[i].user == id
    ensures NewestOf(r, Filter(s.ledger, IsEntryOf(id)))
  {
    var mine := Filter(s.ledger, IsEntryOf(id));
    var r := Newest(mine, 50);
    assert forall i :: 0 <= i < |r| ==> r[i] in mine;
    r
  }

  /**
   * In a valid state the listing is strictly newest first, and a caller
   * with at most 50 entries sees every one of them.
   */
  lemma TransactionsNewestFirst(s: State, id: UserId)
    requires LedgerValid(s)
    ensures StrictlyDecreasing(TransactionsOf(s, id), Withdrawals.Serial)
    ensures CountWhere(s.ledger, IsEntryOf(id)) <= 50 ==>
      forall t :: t in s.ledger && t.user == id ==> t in TransactionsOf(s, id)
  {
    var mine := Filter(s.ledger, IsEntryOf(id));
    Withdrawals.SerialsIncrease(s);
    FilterKeepsOrder(s.ledger, IsEntryOf(id), Withdrawals.Serial);
    ReverseFlipsOrder(mine, Withdrawals.Serial);
    if |mine| <= 50 {
      assert TransactionsOf(s, id) == Reverse(mine);
      ReverseSameElements(mine);
    }
  }

  // ---------------------------------------------------------------------------
  // GET /users/referrals.

  datatype ReferralStats = ReferralStats(
    totalReferrals: nat,
    activeReferrals: nat,
    basicReferrals: nat,
    premiumReferrals: nat,
    potentialBonus: int,
    actualBonus: int,
    referrals: seq<User>)

  function IsReferralOf(id: UserId): User -> bool
  {
    (u: User) => u.referredBy == Some(id)
  }

  function IsActiveUser(u: User): bool { u.isActive }
  function IsBasic(u: User): bool { u.userType == Basic }
  function IsPremium(u: User): bool { u.userType == Premium }

  /** The `reduce` over the active referrals: each pays its tier's bonus. */
  function ActiveBonusSum(refs: seq<User>): int
  {
    if |refs| == 0 then 0
    else ActiveBonusSum(refs[..|refs| - 1])
         + (if refs[|refs| - 1].isActive then ReferralBonusFor(refs[|refs| - 1].userType) else 0)
  }

  function IsActiveOfType(t: UserType): User -> bool
  {
    (u: User) => u.isActive && u.userType == t
  }

  /**
   * The bonus sum of the active referrals is the tier formula applied to the
   * active ones: 500 per active basic and 1000 per active premium referral.
   */
  lemma {:induction false} ActiveBonusFormula(refs: seq<User>)
    ensures ActiveBonusSum(refs) == 500 * CountWhere(refs, IsActiveOfType(Basic)) + 1000 * CountWhere(refs, IsActiveOfType(Premium))
  {
    if |refs| > 0 {
      ActiveBonusFormula(refs[..|refs| - 1]);
    }
  }

  /**
   * Referral statistics of user `id`: the users it referred, how many are
   * active and of each tier, the bonus all of them would pay
   * (`500 * basic + 1000 * premium`) and the bonus the active ones pay.
   */
  function Referrals(s: State, id: UserId): (r: ReferralStats)
    ensures r.totalReferrals == |r.referrals| == CountWhere(s.users, IsReferralOf(id))
    ensures forall u :: u in r.referrals <==> u in s.users && u.referredBy == Some(id)
    ensures r.activeReferrals == CountWhere(r.referrals, IsActiveUser)
    ensures r.basicReferrals == CountWhere(r.referrals, IsBasic)
    ensures r.premiumReferrals == CountWhere(r.referrals, IsPremium)
    ensures r.basicReferrals + r.premiumReferrals == r.totalReferrals
    ensures r.activeReferrals <= r.totalReferrals
    ensures r.potentialBonus == 500 * r.basicReferrals + 1000 * r.premiumReferrals
    ensures r.actualBonus == 500 * CountWhere(r.referrals, IsActiveOfType(Basic))
                           + 1000 * CountWhere(r.referrals, IsActiveOfType(Premium))
    ensures 0 <= r.actualBonus <= r.potentialBonus
  {
    var refs := Filter(s.users, IsReferralOf(id));
    var active := CountWhere(refs, IsActiveUser);
    var basic := CountWhere(refs, IsBasic);
    var premium := CountWhere(refs, IsPremium);
    CountAll(refs);
    CountPartition(refs, (u: User) => true, IsBasic, IsPremium);
    CountMonotone(refs, IsActiveUser, (u: User) => true);
    CountMonotone(refs, IsActiveOfType(Basic), IsBasic);
    CountMonotone(refs, IsActiveOfType(Premium), IsPremium);
    ActiveBonusFormula(refs);
    ReferralStats(|refs|, active, basic, premium, basic * 500 + premium * 1000, ActiveBonusSum(refs), refs)
  }

  /**
   * In a valid state every referral counted as active was paid for: its
   * referral-bonus entry is in the ledger.
   */
  lemma ActiveReferralsWerePaid(s: State, id: UserId, k: UserId)
    requires Valid(s)
    requires k < |s.users| && s.users[k].referredBy == Some(id) && s.users[k].isActive
    ensures Total(s.ledger, BonusesFor(k)) == 1
  {
    assert Account(s.ledger, k, s.users[k]);
  }
}
