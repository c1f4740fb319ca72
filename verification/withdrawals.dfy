/** Cash-out: POST /withdrawals/request and GET /withdrawals/history. */
module Withdrawals {
  import opened Common
  import opened Clock
  import opened Seqs
  import opened UserModel
  import opened TransactionModel
  import opened Ledger
  import opened Store

  /**
   * Payouts happen on the 5th and the 17th of the month, from 5 a.m. until
   * 8 a.m. for basic users and until noon for premium users.
   */
  predicate InPayoutWindow(t: UserType, now: Instant)
  {
    && (now.dayOfMonth == 5 || now.dayOfMonth == 17)
    && 5 <= now.hour
    && now.hour < (if t == Basic then 8 else 12)
  }

  /** `!user.bankAccount || !user.bankAccount.accountNumber`. */
  predicate LacksBankDetails(u: User)
  {
    u.bankAccount.None? || u.bankAccount.value.accountNumber == ""
  }

  /** The first check a request fails, in the route's order, or None when it passes them all. */
  function FirstRefusal(u: User, amount: int, now: Instant): (f: Option<Failure>)
    ensures f.None? <==>
      && !LacksBankDetails(u)
      && amount >= (if u.userType == Premium then 10000 else 5000)
      && u.balance >= amount
      && InPayoutWindow(u.userType, now)
    ensures f == Some(MissingBankDetails) <==> LacksBankDetails(u)
    ensures f == Some(BelowMinimum) <==> !LacksBankDetails(u) && amount < MinWithdrawal(u.userType)
    ensures f == Some(InsufficientBalance) <==>
      !LacksBankDetails(u) && amount >= MinWithdrawal(u.userType) && u.balance < amount
    ensures f == Some(OutsidePayoutWindow) <==>
      !LacksBankDetails(u) && amount >= MinWithdrawal(u.userType) && u.balance >= amount
      && !InPayoutWindow(u.userType, now)
  {
    if LacksBankDetails(u) then Some(MissingBankDetails)
    else if amount < MinWithdrawal(u.userType) then Some(BelowMinimum)
    else if u.balance < amount then Some(InsufficientBalance)
    else if !InPayoutWindow(u.userType, now) then Some(OutsidePayoutWindow)
    else None
  }

  /**
   * A withdrawal request. Any refusal leaves the state as it was. On success
   * the balance drops by exactly the amount and one pending withdrawal entry
   * is appended for the amount, carrying a copy of the bank details.
   */
  function RequestWithdrawal(s: State, id: UserId, amount: int, now: Instant): (rep: Reply<nat>)
    ensures rep.result.Err? ==> rep.state == s
    ensures rep.result == Err(UnknownUser) <==> id >= |s.users|
    ensures id < |s.users| ==>
      (rep.result.Err? <==> FirstRefusal(s.users[id], amount, now).Some?)
      && (rep.result.Err? ==> rep.result.error == FirstRefusal(s.users[id], amount, now).value)
    ensures rep.result.Ok? ==>
      && id < |s.users| && |rep.state.users| == |s.users|
      && var u := s.users[id];
      && amount > 0
      && rep.state.users[id] == u.(balance := u.balance - amount)
      && rep.state.users[id].balance >= 0
      && (forall j :: 0 <= j < |s.users| && j != id ==> rep.state.users[j] == s.users[j])
      && rep.state.tokens == s.tokens
      && |rep.state.ledger| == |s.ledger| + 1
      && rep.state.ledger == s.ledger + [rep.state.ledger[|s.ledger|]]
      && rep.result.value == |s.ledger|
      && var t := rep.state.ledger[|s.ledger|];
      && t.user == id && t.txType == Withdrawal && t.status == Pending && t.amount == amount
      && t.metadata.bankDetails == u.bankAccount && u.bankAccount.Some?
  {
    if id >= |s.users| then Reply(s, Err(UnknownUser))
    else
      var u := s.users[id];
      match FirstRefusal(u, amount, now)
      case Some(f) => Reply(s, Err(f))
      case None =>
        var entry := Transaction(id, Withdrawal, amount, Pending, NextReference(s, "WD"),
                                 Metadata(None, None, u.bankAccount), now);
        Reply(State(s.users[id := u.(balance := u.balance - amount)], s.tokens, s.ledger + [entry]),
              Ok(|s.ledger|))
  }

  /** A paid-out request keeps the store invariant: the debit is paired with its pending entry. */
  lemma RequestPreservesValid(s: State, id: UserId, amount: int, now: Instant)
    requires Valid(s)
    ensures Valid(RequestWithdrawal(s, id, amount, now).state)
  {
    var rep := RequestWithdrawal(s, id, amount, now);
    if rep.result.Ok? {
      var u := s.users[id];
      var entry := rep.state.ledger[|s.ledger|];
      SameIdentities(s, rep.state);
      LedgerAppend(s, entry);
      assert Account(s.ledger, id, u);
      AppendMeasures(s.ledger, entry, id);
      AccountsFrame(s.ledger, entry, s.users, id);
    }
  }

  /** A request the window refuses goes through, unchanged, on a payout morning. */
  lemma WindowIsTheLastCheck(s: State, id: UserId, amount: int, now: Instant, payday: Instant)
    requires RequestWithdrawal(s, id, amount, now).result == Err(OutsidePayoutWindow)
    requires InPayoutWindow(s.users[id].userType, payday)
    ensures RequestWithdrawal(s, id, amount, payday).result.Ok?
  {
  }

  /** The caller's withdrawal entries. */
  function IsWithdrawalOf(id: UserId): Transaction -> bool
  {
    (t: Transaction) => t.user == id && t.txType == Withdrawal
  }

  function Serial(t: Transaction): int
  {
    t.reference.serial
  }

  /** GET /withdrawals/history: the caller's withdrawal entries, newest first. */
  function WithdrawalHistory(s: State, id: UserId): (r: seq<Transaction>)
    ensures |r| == CountWhere(s.ledger, IsWithdrawalOf(id))
    ensures forall i :: 0 <= i < |r| ==> r[i].user == id && r[i].txType == Withdrawal
    ensures forall t :: t in r <==> t in s.ledger && t.user == id && t.txType == Withdrawal
  {
    var mine := Filter(s.ledger, IsWithdrawalOf(id));
    ReverseSameElements(mine);
    Reverse(mine)
  }

  /** The ledger's serial numbers grow with its position. */
  lemma SerialsIncrease(s: State)
    requires LedgerValid(s)
    ensures StrictlyIncreasing(s.ledger, Serial)
  {
    forall i, j | 0 <= i < j < |s.ledger|
      ensures Serial(s.ledger[i]) < Serial(s.ledger[j])
    {
      assert EntryWellFormed(s.ledger[i], i, |s.users|);
      assert EntryWellFormed(s.ledger[j], j, |s.users|);
    }
  }

  /** In a valid state the history is strictly newest first, and every entry in it is still pending. */
  lemma HistoryNewestFirst(s: State, id: UserId)
    requires Valid(s)
    ensures StrictlyDecreasing(WithdrawalHistory(s, id), Serial)
    ensures forall i :: 0 <= i < |WithdrawalHistory(s, id)| ==> WithdrawalHistory(s, id)[i].status == Pending
  {
    SerialsIncrease(s);
    var mine := Filter(s.ledger, IsWithdrawalOf(id));
    FilterKeepsOrder(s.ledger, IsWithdrawalOf(id), Serial);
    ReverseFlipsOrder(mine, Serial);
    forall i | 0 <= i < |WithdrawalHistory(s, id)|
      ensures WithdrawalHistory(s, id)[i].status == Pending
    {
      var t := WithdrawalHistory(s, id)[i];
      assert t in s.ledger;
      var k :| 0 <= k < |s.ledger| && s.ledger[k] == t;
      assert EntryWellFormed(s.ledger[k], k, |s.users|);
    }
  }

  /** An accepted request shows up first in the caller's history. */
  lemma RequestHeadsHistory(s: State, id: UserId, amount: int, now: Instant)
    requires RequestWithdrawal(s, id, amount, now).result.Ok?
    ensures var s' := RequestWithdrawal(s, id, amount, now).state;
      && |WithdrawalHistory(s', id)| == |WithdrawalHistory(s, id)| + 1
      && WithdrawalHistory(s', id)[0] == s'.ledger[|s.ledger|]
      && WithdrawalHistory(s', id)[0].amount == amount
  {
    var s' := RequestWithdrawal(s, id, amount, now).state;
    var e := s'.ledger[|s.ledger|];
    assert s'.ledger[..|s'.ledger| - 1] == s.ledger;
    assert Filter(s'.ledger, IsWithdrawalOf(id)) == Filter(s.ledger, IsWithdrawalOf(id)) + [e];
  }
}
