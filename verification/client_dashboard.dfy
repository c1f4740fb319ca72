/** The two pieces of rule logic in the user dashboard page: the next payout date and the withdrawal pre-check. */
module ClientDashboard {
  import opened Common
  import opened Clock
  import opened UserModel
  import opened Store
  import Withdrawals

  /** A calendar date as `Date` takes it: `month` from 0 (January) to 11. */
  datatype CalendarDate = CalendarDate(year: int, month: int, day: int)

  /** What `getMonth()` and `getDate()` can return. */
  predicate ValidDate(d: CalendarDate)
  {
    0 <= d.month <= 11 && 1 <= d.day <= 31
  }

  predicate Before(a: CalendarDate, b: CalendarDate)
  {
    a.year < b.year
    || (a.year == b.year && a.month < b.month)
    || (a.year == b.year && a.month == b.month && a.day < b.day)
  }

  predicate IsPayday(d: CalendarDate)
  {
    d.day == 5 || d.day == 17
  }

  /**
   * `calculateNextPaymentDate`: before the 5th, the 5th; before the 17th,
   * the 17th; otherwise the 5th of the next month, where month 12 rolls over
   * into January of the next year as the `Date` constructor does.
   */
  function NextPaymentDate(today: CalendarDate): (r: CalendarDate)
    requires ValidDate(today)
    ensures ValidDate(r) && IsPayday(r)
    ensures Before(today, r)
    ensures today.day < 5 ==> r == today.(day := 5)
    ensures 5 <= today.day < 17 ==> r == today.(day := 17)
    ensures today.day >= 17 && today.month < 11 ==> r == CalendarDate(today.year, today.month + 1, 5)
    ensures today.day >= 17 && today.month == 11 ==> r == CalendarDate(today.year + 1, 0, 5)
  {
    if today.day < 5 then today.(day := 5)
    else if today.day < 17 then today.(day := 17)
    else if today.month == 11 then CalendarDate(today.year + 1, 0, 5)
    else CalendarDate(today.year, today.month + 1, 5)
  }

  /** No payday falls strictly between today and the date shown. */
  lemma NextPaymentDateIsEarliest(today: CalendarDate, d: CalendarDate)
    requires ValidDate(today) && ValidDate(d) && IsPayday(d)
    requires Before(today, d)
    ensures !Before(d, NextPaymentDate(today))
  {
  }

  /**
   * The check `requestWithdrawal` runs before anything is sent: the tier
   * minimum (taken from the cached user's tier string), then the cached
   * balance.
   */
  function ClientPreCheck(userType: string, balance: int, amount: int): (r: Result<int, Failure>)
    ensures r.Ok? <==> amount >= (if userType == "premium" then 10000 else 5000) && amount <= balance
    ensures r.Ok? ==> r.value == amount
    ensures r == Err(BelowMinimum) <==> amount < (if userType == "premium" then 10000 else 5000)
    ensures r == Err(InsufficientBalance) <==>
      amount >= (if userType == "premium" then 10000 else 5000) && amount > balance
  {
    var minimum := if userType == "premium" then 10000 else 5000;
    if amount < minimum then Err(BelowMinimum)
    else if amount > balance then Err(InsufficientBalance)
    else Ok(amount)
  }

  /**
   * For a user with bank details and an up-to-date cached record, the
   * pre-check refuses exactly the requests the server would refuse for the
   * minimum or the balance, with the same reason.
   */
  lemma PreCheckAgreesWithServer(s: State, id: UserId, amount: int, now: Instant)
    requires id < |s.users| && !Withdrawals.LacksBankDetails(s.users[id])
    ensures var u := s.users[id];
      var client := ClientPreCheck(UserTypeName(u.userType), u.balance, amount);
      var server := Withdrawals.RequestWithdrawal(s, id, amount, now).result;
      && (client.Err? <==> server == Err(BelowMinimum) || server == Err(InsufficientBalance))
      && (client.Err? ==> server == Err(client.error))
  {
  }
}
