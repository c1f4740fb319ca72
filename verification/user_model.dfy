/**
 * The user record: identity, tier, referral link, wallet and ad counters,
 * with the schema's defaults and the daily reset of the ad counter.
 */
module UserModel {
  import opened Common
  import opened Clock
  import opened Text

  /** The account class; the schema admits exactly these two values. */
  datatype UserType = Basic | Premium

  /** The string the schema stores for a tier. */
  function UserTypeName(t: UserType): string
  {
    match t
    case Basic => "basic"
    case Premium => "premium"
  }

  /** The schema's enum check on a requested tier string. */
  function ParseUserType(s: string): (r: Option<UserType>)
    ensures r.Some? <==> s == "basic" || s == "premium"
    ensures r.Some? ==> UserTypeName(r.value) == s
  {
    if s == "basic" then Some(Basic)
    else if s == "premium" then Some(Premium)
    else None
  }

  lemma ParseNameRoundTrip(t: UserType)
    ensures ParseUserType(UserTypeName(t)) == Some(t)
  {
  }

  // Tier policy shared by the routes.

  /** Ads a basic user may complete per calendar day. */
  const DailyAdCap: nat := 50

  /** Credit per completed ad. */
  function EarningsPerAd(t: UserType): int
  {
    if t == Premium then 20 else 15
  }

  /** What a referrer is paid when the user they referred is activated. */
  function ReferralBonusFor(t: UserType): int
  {
    if t == Premium then 1000 else 500
  }

  /** The smallest withdrawal a user of tier `t` may request. */
  function MinWithdrawal(t: UserType): int
  {
    if t == Premium then 10000 else 5000
  }

  /**
   * A password digest. Hashing is a foreign library; the model keeps only
   * what the routes rely on, that comparing a password with a digest
   * succeeds exactly for the password that was hashed.
   */
  datatype Hash = Hash(salt: nat, secret: string)

  function HashPassword(password: string, salt: nat): Hash
  {
    Hash(salt, password)
  }

  predicate Verify(password: string, h: Hash)
  {
    h.secret == password
  }

  lemma VerifyAcceptsOnlyHashedPassword(password: string, other: string, salt: nat)
    ensures Verify(password, HashPassword(other, salt)) <==> password == other
  {
  }

  datatype BankAccount = BankAccount(bankName: string, accountNumber: string, accountName: string)

  /** Users are never deleted, so a user is identified by its position in the store. */
  type UserId = nat

  datatype User = User(
    email: string,
    passwordHash: Hash,
    fullName: string,
    phone: string,
    userType: UserType,
    referralCode: string,
    referredBy: Option<UserId>,
    balance: int,
    totalEarned: int,
    adsWatchedToday: int,
    lastAdDate: Option<Instant>,
    isActive: bool,
    registrationDate: Instant,
    bankAccount: Option<BankAccount>)

  /**
   * A user document as the schema builds it from the given fields: the
   * e-mail passes the `lowercase` setter and every other field takes its
   * default.
   */
  function NewUser(email: string, passwordHash: Hash, fullName: string, phone: string,
                   userType: UserType, referralCode: string, referredBy: Option<UserId>,
                   now: Instant): (u: User)
    ensures u.email == ToLower(email) && IsLowerCase(u.email) && |u.email| == |email|
    ensures u.fullName == fullName && u.phone == phone && u.passwordHash == passwordHash
    ensures u.balance == 0 && u.totalEarned == 0 && u.adsWatchedToday == 0
    ensures !u.isActive && u.lastAdDate == None && u.bankAccount == None
    ensures u.registrationDate == now
    ensures u.userType == userType && u.referralCode == referralCode && u.referredBy == referredBy
  {
    User(ToLower(email), passwordHash, fullName, phone, userType, referralCode, referredBy,
         0, 0, 0, None, false, now, None)
  }

  /** True when the last ad was not watched on the calendar day of `now`. */
  predicate IsNewAdDay(u: User, now: Instant)
  {
    u.lastAdDate.None? || !SameCalendarDay(u.lastAdDate.value, now)
  }

  /**
   * `resetDailyAds`: on the first touch of a new calendar day the counter
   * restarts at 0 and the last-ad date moves to now; on the same day nothing
   * changes. Only the two ad fields are ever touched.
   */
  function ResetDailyAds(u: User, now: Instant): (r: User)
    ensures r.lastAdDate.Some? && SameCalendarDay(r.lastAdDate.value, now)
    ensures r.adsWatchedToday == 0 || r.adsWatchedToday == u.adsWatchedToday
    ensures r.(adsWatchedToday := u.adsWatchedToday, lastAdDate := u.lastAdDate) == u
    ensures IsNewAdDay(u, now) ==> r.adsWatchedToday == 0 && r.lastAdDate == Some(now)
    ensures !IsNewAdDay(u, now) ==> r == u
  {
    if IsNewAdDay(u, now) then u.(adsWatchedToday := 0, lastAdDate := Some(now)) else u
  }

  /** Two resets at the same instant are one reset. */
  lemma ResetIdempotent(u: User, now: Instant)
    ensures ResetDailyAds(ResetDailyAds(u, now), now) == ResetDailyAds(u, now)
  {
  }

  /** The wallet, tier, activation and identity fields survive a reset unchanged. */
  lemma ResetKeepsWallet(u: User, now: Instant)
    ensures var r := ResetDailyAds(u, now);
      && r.balance == u.balance && r.totalEarned == u.totalEarned
      && r.isActive == u.isActive && r.userType == u.userType
      && r.email == u.email && r.referralCode == u.referralCode
      && r.referredBy == u.referredBy && r.bankAccount == u.bankAccount
  {
  }
}
