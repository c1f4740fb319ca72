# adpay wallet and ledger, modelled in Dafny

adpay is a pay-to-watch-ads service. A user buys a single-use registration
token from an admin, registers with it, and waits for the admin to activate
the account once the fee is paid. Activation records the fee in the ledger
and pays the referrer a bonus. An active user then earns 15 (basic) or 20
(premium) per ad watched, with a basic user capped at 50 ads a day. A user
can cash out on the 5th and the 17th of each month, inside a morning window.

This project models that wallet and ledger state machine as pure functions
over an immutable state, and proves the rules the routes promise.

- **The route files** (`backend/routes/*.js` over `backend/models/*.js`) are
  the primary machine.
  - `Store.State` holds the users, the tokens and the transaction ledger,
    each in insertion order. A user is identified by its position.
  - Every endpoint is a function `State -> Reply`, giving the next state and
    an `Ok` value or a named `Failure`.
  - The ghost predicate `Store.Valid` is the invariant every request keeps:
    - token codes and user identities are unique;
    - each ledger entry's serial is its position;
    - each balance equals the sum of the user's ledger entries and is never
      negative;
    - an active user has one registration entry, and a referred active user
      one referral bonus;
    - the ad counter agrees with the ledger, and a basic user has at most 50
      ad views on any calendar day.
- **The in-memory server** (`backend/server.js`) is modelled separately in
  module `MemoryServer`, over its own state of three arrays. It follows
  looser rules:
  - a token is checked only for its length and is never consumed;
  - the fee is recorded as pending at registration and completed at
    activation;
  - the referrer is found by the raw referral code;
  - a withdrawal debits nobody.
- **From the user dashboard page** (`frontend/js/dashboard.js`), module
  `ClientDashboard` models the next-payout-date rule and the withdrawal
  pre-check.

Inputs the code reads from its environment are parameters:

- `Clock.Instant` carries seconds, calendar-day number, day of month and
  hour.
- Each `Math.random()` result is passed in: a sequence of candidate codes, a
  draw function, or a real number in `[0, 1)`.
- The bcrypt salt is a number.

## Model

| member | source | states |
|---|---|---|
| UserModel.ParseUserType | backend/models/User.js:23-27 | a tier string is accepted exactly when it is "basic" or "premium", and parses back to the same name |
| UserModel.NewUser | backend/models/User.js:3-59 | a new user document stores the e-mail lower-cased (same length, all lower case) and the name, phone and digest as given; balance, earnings and ad counter start at 0; it is inactive, with no bank account |
| UserModel.VerifyAcceptsOnlyHashedPassword | backend/routes/auth.js:59-61 | comparing a password with a stored digest succeeds exactly for the password that was hashed |
| UserModel.ResetDailyAds | backend/models/User.js:70-78 | on a new calendar day the counter is 0 and the last-ad date is now; on the same day the user is unchanged; only the two ad fields ever change |
| UserModel.ResetIdempotent | backend/models/User.js:70-78 | two resets at the same instant equal one |
| UserModel.ResetKeepsWallet | backend/models/User.js:70-78 | balance, total earned, tier, activation, identity and bank details survive a reset |
| TokenModel.NewToken | backend/models/Token.js:3-29 | a new token has an upper-case code, is unused with no user or date of use, and carries the given tier and price |
| Store.ReferencesUnique | backend/models/Transaction.js:27-30 | in a valid state two different ledger entries never share a reference |
| Store.BasicDailyCap | backend/routes/ads.js:99-106 | in a valid state a basic user has at most 50 recorded ad views on any calendar day |
| Store.BonusAtMostOnce | backend/routes/admin.js:186-191 | in a valid state at most one referral bonus was paid for any user, and none for an inactive user |
| Store.BalanceMatchesLedger | backend/routes/withdrawals.js:31-37 | in a valid state every balance is non-negative and equals the sum of the user's credits minus their withdrawals |
| Auth.FirstFreshCode | backend/routes/auth.js:63-71 | the chosen referral code is upper-case and held by no user; it is the upper-cased form of some draw, and every earlier draw was taken; there is none only when every draw is taken |
| Auth.FindIdentity | backend/routes/auth.js:15-17 | finds a user exactly when one has the lower-cased e-mail or the phone, and the one found matches |
| Auth.FindByReferralCode | backend/routes/auth.js:50 | finds a user exactly when one holds the code, and the one found holds it |
| Auth.Register | backend/routes/auth.js:11-94 | each refusal holds exactly when the earlier checks pass and its own fails, in the order duplicate e-mail or phone, no unused token, wrong tier, unknown referral code, no fresh code, missing field; no other refusal occurs and a refusal changes nothing; success holds exactly when every check passes, and then a new inactive user with an empty wallet, a fresh referral code and the verified referrer is appended, and exactly the redeemed token is marked used by it |
| Auth.RegisterPreservesValid | backend/routes/auth.js:73-94 | registration keeps the store invariant |
| Auth.TokenSingleUse | backend/routes/auth.js:27-38 | after a successful registration, no later registration with the same token code gets past the token check |
| Auth.ExpiredTokenRefused | backend/models/Token.js:30-34 | a registration whose token code only matches tokens created thirty days ago or more is refused as a duplicate or as an invalid token |
| Auth.Login | backend/routes/auth.js:131-180 | an unknown e-mail and a wrong password are both refused as invalid credentials; a correct password on an inactive account is refused as not active; success reports the user's tier and balance, and a cap of 50 exactly for basic users |
| Auth.LoginExactly | backend/routes/auth.js:136-158 | with unique e-mails, login succeeds exactly for an active user's own password |
| Auth.NoLoginBeforeActivation | backend/routes/auth.js:151-157 | a user who has just registered is refused as not active |
| Admin.FreshCode | backend/routes/admin.js:57-65 | the code found is the upper-cased form of the first remaining draw that no stored token uses, every draw skipped is in use, and the scan resumes after it; there is none only when every remaining draw is taken |
| Admin.FreshCodes | backend/routes/admin.js:57-65 | the reference run of the retry loop: each code is upper-case and unused by stored tokens, no code repeats, and every draw no stored token uses contributes its code |
| Admin.BatchKeepsValid | backend/routes/admin.js:67-73 | appending tokens with fresh, distinct upper-case codes, unused and priced for their tier, keeps the store invariant |
| Admin.GenerateTokens | backend/routes/admin.js:43-80 | any tier other than basic or premium is refused; an absent quantity is 1 and one below 1 issues nothing; refused for lack of fresh codes exactly when the draws yield fewer fresh codes than the quantity; otherwise the tokens appended carry the first `quantity` codes of `Admin.FreshCodes` in order, priced 5000 (premium) or 3000 (basic), distinct from each other and from every stored code; the invariant is kept |
| Admin.Activate | backend/routes/admin.js:174-241 | refusals come in the order not found, already active, no registration token, no other refusal occurs, and a refusal changes nothing; on success the user is active and one completed registration entry for the token's price is appended; when the referrer resolves, their balance rises by 1000 (premium referee) or 500 (basic), with one completed bonus entry naming the referee, also when the referrer is the user itself; no other user changes |
| Admin.ActivatePreservesValid | backend/routes/admin.js:202-241 | activation keeps the store invariant, so every credit is paired with its ledger entry |
| Admin.ActivateOnce | backend/routes/admin.js:186-191 | a second activation is refused as already active and changes nothing |
| Admin.ExpiredTokenBlocksActivation | backend/routes/admin.js:194-200 | an inactive user whose consumed token is thirty days old or more is refused for want of a registration token, and nothing changes |
| Admin.PendingUsers | backend/routes/admin.js:135-159 | lists every inactive user once, newest registration first, each with the token it consumed if that token can still be found; the length is the number of inactive users |
| Admin.HeldTokenOf | backend/routes/admin.js:145-146 | a token is found exactly when some unexpired stored token names the user as its consumer |
| Admin.ListTokens | backend/routes/admin.js:98-121 | `page` defaults to 1 and `limit` to 20; refused exactly when `(page - 1) * limit` is negative; otherwise the page holds the unexpired tokens matching the `used` filter, newest first, from position `(page - 1) * limit`, at most `limit` of them (all when it is 0), with the total matching, the page number asked for and `Math.ceil(total / limit)` pages |
| Admin.EveryTokenListed | backend/routes/admin.js:107-120 | for a positive limit the `i`-th newest matching token is item `i % limit` of page `i / limit + 1`, a page within the page count |
| Admin.ListUsers | backend/routes/admin.js:266-293 | `page` defaults to 1 and `limit` to 20; refused exactly when `(page - 1) * limit` is negative; otherwise the page holds the users matching the active and tier filters, newest registration first, from position `(page - 1) * limit`, with the total matching, the page number asked for and the page count; a tier name that is no tier matches nobody |
| Admin.EveryUserListed | backend/routes/admin.js:278-292 | for a positive limit the `i`-th newest matching user is item `i % limit` of page `i / limit + 1`, a page within the page count |
| Admin.Dashboard | backend/routes/admin.js:307-347 | the user total, the active, pending, active-basic and active-premium counts are the numbers of users of each kind; active plus pending is the total and basic plus premium the active count; revenue, payouts and referral bonuses are the sums of completed entries of each type; recent holds the ten newest entries, newest first |
| Admin.PendingListingMatchesDashboard | backend/routes/admin.js:137-138 | the pending listing is as long as the dashboard's pending count |
| Admin.PayoutsAreZero | backend/routes/admin.js:320-323 | no route completes a withdrawal, so in a valid state the payout total is 0 |
| Admin.ActivateMovesDashboard | backend/routes/admin.js:202-241 | an activation raises revenue by the consumed token's price and the referral total by the bonus paid, if any; payouts stay the same |
| Paging.CeilDiv | backend/routes/admin.js:119 | `Math.ceil(total / limit)`: the smallest page count whose pages hold every item |
| Paging.Paginate | backend/routes/admin.js:108-119 | a negative skip is refused; otherwise the page holds the items from position `(page - 1) * limit`, at most `limit` of them (all when the limit is 0), and reports the total and the page count |
| Paging.EveryItemOnItsPage | backend/routes/admin.js:108-119 | item `i` appears as entry `i % limit` of page `i / limit + 1`, and that page is within the page count |
| Ads.PickAd | backend/routes/ads.js:69-70 | the ad index is the floor of `r * 5`, so always one of the five sample ads |
| Ads.LoadAd | backend/routes/ads.js:53-76 | the daily reset is saved before the cap check; only a basic user who has reached 50 today is refused; an offer names a catalogue ad and earnings of 20 (premium) or 15 (basic); no wallet field changes |
| Ads.CompleteAd | backend/routes/ads.js:93-130 | the route applies the reset and the cap itself; the only refusals are an unknown caller and the daily cap, and a refusal changes nothing; on success balance and total earned rise by the earnings, the counter by 1, the last-ad date becomes now, and one completed ad-view entry with the earnings and the ad id is appended |
| Ads.LoadDoesNotAffectComplete | backend/routes/ads.js:53-107 | loading an ad first never changes what completing it at the same instant does |
| Ads.FiftyViewsThenRefused | backend/routes/ads.js:99-106 | a basic user with 50 recorded ad views today is refused |
| Ads.LoadPreservesValid | backend/routes/ads.js:57-59 | loading an ad keeps the store invariant when the clock has not gone back |
| Ads.CompletePreservesValid | backend/routes/ads.js:109-130 | a paid ad keeps the store invariant: the credit is paired with its ad-view entry |
| Ads.CompleteKeepsDailyCap | backend/routes/ads.js:99-117 | after any completion, a basic user has at most 50 paid ads on any calendar day |
| Withdrawals.FirstRefusal | backend/routes/withdrawals.js:15-63 | names the first failed check in the order bank details, tier minimum (10000 premium, 5000 basic), balance, payout window; none exactly when all pass |
| Withdrawals.RequestWithdrawal | backend/routes/withdrawals.js:9-79 | a refusal is the first failed check and changes nothing; on success the balance falls by exactly the amount and stays non-negative, and one pending withdrawal entry is appended with the amount and a copy of the bank details |
| Withdrawals.RequestPreservesValid | backend/routes/withdrawals.js:65-79 | a withdrawal keeps the store invariant: the debit is paired with its pending entry |
| Withdrawals.WindowIsTheLastCheck | backend/routes/withdrawals.js:39-63 | a request refused only for the window succeeds unchanged at a time inside the window |
| Withdrawals.WithdrawalHistory | backend/routes/withdrawals.js:99-104 | holds exactly the caller's withdrawal entries, and as many as the ledger has |
| Withdrawals.HistoryNewestFirst | backend/routes/withdrawals.js:101-104 | in a valid state the history is strictly newest first and every entry in it is pending |
| Withdrawals.RequestHeadsHistory | backend/routes/withdrawals.js:69-79 | an accepted request becomes the first entry of the caller's history, with its amount |
| Users.UpdateBankDetails | backend/routes/users.js:9-35 | refused when any field is empty, then when the account number has fewer than 10 characters, or for an unknown caller, and for nothing else; on success the bank account is exactly the three fields and nothing else changes |
| Users.BankDetailsPreserveValid | backend/routes/users.js:28-35 | saving bank details keeps the store invariant |
| Users.BankDetailsEnableWithdrawal | backend/routes/users.js:28-35 | after bank details are accepted, a withdrawal is never refused for missing bank details |
| Users.TransactionsOf | backend/routes/users.js:55-59 | the newest 50 of the caller's ledger entries, newest first (all of them when there are fewer) |
| Users.TransactionsNewestFirst | backend/routes/users.js:57-59 | in a valid state the listing is strictly newest first, and a caller with at most 50 entries sees all of them |
| Users.Referrals | backend/routes/users.js:78-92 | lists exactly the users the caller referred; the total, active, basic and premium counts are the numbers of such referrals of each kind, so basic plus premium is the total; potential bonus is 500 per basic plus 1000 per premium referral; actual bonus is the same formula over the active ones and lies between 0 and the potential |
| Users.ActiveBonusFormula | backend/routes/users.js:89-92 | the sum over active referrals equals 500 per active basic plus 1000 per active premium referral |
| Users.ActiveReferralsWerePaid | backend/routes/users.js:83-92 | in a valid state each referral counted as active has exactly one bonus entry in the ledger |
| MemoryServer.SameTariffsAsRoutes | backend/server.js:144-156 | for both real tiers the in-memory fees and bonuses equal those of the route files |
| MemoryServer.RegisterAsWritten | backend/server.js:84-156 | a missing field is refused, then an e-mail equal to a stored one as typed, then a token code under 8 characters, and nothing else is refused; on success an inactive user with the raw referral code and a pending fee entry of 5000 (premium) or 3000 are appended |
| MemoryServer.RawEmailCheckAdmitsDuplicate | backend/server.js:98-105 | with "a" registered, a request for "A" passes the duplicate check and a second user with e-mail "a" is stored; the corrected check refuses it |
| MemoryServer.Register | backend/server.js:84-156 | as written, but the duplicate check compares the lower-cased e-mail; the same three refusals and no others |
| MemoryServer.RegisterKeepsEmailsUnique | backend/server.js:98-105 | with the corrected check no two users ever share an e-mail |
| MemoryServer.Activate | backend/server.js:398-445 | refused when not found, then when already active, and for nothing else, changing nothing; on success the user is active, its first registration entry is completed, and a referrer found by code gets the bonus, with one completed bonus entry; no other user and no other entry changes |
| MemoryServer.ActivateOnce | backend/server.js:410-415 | a second activation is always refused and changes nothing |
| MemoryServer.GenerateTokens | backend/server.js:324-350 | an absent tier is basic and an absent quantity is 1; any other tier is refused; otherwise exactly `quantity` unused tokens are appended, with codes of the form `ADP` + upper-case text and prices of 5000 or 3000 |
| MemoryServer.GeneratedPricesMatchRoutes | backend/server.js:335 | for both real tiers generation succeeds and each token's price and tier are those the route files give that tier |
| MemoryServer.MemoryCodesMayRepeat | backend/server.js:338-341 | two equal draws give one batch two tokens with the same code, which the route files never issue |
| MemoryServer.ListTokens | backend/server.js:367-376 | shows the fifty oldest tokens, oldest first, and the number of tokens |
| MemoryServer.GeneratedTokensUnlistedAfterFifty | backend/server.js:367-376 | once fifty tokens exist, a generated batch raises the total by its size but never appears in the listing |
| MemoryServer.ListUsers | backend/server.js:469-488 | one row per user, in insertion order, with its position and public fields, and the number of users |
| MemoryServer.ListedActiveMatchesDashboard | backend/server.js:469-492 | the rows marked active are as many as the dashboard's active count |
| MemoryServer.RevenueUpdate | backend/server.js:497-499 | replacing one transaction changes the revenue by the difference of the two contributions |
| MemoryServer.Dashboard | backend/server.js:490-507 | the user total, the active, pending, active-"basic" and active-"premium" counts are the numbers of users of each kind; active plus pending is the total; basic plus premium is at most the active count; revenue is the completed registration fees; recent is the last ten entries, newest first |
| MemoryServer.RegisterThenActivateRevenue | backend/server.js:144-156 | registering and then activating a user raises the revenue by exactly its tier's fee |
| MemoryServer.RequestWithdrawal | backend/server.js:661-683 | an amount under 5000 is refused; otherwise one pending withdrawal for the demo account is appended and no balance changes |
| MemoryServer.MemoryWithdrawalIsLooser | backend/server.js:661-683 | the in-memory server accepts every withdrawal the routes accept, but leaves the balance where the routes debit it |
| ClientDashboard.NextPaymentDate | frontend/js/dashboard.js:92-106 | before the 5th gives the 5th, before the 17th the 17th, otherwise the 5th of the next month (January of the next year after December); always a payday strictly after today |
| ClientDashboard.NextPaymentDateIsEarliest | frontend/js/dashboard.js:92-106 | no payday falls strictly between today and the date shown |
| ClientDashboard.ClientPreCheck | frontend/js/dashboard.js:232-245 | refuses an amount under 10000 (premium) or 5000 (otherwise), then an amount over the cached balance |
| ClientDashboard.PreCheckAgreesWithServer | frontend/js/dashboard.js:232-245 | with bank details and an up-to-date cached user, the pre-check refuses exactly what the server refuses for the minimum or the balance, for the same reason |

## Left out

- HTTP routing, the authentication middleware, status codes and response
  shapes. `backend/middleware/auth.js` is not part of this model: the
  authenticated caller is a `UserId` parameter, and an id that resolves to no
  user is `UnknownUser`.
- bcrypt and JWT are foreign libraries. A digest is the symbolic `Hash`, and
  `Verify` holds exactly for the hashed password. Tokens for the session are
  not modelled.
- The admin login (`backend/routes/admin.js:23-40`, `backend/server.js:300-321`)
  is a string compare against configuration, so it is not modelled.
- `GET /auth/me` (`backend/routes/auth.js:197-225`) only reads back the
  authenticated user, so it is not modelled.
- Demo stubs in `backend/server.js` are not modelled because they return
  constants or act on a fixed demo user:
  - `/auth/me`, `/ads/load`, `/ads/complete`;
  - bank details, transactions and referrals.
- MemoryServer.ListUsers: the `adsWatchedToday` column is left out. Stored
  users are created with 0 and no in-memory route changes it.
- The login of `backend/server.js` is not modelled.
- Description strings, `populate` projections and the `select` of fields
  are not modelled; they carry no rule.
- Concurrent requests are not modelled. Each request is one atomic step, so
  lost updates between overlapping requests are out of scope.
- Amounts are integers. `parseFloat`, `NaN`, fractional amounts and the
  string-to-number coercion of `page` and `limit` are not modelled. A
  negative `limit` is not modelled either (the parameter is a `nat`).
- Case mapping covers ASCII letters only.
- Auth.FirstFreshCode and Admin.GenerateTokens: the source retries random
  codes forever. The model consumes a finite sequence of draws and reports
  `NoFreshCode` when they run out, so non-termination is not modelled.
  For a batch, `NoFreshCode` means that `Admin.FreshCodes` of the draws is
  shorter than the quantity.
- Admin.GenerateTokens: `quantity` is an integer or absent; a string or
  fractional quantity is not modelled.
- Admin.GenerateTokens: a new code must differ from every stored code,
  including expired ones the TTL monitor may already have deleted. This is
  slightly stronger than the database's unique index.
- The TTL monitor is modelled as the `Findable` filter on every token query
  rather than as a deletion.
- `sort({createdAt: -1})` and `sort({registrationDate: -1})` are read as
  insertion order backwards, assuming the clock never runs backwards.
- The ad lemmas (Ads.LoadPreservesValid, Ads.CompletePreservesValid,
  Ads.FiftyViewsThenRefused, Ads.CompleteKeepsDailyCap) assume
  `NotBefore`: the clock has not gone back behind any user's last ad date.
- References `PREFIX-Date.now()-id` are a prefix plus a counter that never
  repeats, so the model assumes no two entries get the same timestamp.
- In `backend/server.js` a user id is its array position rather than
  `"user_" + Date.now()`.
- The `metadata.token` field that activation writes is dropped, because the
  schema has no such field.
- The `password` `minlength: 6` check applies to the stored digest, which
  is always long enough, so it is not modelled.
- Findings about `backend/server.js` beyond the e-mail check are not
  claimed:
  - the raw referral code stored in `referredBy`;
  - the bonus paid only when the referrer's code resolves.

  These are modelled as written.

## Findings

| source | as written | input that shows it | evidently intended | confidence | as-written member | corrected member |
|---|---|---|---|---|---|---|
| backend/server.js:98-105 | the duplicate check compares the e-mail as typed with the stored e-mails, which are lower-cased when saved | user "a" exists; register "A" | compare the lower-cased e-mail, so one address cannot open two accounts | not executed | MemoryServer.RegisterAsWritten, MemoryServer.RawEmailCheckAdmitsDuplicate | MemoryServer.Register, MemoryServer.RegisterKeepsEmailsUnique |
