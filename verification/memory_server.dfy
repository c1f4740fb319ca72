/**
 * The in-memory variant of the API, `backend/server.js`, which is the app
 * the package actually exports. It keeps three arrays instead of
 * collections and follows looser rules than the route files: a token is
 * checked only for its length and never consumed, registration records a
 * pending fee entry that activation later completes, the referrer is found
 * by referral code, and a withdrawal debits nobody.
 */
module MemoryServer {
  import opened Common
  import opened Clock
  import opened Text
  import opened Seqs
  import opened UserModel
  import opened TransactionModel
  import opened Store
  import Auth
  import Withdrawals

  /** Whose entry it is: a registered user, by position, or the hard-wired demo account. */
  datatype Owner = UserKey(index: nat) | DemoUser

  /** A user object; `userType` is whatever string the request carried. */
  datatype MUser = MUser(
    fullName: string,
    email: string,
    phone: string,
    passwordHash: Hash,
    userType: string,
    referralCode: string,
    referredBy: Option<string>,  // the raw referral code given at registration
    balance: int,
    isActive: bool,
    registrationDate: Instant)

  datatype MToken = MToken(code: string, userType: string, price: int, isUsed: bool, createdAt: Instant)

  datatype MTx = MTx(owner: Owner, txType: TxType, amount: int, status: TxStatus, tokenCode: Option<string>, createdAt: Instant)

  datatype MState = MState(users: seq<MUser>, tokens: seq<MToken>, transactions: seq<MTx>)

  datatype MReply<+T> = MReply(state: MState, result: Result<T, Failure>)

  /** The registration fee: 5000 for the tier string "premium", 3000 for any other. */
  function PriceOf(userType: string): int
  {
    if userType == "premium" then 5000 else 3000
  }

  /** The referral bonus: 1000 for a "premium" referee, 500 for any other. */
  function BonusOf(userType: string): int
  {
    if userType == "premium" then 1000 else 500
  }

  /** For the two real tiers both variants charge and pay the same amounts. */
  lemma SameTariffsAsRoutes(t: UserType)
    ensures PriceOf(UserTypeName(t)) == TokenModel.TokenPrice(t)
    ensures BonusOf(UserTypeName(t)) == ReferralBonusFor(t)
  {
  }

  // ---------------------------------------------------------------------------
  // POST /api/auth/register.

  /** One of the six required fields is missing (an empty string is falsy). */
  predicate MissingField(req: Auth.RegisterRequest)
  {
    req.fullName == "" || req.email == "" || req.phone == "" || req.password == ""
    || req.userType == "" || req.tokenCode == ""
  }

  predicate EmailUsed(users: seq<MUser>, email: string)
  {
    exists i :: 0 <= i < |users| && users[i].email == email
  }

  predicate EmailsUnique(s: MState)
  {
    forall i, j :: 0 <= i < |s.users| && 0 <= j < |s.users| && i != j ==> s.users[i].email != s.users[j].email
  }

  /** The user object and the pending fee entry a registration adds. */
  predicate MRegistered(s: MState, s': MState, id: nat, req: Auth.RegisterRequest, now: Instant)
  {
    && id == |s.users|
    && |s'.users| == id + 1
    && s'.users[..id] == s.users
    && var u := s'.users[id];
    && u.email == ToLower(req.email) && u.phone == req.phone && u.fullName == req.fullName
    && u.userType == req.userType
    && Verify(req.password, u.passwordHash)
    && !u.isActive && u.balance == 0
    && |u.referralCode| >= 3 && u.referralCode[..3] == "REF"
    && u.referredBy == (if req.referralCode == "" then None else Some(req.referralCode))
    && s'.tokens == s.tokens
    && s'.transactions == s.transactions + [MTx(UserKey(id), Registration, PriceOf(req.userType), Pending, Some(req.tokenCode), now)]
  }

  /** The route body, with the e-mail the duplicate check compares against stored e-mails as a parameter. */
  function RegisterComparing(s: MState, req: Auth.RegisterRequest, now: Instant, salt: nat, refDraw: string, probe: string)
    : MReply<nat>
  {
    if MissingField(req) then MReply(s, Err(MissingRequiredField))
    else if EmailUsed(s.users, probe) then MReply(s, Err(DuplicateIdentity))
    else if |req.tokenCode| < 8 then MReply(s, Err(InvalidToken))
    else
      var id := |s.users|;
      var u := MUser(req.fullName, ToLower(req.email), req.phone, HashPassword(req.password, salt), req.userType,
                     "REF" + ToUpper(refDraw), if req.referralCode == "" then None else Some(req.referralCode),
                     0, false, now);
      var tx := MTx(UserKey(id), Registration, PriceOf(req.userType), Pending, Some(req.tokenCode), now);
      var s' := MState(s.users + [u], s.tokens, s.transactions + [tx]);
      assert s'.users[..id] == s.users;
      MReply(s', Ok(id))
  }

  /**
   * Registration as written: the duplicate check compares the raw e-mail
   * with the stored, lower-cased ones. `refDraw` stands for the random part
   * of the new referral code.
   */
  function RegisterAsWritten(s: MState, req: Auth.RegisterRequest, now: Instant, salt: nat, refDraw: string)
    : (r: MReply<nat>)
    ensures r.result.Err? ==> r.state == s
    ensures r.result.Err? ==> r.result.error in {MissingRequiredField, DuplicateIdentity, InvalidToken}
    ensures r.result == Err(MissingRequiredField) <==> MissingField(req)
    ensures r.result == Err(DuplicateIdentity) <==> !MissingField(req) && EmailUsed(s.users, req.email)
    ensures r.result == Err(InvalidToken) <==>
      !MissingField(req) && !EmailUsed(s.users, req.email) && |req.tokenCode| < 8
    ensures r.result.Ok? ==> MRegistered(s, r.state, r.result.value, req, now)
  {
    RegisterComparing(s, req, now, salt, refDraw, req.email)
  }

  /**
   * Registration with the duplicate check on the e-mail as it will be
   * stored, lower-cased. Otherwise identical to the route: the token code is
   * only checked for length, and the user is appended together with a
   * pending registration entry of 5000 (premium) or 3000.
   */
  function Register(s: MState, req: Auth.RegisterRequest, now: Instant, salt: nat, refDraw: string)
    : (r: MReply<nat>)
    ensures r.result.Err? ==> r.state == s
    ensures r.result.Err? ==> r.result.error in {MissingRequiredField, DuplicateIdentity, InvalidToken}
    ensures r.result == Err(MissingRequiredField) <==> MissingField(req)
    ensures r.result == Err(DuplicateIdentity) <==> !MissingField(req) && EmailUsed(s.users, ToLower(req.email))
    ensures r.result == Err(InvalidToken) <==>
      !MissingField(req) && !EmailUsed(s.users, ToLower(req.email)) && |req.tokenCode| < 8
    ensures r.result.Ok? ==> MRegistered(s, r.state, r.result.value, req, now)
  {
    RegisterComparing(s, req, now, salt, refDraw, ToLower(req.email))
  }

  /** With the corrected check no two users ever share an e-mail. */
  lemma RegisterKeepsEmailsUnique(s: MState, req: Auth.RegisterRequest, now: Instant, salt: nat, refDraw: string)
    requires EmailsUnique(s)
    ensures EmailsUnique(Register(s, req, now, salt, refDraw).state)
  {
    var r := Register(s, req, now, salt, refDraw);
    if r.result.Ok? {
      var id := |s.users|;
      forall i | 0 <= i < id
        ensures r.state.users[i] == s.users[i]
      {
        assert r.state.users[..id][i] == r.state.users[i];
      }
    }
  }

  /**
   * The check as written lets a second account in under the same stored
   * e-mail: with "a" registered, a request for "A" passes the check and is
   * stored as "a" again.
   */
  lemma RawEmailCheckAdmitsDuplicate()
    ensures var now := Instant(0, 0, 1, 0);
      var first := MUser("First", "a", "1", HashPassword("pw", 0), "basic", "REFONE", None, 0, false, now);
      var s := MState([first], [], []);
      var req := Auth.RegisterRequest("Second", "A", "2", "pw", "", "basic", "ABCDEFGH");
      var r := RegisterAsWritten(s, req, now, 0, "two");
      && EmailsUnique(s)
      && r.result.Ok?
      && !EmailsUnique(r.state)
      && Register(s, req, now, 0, "two").result == Err(DuplicateIdentity)
  {
    var now := Instant(0, 0, 1, 0);
    var first := MUser("First", "a", "1", HashPassword("pw", 0), "basic", "REFONE", None, 0, false, now);
    var s := MState([first], [], []);
    var req := Auth.RegisterRequest("Second", "A", "2", "pw", "", "basic", "ABCDEFGH");
    assert ToLower("A") == "a" by {
      assert ToLower("A")[0] == LowerChar('A');
    }
    assert !EmailUsed(s.users, "A") by {
      assert "a"[0] != "A"[0];
    }
    var r := RegisterAsWritten(s, req, now, 0, "two");
    assert r.state.users[0].email == r.state.users[1].email;
    assert EmailUsed(s.users, ToLower(req.email)) by {
      assert s.users[0].email == ToLower(req.email);
    }
  }

  // ---------------------------------------------------------------------------
  // PUT /api/admin/users/:userId/activate.

  function IsRegistrationOf(key: nat): MTx -> bool
  {
    (t: MTx) => t.owner == UserKey(key) && t.txType == Registration
  }

  /** `transactions.find(t => t.user === userId && t.type === 'registration')`. */
  function FirstRegistrationOf(txs: seq<MTx>, key: nat): Option<nat>
  {
    FirstIndex(txs, IsRegistrationOf(key))
  }

  /** `users.find(u => u.referralCode === user.referredBy)`, when the user was referred at all. */
  function ReferrerOf(users: seq<MUser>, u: MUser): Option<nat>
  {
    if u.referredBy.None? then None else FirstIndex(users, (v: MUser) => v.referralCode == u.referredBy.value)
  }

  /** The transactions after the first registration entry of `key`, if any, is marked completed. */
  function CompleteRegistration(txs: seq<MTx>, key: nat): (r: seq<MTx>)
    ensures |r| == |txs|
    ensures forall j :: 0 <= j < |txs| && Some(j) != FirstRegistrationOf(txs, key) ==> r[j] == txs[j]
    ensures FirstRegistrationOf(txs, key).Some? ==>
      var i := FirstRegistrationOf(txs, key).value;
      i < |txs| && r[i] == txs[i].(status := Completed)
  {
    match FirstRegistrationOf(txs, key)
    case None => txs
    case Some(i) => txs[i := txs[i].(status := Completed)]
  }

  /**
   * Activation. Refusals (NotFound, then AlreadyActive) change nothing. On
   * success the user is active, its first registration entry is completed,
   * and when its referral code resolves to a user, that user's balance rises
   * by the bonus and one completed referral-bonus entry is appended.
   */
  /** Activation of a user found inactive: the registration entry completes and the referrer, if any, is paid. */
  function ActivateFound(s: MState, key: nat, now: Instant): (r: MReply<nat>)
    requires key < |s.users| && !s.users[key].isActive
    ensures r.result == Ok(key)
    ensures
      && |r.state.users| == |s.users|
      && r.state.users[key].isActive
      && r.state.tokens == s.tokens
      && |r.state.transactions| >= |s.transactions|
      && (forall j :: 0 <= j < |s.transactions| && Some(j) != FirstRegistrationOf(s.transactions, key) ==>
            r.state.transactions[j] == s.transactions[j])
      && (FirstRegistrationOf(s.transactions, key).Some? ==>
            var i := FirstRegistrationOf(s.transactions, key).value;
            r.state.transactions[i] == s.transactions[i].(status := Completed))
    ensures ReferrerOf(s.users, s.users[key]).None? ==>
      && r.state.users == s.users[key := s.users[key].(isActive := true)]
      && |r.state.transactions| == |s.transactions|
    ensures ReferrerOf(s.users, s.users[key]).Some? ==>
      var u := s.users[key];
      var ref := ReferrerOf(s.users, u).value;
      && (forall j :: 0 <= j < |s.users| && j != key && j != ref ==> r.state.users[j] == s.users[j])
      && (ref != key ==>
            && r.state.users[key] == u.(isActive := true)
            && r.state.users[ref] == s.users[ref].(balance := s.users[ref].balance + BonusOf(u.userType)))
      && (ref == key ==>
            r.state.users[key] == u.(isActive := true, balance := u.balance + BonusOf(u.userType)))
      && |r.state.transactions| == |s.transactions| + 1
      && r.state.transactions[|s.transactions|] == MTx(UserKey(ref), ReferralBonus, BonusOf(u.userType), Completed, None, now)
  {
    var u := s.users[key];
    var users1 := s.users[key := u.(isActive := true)];
    var txs1 := CompleteRegistration(s.transactions, key);
    ReferrerUnchanged(s.users, key, u.(isActive := true), u);
    match ReferrerOf(users1, u)
    case None => MReply(MState(users1, s.tokens, txs1), Ok(key))
    case Some(ref) => MReply(PayReferral(MState(users1, s.tokens, txs1), ref, BonusOf(u.userType), now), Ok(key))
  }

  /** The referrer's balance grows by the bonus, and a completed referral-bonus entry is appended for them. */
  function PayReferral(st: MState, ref: nat, bonus: int, now: Instant): (r: MState)
    requires ref < |st.users|
    ensures |r.users| == |st.users| && r.tokens == st.tokens
    ensures r.users[ref].balance == st.users[ref].balance + bonus
    ensures r.users[ref] == st.users[ref].(balance := r.users[ref].balance)
    ensures forall j :: 0 <= j < |st.users| && j != ref ==> r.users[j] == st.users[j]
    ensures |r.transactions| == |st.transactions| + 1 && r.transactions[..|st.transactions|] == st.transactions
    ensures r.transactions[|st.transactions|] == MTx(UserKey(ref), ReferralBonus, bonus, Completed, None, now)
  {
    var users := st.users[ref := st.users[ref].(balance := st.users[ref].balance + bonus)];
    var tx := MTx(UserKey(ref), ReferralBonus, bonus, Completed, None, now);
    MState(users, st.tokens, st.transactions + [tx])
  }

  function Activate(s: MState, key: int, now: Instant): (r: MReply<nat>)
    ensures r.result.Err? ==> r.state == s
    ensures r.result.Err? ==> r.result.error in {NotFound, AlreadyActive}
    ensures r.result == Err(NotFound) <==> !(0 <= key < |s.users|)
    ensures r.result == Err(AlreadyActive) <==> 0 <= key < |s.users| && s.users[key].isActive
    ensures r.result.Ok? ==>
      && 0 <= key < |s.users| && !s.users[key].isActive
      && |r.state.users| == |s.users|
      && r.state.users[key].isActive
      && r.state.tokens == s.tokens
      && |r.state.transactions| >= |s.transactions|
      && (forall j :: 0 <= j < |s.transactions| && Some(j) != FirstRegistrationOf(s.transactions, key) ==>
            r.state.transactions[j] == s.transactions[j])
      && (FirstRegistrationOf(s.transactions, key).Some? ==>
            var i := FirstRegistrationOf(s.transactions, key).value;
            r.state.transactions[i] == s.transactions[i].(status := Completed))
    ensures r.result.Ok? && ReferrerOf(s.users, s.users[key]).None? ==>
      && r.state.users == s.users[key := s.users[key].(isActive := true)]
      && |r.state.transactions| == |s.transactions|
    ensures r.result.Ok? && ReferrerOf(s.users, s.users[key]).Some? ==>
      var u := s.users[key];
      var ref := ReferrerOf(s.users, u).value;
      && (forall j :: 0 <= j < |s.users| && j != key && j != ref ==> r.state.users[j] == s.users[j])
      && (ref != key ==>
            && r.state.users[key] == u.(isActive := true)
            && r.state.users[ref] == s.users[ref].(balance := s.users[ref].balance + BonusOf(u.userType)))
      && (ref == key ==>
            r.state.users[key] == u.(isActive := true, balance := u.balance + BonusOf(u.userType)))
      && |r.state.transactions| == |s.transactions| + 1
      && r.state.transactions[|s.transactions|] == MTx(UserKey(ref), ReferralBonus, BonusOf(u.userType), Completed, None, now)
  {
    if !(0 <= key < |s.users|) then MReply(s, Err(NotFound))
    else if s.users[key].isActive then MReply(s, Err(AlreadyActive))
    else ActivateFound(s, key, now)
  }


  /** Activating a user leaves its referral code, so the referrer lookup, as it was. */
  lemma ReferrerUnchanged(users: seq<MUser>, key: nat, v: MUser, u: MUser)
    requires key < |users| && v.referralCode == users[key].referralCode
    ensures ReferrerOf(users[key := v], u) == ReferrerOf(users, u)
  {
    if u.referredBy.Some? {
      var p := (w: MUser) => w.referralCode == u.referredBy.value;
      FirstIndexAgree(users[key := v], users, p);
    }
  }

  /** A second activation of the same user is always refused, so no referral bonus is paid twice. */
  lemma ActivateOnce(s: MState, key: int, now: Instant, later: Instant)
    requires Activate(s, key, now).result.Ok?
    ensures var s' := Activate(s, key, now).state;
      Activate(s', key, later) == MReply(s', Err(AlreadyActive))
  {
  }

  // ---------------------------------------------------------------------------
  // POST /api/admin/tokens/generate.

  /**
   * Token generation. An absent tier means "basic" and an absent quantity
   * means 1. `draw(i)` stands for the random part of the i-th code. Codes
   * are not checked against the stored ones.
   */
  function GenerateTokens(s: MState, userType: Option<string>, quantity: Option<int>, draw: nat -> string, now: Instant)
    : (r: MReply<seq<MToken>>)
    ensures var ty := if userType.None? then "basic" else userType.value;
      && (r.result.Err? <==> ty != "basic" && ty != "premium")
      && (r.result.Err? ==> r.state == s && r.result.error == InvalidUserType)
      && (r.result.Ok? ==>
            var made := r.result.value;
            var q := if quantity.None? then 1 else quantity.value;
            && |made| == (if q < 0 then 0 else q)
            && r.state == s.(tokens := s.tokens + made)
            && forall i :: 0 <= i < |made| ==>
                 && IsUpperCase(made[i].code) && |made[i].code| >= 3 && made[i].code[..3] == "ADP"
                 && made[i].userType == ty && !made[i].isUsed && made[i].createdAt == now
                 && made[i].price == (if ty == "premium" then 5000 else 3000))
  {
    var ty := if userType.None? then "basic" else userType.value;
    var q := if quantity.None? then 1 else quantity.value;
    if ty != "basic" && ty != "premium" then MReply(s, Err(InvalidUserType))
    else
      var made := seq(if q < 0 then 0 else q, (i: int) requires 0 <= i => MToken("ADP" + ToUpper(draw(i)), ty, PriceOf(ty), false, now));
      forall i | 0 <= i < |made|
        ensures IsUpperCase(made[i].code) && |made[i].code| >= 3 && made[i].code[..3] == "ADP"
        ensures made[i].userType == ty && !made[i].isUsed && made[i].createdAt == now
        ensures made[i].price == (if ty == "premium" then 5000 else 3000)
      {
        var code := "ADP" + ToUpper(draw(i));
        assert made[i].code == code;
        assert IsUpperCase("ADP");
        UpperCaseConcat("ADP", ToUpper(draw(i)));
        assert code[..3] == "ADP";
      }
      MReply(s.(tokens := s.tokens + made), Ok(made))
  }

  /**
   * For a real tier the in-memory generation always succeeds and prices
   * every token as the route files price a token of that tier.
   */
  lemma GeneratedPricesMatchRoutes(s: MState, t: UserType, quantity: Option<int>, draw: nat -> string, now: Instant)
    ensures var r := GenerateTokens(s, Some(UserTypeName(t)), quantity, draw, now);
      && r.result.Ok?
      && forall i :: 0 <= i < |r.result.value| ==>
           && r.result.value[i].price == TokenModel.TokenPrice(t)
           && ParseUserType(r.result.value[i].userType) == Some(t)
  {
    var r := GenerateTokens(s, Some(UserTypeName(t)), quantity, draw, now);
    ParseNameRoundTrip(t);
    SameTariffsAsRoutes(t);
  }

  /**
   * Unlike the route files, which issue distinct codes, the in-memory
   * variant never checks a code: two equal draws give two tokens with the
   * same code in one batch.
   */
  lemma MemoryCodesMayRepeat(s: MState, now: Instant)
    ensures var r := GenerateTokens(s, None, Some(2), (i: nat) => "same", now);
      && r.result.Ok? && |r.result.value| == 2
      && r.result.value[0].code == r.result.value[1].code
  {
  }

  // ---------------------------------------------------------------------------
  // GET /api/admin/dashboard.

  /** What a transaction adds to the revenue: its amount when it is a completed registration. */
  function RevenueWeight(t: MTx): int
  {
    if t.txType == Registration && t.status == Completed then t.amount else 0
  }

  /** The `filter(...).reduce(...)` over the transactions. */
  function Revenue(txs: seq<MTx>): int
  {
    if |txs| == 0 then 0 else Revenue(txs[..|txs| - 1]) + RevenueWeight(txs[|txs| - 1])
  }

  lemma RevenueAppend(txs: seq<MTx>, t: MTx)
    ensures Revenue(txs + [t]) == Revenue(txs) + RevenueWeight(t)
  {
    assert (txs + [t])[..|txs|] == txs;
  }

  /** Replacing one transaction changes the revenue by the difference of the two weights. */
  lemma {:induction false} RevenueUpdate(txs: seq<MTx>, i: nat, t: MTx)
    requires i < |txs|
    ensures Revenue(txs[i := t]) == Revenue(txs) - RevenueWeight(txs[i]) + RevenueWeight(t)
  {
    var n := |txs| - 1;
    if i < n {
      RevenueUpdate(txs[..n], i, t);
      assert txs[i := t][..n] == txs[..n][i := t];
    } else {
      assert txs[i := t][..n] == txs[..n];
    }
  }

  /** A listing reply: the items shown and the size of the whole array. */
  datatype MListing<T> = MListing(items: seq<T>, total: nat)

  /** `GET /api/admin/tokens`: `tokens.slice(0, 50)`, the fifty oldest tokens, and the token count. */
  function ListTokens(s: MState): (r: MListing<MToken>)
    ensures r.total == |s.tokens|
    ensures |r.items| == Min(50, |s.tokens|)
    ensures forall i :: 0 <= i < |r.items| ==> r.items[i] == s.tokens[i]
  {
    MListing(if |s.tokens| <= 50 then s.tokens else s.tokens[..50], |s.tokens|)
  }

  /**
   * Once fifty tokens exist the token listing shows no token generated
   * later: a batch raises the total by its size and leaves the items as
   * they were, although the code's own comment speaks of the last fifty.
   */
  lemma GeneratedTokensUnlistedAfterFifty(s: MState, userType: Option<string>, quantity: Option<int>,
                                          draw: nat -> string, now: Instant)
    requires |s.tokens| >= 50
    ensures var r := GenerateTokens(s, userType, quantity, draw, now);
      r.result.Ok? ==>
        && ListTokens(r.state).items == ListTokens(s).items
        && ListTokens(r.state).total == ListTokens(s).total + |r.result.value|
  {
    var r := GenerateTokens(s, userType, quantity, draw, now);
    if r.result.Ok? {
      var before, after := ListTokens(s).items, ListTokens(r.state).items;
      assert |after| == |before| == 50;
      forall i | 0 <= i < 50
        ensures after[i] == before[i]
      {
        assert after[i] == (s.tokens + r.result.value)[i];
      }
    }
  }

  /** One row of `GET /api/admin/users`: the user's position and its public fields. */
  datatype MUserRow = MUserRow(
    id: nat,
    fullName: string,
    email: string,
    phone: string,
    userType: string,
    balance: int,
    isActive: bool,
    registrationDate: Instant)

  function RowOf(id: nat, u: MUser): MUserRow
  {
    MUserRow(id, u.fullName, u.email, u.phone, u.userType, u.balance, u.isActive, u.registrationDate)
  }

  /** `GET /api/admin/users`: every user, in insertion order, without password, referral fields or bank details. */
  function ListUsers(s: MState): (r: MListing<MUserRow>)
    ensures r.total == |r.items| == |s.users|
    ensures forall i :: 0 <= i < |r.items| ==> r.items[i] == RowOf(i, s.users[i])
  {
    MListing(seq(|s.users|, (i: int) requires 0 <= i < |s.users| => RowOf(i, s.users[i])), |s.users|)
  }

  function IsActiveRow(row: MUserRow): bool { row.isActive }

  datatype MStats = MStats(
    totalUsers: nat,
    activeUsers: nat,
    pendingUsers: nat,
    basicUsers: nat,
    premiumUsers: nat,
    totalRevenue: int)

  datatype MDashboardView = MDashboardView(stats: MStats, recentTransactions: seq<MTx>)

  function IsActiveM(u: MUser): bool { u.isActive }
  function IsPendingM(u: MUser): bool { !u.isActive }
  function IsActiveNamed(name: string): MUser -> bool { (u: MUser) => u.userType == name && u.isActive }
  function IsActiveKnownTier(u: MUser): bool { u.isActive && (u.userType == "basic" || u.userType == "premium") }

  /**
   * The dashboard: user counts (tier counts over active users only, by tier
   * string, so an active user with any other tier string is in neither),
   * the completed registration fees, and `slice(-10).reverse()` of the
   * transactions.
   */
  function Dashboard(s: MState): (r: MDashboardView)
    ensures r.stats.totalUsers == |s.users|
    ensures r.stats.activeUsers == CountWhere(s.users, IsActiveM)
    ensures r.stats.pendingUsers == CountWhere(s.users, IsPendingM)
    ensures r.stats.basicUsers == CountWhere(s.users, IsActiveNamed("basic"))
    ensures r.stats.premiumUsers == CountWhere(s.users, IsActiveNamed("premium"))
    ensures r.stats.activeUsers + r.stats.pendingUsers == r.stats.totalUsers
    ensures r.stats.basicUsers + r.stats.premiumUsers <= r.stats.activeUsers
    ensures r.stats.totalRevenue == Revenue(s.transactions)
    ensures |r.recentTransactions| == Min(10, |s.transactions|)
    ensures forall i :: 0 <= i < |r.recentTransactions| ==>
      r.recentTransactions[i] == s.transactions[|s.transactions| - 1 - i]
  {
    var active := CountWhere(s.users, IsActiveM);
    var pending := CountWhere(s.users, IsPendingM);
    var basic := CountWhere(s.users, IsActiveNamed("basic"));
    var premium := CountWhere(s.users, IsActiveNamed("premium"));
    CountAll(s.users);
    CountPartition(s.users, (u: MUser) => true, IsActiveM, IsPendingM);
    CountPartition(s.users, IsActiveKnownTier, IsActiveNamed("basic"), IsActiveNamed("premium"));
    CountMonotone(s.users, IsActiveKnownTier, IsActiveM);
    MDashboardView(MStats(|s.users|, active, pending, basic, premium, Revenue(s.transactions)),
                   Newest(s.transactions, 10))
  }
  /** The user listing and the dashboard agree on how many users are active. */
  lemma ListedActiveMatchesDashboard(s: MState)
    ensures CountWhere(ListUsers(s).items, IsActiveRow) == Dashboard(s).stats.activeUsers
  {
    CountAgree(ListUsers(s).items, s.users, IsActiveRow, IsActiveM);
  }


  /** Every transaction belongs to the demo account or to a stored user. */
  predicate OwnersKnown(s: MState)
  {
    forall i :: 0 <= i < |s.transactions| && s.transactions[i].owner.UserKey? ==>
      s.transactions[i].owner.index < |s.users|
  }

  /**
   * Registering and then activating the new user adds exactly its tier's
   * fee to the revenue: registration records the fee as pending and
   * activation completes it.
   */
  lemma RegisterThenActivateRevenue(s: MState, req: Auth.RegisterRequest, now: Instant, salt: nat, refDraw: string,
                                    later: Instant)
    requires OwnersKnown(s)
    requires Register(s, req, now, salt, refDraw).result.Ok?
    ensures var s1 := Register(s, req, now, salt, refDraw).state;
      var id := |s.users|;
      && Activate(s1, id, later).result.Ok?
      && Dashboard(Activate(s1, id, later).state).stats.totalRevenue
           == Dashboard(s).stats.totalRevenue + PriceOf(req.userType)
  {
    var s1 := Register(s, req, now, salt, refDraw).state;
    var id := |s.users|;
    var tx := MTx(UserKey(id), Registration, PriceOf(req.userType), Pending, Some(req.tokenCode), now);
    assert s1.transactions == s.transactions + [tx];
    RevenueAppend(s.transactions, tx);
    assert FirstRegistrationOf(s1.transactions, id) == Some(|s.transactions|) by {
      forall j | 0 <= j < |s.transactions|
        ensures !IsRegistrationOf(id)(s1.transactions[j])
      {
        assert s1.transactions[j] == s.transactions[j];
      }
    }
    var txs1 := CompleteRegistration(s1.transactions, id);
    RevenueUpdate(s1.transactions, |s.transactions|, tx.(status := Completed));
    assert Revenue(txs1) == Revenue(s.transactions) + PriceOf(req.userType);
    var u := s1.users[id];
    var users1 := s1.users[id := u.(isActive := true)];
    match ReferrerOf(users1, u)
    case None =>
      assert Activate(s1, id, later).state.transactions == txs1;
    case Some(ref) =>
      var bonus := MTx(UserKey(ref), ReferralBonus, BonusOf(u.userType), Completed, None, later);
      assert Activate(s1, id, later).state.transactions == txs1 + [bonus];
      RevenueAppend(txs1, bonus);
  }

  // ---------------------------------------------------------------------------
  // POST /api/withdrawals/request.

  /**
   * A withdrawal: anything under 5000 is refused; otherwise one pending
   * withdrawal entry for the demo account is appended and no balance
   * changes.
   */
  function RequestWithdrawal(s: MState, amount: int, now: Instant): (r: MReply<nat>)
    ensures r.result.Err? <==> amount < 5000
    ensures r.result.Err? ==> r.state == s && r.result.error == BelowMinimum
    ensures r.result.Ok? ==>
      && r.state.users == s.users && r.state.tokens == s.tokens
      && r.state.transactions == s.transactions + [MTx(DemoUser, Withdrawal, amount, Pending, None, now)]
      && r.result.value == |s.transactions|
  {
    if amount < 5000 then MReply(s, Err(BelowMinimum))
    else MReply(s.(transactions := s.transactions + [MTx(DemoUser, Withdrawal, amount, Pending, None, now)]),
                Ok(|s.transactions|))
  }

  /**
   * Every withdrawal the route files accept, the in-memory variant accepts
   * too, but where the route files debit the caller by the amount, the
   * in-memory variant leaves every balance as it was.
   */
  lemma MemoryWithdrawalIsLooser(s: State, id: UserId, amount: int, now: Instant, m: MState)
    requires Withdrawals.RequestWithdrawal(s, id, amount, now).result.Ok?
    ensures RequestWithdrawal(m, amount, now).result.Ok?
    ensures RequestWithdrawal(m, amount, now).state.users == m.users
    ensures Withdrawals.RequestWithdrawal(s, id, amount, now).state.users[id].balance == s.users[id].balance - amount
  {
  }
}
