/** Registration (consume a token, create an inactive user) and login. */
module Auth {
  import opened Common
  import opened Clock
  import opened Text
  import opened Seqs
  import opened UserModel
  import opened TokenModel
  import opened TransactionModel
  import opened Ledger
  import opened Store

  datatype RegisterRequest = RegisterRequest(
    fullName: string,
    email: string,
    phone: string,
    password: string,
    referralCode: string,  // "" when absent
    userType: string,
    tokenCode: string)

  // ---------------------------------------------------------------------------
  // Lookups.

  /** Some user already has this e-mail (after the lowercase setter) or this phone. */
  predicate IdentityTaken(users: seq<User>, email: string, phone: string)
  {
    exists i :: 0 <= i < |users| && (users[i].email == ToLower(email) || users[i].phone == phone)
  }

  /** `User.findOne({$or: [{email}, {phone}]})`. */
  function FindIdentity(users: seq<User>, email: string, phone: string): (r: Option<nat>)
    ensures r.Some? <==> IdentityTaken(users, email, phone)
    ensures r.Some? ==> r.value < |users| && (users[r.value].email == ToLower(email) || users[r.value].phone == phone)
  {
    FirstIndex(users, (u: User) => u.email == ToLower(email) || u.phone == phone)
  }

  /** A token `Token.findOne({code: tokenCode.toUpperCase(), isUsed: false})` can return. */
  predicate Redeemable(t: Token, code: string, now: Instant)
  {
    t.code == ToUpper(code) && !t.isUsed && Findable(t, now)
  }

  function FindRedeemable(tokens: seq<Token>, code: string, now: Instant): Option<nat>
  {
    FirstIndex(tokens, (t: Token) => Redeemable(t, code, now))
  }

  /** Some user holds this referral code. */
  predicate CodeHeld(users: seq<User>, code: string)
  {
    exists i :: 0 <= i < |users| && users[i].referralCode == code
  }

  /** `User.findOne({referralCode})`. */
  function FindByReferralCode(users: seq<User>, code: string): (r: Option<nat>)
    ensures r.Some? <==> CodeHeld(users, code)
    ensures r.Some? ==> r.value < |users| && users[r.value].referralCode == code
  {
    FirstIndex(users, (u: User) => u.referralCode == code)
  }

  /**
   * The retry-until-unique loop for a new referral code: the first random
   * draw whose upper-cased form no user holds yet.
   */
  function FirstFreshCode(draws: seq<string>, users: seq<User>): (r: Option<string>)
    ensures r.Some? ==> IsUpperCase(r.value) && !CodeHeld(users, r.value)
    ensures r.Some? ==>
      exists i :: 0 <= i < |draws| && r.value == ToUpper(draws[i])
        && forall j :: 0 <= j < i ==> CodeHeld(users, ToUpper(draws[j]))
    ensures r.None? <==> forall i :: 0 <= i < |draws| ==> CodeHeld(users, ToUpper(draws[i]))
  {
    if |draws| == 0 then None
    else if !CodeHeld(users, ToUpper(draws[0])) then Some(ToUpper(draws[0]))
    else
      var r := FirstFreshCode(draws[1..], users);
      assert forall i :: 1 <= i < |draws| ==> draws[i] == draws[1..][i - 1];
      if r.Some? then
        var i :| 0 <= i < |draws[1..]| && r.value == ToUpper(draws[1..][i])
          && forall j :: 0 <= j < i ==> CodeHeld(users, ToUpper(draws[1..][j]));
        assert r.value == ToUpper(draws[i + 1]);
        r
      else r
  }

  // ---------------------------------------------------------------------------
  // Register.

  /** No identity clash, and a redeemable token of the requested tier. */
  predicate TokenChecksPass(s: State, req: RegisterRequest, now: Instant)
  {
    && !IdentityTaken(s.users, req.email, req.phone)
    && FindRedeemable(s.tokens, req.tokenCode, now).Some?
    && UserTypeName(s.tokens[FindRedeemable(s.tokens, req.tokenCode, now).value].userType) == req.userType
  }

  /** No referral code was given, or some user holds it. */
  predicate ReferralResolves(users: seq<User>, code: string)
  {
    code == "" || CodeHeld(users, code)
  }

  /** Some draw, upper-cased, is a referral code nobody holds yet. */
  predicate FreshDrawExists(users: seq<User>, draws: seq<string>)
  {
    exists i :: 0 <= i < |draws| && !CodeHeld(users, ToUpper(draws[i]))
  }

  /** The three fields the schema requires that no earlier check looks at. */
  predicate FieldsPresent(req: RegisterRequest)
  {
    req.fullName != "" && req.email != "" && req.phone != ""
  }

  /** The token at `k` was redeemable and is now consumed by `id`, at `now`. */
  predicate Consumed(before: Token, after: Token, code: string, id: UserId, now: Instant)
  {
    && Redeemable(before, code, now)
    && after == before.(isUsed := true, usedBy := Some(id), usedAt := Some(now))
  }

  /** The effect of a successful registration of `req` as user `id`. */
  ghost predicate Registered(s: State, s': State, id: UserId, req: RegisterRequest, now: Instant)
  {
    && id == |s.users|
    && |s'.users| == id + 1
    && s'.users[..id] == s.users
    && var u := s'.users[id];
    && u.email == ToLower(req.email) && u.phone == req.phone && u.fullName == req.fullName
    && UserTypeName(u.userType) == req.userType
    && !u.isActive && u.balance == 0 && u.totalEarned == 0 && u.adsWatchedToday == 0
    && u.lastAdDate == Some(now) && u.bankAccount.None?
    && Verify(req.password, u.passwordHash)
    && IsUpperCase(u.referralCode) && !CodeHeld(s.users, u.referralCode)
    && (req.referralCode == "" ==> u.referredBy.None?)
    && (req.referralCode != "" ==>
          u.referredBy.Some? && u.referredBy.value < id && s.users[u.referredBy.value].referralCode == req.referralCode)
    && s'.ledger == s.ledger
    && |s'.tokens| == |s.tokens|
    && exists k :: 0 <= k < |s.tokens| && Consumed(s.tokens[k], s'.tokens[k], req.tokenCode, id, now)
         && forall j :: 0 <= j < |s.tokens| && j != k ==> s'.tokens[j] == s.tokens[j]
  }

  /**
   * POST /auth/register. The checks run in the order duplicate identity,
   * token, token tier, referral code; then a fresh referral code is drawn and
   * the schema's `required` validation runs. Any refusal leaves the state as
   * it was. On success the new user is inactive with an empty wallet, and
   * exactly the redeemed token is marked used by it.
   */
  function Register(s: State, req: RegisterRequest, now: Instant, salt: nat, draws: seq<string>): (r: Reply<UserId>)
    ensures r.result.Err? ==> r.state == s
    ensures r.result == Err(DuplicateIdentity) <==> IdentityTaken(s.users, req.email, req.phone)
    ensures r.result == Err(InvalidToken) <==>
      !IdentityTaken(s.users, req.email, req.phone)
      && forall k :: 0 <= k < |s.tokens| ==> !Redeemable(s.tokens[k], req.tokenCode, now)
    ensures r.result == Err(TokenTypeMismatch) <==>
      !IdentityTaken(s.users, req.email, req.phone)
      && FindRedeemable(s.tokens, req.tokenCode, now).Some?
      && UserTypeName(s.tokens[FindRedeemable(s.tokens, req.tokenCode, now).value].userType) != req.userType
    ensures r.result == Err(InvalidReferralCode) <==>
      TokenChecksPass(s, req, now) && !ReferralResolves(s.users, req.referralCode)
    ensures r.result == Err(NoFreshCode) <==>
      TokenChecksPass(s, req, now) && ReferralResolves(s.users, req.referralCode)
      && !FreshDrawExists(s.users, draws)
    ensures r.result == Err(MissingRequiredField) <==>
      TokenChecksPass(s, req, now) && ReferralResolves(s.users, req.referralCode)
      && FreshDrawExists(s.users, draws) && !FieldsPresent(req)
    ensures r.result.Ok? <==>
      TokenChecksPass(s, req, now) && ReferralResolves(s.users, req.referralCode)
      && FreshDrawExists(s.users, draws) && FieldsPresent(req)
    ensures r.result.Err? ==>
      r.result.error in {DuplicateIdentity, InvalidToken, TokenTypeMismatch, InvalidReferralCode, NoFreshCode,
                         MissingRequiredField}
    ensures r.result.Ok? ==> Registered(s, r.state, r.result.value, req, now)
  {
    if FindIdentity(s.users, req.email, req.phone).Some? then Reply(s, Err(DuplicateIdentity))
    else match FindRedeemable(s.tokens, req.tokenCode, now)
      case None => Reply(s, Err(InvalidToken))
      case Some(k) =>
        var token := s.tokens[k];
        if UserTypeName(token.userType) != req.userType then Reply(s, Err(TokenTypeMismatch))
        else
          var referrer := if req.referralCode == "" then Some(None)
            else match FindByReferralCode(s.users, req.referralCode)
              case None => None
              case Some(j) => Some(Some(j));
          if referrer.None? then Reply(s, Err(InvalidReferralCode))
          else match FirstFreshCode(draws, s.users)
            case None => Reply(s, Err(NoFreshCode))
            case Some(code) =>
              if req.fullName == "" || req.email == "" || req.phone == "" then Reply(s, Err(MissingRequiredField))
              else Reply(Enroll(s, req, now, salt, k, referrer.value, code), Ok(|s.users|))
  }

  /**
   * The successful end of a registration: the new user, referred by
   * `referrer` and holding referral code `code`, is appended, and token `k`
   * is marked used by them.
   */
  function Enroll(s: State, req: RegisterRequest, now: Instant, salt: nat, k: nat, referrer: Option<UserId>, code: string)
    : (s': State)
    requires k < |s.tokens| && Redeemable(s.tokens[k], req.tokenCode, now)
    requires UserTypeName(s.tokens[k].userType) == req.userType
    requires IsUpperCase(code) && !CodeHeld(s.users, code)
    requires req.referralCode == "" ==> referrer.None?
    requires req.referralCode != "" ==>
      referrer.Some? && referrer.value < |s.users| && s.users[referrer.value].referralCode == req.referralCode
    ensures Registered(s, s', |s.users|, req, now)
  {
    var id := |s.users|;
    var token := s.tokens[k];
    var user := NewUser(req.email, HashPassword(req.password, salt), req.fullName, req.phone,
                        token.userType, code, referrer, now).(lastAdDate := Some(now));
    var used := token.(isUsed := true, usedBy := Some(id), usedAt := Some(now));
    var s' := State(s.users + [user], s.tokens[k := used], s.ledger);
    assert Consumed(s.tokens[k], s'.tokens[k], req.tokenCode, id, now);
    s'
  }

  /** Registration keeps the store invariant. */
  lemma RegisterPreservesValid(s: State, req: RegisterRequest, now: Instant, salt: nat, draws: seq<string>)
    requires Valid(s)
    ensures Valid(Register(s, req, now, salt, draws).state)
  {
    var r := Register(s, req, now, salt, draws);
    if r.result.Ok? {
      RegisteredKeepsTokens(s, r.state, r.result.value, req, now);
      RegisteredKeepsUsers(s, r.state, r.result.value, req, now);
      RegisteredKeepsAccounts(s, r.state, r.result.value, req, now);
    }
  }

  lemma RegisteredKeepsTokens(s: State, s': State, id: UserId, req: RegisterRequest, now: Instant)
    requires TokensValid(s) && Registered(s, s', id, req, now)
    ensures TokensValid(s')
  {
    var k :| 0 <= k < |s.tokens| && Consumed(s.tokens[k], s'.tokens[k], req.tokenCode, id, now)
       && forall j :: 0 <= j < |s.tokens| && j != k ==> s'.tokens[j] == s.tokens[j];
    forall i | 0 <= i < |s'.tokens|
      ensures TokenWellFormed(s'.tokens[i], |s'.users|)
    {
      assert TokenWellFormed(s.tokens[i], |s.users|);
    }
    forall i, j | 0 <= i < |s'.tokens| && 0 <= j < |s'.tokens| && i != j && s'.tokens[i].usedBy.Some?
      ensures s'.tokens[i].usedBy != s'.tokens[j].usedBy
    {
      assert TokenWellFormed(s.tokens[i], |s.users|) && TokenWellFormed(s.tokens[j], |s.users|);
    }
  }

  lemma RegisteredKeepsUsers(s: State, s': State, id: UserId, req: RegisterRequest, now: Instant)
    requires UsersValid(s) && LedgerValid(s) && Registered(s, s', id, req, now)
    requires !IdentityTaken(s.users, req.email, req.phone)
    ensures UsersValid(s') && LedgerValid(s')
  {
    forall i, j | 0 <= i < |s'.users| && 0 <= j < |s'.users| && i != j
      ensures s'.users[i].email != s'.users[j].email
      ensures s'.users[i].phone != s'.users[j].phone
      ensures s'.users[i].referralCode != s'.users[j].referralCode
    {
      if i == id {
        assert s'.users[j] == s.users[j];
      } else if j == id {
        assert s'.users[i] == s.users[i];
      } else {
        assert s'.users[i] == s.users[i] && s'.users[j] == s.users[j];
      }
    }
    forall i | 0 <= i < |s'.users|
      ensures UserWellFormed(s'.users[i], i)
    {
      if i < id {
        assert s'.users[i] == s.users[i];
      }
    }
  }

  lemma RegisteredKeepsAccounts(s: State, s': State, id: UserId, req: RegisterRequest, now: Instant)
    requires LedgerValid(s) && AccountsValid(s) && Registered(s, s', id, req, now)
    ensures AccountsValid(s')
  {
    forall i | 0 <= i < |s'.users|
      ensures Account(s'.ledger, i, s'.users[i])
    {
      if i < id {
        assert s'.users[i] == s.users[i];
      } else {
        assert forall e :: 0 <= e < |s.ledger| ==> EntryWellFormed(s.ledger[e], e, |s.users|);
        FreshAccount(s.ledger, id, s'.users[id]);
      }
    }
  }

  /**
   * A token issued thirty days ago or more is gone: a registration with its
   * code gets no further than the token check.
   */
  lemma ExpiredTokenRefused(s: State, req: RegisterRequest, now: Instant, salt: nat, draws: seq<string>)
    requires forall k :: 0 <= k < |s.tokens| && s.tokens[k].code == ToUpper(req.tokenCode) ==>
      now.seconds - s.tokens[k].createdAt.seconds >= 30 * 24 * 60 * 60
    ensures Register(s, req, now, salt, draws).result in {Err(DuplicateIdentity), Err(InvalidToken)}
  {
    forall k | 0 <= k < |s.tokens|
      ensures !Redeemable(s.tokens[k], req.tokenCode, now)
    {
    }
  }

  /**
   * A token is consumed once: after a successful registration, no later
   * registration with the same token code gets past the token check.
   */
  lemma TokenSingleUse(s: State, req: RegisterRequest, now: Instant, salt: nat, draws: seq<string>,
                       req2: RegisterRequest, now2: Instant, salt2: nat, draws2: seq<string>)
    requires Valid(s)
    requires Register(s, req, now, salt, draws).result.Ok?
    requires ToUpper(req2.tokenCode) == ToUpper(req.tokenCode)
    ensures var s' := Register(s, req, now, salt, draws).state;
      Register(s', req2, now2, salt2, draws2).result in {Err(DuplicateIdentity), Err(InvalidToken)}
  {
    var r := Register(s, req, now, salt, draws);
    var s' := r.state;
    var id := r.result.value;
    var k :| 0 <= k < |s.tokens| && Consumed(s.tokens[k], s'.tokens[k], req.tokenCode, id, now)
       && forall j :: 0 <= j < |s.tokens| && j != k ==> s'.tokens[j] == s.tokens[j];
    forall j | 0 <= j < |s'.tokens|
      ensures !Redeemable(s'.tokens[j], req2.tokenCode, now2)
    {
      if j != k {
        assert s.tokens[j].code != s.tokens[k].code;
      }
    }
  }

  // ---------------------------------------------------------------------------
  // Login.

  /** What the login response reports as the daily ad limit. */
  datatype AdLimit = Capped(perDay: nat) | Unlimited

  function AdLimitOf(t: UserType): AdLimit
  {
    if t == Basic then Capped(DailyAdCap) else Unlimited
  }

  datatype Session = Session(id: UserId, userType: UserType, balance: int, referralCode: string,
                             adsWatchedToday: int, adLimit: AdLimit)

  /** `User.findOne({email})`, the query value passing the lowercase setter. */
  function FindByEmail(users: seq<User>, email: string): Option<nat>
  {
    FirstIndex(users, (u: User) => u.email == ToLower(email))
  }

  /**
   * POST /auth/login: an unknown e-mail and a wrong password get the same
   * refusal; a right password on an inactive account is refused as such.
   */
  function Login(s: State, email: string, password: string): (r: Result<Session, Failure>)
    ensures r.Err? ==> r.error == InvalidCredentials || r.error == AccountNotActive
    ensures (forall i :: 0 <= i < |s.users| ==> s.users[i].email != ToLower(email)) ==> r == Err(InvalidCredentials)
    ensures r.Ok? ==> r.value.id < |s.users|
    ensures r.Ok? ==> var u := s.users[r.value.id];
      u.email == ToLower(email) && Verify(password, u.passwordHash) && u.isActive
      && r.value.userType == u.userType && r.value.balance == u.balance
    ensures r.Ok? ==> (r.value.adLimit == Capped(50) <==> r.value.userType == Basic)
    ensures r == Err(AccountNotActive) ==>
      exists i :: 0 <= i < |s.users| && s.users[i].email == ToLower(email)
        && Verify(password, s.users[i].passwordHash) && !s.users[i].isActive
  {
    match FindByEmail(s.users, email)
    case None => Err(InvalidCredentials)
    case Some(i) =>
      var u := s.users[i];
      if !Verify(password, u.passwordHash) then Err(InvalidCredentials)
      else if !u.isActive then Err(AccountNotActive)
      else Ok(Session(i, u.userType, u.balance, u.referralCode, u.adsWatchedToday, AdLimitOf(u.userType)))
  }

  /** With unique e-mails, login succeeds exactly for an active user's own password. */
  lemma LoginExactly(s: State, email: string, password: string)
    requires UsersValid(s)
    ensures Login(s, email, password).Ok? <==>
      exists i :: 0 <= i < |s.users| && s.users[i].email == ToLower(email)
        && Verify(password, s.users[i].passwordHash) && s.users[i].isActive
  {
  }

  /** A user appended under an e-mail nobody else holds is the one the lookup finds. */
  lemma FindByEmailAppended(users: seq<User>, u: User, email: string)
    requires forall i :: 0 <= i < |users| ==> users[i].email != ToLower(email)
    requires u.email == ToLower(email)
    ensures FindByEmail(users + [u], email) == Some(|users|)
  {
    var all := users + [u];
    var matches := (v: User) => v.email == ToLower(email);
    assert all[|users|] == u && matches(u);
    assert forall i :: 0 <= i < |users| ==> all[i] == users[i] && !matches(all[i]);
    assert FindByEmail(all, email) == FirstIndex(all, matches);
  }

  /** A freshly registered user cannot log in until an admin activates it. */
  lemma NoLoginBeforeActivation(s: State, req: RegisterRequest, now: Instant, salt: nat, draws: seq<string>)
    requires Register(s, req, now, salt, draws).result.Ok?
    ensures Login(Register(s, req, now, salt, draws).state, req.email, req.password) == Err(AccountNotActive)
  {
    var r := Register(s, req, now, salt, draws);
    var id := r.result.value;
    assert Registered(s, r.state, id, req, now);
    assert !IdentityTaken(s.users, req.email, req.phone);
    var u := r.state.users[id];
    assert r.state.users == s.users + [u];
    FindByEmailAppended(s.users, u, req.email);
  }
}
