/** Token issuing, account activation, paginated listings and the dashboard. */
module Admin {
  import opened Common
  import opened Clock
  import opened Text
  import opened Seqs
  import opened UserModel
  import opened TokenModel
  import opened TransactionModel
  import opened Ledger
  import opened Store
  import opened Paging

  // ---------------------------------------------------------------------------
  // POST /admin/tokens/generate.

  /** `Token.findOne({code})` finds a document. */
  predicate CodeInUse(tokens: seq<Token>, code: string)
  {
    exists j :: 0 <= j < |tokens| && tokens[j].code == code
  }

  /** What every token of a batch of tier `ty` looks like. */
  predicate Issued(t: Token, ty: UserType, now: Instant)
  {
    && IsUpperCase(t.code)
    && t.userType == ty && t.price == TokenPrice(ty)
    && !t.isUsed && t.usedBy.None? && t.usedAt.None?
    && t.createdAt == now
  }

  /**
   * The retry-until-unique loop for one token code: starting at draw `from`,
   * the first draw whose upper-cased form is not a stored code, and the
   * position after it. None when the draws run out first.
   */
  method FreshCode(tokens: seq<Token>, draws: seq<string>, from: nat) returns (code: Option<string>, next: nat)
    requires from <= |draws|
    ensures from <= next <= |draws|
    ensures code.Some? ==> IsUpperCase(code.value) && !CodeInUse(tokens, code.value)
    ensures code.Some? ==> from < next && code.value == ToUpper(draws[next - 1])
    ensures code.Some? ==> forall i :: from <= i < next - 1 ==> CodeInUse(tokens, ToUpper(draws[i]))
    ensures code.None? <==> forall i :: from <= i < |draws| ==> CodeInUse(tokens, ToUpper(draws[i]))
  {
    next := from;
    while next < |draws|
      invariant from <= next <= |draws|
      invariant forall i :: from <= i < next ==> CodeInUse(tokens, ToUpper(draws[i]))
    {
      var c := ToUpper(draws[next]);
      next := next + 1;
      if !CodeInUse(tokens, c) {
        UpperFixesUpperCase(c);
        return Some(c), next;
      }
    }
    return None, next;
  }

  /** Appending a batch of fresh, well-formed tokens keeps the store invariant. */
  lemma BatchKeepsValid(s: State, made: seq<Token>, ty: UserType, now: Instant)
    requires Valid(s)
    requires forall i :: 0 <= i < |made| ==> Issued(made[i], ty, now)
    requires forall i, j :: 0 <= i < j < |made| ==> made[i].code != made[j].code
    requires forall i, j :: 0 <= i < |made| && 0 <= j < |s.tokens| ==> made[i].code != s.tokens[j].code
    ensures Valid(s.(tokens := s.tokens + made))
  {
    var s' := s.(tokens := s.tokens + made);
    var n := |s.tokens|;
    forall i | 0 <= i < |s'.tokens|
      ensures TokenWellFormed(s'.tokens[i], |s'.users|)
    {
      if i < n {
        assert s'.tokens[i] == s.tokens[i];
      } else {
        assert s'.tokens[i] == made[i - n];
      }
    }
    forall i, j | 0 <= i < |s'.tokens| && 0 <= j < |s'.tokens| && i != j
      ensures s'.tokens[i].code != s'.tokens[j].code
      ensures s'.tokens[i].usedBy.Some? ==> s'.tokens[i].usedBy != s'.tokens[j].usedBy
    {
      if i < n && j < n {
        assert s'.tokens[i] == s.tokens[i] && s'.tokens[j] == s.tokens[j];
      } else if i < n {
        assert s'.tokens[i] == s.tokens[i] && s'.tokens[j] == made[j - n];
      } else if j < n {
        assert s'.tokens[i] == made[i - n] && s'.tokens[j] == s.tokens[j];
      } else {
        assert s'.tokens[i] == made[i - n] && s'.tokens[j] == made[j - n];
      }
    }
    assert TokensValid(s');
  }

  /**
   * The codes a run of draws yields, in draw order: each draw upper-cased,
   * skipping those a stored token or an earlier code of the run already
   * uses. This is what the retry loop of a batch produces.
   */
  function FreshCodes(tokens: seq<Token>, draws: seq<string>): (r: seq<string>)
    ensures forall i :: 0 <= i < |r| ==> IsUpperCase(r[i]) && !CodeInUse(tokens, r[i])
    ensures forall i, j :: 0 <= i < j < |r| ==> r[i] != r[j]
    ensures forall i :: 0 <= i < |draws| && !CodeInUse(tokens, ToUpper(draws[i])) ==> ToUpper(draws[i]) in r
  {
    if |draws| == 0 then []
    else
      var n := |draws| - 1;
      var prev := FreshCodes(tokens, draws[..n]);
      var c := ToUpper(draws[n]);
      assert forall i :: 0 <= i < n ==> draws[..n][i] == draws[i];
      if CodeInUse(tokens, c) || c in prev then prev else prev + [c]
  }

  /** Draws that are all taken, by stored tokens or by the run so far, add no code. */
  lemma {:induction false} FreshCodesSkip(tokens: seq<Token>, draws: seq<string>, a: nat, b: nat)
    requires a <= b <= |draws|
    requires forall i :: a <= i < b ==>
      CodeInUse(tokens, ToUpper(draws[i])) || ToUpper(draws[i]) in FreshCodes(tokens, draws[..a])
    ensures FreshCodes(tokens, draws[..b]) == FreshCodes(tokens, draws[..a])
  {
    if a < b {
      FreshCodesSkip(tokens, draws, a, b - 1);
      assert draws[..b][..b - 1] == draws[..b - 1];
      assert draws[..b][b - 1] == draws[b - 1];
    }
  }

  /** A draw that is not yet taken adds its code at the end. */
  lemma FreshCodesTake(tokens: seq<Token>, draws: seq<string>, a: nat)
    requires a < |draws|
    requires !CodeInUse(tokens, ToUpper(draws[a])) && ToUpper(draws[a]) !in FreshCodes(tokens, draws[..a])
    ensures FreshCodes(tokens, draws[..a + 1]) == FreshCodes(tokens, draws[..a]) + [ToUpper(draws[a])]
  {
    assert draws[..a + 1][..a] == draws[..a];
  }

  /** Fewer draws yield a prefix of the codes more draws yield. */
  lemma {:induction false} FreshCodesPrefix(tokens: seq<Token>, draws: seq<string>, m: nat)
    requires m <= |draws|
    ensures FreshCodes(tokens, draws[..m]) <= FreshCodes(tokens, draws)
  {
    if m < |draws| {
      var n := |draws| - 1;
      FreshCodesPrefix(tokens, draws[..n], m);
      assert draws[..n][..m] == draws[..m];
    } else {
      assert draws[..m] == draws;
    }
  }

  /** The tokens of tier `ty` a batch issues for `codes`, one per code, in order. */
  function Batch(codes: seq<string>, ty: UserType, now: Instant): (r: seq<Token>)
    ensures |r| == |codes|
    ensures forall i :: 0 <= i < |r| ==> r[i] == NewToken(codes[i], ty, TokenPrice(ty), now)
  {
    seq(|codes|, (i: int) requires 0 <= i < |codes| => NewToken(codes[i], ty, TokenPrice(ty), now))
  }

  /** One more code issues one more token at the end of the batch. */
  lemma BatchSnoc(codes: seq<string>, c: string, ty: UserType, now: Instant)
    ensures Batch(codes + [c], ty, now) == Batch(codes, ty, now) + [NewToken(c, ty, TokenPrice(ty), now)]
  {
  }

  /** A code is in use after a batch exactly when it was before or the batch issued it. */
  lemma InUseWithBatch(tokens: seq<Token>, codes: seq<string>, ty: UserType, now: Instant, c: string)
    requires forall i :: 0 <= i < |codes| ==> IsUpperCase(codes[i])
    ensures CodeInUse(tokens + Batch(codes, ty, now), c) <==> CodeInUse(tokens, c) || c in codes
  {
    var all := tokens + Batch(codes, ty, now);
    if c in codes {
      var i :| 0 <= i < |codes| && codes[i] == c;
      assert all[|tokens| + i].code == c;
    }
    if CodeInUse(tokens, c) {
      var j :| 0 <= j < |tokens| && tokens[j].code == c;
      assert all[j] == tokens[j];
    }
    if CodeInUse(all, c) {
      var j :| 0 <= j < |all| && all[j].code == c;
      if j >= |tokens| {
        assert all[j] == NewToken(codes[j - |tokens|], ty, TokenPrice(ty), now);
      } else {
        assert all[j] == tokens[j];
      }
    }
  }

  /** `quantity = 1` when absent; a count below 1 issues nothing. */
  function BatchSize(quantity: Option<int>): nat
  {
    var q := if quantity.None? then 1 else quantity.value;
    if q < 0 then 0 else q
  }

  /**
   * Issue `quantity` tokens of the requested tier. The codes are the first
   * `quantity` codes of `FreshCodes`: each is the first remaining draw that,
   * upper-cased, no stored token and no earlier token of the batch uses.
   * When the draws yield fewer codes than that, the request is refused.
   * Premium tokens cost 5000 and basic ones 3000.
   */
  method GenerateTokens(s: State, userType: string, quantity: Option<int>, now: Instant, draws: seq<string>)
    returns (r: Reply<seq<Token>>)
    ensures r.result.Err? ==> r.state == s
    ensures r.result == Err(InvalidUserType) <==> userType != "basic" && userType != "premium"
    ensures r.result == Err(NoFreshCode) <==>
      ParseUserType(userType).Some? && |FreshCodes(s.tokens, draws)| < BatchSize(quantity)
    ensures r.result.Err? ==> r.result.error in {InvalidUserType, NoFreshCode}
    ensures r.result.Ok? ==>
      var made := r.result.value;
      && ParseUserType(userType).Some?
      && |made| == BatchSize(quantity)
      && r.state == s.(tokens := s.tokens + made)
      && (forall i :: 0 <= i < |made| ==> made[i].code == FreshCodes(s.tokens, draws)[i])
      && (forall i :: 0 <= i < |made| ==> Issued(made[i], ParseUserType(userType).value, now))
      && (forall i, j :: 0 <= i < j < |made| ==> made[i].code != made[j].code)
      && (forall i, j :: 0 <= i < |made| && 0 <= j < |s.tokens| ==> made[i].code != s.tokens[j].code)
    ensures Valid(s) ==> Valid(r.state)
  {
    var parsed := ParseUserType(userType);
    if parsed.None? {
      return Reply(s, Err(InvalidUserType));
    }
    var ty := parsed.value;
    var size := BatchSize(quantity);
    var made: seq<Token> := [];
    var next := 0;
    while |made| < size
      invariant 0 <= next <= |draws|
      invariant |made| <= size
      invariant made == Batch(FreshCodes(s.tokens, draws[..next]), ty, now)
      decreases size - |made|
    {
      var code, next' := FreshCode(s.tokens + made, draws, next);
      if code.None? {
        DrawsExhausted(s.tokens, made, draws, next, ty, now);
        return Reply(s, Err(NoFreshCode));
      }
      DrawTaken(s.tokens, made, draws, next, next', ty, now);
      made := made + [NewToken(code.value, ty, TokenPrice(ty), now)];
      next := next';
    }
    FreshCodesPrefix(s.tokens, draws, next);
    BatchFacts(s, FreshCodes(s.tokens, draws[..next]), ty, now);
    if Valid(s) {
      BatchKeepsValid(s, made, ty, now);
    }
    return Reply(s.(tokens := s.tokens + made), Ok(made));
  }

  /** One turn of the retry loop: the skipped draws were taken, and the code found extends the run. */
  lemma DrawTaken(tokens: seq<Token>, made: seq<Token>, draws: seq<string>, next: nat, next': nat,
                  ty: UserType, now: Instant)
    requires next < next' <= |draws|
    requires made == Batch(FreshCodes(tokens, draws[..next]), ty, now)
    requires forall i :: next <= i < next' - 1 ==> CodeInUse(tokens + made, ToUpper(draws[i]))
    requires !CodeInUse(tokens + made, ToUpper(draws[next' - 1]))
    ensures made + [NewToken(ToUpper(draws[next' - 1]), ty, TokenPrice(ty), now)]
         == Batch(FreshCodes(tokens, draws[..next']), ty, now)
  {
    var codes := FreshCodes(tokens, draws[..next]);
    forall i | next <= i < next' - 1
      ensures CodeInUse(tokens, ToUpper(draws[i])) || ToUpper(draws[i]) in codes
    {
      InUseWithBatch(tokens, codes, ty, now, ToUpper(draws[i]));
    }
    FreshCodesSkip(tokens, draws, next, next' - 1);
    InUseWithBatch(tokens, codes, ty, now, ToUpper(draws[next' - 1]));
    FreshCodesTake(tokens, draws, next' - 1);
    BatchSnoc(codes, ToUpper(draws[next' - 1]), ty, now);
  }

  /** When every remaining draw is taken, the run has yielded every code it ever will. */
  lemma DrawsExhausted(tokens: seq<Token>, made: seq<Token>, draws: seq<string>, next: nat, ty: UserType, now: Instant)
    requires next <= |draws|
    requires made == Batch(FreshCodes(tokens, draws[..next]), ty, now)
    requires forall i :: next <= i < |draws| ==> CodeInUse(tokens + made, ToUpper(draws[i]))
    ensures FreshCodes(tokens, draws) == FreshCodes(tokens, draws[..next])
  {
    var codes := FreshCodes(tokens, draws[..next]);
    forall i | next <= i < |draws|
      ensures CodeInUse(tokens, ToUpper(draws[i])) || ToUpper(draws[i]) in codes
    {
      InUseWithBatch(tokens, codes, ty, now, ToUpper(draws[i]));
    }
    FreshCodesSkip(tokens, draws, next, |draws|);
    assert draws[..|draws|] == draws;
  }

  /** A batch over fresh, distinct codes is issued, distinct and new to the store. */
  lemma BatchFacts(s: State, codes: seq<string>, ty: UserType, now: Instant)
    requires forall i :: 0 <= i < |codes| ==> IsUpperCase(codes[i]) && !CodeInUse(s.tokens, codes[i])
    requires forall i, j :: 0 <= i < j < |codes| ==> codes[i] != codes[j]
    ensures var made := Batch(codes, ty, now);
      && (forall i :: 0 <= i < |made| ==> made[i].code == codes[i] && Issued(made[i], ty, now))
      && (forall i, j :: 0 <= i < j < |made| ==> made[i].code != made[j].code)
      && (forall i, j :: 0 <= i < |made| && 0 <= j < |s.tokens| ==> made[i].code != s.tokens[j].code)
  {
    var made := Batch(codes, ty, now);
    forall i | 0 <= i < |made|
      ensures made[i].code == codes[i] && Issued(made[i], ty, now)
    {
      UpperFixesUpperCase(codes[i]);
    }
  }

  // ---------------------------------------------------------------------------
  // PUT /admin/users/:userId/activate.

  /** `Token.findOne({usedBy: userId})`, among the tokens not yet expired. */
  predicate HeldToken(t: Token, id: UserId, now: Instant)
  {
    t.usedBy == Some(id) && Findable(t, now)
  }

  function FindHeldToken(tokens: seq<Token>, id: UserId, now: Instant): Option<nat>
  {
    FirstIndex(tokens, (t: Token) => HeldToken(t, id, now))
  }

  /** The referrer that will be paid when `u` is activated, if `findById` resolves it. */
  function PaidReferrer(s: State, u: User): Option<UserId>
  {
    if u.referredBy.Some? && u.referredBy.value < |s.users| then u.referredBy else None
  }

  /**
   * Activation, after manual payment verification. Refusals come in the
   * order NotFound, AlreadyActive, NoRegistrationToken and change nothing.
   * On success the user becomes active, one completed registration entry for
   * the token's price is appended, and, when the referrer resolves, the
   * referrer's balance rises by the referred user's bonus, recorded in one
   * completed referral-bonus entry. No other user changes.
   */
  function Activate(s: State, id: int, now: Instant): (r: Reply<UserId>)
    ensures r.result.Err? ==> r.state == s
    ensures r.result.Err? ==> r.result.error in {NotFound, AlreadyActive, NoRegistrationToken}
    ensures r.result == Err(NotFound) <==> !(0 <= id < |s.users|)
    ensures r.result == Err(AlreadyActive) <==> 0 <= id < |s.users| && s.users[id].isActive
    ensures r.result == Err(NoRegistrationToken) <==>
      0 <= id < |s.users| && !s.users[id].isActive
      && forall k :: 0 <= k < |s.tokens| ==> !HeldToken(s.tokens[k], id, now)
    ensures r.result.Ok? ==>
      && r.result.value == id
      && r.state.tokens == s.tokens
      && |r.state.users| == |s.users|
      && r.state.users[id].isActive
      && (forall j :: 0 <= j < |s.users| && j != id && Some(j) != PaidReferrer(s, s.users[id]) ==>
            r.state.users[j] == s.users[j])
      && |r.state.ledger| > |s.ledger|
      && r.state.ledger[..|s.ledger|] == s.ledger
      && var reg := r.state.ledger[|s.ledger|];
      && reg.user == id && reg.txType == Registration && reg.status == Completed
      && (exists k :: 0 <= k < |s.tokens| && HeldToken(s.tokens[k], id, now) && reg.amount == s.tokens[k].price)
    ensures r.result.Ok? && PaidReferrer(s, s.users[id]).None? ==>
      |r.state.ledger| == |s.ledger| + 1
      && r.state.users == s.users[id := s.users[id].(isActive := true)]
    ensures r.result.Ok? && PaidReferrer(s, s.users[id]).Some? && PaidReferrer(s, s.users[id]).value != id ==>
      var ref := PaidReferrer(s, s.users[id]).value;
      && |r.state.ledger| == |s.ledger| + 2
      && var bonus := r.state.ledger[|s.ledger| + 1];
      && r.state.users[id] == s.users[id].(isActive := true)
      && r.state.users[ref] == s.users[ref].(balance := s.users[ref].balance + ReferralBonusFor(s.users[id].userType))
      && bonus.user == ref && bonus.txType == ReferralBonus && bonus.status == Completed
      && bonus.amount == ReferralBonusFor(s.users[id].userType)
      && bonus.metadata.referredUser == Some(id)
    ensures r.result.Ok? && PaidReferrer(s, s.users[id]) == Some(id) ==>
      r.state.users == s.users[id := s.users[id].(isActive := true,
                                                  balance := s.users[id].balance + ReferralBonusFor(s.users[id].userType))]
  {
    ActivateStep(s, id, now)
  }

  /** The state change of an activation, step by step as the route performs it. */
  function ActivateStep(s: State, id: int, now: Instant): Reply<UserId>
  {
    if !(0 <= id < |s.users|) then Reply(s, Err(NotFound))
    else
      var u := s.users[id];
      if u.isActive then Reply(s, Err(AlreadyActive))
      else match FindHeldToken(s.tokens, id, now)
        case None => Reply(s, Err(NoRegistrationToken))
        case Some(k) =>
          var reg := Transaction(id, Registration, s.tokens[k].price, Completed,
                                 NextReference(s, "REG"), NoMetadata, now);
          var s1 := State(s.users[id := u.(isActive := true)], s.tokens, s.ledger + [reg]);
          assert s1.ledger[..|s.ledger|] == s.ledger;
          match PaidReferrer(s, u)
          case None => Reply(s1, Ok(id))
          case Some(ref) =>
            var referrer := s1.users[ref];
            var amount := ReferralBonusFor(u.userType);
            var bonus := Transaction(ref, ReferralBonus, amount, Completed,
                                     NextReference(s1, "REF"), Metadata(None, Some(id), None), now);
            var s2 := State(s1.users[ref := referrer.(balance := referrer.balance + amount)], s.tokens,
                            s1.ledger + [bonus]);
            assert s2.ledger[..|s.ledger|] == s.ledger;
            Reply(s2, Ok(id))
  }

  /** Activation keeps the store invariant, in particular the pairing of balances with ledger entries. */
  lemma ActivatePreservesValid(s: State, id: int, now: Instant)
    requires Valid(s)
    ensures Valid(Activate(s, id, now).state)
  {
    if 0 <= id < |s.users| && !s.users[id].isActive && FindHeldToken(s.tokens, id, now).Some? {
      var u := s.users[id];
      var k := FindHeldToken(s.tokens, id, now).value;
      var reg := Transaction(id, Registration, s.tokens[k].price, Completed,
                             NextReference(s, "REG"), NoMetadata, now);
      var s1 := State(s.users[id := u.(isActive := true)], s.tokens, s.ledger + [reg]);
      assert TokenWellFormed(s.tokens[k], |s.users|);
      match PaidReferrer(s, u)
      case None =>
        assert ActivateStep(s, id, now).state == s1;
        RegistrationOnlyValid(s, id, reg, s1);
      case Some(ref) =>
        var referrer := s1.users[ref];
        var amount := ReferralBonusFor(u.userType);
        var bonus := Transaction(ref, ReferralBonus, amount, Completed,
                                 NextReference(s1, "REF"), Metadata(None, Some(id), None), now);
        var s2 := State(s1.users[ref := referrer.(balance := referrer.balance + amount)], s.tokens,
                        s1.ledger + [bonus]);
        assert ActivateStep(s, id, now).state == s2;
        RegistrationAndBonusValid(s, id, reg, s1, ref, bonus, s2);
    }
  }

  lemma RegistrationOnlyValid(s: State, id: UserId, reg: Transaction, s1: State)
    requires Valid(s) && id < |s.users| && !s.users[id].isActive && s.users[id].referredBy.None?
    requires reg.user == id && reg.txType == Registration && reg.metadata == NoMetadata
    requires EntryWellFormed(reg, |s.ledger|, |s.users|)
    requires s1 == State(s.users[id := s.users[id].(isActive := true)], s.tokens, s.ledger + [reg])
    ensures Valid(s1)
  {
    SameIdentities(s, s1);
    LedgerAppend(s, reg);
    ActivatedAccounts(s, id, reg);
  }

  lemma RegistrationAndBonusValid(s: State, id: UserId, reg: Transaction, s1: State, ref: UserId,
                                  bonus: Transaction, s2: State)
    requires Valid(s) && id < |s.users| && !s.users[id].isActive && s.users[id].referredBy == Some(ref)
    requires reg.user == id && reg.txType == Registration && reg.metadata == NoMetadata
    requires EntryWellFormed(reg, |s.ledger|, |s.users|)
    requires s1 == State(s.users[id := s.users[id].(isActive := true)], s.tokens, s.ledger + [reg])
    requires bonus.user == ref && bonus.txType == ReferralBonus && bonus.metadata.referredUser == Some(id)
    requires bonus.amount == ReferralBonusFor(s.users[id].userType)
    requires EntryWellFormed(bonus, |s1.ledger|, |s.users|)
    requires s2 == State(s1.users[ref := s1.users[ref].(balance := s1.users[ref].balance + bonus.amount)],
                         s.tokens, s1.ledger + [bonus])
    ensures Valid(s2)
  {
    assert UserWellFormed(s.users[id], id);
    SameIdentities(s, s1);
    LedgerAppend(s, reg);
    SameIdentities(s1, s2);
    LedgerAppend(s1, bonus);
    ActivatedAccounts(s, id, reg);
    assert s2.users[id] == s.users[id].(isActive := true);
    assert s2.users[ref] == s.users[ref].(balance := s.users[ref].balance + bonus.amount);
    BonusAccounts(s, id, reg, ref, bonus, s2.users);
    assert s2.ledger == s.ledger + [reg] + [bonus];
  }

  /** After the registration entry alone, every account but the activated user's still holds, and that one up to its bonus count. */
  lemma ActivatedAccounts(s: State, id: UserId, reg: Transaction)
    requires AccountsValid(s) && id < |s.users| && !s.users[id].isActive
    requires reg.user == id && reg.txType == Registration && reg.metadata.referredUser.None?
    ensures var u' := s.users[id].(isActive := true);
      && (forall k :: 0 <= k < |s.users| && k != id ==> Account(s.ledger + [reg], k, s.users[k]))
      && (s.users[id].referredBy.None? ==> Account(s.ledger + [reg], id, u'))
      && Total(s.ledger + [reg], BonusesFor(id)) == 0
  {
    var l := s.ledger;
    var u := s.users[id];
    AccountsFrame(l, reg, s.users, id);
    AppendMeasures(l, reg, id);
    assert Account(l, id, u);
  }

  /** After the referral bonus, the referrer's account and the activated user's account both hold. */
  lemma BonusAccounts(s: State, id: UserId, reg: Transaction, ref: UserId, bonus: Transaction, users2: seq<User>)
    requires AccountsValid(s) && id < |s.users| && !s.users[id].isActive
    requires s.users[id].referredBy == Some(ref) && ref < id
    requires reg.user == id && reg.txType == Registration && reg.metadata.referredUser.None?
    requires forall k :: 0 <= k < |s.users| && k != id ==> Account(s.ledger + [reg], k, s.users[k])
    requires Total(s.ledger + [reg], BonusesFor(id)) == 0
    requires bonus.user == ref && bonus.txType == ReferralBonus && bonus.metadata.referredUser == Some(id)
    requires bonus.amount == ReferralBonusFor(s.users[id].userType)
    requires |users2| == |s.users|
    requires users2[id] == s.users[id].(isActive := true)
    requires users2[ref] == s.users[ref].(balance := s.users[ref].balance + bonus.amount)
    requires forall k :: 0 <= k < |s.users| && k != id && k != ref ==> users2[k] == s.users[k]
    ensures forall k :: 0 <= k < |users2| ==> Account(s.ledger + [reg] + [bonus], k, users2[k])
  {
    var l := s.ledger;
    var l1 := l + [reg];
    var u := s.users[id];
    forall k | 0 <= k < |users2| && k != id && k != ref
      ensures Account(l1 + [bonus], k, users2[k])
    {
      AccountFrame(l1, bonus, k, s.users[k]);
    }
    assert Account(l, id, u);
    AppendMeasures(l, reg, id);
    AppendMeasures(l1, bonus, id);
    assert Account(l1 + [bonus], id, users2[id]);
    AppendMeasures(l1, bonus, ref);
    assert Account(l1, ref, s.users[ref]);
    assert Account(l1 + [bonus], ref, users2[ref]);
  }

  /**
   * Once the token a user registered with is thirty days old, the user can
   * no longer be activated: the lookup of its token finds nothing.
   */
  lemma ExpiredTokenBlocksActivation(s: State, id: UserId, now: Instant)
    requires id < |s.users| && !s.users[id].isActive
    requires forall k :: 0 <= k < |s.tokens| && s.tokens[k].usedBy == Some(id) ==>
      now.seconds - s.tokens[k].createdAt.seconds >= 30 * 24 * 60 * 60
    ensures Activate(s, id, now) == Reply(s, Err(NoRegistrationToken))
  {
  }

  /** A second activation of the same user is refused and changes nothing, so no bonus is paid twice. */
  lemma ActivateOnce(s: State, id: int, now: Instant, later: Instant)
    requires Activate(s, id, now).result.Ok?
    ensures var s' := Activate(s, id, now).state;
      Activate(s', id, later) == Reply(s', Err(AlreadyActive))
  {
  }

  // ---------------------------------------------------------------------------
  // GET /admin/users/pending.

  /** An inactive user together with the token it registered with, if that is still stored. */
  datatype PendingUser = PendingUser(id: UserId, user: User, token: Option<Token>)

  /** `Token.findOne({usedBy: user._id})`. */
  function HeldTokenOf(s: State, id: UserId, now: Instant): (r: Option<Token>)
    ensures r.Some? <==> exists k :: 0 <= k < |s.tokens| && HeldToken(s.tokens[k], id, now)
    ensures r.Some? ==> r.value in s.tokens && HeldToken(r.value, id, now)
  {
    match FindHeldToken(s.tokens, id, now)
    case None => None
    case Some(k) => Some(s.tokens[k])
  }

  /** Each listed position with its user and that user's token, in the same order. */
  function WithTokens(s: State, ids: seq<nat>, now: Instant): (r: seq<PendingUser>)
    requires forall i :: 0 <= i < |ids| ==> ids[i] < |s.users|
    ensures |r| == |ids|
    ensures forall i :: 0 <= i < |r| ==> r[i] == PendingUser(ids[i], s.users[ids[i]], HeldTokenOf(s, ids[i], now))
    ensures Descending(ids) ==> forall i, j :: 0 <= i < j < |r| ==> r[i].id > r[j].id
    ensures forall id :: id in ids ==> exists i :: 0 <= i < |r| && r[i].id == id
  {
    var r := seq(|ids|, (i: int) requires 0 <= i < |ids| => PendingUser(ids[i], s.users[ids[i]], HeldTokenOf(s, ids[i], now)));
    assert forall id :: id in ids ==> exists i :: 0 <= i < |r| && r[i].id == id by {
      forall id | id in ids
        ensures exists i :: 0 <= i < |r| && r[i].id == id
      {
        var i :| 0 <= i < |ids| && ids[i] == id;
        assert r[i].id == id;
      }
    }
    r
  }

  /**
   * The pending-users listing: every inactive user exactly once, newest
   * registration first, each with the token it consumed when that token
   * can still be found.
   */
  function PendingUsers(s: State, now: Instant): (r: seq<PendingUser>)
    ensures |r| == CountWhere(s.users, IsPending)
    ensures forall i :: 0 <= i < |r| ==>
      && r[i].id < |s.users| && r[i].user == s.users[r[i].id] && !r[i].user.isActive
      && r[i].token == HeldTokenOf(s, r[i].id, now)
    ensures forall i, j :: 0 <= i < j < |r| ==> r[i].id > r[j].id
    ensures forall id :: 0 <= id < |s.users| && !s.users[id].isActive ==> exists i :: 0 <= i < |r| && r[i].id == id
  {
    var ids := PositionsWhere(s.users, IsPending);
    PositionsDescending(s.users, IsPending);
    assert forall id :: 0 <= id < |s.users| && !s.users[id].isActive ==> id in ids by {
      forall id | 0 <= id < |s.users| && !s.users[id].isActive
        ensures id in ids
      {
        assert IsPending(s.users[id]);
      }
    }
    WithTokens(s, ids, now)
  }

  /** The listing and the dashboard agree on how many users wait for activation. */
  lemma PendingListingMatchesDashboard(s: State, now: Instant)
    ensures |PendingUsers(s, now)| == Dashboard(s).stats.pendingUsers
  {
  }

  // ---------------------------------------------------------------------------
  // GET /admin/tokens and GET /admin/users.

  /**
   * The query of GET /admin/tokens: tokens not yet expired and, when the
   * `used` parameter is present, whose `isUsed` equals `used === 'true'`.
   */
  function TokenQuery(used: Option<string>, now: Instant): Token -> bool
  {
    (t: Token) => Findable(t, now) && (used.None? || t.isUsed == (used.value == "true"))
  }

  /**
   * One page of tokens, newest first, with `page = 1` and `limit = 20` when
   * absent. The `createdAt` sort is taken as insertion order read backwards.
   */
  function ListTokens(s: State, page: Option<int>, limit: Option<nat>, used: Option<string>, now: Instant)
    : (r: Result<Page<Token>, Failure>)
    ensures r.Err? <==> (PageOr(page) - 1) * LimitOr(limit) < 0
    ensures r.Err? ==> r.error == NegativeSkip
    ensures r.Ok? ==> r.value.total == CountWhere(s.tokens, TokenQuery(used, now))
    ensures r.Ok? ==> NewestPage(r.value, Filter(s.tokens, TokenQuery(used, now)), PageOr(page), LimitOr(limit))
    ensures r.Ok? ==> forall j :: 0 <= j < |r.value.items| ==>
      var t := r.value.items[j];
      && t in s.tokens && Findable(t, now)
      && (used == Some("true") ==> t.isUsed)
      && (used.Some? && used != Some("true") ==> !t.isUsed)
  {
    var matching := Filter(s.tokens, TokenQuery(used, now));
    PaginateNewest(matching, PageOr(page), LimitOr(limit));
    var r := Paginate(Reverse(matching), PageOr(page), LimitOr(limit));
    r
  }

  /**
   * Every token the query matches is listed: the `i`-th newest one is item
   * `i % limit` of page `i / limit + 1`, a page within the page count.
   */
  lemma EveryTokenListed(s: State, limit: nat, used: Option<string>, now: Instant, i: nat)
    requires limit > 0 && i < CountWhere(s.tokens, TokenQuery(used, now))
    ensures ShowsNewest(ListTokens(s, Some(i / limit + 1), Some(limit), used, now), Filter(s.tokens, TokenQuery(used, now)), limit, i)
  {
    var matching := Filter(s.tokens, TokenQuery(used, now));
    var r := ListTokens(s, Some(i / limit + 1), Some(limit), used, now);
    assert i < |matching|;
    ListedAt(r, matching, limit, i);
  }

  /**
   * The query of GET /admin/users: the `active` parameter as in the token
   * listing, and `userType` (an empty string is no filter) compared with the
   * stored tier name.
   */
  function UserQuery(active: Option<string>, userType: string): User -> bool
  {
    (u: User) =>
      && (active.None? || u.isActive == (active.value == "true"))
      && (userType == "" || UserTypeName(u.userType) == userType)
  }

  /** One page of users, newest registration first, with `page = 1` and `limit = 20` when absent. */
  function ListUsers(s: State, page: Option<int>, limit: Option<nat>, active: Option<string>, userType: string)
    : (r: Result<Page<User>, Failure>)
    ensures r.Err? <==> (PageOr(page) - 1) * LimitOr(limit) < 0
    ensures r.Err? ==> r.error == NegativeSkip
    ensures r.Ok? ==> r.value.total == CountWhere(s.users, UserQuery(active, userType))
    ensures r.Ok? ==> NewestPage(r.value, Filter(s.users, UserQuery(active, userType)), PageOr(page), LimitOr(limit))
    ensures r.Ok? ==> forall j :: 0 <= j < |r.value.items| ==>
      var u := r.value.items[j];
      && u in s.users
      && (active == Some("true") ==> u.isActive)
      && (active.Some? && active != Some("true") ==> !u.isActive)
      && (userType != "" ==> UserTypeName(u.userType) == userType)
    ensures r.Ok? && userType != "" && ParseUserType(userType).None? ==> r.value.total == 0
  {
    var matching := Filter(s.users, UserQuery(active, userType));
    PaginateNewest(matching, PageOr(page), LimitOr(limit));
    var r := Paginate(Reverse(matching), PageOr(page), LimitOr(limit));
    UnknownTierMatchesNone(s.users, active, userType);
    r
  }

  /**
   * Every user the query matches is listed: the `i`-th newest one is item
   * `i % limit` of page `i / limit + 1`, a page within the page count.
   */
  lemma EveryUserListed(s: State, limit: nat, active: Option<string>, userType: string, i: nat)
    requires limit > 0 && i < CountWhere(s.users, UserQuery(active, userType))
    ensures ShowsNewest(ListUsers(s, Some(i / limit + 1), Some(limit), active, userType), Filter(s.users, UserQuery(active, userType)), limit, i)
  {
    var matching := Filter(s.users, UserQuery(active, userType));
    var r := ListUsers(s, Some(i / limit + 1), Some(limit), active, userType);
    assert i < |matching|;
    ListedAt(r, matching, limit, i);
  }

  /** A tier filter naming no tier matches nobody. */
  lemma UnknownTierMatchesNone(users: seq<User>, active: Option<string>, userType: string)
    ensures userType != "" && ParseUserType(userType).None? ==> CountWhere(users, UserQuery(active, userType)) == 0
  {
    if userType != "" && ParseUserType(userType).None? {
      forall i | 0 <= i < |users|
        ensures !UserQuery(active, userType)(users[i])
      {
        ParseNameRoundTrip(users[i].userType);
      }
    }
  }

  // ---------------------------------------------------------------------------
  // GET /admin/dashboard.

  datatype Stats = Stats(
    totalUsers: nat,
    activeUsers: nat,
    pendingUsers: nat,
    basicUsers: nat,
    premiumUsers: nat,
    totalRevenue: int,
    totalPayouts: int,
    totalReferralBonuses: int)

  datatype DashboardView = DashboardView(stats: Stats, recentTransactions: seq<Transaction>)

  function IsActive(u: User): bool { u.isActive }
  function IsPending(u: User): bool { !u.isActive }
  function IsActiveOf(t: UserType): User -> bool { (u: User) => u.isActive && u.userType == t }

  /**
   * The dashboard: user counts by state and tier (tier counts only over
   * active users), the sums of completed registration, withdrawal and
   * referral-bonus entries (0 when there are none), and the ten newest
   * ledger entries.
   */
  function Dashboard(s: State): (r: DashboardView)
    ensures r.stats.totalUsers == |s.users|
    ensures r.stats.activeUsers == CountWhere(s.users, IsActive)
    ensures r.stats.pendingUsers == CountWhere(s.users, IsPending)
    ensures r.stats.basicUsers == CountWhere(s.users, IsActiveOf(Basic))
    ensures r.stats.premiumUsers == CountWhere(s.users, IsActiveOf(Premium))
    ensures r.stats.activeUsers + r.stats.pendingUsers == r.stats.totalUsers
    ensures r.stats.basicUsers + r.stats.premiumUsers == r.stats.activeUsers
    ensures r.stats.activeUsers == 0 <==> forall i :: 0 <= i < |s.users| ==> !s.users[i].isActive
    ensures r.stats.totalRevenue == Total(s.ledger, CompletedSum(Registration))
    ensures r.stats.totalPayouts == Total(s.ledger, CompletedSum(Withdrawal))
    ensures r.stats.totalReferralBonuses == Total(s.ledger, CompletedSum(ReferralBonus))
    ensures |r.recentTransactions| == Min(10, |s.ledger|)
    ensures forall i :: 0 <= i < |r.recentTransactions| ==> r.recentTransactions[i] == s.ledger[|s.ledger| - 1 - i]
  {
    var total := |s.users|;
    var active := CountWhere(s.users, IsActive);
    var pending := CountWhere(s.users, IsPending);
    var basic := CountWhere(s.users, IsActiveOf(Basic));
    var premium := CountWhere(s.users, IsActiveOf(Premium));
    CountPartition(s.users, (u: User) => true, IsActive, IsPending);
    CountAll(s.users);
    CountPartition(s.users, IsActive, IsActiveOf(Basic), IsActiveOf(Premium));
    var stats := Stats(total, active, pending, basic, premium,
                       Total(s.ledger, CompletedSum(Registration)),
                       Total(s.ledger, CompletedSum(Withdrawal)),
                       Total(s.ledger, CompletedSum(ReferralBonus)));
    DashboardView(stats, Newest(s.ledger, 10))
  }

  /** No route ever completes a withdrawal, so in every valid state the payout total is 0. */
  lemma PayoutsAreZero(s: State)
    requires Valid(s)
    ensures Dashboard(s).stats.totalPayouts == 0
  {
    forall i | 0 <= i < |s.ledger|
      ensures Weight(s.ledger[i], CompletedSum(Withdrawal)) == 0
    {
      assert EntryWellFormed(s.ledger[i], i, |s.users|);
    }
    TotalZero(s.ledger, CompletedSum(Withdrawal));
  }

  /**
   * An activation adds the consumed token's price to the revenue and, when a
   * referrer is paid, that user's bonus to the referral total; payouts stay
   * as they were.
   */
  lemma ActivateMovesDashboard(s: State, id: int, now: Instant)
    requires Activate(s, id, now).result.Ok?
    ensures var before := Dashboard(s).stats;
      var after := Dashboard(Activate(s, id, now).state).stats;
      && (exists k :: 0 <= k < |s.tokens| && HeldToken(s.tokens[k], id, now)
            && after.totalRevenue == before.totalRevenue + s.tokens[k].price)
      && after.totalPayouts == before.totalPayouts
      && after.totalReferralBonuses == before.totalReferralBonuses
           + (if PaidReferrer(s, s.users[id]).Some? then ReferralBonusFor(s.users[id].userType) else 0)
  {
    var k := FindHeldToken(s.tokens, id, now).value;
    ActivateTotals(s, id, now, k);
  }

  lemma ActivateTotals(s: State, id: int, now: Instant, k: nat)
    requires 0 <= id < |s.users| && !s.users[id].isActive && FindHeldToken(s.tokens, id, now) == Some(k)
    ensures var l := s.ledger;
      var l' := ActivateStep(s, id, now).state.ledger;
      && Total(l', CompletedSum(Registration)) == Total(l, CompletedSum(Registration)) + s.tokens[k].price
      && Total(l', CompletedSum(Withdrawal)) == Total(l, CompletedSum(Withdrawal))
      && Total(l', CompletedSum(ReferralBonus)) == Total(l, CompletedSum(ReferralBonus))
           + (if PaidReferrer(s, s.users[id]).Some? then ReferralBonusFor(s.users[id].userType) else 0)
  {
    var u := s.users[id];
    var reg := Transaction(id, Registration, s.tokens[k].price, Completed,
                           NextReference(s, "REG"), NoMetadata, now);
    var l1 := s.ledger + [reg];
    TotalAppend(s.ledger, reg, CompletedSum(Registration));
    TotalAppend(s.ledger, reg, CompletedSum(Withdrawal));
    TotalAppend(s.ledger, reg, CompletedSum(ReferralBonus));
    match PaidReferrer(s, u)
    case None =>
      assert ActivateStep(s, id, now).state.ledger == l1;
    case Some(ref) =>
      var amount := ReferralBonusFor(u.userType);
      var bonus := Transaction(ref, ReferralBonus, amount, Completed,
                               Reference("REF", |l1|), Metadata(None, Some(id), None), now);
      assert ActivateStep(s, id, now).state.ledger == l1 + [bonus];
      TotalAppend(l1, bonus, CompletedSum(Registration));
      TotalAppend(l1, bonus, CompletedSum(Withdrawal));
      TotalAppend(l1, bonus, CompletedSum(ReferralBonus));
  }
}
