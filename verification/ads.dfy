/** Watching ads: GET /ads/load offers an ad, POST /ads/complete pays for it. */
module Ads {
  import opened Common
  import opened Clock
  import opened UserModel
  import opened TransactionModel
  import opened Ledger
  import opened Store

  /** The identifiers of the sample ads, in catalogue order. */
  const Catalog: seq<string> := ["ad_001", "ad_002", "ad_003", "ad_004", "ad_005"]

  /** `Math.floor(Math.random() * sampleAds.length)` for one value `r` of `Math.random()`. */
  function PickAd(r: real): (i: nat)
    requires 0.0 <= r < 1.0
    ensures i < |Catalog|
    ensures i as real <= r * |Catalog| as real < i as real + 1.0
  {
    (r * |Catalog| as real).Floor
  }

  /** The offered ad and what completing it would earn. */
  datatype AdOffer = AdOffer(adId: string, earnings: int)

  /** The daily cap refuses a basic user whose counter, after the reset, has reached it. */
  predicate CapReached(u: User)
  {
    u.userType == Basic && u.adsWatchedToday >= DailyAdCap
  }

  /**
   * GET /ads/load. The daily reset is saved before the cap is checked, so it
   * persists even when the ad is refused. `r` is the value `Math.random()`
   * returned. Nothing about the wallet changes.
   */
  function LoadAd(s: State, id: UserId, now: Instant, r: real): (rep: Reply<AdOffer>)
    requires 0.0 <= r < 1.0
    ensures id >= |s.users| ==> rep == Reply(s, Err(UnknownUser))
    ensures id < |s.users| ==>
      var u := s.users[id];
      && rep.state.tokens == s.tokens && rep.state.ledger == s.ledger
      && |rep.state.users| == |s.users|
      && (forall j :: 0 <= j < |s.users| && j != id ==> rep.state.users[j] == s.users[j])
      && rep.state.users[id] == ResetDailyAds(u, now)
      && (rep.result.Err? <==> u.userType == Basic && !IsNewAdDay(u, now) && u.adsWatchedToday >= DailyAdCap)
      && (rep.result.Err? ==> rep.result.error == DailyLimitReached)
      && (rep.result.Ok? ==>
            rep.result.value.adId in Catalog
            && rep.result.value.earnings == (if u.userType == Premium then 20 else 15))
  {
    if id >= |s.users| then Reply(s, Err(UnknownUser))
    else
      var u := ResetDailyAds(s.users[id], now);
      var s' := s.(users := s.users[id := u]);
      if CapReached(u) then Reply(s', Err(DailyLimitReached))
      else Reply(s', Ok(AdOffer(Catalog[PickAd(r)], EarningsPerAd(u.userType))))
  }

  /** The user record after a paid ad: the reset, then the credit, the count and the date. */
  function Credited(u: User, now: Instant): User
  {
    var v := ResetDailyAds(u, now);
    var e := EarningsPerAd(v.userType);
    v.(balance := v.balance + e, totalEarned := v.totalEarned + e,
       adsWatchedToday := v.adsWatchedToday + 1, lastAdDate := Some(now))
  }

  /** The ledger entry of a paid ad. */
  function AdEntry(s: State, id: UserId, adId: Option<string>, now: Instant): Transaction
    requires id < |s.users|
  {
    var e := EarningsPerAd(s.users[id].userType);
    Transaction(id, AdView, e, Completed, NextReference(s, "AD"), Metadata(adId, None, None), now)
  }

  /**
   * POST /ads/complete. The route reloads the user and applies the reset and
   * the cap itself, whatever any earlier load did; a refusal saves nothing.
   * On success the balance and the total earned rise by the tier's
   * earnings, the counter by one, the last-ad date becomes now, and one
   * completed ad-view entry for the earnings and the ad id is appended.
   */
  function CompleteAd(s: State, id: UserId, adId: Option<string>, now: Instant): (rep: Reply<int>)
    ensures rep.result.Err? ==> rep.state == s
    ensures rep.result.Err? ==> rep.result.error in {UnknownUser, DailyLimitReached}
    ensures rep.result == Err(UnknownUser) <==> id >= |s.users|
    ensures rep.result == Err(DailyLimitReached) <==>
      id < |s.users| && s.users[id].userType == Basic && !IsNewAdDay(s.users[id], now)
      && s.users[id].adsWatchedToday >= DailyAdCap
    ensures rep.result.Ok? ==>
      && id < |s.users| && |rep.state.users| == |s.users|
      && var u := s.users[id];
      var u' := rep.state.users[id];
      var e := rep.result.value;
      && e == (if u.userType == Premium then 20 else 15)
      && u'.balance == u.balance + e
      && u'.totalEarned == u.totalEarned + e
      && u'.adsWatchedToday == (if IsNewAdDay(u, now) then 0 else u.adsWatchedToday) + 1
      && u'.lastAdDate == Some(now)
      && u'.(balance := u.balance, totalEarned := u.totalEarned,
             adsWatchedToday := u.adsWatchedToday, lastAdDate := u.lastAdDate) == u
      && (forall j :: 0 <= j < |s.users| && j != id ==> rep.state.users[j] == s.users[j])
      && rep.state.tokens == s.tokens
      && |rep.state.ledger| == |s.ledger| + 1
      && rep.state.ledger[..|s.ledger|] == s.ledger
      && var t := rep.state.ledger[|s.ledger|];
      && t.user == id && t.txType == AdView && t.status == Completed
      && t.amount == e && t.metadata.adId == adId && t.createdAt == now
  {
    if id >= |s.users| then Reply(s, Err(UnknownUser))
    else if CapReached(ResetDailyAds(s.users[id], now)) then Reply(s, Err(DailyLimitReached))
    else
      var entry := AdEntry(s, id, adId, now);
      var s' := State(s.users[id := Credited(s.users[id], now)], s.tokens, s.ledger + [entry]);
      assert s'.ledger[..|s.ledger|] == s.ledger;
      Reply(s', Ok(entry.amount))
  }

  /**
   * Loading an ad first never changes what completing it does at the same
   * instant: the reset the load saved is the one the completion applies.
   */
  lemma LoadDoesNotAffectComplete(s: State, id: UserId, adId: Option<string>, now: Instant, r: real)
    requires 0.0 <= r < 1.0
    ensures var s1 := LoadAd(s, id, now, r).state;
      CompleteAd(s1, id, adId, now).result == CompleteAd(s, id, adId, now).result
  {
    if id < |s.users| {
      ResetIdempotent(s.users[id], now);
    }
  }

  /**
   * A basic user whose ledger already holds 50 ad views today is refused, so
   * the cap is enforced against what was actually paid.
   */
  lemma FiftyViewsThenRefused(s: State, id: UserId, adId: Option<string>, now: Instant)
    requires Valid(s) && NotBefore(s, now)
    requires id < |s.users| && s.users[id].userType == Basic
    requires Total(s.ledger, AdViewsOn(id, now.day)) >= DailyAdCap
    ensures CompleteAd(s, id, adId, now).result == Err(DailyLimitReached)
  {
    var u := s.users[id];
    assert Account(s.ledger, id, u);
    if IsNewAdDay(u, now) {
      NoAdViewsAfter(s.ledger, id, u.lastAdDate.value.day, now.day);
    }
  }

  // ---------------------------------------------------------------------------
  // The invariant.

  /** The reset keeps the ad counter in step with the ledger when the clock has not gone back. */
  lemma ResetKeepsAccount(l: seq<Transaction>, id: UserId, u: User, now: Instant)
    requires Account(l, id, u)
    requires u.lastAdDate.value.day <= now.day
    ensures Account(l, id, ResetDailyAds(u, now))
  {
    if IsNewAdDay(u, now) {
      NoAdViewsAfter(l, id, u.lastAdDate.value.day, now.day);
    }
  }

  lemma LoadPreservesValid(s: State, id: UserId, now: Instant, r: real)
    requires 0.0 <= r < 1.0
    requires Valid(s) && NotBefore(s, now)
    ensures Valid(LoadAd(s, id, now, r).state)
  {
    if id < |s.users| {
      var s' := LoadAd(s, id, now, r).state;
      assert Account(s.ledger, id, s.users[id]);
      ResetKeepsAccount(s.ledger, id, s.users[id], now);
      SameIdentities(s, s');
    }
  }

  /** A paid ad keeps the payer's account in step with the ledger. */
  lemma CreditedAccount(l: seq<Transaction>, id: UserId, u: User, entry: Transaction, now: Instant)
    requires Account(l, id, u)
    requires u.lastAdDate.value.day <= now.day
    requires !CapReached(ResetDailyAds(u, now))
    requires entry.user == id && entry.txType == AdView && entry.createdAt == now
    requires entry.amount == EarningsPerAd(u.userType) && entry.metadata.referredUser.None?
    ensures Account(l + [entry], id, Credited(u, now))
  {
    var v := ResetDailyAds(u, now);
    ResetKeepsAccount(l, id, u, now);
    AppendMeasures(l, entry, id);
    assert v.adsWatchedToday == Total(l, AdViewsOn(id, now.day));
  }

  lemma CompletePreservesValid(s: State, id: UserId, adId: Option<string>, now: Instant)
    requires Valid(s) && NotBefore(s, now)
    ensures Valid(CompleteAd(s, id, adId, now).state)
  {
    if id < |s.users| && !CapReached(ResetDailyAds(s.users[id], now)) {
      var entry := AdEntry(s, id, adId, now);
      var s' := State(s.users[id := Credited(s.users[id], now)], s.tokens, s.ledger + [entry]);
      assert CompleteAd(s, id, adId, now).state == s';
      SameIdentities(s, s');
      LedgerAppend(s, entry);
      assert Account(s.ledger, id, s.users[id]);
      CreditedAccount(s.ledger, id, s.users[id], entry, now);
      AccountsFrame(s.ledger, entry, s.users, id);
    }
  }

  /**
   * In a run of valid states with a clock that does not go back, a basic
   * user is never paid for more than 50 ads on one calendar day.
   */
  lemma CompleteKeepsDailyCap(s: State, id: UserId, adId: Option<string>, now: Instant, day: int)
    requires Valid(s) && NotBefore(s, now)
    requires id < |s.users| && s.users[id].userType == Basic
    ensures Total(CompleteAd(s, id, adId, now).state.ledger, AdViewsOn(id, day)) <= DailyAdCap
  {
    CompletePreservesValid(s, id, adId, now);
    var s' := CompleteAd(s, id, adId, now).state;
    BasicDailyCap(s', id, day);
  }
}
