/**
 * Sums and counts over the append-only ledger: the quantities the wallet
 * invariants and the admin dashboard are stated in.
 */
module Ledger {
  import opened Common
  import opened UserModel
  import opened TransactionModel

  /** One quantity read off the ledger. */
  datatype Measure =
    | Net(id: UserId)               // the signed effect of id's entries on id's balance
    | Earned(id: UserId)            // id's ad earnings
    | Registrations(id: UserId)     // id's registration-fee entries
    | BonusesFor(referred: UserId)  // referral bonuses paid for having referred `referred`
    | AdViewsOn(id: UserId, day: int) // id's ad views on one calendar day
    | CompletedSum(kind: TxType)    // the amounts of completed entries of one type

  /** What a single entry contributes to a measure. */
  function Weight(t: Transaction, m: Measure): int
  {
    match m
    case Net(id) => if t.user == id then BalanceEffect(t) else 0
    case Earned(id) => if t.user == id && t.txType == AdView then t.amount else 0
    case Registrations(id) => if t.user == id && t.txType == Registration then 1 else 0
    case BonusesFor(referred) =>
      if t.txType == ReferralBonus && t.metadata.referredUser == Some(referred) then 1 else 0
    case AdViewsOn(id, day) =>
      if t.user == id && t.txType == AdView && t.createdAt.day == day then 1 else 0
    case CompletedSum(kind) => if t.txType == kind && t.status == Completed then t.amount else 0
  }

  function Total(l: seq<Transaction>, m: Measure): int
  {
    if |l| == 0 then 0 else Total(l[..|l| - 1], m) + Weight(l[|l| - 1], m)
  }

  /** Appending an entry adds exactly its weight. */
  lemma TotalAppend(l: seq<Transaction>, e: Transaction, m: Measure)
    ensures Total(l + [e], m) == Total(l, m) + Weight(e, m)
  {
    assert (l + [e])[..|l|] == l;
  }

  /** Sums of positive amounts and counts are never negative. */
  lemma {:induction false} TotalNonNegative(l: seq<Transaction>, m: Measure)
    requires !m.Net?
    requires forall i :: 0 <= i < |l| ==> l[i].amount > 0
    ensures Total(l, m) >= 0
  {
    if |l| > 0 {
      TotalNonNegative(l[..|l| - 1], m);
    }
  }

  /** An entry that matches nothing a measure counts leaves it at 0. */
  lemma {:induction false} TotalZero(l: seq<Transaction>, m: Measure)
    requires forall i :: 0 <= i < |l| ==> Weight(l[i], m) == 0
    ensures Total(l, m) == 0
  {
    if |l| > 0 {
      TotalZero(l[..|l| - 1], m);
    }
  }

  /** No ad view of `id` is recorded on a day later than every one of its ad views. */
  lemma NoAdViewsAfter(l: seq<Transaction>, id: UserId, last: int, day: int)
    requires forall i :: 0 <= i < |l| && l[i].user == id && l[i].txType == AdView ==> l[i].createdAt.day <= last
    requires last < day
    ensures Total(l, AdViewsOn(id, day)) == 0
  {
    TotalZero(l, AdViewsOn(id, day));
  }
}
