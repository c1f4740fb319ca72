/** The ledger entry. */
module TransactionModel {
  import opened Common
  import opened Clock
  import opened UserModel

  datatype TxType = AdView | ReferralBonus | Withdrawal | Registration

  datatype TxStatus = Pending | Completed | Failed

  /**
   * The schema's metadata: the ad watched, the referred user a bonus was
   * paid for, and the bank details a withdrawal was sent to. Fields outside
   * the schema (the activation route's `token`) are dropped by strict mode.
   */
  datatype Metadata = Metadata(adId: Option<string>, referredUser: Option<UserId>, bankDetails: Option<BankAccount>)

  const NoMetadata: Metadata := Metadata(None, None, None)

  /**
   * The unique reference: a kind prefix (`REG`, `REF`, `AD`, `WD`) and a
   * serial number standing for the `Date.now()` stamp, drawn from a counter
   * that never repeats.
   */
  datatype Reference = Reference(prefix: string, serial: nat)

  datatype Transaction = Transaction(
    user: UserId,
    txType: TxType,
    amount: int,
    status: TxStatus,
    reference: Reference,
    metadata: Metadata,
    createdAt: Instant)

  /** The schema's default status. */
  const DefaultStatus: TxStatus := Pending

  /** What an entry does to its owner's balance: credits add, withdrawals debit, the fee is paid outside the wallet. */
  function BalanceEffect(t: Transaction): int
  {
    match t.txType
    case AdView => t.amount
    case ReferralBonus => t.amount
    case Withdrawal => -t.amount
    case Registration => 0
  }
}
