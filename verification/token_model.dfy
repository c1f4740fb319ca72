/** The single-use registration token and its thirty-day lifetime. */
module TokenModel {
  import opened Common
  import opened Clock
  import opened Text
  import opened UserModel

  datatype Token = Token(
    code: string,
    userType: UserType,
    price: int,
    isUsed: bool,
    usedBy: Option<UserId>,
    usedAt: Option<Instant>,
    createdAt: Instant)

  /** The TTL index on `createdAt`: 2592000 seconds, thirty days. */
  const TokenLifetimeSeconds: int := 2592000

  /** The price an admin-issued token of tier `t` carries. */
  function TokenPrice(t: UserType): int
  {
    if t == Premium then 5000 else 3000
  }

  /**
   * A token document as the schema builds it: the code passes the
   * `uppercase` setter, and the token starts unused, stamped now.
   */
  function NewToken(code: string, userType: UserType, price: int, now: Instant): (t: Token)
    ensures IsUpperCase(t.code) && |t.code| == |code|
    ensures IsUpperCase(code) ==> t.code == code
    ensures !t.isUsed && t.usedBy.None? && t.usedAt.None?
    ensures t.userType == userType && t.price == price && t.createdAt == now
  {
    Token(ToUpper(code), userType, price, false, None, None, now)
  }

  /**
   * A token the TTL monitor has not yet removed: one created less than
   * thirty days before `now`. Every query on tokens only sees these.
   */
  predicate Findable(t: Token, now: Instant)
  {
    now.seconds < t.createdAt.seconds + TokenLifetimeSeconds
  }
}
