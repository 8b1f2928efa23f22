/** Academy badges: minted and revoked by the admin, redeemed once per transaction hash. */
module Rewards {
  import opened Common
  import opened Ledger
  import B = Breaker

  const U32: int := 0x1_0000_0000
  const REDEEM: string := "redeem_b"
  const MINT: string := "mint_b"

  datatype Badge = Badge(
    badgeType: nat, discountBps: nat, earnedAt: nat, redeemedCount: nat, maxRedemptions: nat, expiry: nat, active: bool)

  datatype Metadata = Metadata(name: string, discountBps: nat, maxRedemptions: nat, validity: nat, enabled: bool)

  datatype Record = Record(badgeType: nat, timestamp: nat, discountApplied: nat, hash: string)

  datatype State = State(
    admin: Address,
    breaker: B.State,
    metadata: map<nat, Metadata>,
    minted: map<nat, nat>,
    badges: map<Address, Badge>,
    history: map<(Address, nat), Record>,
    usedHashes: set<string>)

  datatype Error =
    | Unauthorized | InvalidDiscount | BadgeTypeNotFound | BadgeTypeDisabled | UserAlreadyHasBadge | UserHasNoBadge
    | BadgeNotActive | BadgeExpired | RedemptionLimitReached | TransactionAlreadyRedeemed | Aborted

  /** A successful call's new state and the discount it returns, if it is a redemption. */
  datatype Effect = Effect(state: State, discount: nat)

  datatype Call =
    | CreateBadgeType(admin: Address, badgeType: nat, name: string, discountBps: nat, maxRedemptions: nat, validity: nat)
    | Mint(admin: Address, recipient: Address, badgeType: nat)
    | Revoke(admin: Address, user: Address)
    | SetPauseLevel(admin: Address, level: B.Level)
    | PauseFunction(admin: Address, name: string)
    | UnpauseFunction(admin: Address, name: string)
    | Redeem(user: Address, hash: string)

  type TimedCall = Timed<Call>

  function DoCreateBadgeType(s: State, c: Call): Result<Effect, Error>
    requires c.CreateBadgeType?
  {
    if c.admin != s.admin then Failure(Unauthorized)
    else if c.discountBps > 10000 then Failure(InvalidDiscount)
    else
      var metadata := Metadata(c.name, c.discountBps, c.maxRedemptions, c.validity, true);
      Success(Effect(s.(metadata := s.metadata[c.badgeType := metadata], minted := s.minted[c.badgeType := 0]), 0))
  }

  /** Badges of a type minted since the type was last created. */
  function Minted(s: State, badgeType: nat): nat {
    if badgeType in s.minted then s.minted[badgeType] else 0
  }

  /** A badge of another type, or one no longer active, is replaced. */
  function DoMint(s: State, now: nat, c: Call): Result<Effect, Error>
    requires c.Mint?
  {
    if c.admin != s.admin then Failure(Unauthorized)
    else if B.Paused(s.breaker, MINT) then Failure(Aborted)
    else if c.badgeType !in s.metadata then Failure(BadgeTypeNotFound)
    else
      var m := s.metadata[c.badgeType];
      if !m.enabled then Failure(BadgeTypeDisabled)
      else if c.recipient in s.badges
              && s.badges[c.recipient].badgeType == c.badgeType && s.badges[c.recipient].active then
        Failure(UserAlreadyHasBadge)
      else if m.validity > 0 && now + m.validity >= U64 then Failure(Aborted)
      else if Minted(s, c.badgeType) + 1 >= U32 then Failure(Aborted)
      else
        var badge := Badge(c.badgeType, m.discountBps, now, 0, m.maxRedemptions,
                           if m.validity > 0 then now + m.validity else 0, true);
        Success(Effect(s.(badges := s.badges[c.recipient := badge],
                          minted := s.minted[c.badgeType := Minted(s, c.badgeType) + 1]), 0))
  }

  function DoRevoke(s: State, admin: Address, user: Address): Result<Effect, Error> {
    if admin != s.admin then Failure(Unauthorized)
    else if user !in s.badges then Failure(UserHasNoBadge)
    else Success(Effect(s.(badges := s.badges[user := s.badges[user].(active := false)]), 0))
  }

  function DoBreaker(s: State, admin: Address, after: B.State): Result<Effect, Error> {
    if admin != s.admin then Failure(Unauthorized) else Success(Effect(s.(breaker := after), 0))
  }

  predicate Expired(b: Badge, now: nat) {
    b.expiry > 0 && now > b.expiry
  }

  predicate UsedUp(b: Badge) {
    b.maxRedemptions > 0 && b.redeemedCount >= b.maxRedemptions
  }

  /** The redemption is recorded under the count before it is raised; the breaker counts it as one
      unit of volume. */
  function DoRedeem(s: State, now: nat, user: Address, hash: string): Result<Effect, Error> {
    if B.Paused(s.breaker, REDEEM) then Failure(Aborted)
    else if hash in s.usedHashes then Failure(TransactionAlreadyRedeemed)
    else if user !in s.badges then Failure(UserHasNoBadge)
    else
      var b := s.badges[user];
      if !b.active then Failure(BadgeNotActive)
      else if Expired(b, now) then Failure(BadgeExpired)
      else if UsedUp(b) then Failure(RedemptionLimitReached)
      else if b.redeemedCount + 1 >= U32 then Failure(Aborted)
      else
        match B.Track(s.breaker.config, s.breaker.activity, now, 1)
        case Aborted => Failure(Aborted)
        case Tracked(activity) =>
          var record := Record(b.badgeType, now, b.discountBps, hash);
          Success(Effect(s.(history := s.history[(user, b.redeemedCount) := record],
                            usedHashes := s.usedHashes + {hash},
                            badges := s.badges[user := b.(redeemedCount := b.redeemedCount + 1)],
                            breaker := s.breaker.(activity := activity)), b.discountBps))
  }

  /** The discount a user is shown. */
  function UserDiscount(s: State, now: nat, user: Address): nat {
    if user !in s.badges then 0
    else
      var b := s.badges[user];
      if !b.active || Expired(b, now) || UsedUp(b) then 0 else b.discountBps
  }

  function Execute(s: State, e: TimedCall): Result<Effect, Error> {
    match e.call
    case CreateBadgeType(_, _, _, _, _, _) => DoCreateBadgeType(s, e.call)
    case Mint(_, _, _) => DoMint(s, e.now, e.call)
    case Revoke(admin, user) => DoRevoke(s, admin, user)
    case SetPauseLevel(admin, level) => DoBreaker(s, admin, B.WithLevel(s.breaker, level))
    case PauseFunction(admin, name) => DoBreaker(s, admin, B.WithPaused(s.breaker, name))
    case UnpauseFunction(admin, name) => DoBreaker(s, admin, B.WithUnpaused(s.breaker, name))
    case Redeem(user, hash) => DoRedeem(s, e.now, user, hash)
  }

  function Step(s: State, e: TimedCall): State {
    if Execute(s, e).Success? then Execute(s, e).value.state else s
  }

  function Run(s: State, calls: seq<TimedCall>): State
    decreases |calls|
  {
    if calls == [] then s else Step(Run(s, calls[..|calls| - 1]), calls[|calls| - 1])
  }
}
