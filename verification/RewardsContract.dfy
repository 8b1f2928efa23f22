/** The rewards contract over its storage and its circuit breaker. */
module RewardsContract {
  import opened Common
  import opened Ledger
  import opened Rewards
  import B = Breaker

  class Contract {
    const admin: Address
    const breaker: B.CircuitBreaker
    var metadata: map<nat, Metadata>
    var minted: map<nat, nat>
    var badges: map<Address, Badge>
    var history: map<(Address, nat), Record>
    var usedHashes: set<string>

    ghost function Stored(): State
      reads this, breaker
    {
      State(admin, breaker.Stored(), metadata, minted, badges, history, usedHashes)
    }

    constructor (admin: Address, config: B.Config, now: nat)
      ensures fresh(breaker)
      ensures Stored()
        == State(admin, B.State(config, B.Activity(now, 0, 0, 0, B.Running), {}), map[], map[], map[], map[], {})
    {
      this.admin := admin;
      breaker := new B.CircuitBreaker(config, now);
      metadata, minted, badges, history, usedHashes := map[], map[], map[], map[], {};
    }

    /** The storage after a call is the specification's on success and untouched on failure. */
    ghost predicate Did(spec: Result<Effect, Error>, before: State, answer: Result<nat, Error>)
      reads this, breaker
    {
      match spec
      case Success(e) => Stored() == e.state && answer == Success(e.discount)
      case Failure(error) => Stored() == before && answer == Failure(error)
    }

    method CreateBadgeType(caller: Address, badgeType: nat, name: string, discountBps: nat, maxRedemptions: nat, validity: nat)
      returns (r: Result<nat, Error>)
      modifies this`metadata, this`minted
      ensures Did(
        DoCreateBadgeType(old(Stored()), Call.CreateBadgeType(caller, badgeType, name, discountBps, maxRedemptions, validity)),
        old(Stored()), r)
    {
      if caller != admin {
        return Failure(Unauthorized);
      }
      if discountBps > 10000 {
        return Failure(InvalidDiscount);
      }
      metadata := metadata[badgeType := Metadata(name, discountBps, maxRedemptions, validity, true)];
      minted := minted[badgeType := 0];
      r := Success(0);
    }

    method MintBadge(caller: Address, recipient: Address, badgeType: nat, now: nat) returns (r: Result<nat, Error>)
      modifies this`badges, this`minted
      ensures Did(DoMint(old(Stored()), now, Mint(caller, recipient, badgeType)), old(Stored()), r)
    {
      if caller != admin {
        return Failure(Unauthorized);
      }
      var paused := breaker.IsPaused(MINT);
      if paused {
        return Failure(Error.Aborted);
      }
      if badgeType !in metadata {
        return Failure(BadgeTypeNotFound);
      }
      var m := metadata[badgeType];
      if !m.enabled {
        return Failure(BadgeTypeDisabled);
      }
      if recipient in badges {
        var existing := badges[recipient];
        if existing.badgeType == badgeType && existing.active {
          return Failure(UserAlreadyHasBadge);
        }
      }
      var expiry := 0;
      if m.validity > 0 {
        if now + m.validity >= U64 {
          return Failure(Error.Aborted);
        }
        expiry := now + m.validity;
      }
      var count := if badgeType in minted then minted[badgeType] else 0;
      if count + 1 >= U32 {
        return Failure(Error.Aborted);
      }
      badges := badges[recipient := Badge(badgeType, m.discountBps, now, 0, m.maxRedemptions, expiry, true)];
      minted := minted[badgeType := count + 1];
      r := Success(0);
    }

    method RevokeBadge(caller: Address, user: Address) returns (r: Result<nat, Error>)
      modifies this`badges
      ensures Did(DoRevoke(old(Stored()), caller, user), old(Stored()), r)
    {
      if caller != admin {
        return Failure(Unauthorized);
      }
      if user !in badges {
        return Failure(UserHasNoBadge);
      }
      badges := badges[user := badges[user].(active := false)];
      r := Success(0);
    }

    method RedeemBadge(user: Address, hash: string, now: nat) returns (r: Result<nat, Error>)
      modifies this, breaker
      ensures Did(DoRedeem(old(Stored()), now, user, hash), old(Stored()), r)
    {
      var paused := breaker.IsPaused(REDEEM);
      if paused {
        return Failure(Error.Aborted);
      }
      if hash in usedHashes {
        return Failure(TransactionAlreadyRedeemed);
      }
      if user !in badges {
        return Failure(UserHasNoBadge);
      }
      var b := badges[user];
      if !b.active {
        return Failure(BadgeNotActive);
      }
      if b.expiry > 0 && now > b.expiry {
        return Failure(BadgeExpired);
      }
      if b.maxRedemptions > 0 && b.redeemedCount >= b.maxRedemptions {
        return Failure(RedemptionLimitReached);
      }
      if b.redeemedCount + 1 >= U32 {
        return Failure(Error.Aborted);
      }
      var history0, used0, badges0 := history, usedHashes, badges;
      history := history[(user, b.redeemedCount) := Record(b.badgeType, now, b.discountBps, hash)];
      usedHashes := usedHashes + {hash};
      b := b.(redeemedCount := b.redeemedCount + 1);
      badges := badges[user := b];
      var ok := breaker.TrackActivity(1, now);
      if !ok {
        history, usedHashes, badges := history0, used0, badges0;
        return Failure(Error.Aborted);
      }
      r := Success(b.discountBps);
    }

    method GetUserDiscount(user: Address, now: nat) returns (discount: nat)
      ensures discount == UserDiscount(Stored(), now, user)
    {
      if user in badges {
        var b := badges[user];
        if !b.active {
          return 0;
        }
        if b.expiry > 0 && now > b.expiry {
          return 0;
        }
        if b.maxRedemptions > 0 && b.redeemedCount >= b.maxRedemptions {
          return 0;
        }
        return b.discountBps;
      }
      discount := 0;
    }

    method SetCbPauseLevel(caller: Address, level: B.Level) returns (r: Result<nat, Error>)
      modifies breaker
      ensures Did(DoBreaker(old(Stored()), caller, B.WithLevel(old(Stored()).breaker, level)), old(Stored()), r)
    {
      if caller != admin {
        return Failure(Unauthorized);
      }
      breaker.SetPauseLevel(level);
      r := Success(0);
    }

    method PauseCbFunction(caller: Address, name: string) returns (r: Result<nat, Error>)
      modifies breaker
      ensures Did(DoBreaker(old(Stored()), caller, B.WithPaused(old(Stored()).breaker, name)), old(Stored()), r)
    {
      if caller != admin {
        return Failure(Unauthorized);
      }
      breaker.PauseFunction(name);
      r := Success(0);
    }

    method UnpauseCbFunction(caller: Address, name: string) returns (r: Result<nat, Error>)
      modifies breaker
      ensures Did(DoBreaker(old(Stored()), caller, B.WithUnpaused(old(Stored()).breaker, name)), old(Stored()), r)
    {
      if caller != admin {
        return Failure(Unauthorized);
      }
      breaker.UnpauseFunction(name);
      r := Success(0);
    }
  }
}
