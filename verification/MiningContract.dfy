/** The liquidity-mining contract's entry points as they run. A call that fails leaves the stored
    fields as they were. */
module MiningContract {
  import opened Common
  import opened Ledger
  import opened FixedPoint
  import opened Mining

  /** What a call must do: reach the specified state and return what it paid, or change nothing. */
  ghost predicate Follows(o: Result<Effect, Error>, before: State, after: State, r: Result<int, Error>) {
    match o
    case Success(effect) => after == effect.state && r == Success(effect.paid)
    case Failure(e) => after == before && r == Failure(e)
  }

  class Contract {
    const admin: Address
    const lpToken: Address
    const rewardToken: Address
    var pairs: map<nat, PairConfig>
    var stakes: map<StakeKey, Stake>
    var totalStaked: int
    var locked: map<Address, int>
    var tokens: map<Address, Balances>

    ghost function Stored(): State
      reads this
    {
      State(admin, lpToken, rewardToken, pairs, stakes, totalStaked, locked, tokens)
    }

    constructor (admin: Address, lpToken: Address, rewardToken: Address, tokens: map<Address, Balances>)
      ensures Stored() == Initialized(admin, lpToken, rewardToken, tokens)
    {
      this.admin, this.lpToken, this.rewardToken, this.tokens := admin, lpToken, rewardToken, tokens;
      pairs, stakes, totalStaked, locked := map[], map[], 0, map[];
    }

    function TokenOf(token: Address): Balances
      reads this
    {
      if token in tokens then tokens[token] else map[]
    }

    method CreatePair(caller: Address, pair: nat, emissions: int, budget: int, block: nat) returns (r: Result<int, Error>)
      modifies this`pairs
      ensures Follows(DoCreatePair(old(Stored()), block, Call.CreatePair(caller, pair, emissions, budget)),
        old(Stored()), Stored(), r)
    {
      if caller != admin {
        return Failure(Unauthorized);
      }
      if emissions <= 0 || budget <= 0 {
        return Failure(InvalidAmount);
      }
      var config := PairConfig(emissions, budget, block, true);
      if pair in pairs {
        return Failure(PairAlreadyExists);
      }
      pairs := pairs[pair := config];
      r := Success(0);
    }

    method ProvideLiquidity(user: Address, pair: nat, amount: int, block: nat, time: nat) returns (r: Result<int, Error>)
      modifies this
      ensures Follows(DoProvide(old(Stored()), block, time, Call.Provide(user, pair, amount)),
        old(Stored()), Stored(), r)
    {
      hide Transfer;
      if amount <= 0 {
        return Failure(InvalidAmount);
      }
      if pair !in pairs || !pairs[pair].active {
        return Failure(InvalidPair);
      }
      var stake := if (user, pair) in stakes then stakes[(user, pair)] else Stake(0, time, 0, 0);
      var after := Transfer(TokenOf(lpToken), user, CONTRACT, amount);
      if after.None? || !Fits(stake.lpBalance + amount) || !Fits(totalStaked + amount) {
        return Failure(Aborted);
      }
      UpdatePairRewards(pair, block);
      tokens := tokens[lpToken := after.value];
      stake := stake.(lpBalance := stake.lpBalance + amount);
      stakes := stakes[(user, pair) := stake];
      totalStaked := totalStaked + amount;
      r := Success(0);
    }

    method UpdatePairRewards(pair: nat, block: nat)
      requires pair in pairs
      modifies this`pairs
      ensures pairs == old(pairs)[pair := old(pairs)[pair].(lastUpdateBlock := block)]
    {
      var config := pairs[pair];
      config := config.(lastUpdateBlock := block);
      pairs := pairs[pair := config];
    }

    method WithdrawLiquidity(user: Address, pair: nat, amount: int, block: nat, time: nat) returns (r: Result<int, Error>)
      modifies this
      ensures Follows(DoWithdraw(old(Stored()), block, time, Call.Withdraw(user, pair, amount)),
        old(Stored()), Stored(), r)
    {
      hide Transfer, PendingReward;
      if amount <= 0 {
        return Failure(InvalidAmount);
      }
      if (user, pair) !in stakes {
        return Failure(InvalidPair);
      }
      var stake := stakes[(user, pair)];
      if stake.lpBalance < amount {
        return Failure(InsufficientBalance);
      }
      if stake.bonusTier > 0 {
        var required := LockSeconds(stake.bonusTier);
        if time < stake.startTimestamp {
          return Failure(Aborted);
        }
        if time - stake.startTimestamp < required {
          return Failure(StillLocked);
        }
      }
      if pair !in pairs {
        return Failure(InvalidPair);
      }
      // The storage as it stood, to be restored if a later step fails.
      var pairs0, stakes0, tokens0 := pairs, stakes, tokens;
      UpdatePairRewards(pair, block);
      var pending := CalculatePendingReward(user, pair, block);
      if pending.Failure? {
        pairs := pairs0;
        return Failure(pending.error);
      }
      var paid := 0;
      if pending.value > 0 {
        var claimed := ClaimRewardsInternal(user, pair, pending.value);
        if claimed.Failure? {
          pairs, stakes, tokens := pairs0, stakes0, tokens0;
          return claimed;
        }
        paid := pending.value;
      }
      var after := Transfer(TokenOf(lpToken), CONTRACT, user, amount);
      if after.None? {
        pairs, stakes, tokens := pairs0, stakes0, tokens0;
        return Failure(Aborted);
      }
      stake := stake.(lpBalance := stake.lpBalance - amount);
      stakes := stakes[(user, pair) := stake];
      totalStaked := totalStaked - amount;
      tokens := tokens[lpToken := after.value];
      r := Success(paid);
    }

    method CalculatePendingReward(user: Address, pair: nat, block: nat) returns (r: Result<int, Error>)
      ensures r == PendingReward(Stored(), user, pair, block)
    {
      hide TruncDiv;
      if (user, pair) !in stakes || pair !in pairs {
        return Failure(InvalidPair);
      }
      var stake, config := stakes[(user, pair)], pairs[pair];
      if totalStaked <= 0 || stake.lpBalance == 0 {
        return Success(0);
      }
      if block < config.lastUpdateBlock {
        return Failure(Aborted);
      }
      var blocks := block - config.lastUpdateBlock;
      var perBlock := stake.lpBalance * config.emissionsPerBlock;
      if !Fits(perBlock) || !Fits(perBlock * blocks) {
        return Failure(Aborted);
      }
      var share := TruncDiv(perBlock * blocks, totalStaked);
      var multiplier := BonusMultiplier(stake.bonusTier);
      if multiplier.Failure? {
        return Failure(multiplier.error);
      }
      if !Fits(share * multiplier.value) {
        return Failure(Aborted);
      }
      var reward := TruncDiv(share * multiplier.value, 100);
      r := Success(reward - stake.rewardDebt);
    }

    /** Pays a positive reward out of the contract's balance and records it in the stake. */
    method ClaimRewardsInternal(user: Address, pair: nat, pending: int) returns (r: Result<int, Error>)
      requires (user, pair) in stakes && pending > 0
      modifies this`tokens, this`stakes
      ensures match PayReward(old(Stored()), user, pair, pending)
        case Success(after) => Stored() == after && r == Success(pending)
        case Failure(e) => Stored() == old(Stored()) && r == Failure(e)
    {
      hide Transfer;
      var balances := TokenOf(rewardToken);
      if BalanceOf(balances, CONTRACT) < pending {
        return Failure(InsufficientRewardBalance);
      }
      var after := Transfer(balances, CONTRACT, user, pending);
      if after.None? {
        return Failure(Aborted);
      }
      tokens := tokens[rewardToken := after.value];
      var stake := stakes[(user, pair)];
      stake := stake.(rewardDebt := stake.rewardDebt + pending);
      stakes := stakes[(user, pair) := stake];
      r := Success(pending);
    }

    method ClaimRewards(user: Address, pair: nat, block: nat) returns (r: Result<int, Error>)
      modifies this
      ensures Follows(DoClaim(old(Stored()), block, user, pair), old(Stored()), Stored(), r)
    {
      hide Transfer, TruncDiv, Multiplied;
      var pending := CalculatePendingReward(user, pair, block);
      if pending.Failure? {
        return Failure(pending.error);
      }
      if pending.value <= 0 {
        return Failure(NoRewardsToClaim);
      }
      r := ClaimRewardsInternal(user, pair, pending.value);
    }

    method LockRewardsForGovernance(user: Address, pair: nat, days: nat, block: nat) returns (r: Result<int, Error>)
      modifies this
      ensures Follows(DoLock(old(Stored()), block, Call.LockForGovernance(user, pair, days)),
        old(Stored()), Stored(), r)
    {
      hide Transfer, Multiplied;
      if days == 0 || days > 365 {
        return Failure(InvalidLockupPeriod);
      }
      var pending := CalculatePendingReward(user, pair, block);
      if pending.Failure? {
        return Failure(pending.error);
      }
      if pending.value <= 0 {
        return Failure(NoRewardsToClaim);
      }
      var governanceAmount := TruncDiv(pending.value, 2);
      var locked0 := locked;
      if !Fits((if user in locked then locked[user] else 0) + governanceAmount) {
        return Failure(Aborted);
      }
      locked := locked[user := (if user in locked then locked[user] else 0) + governanceAmount];
      r := ClaimRewardsInternal(user, pair, pending.value);
      if r.Failure? {
        locked := locked0;
      }
    }
  }
}
