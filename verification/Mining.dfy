/** Liquidity mining: stakes per user and pair, one global total, and pro-rata rewards that restart
    with the pair's epoch. A sum or product of amounts that leaves the signed 128-bit range aborts the
    call. */
module Mining {
  import opened Common
  import opened Ledger
  import opened FixedPoint

  const CONTRACT: Address := 0
  const DAY: nat := 24 * 60 * 60

  datatype PairConfig = PairConfig(emissionsPerBlock: int, totalAllocated: int, lastUpdateBlock: nat, active: bool)

  datatype Stake = Stake(lpBalance: int, startTimestamp: nat, rewardDebt: int, bonusTier: nat)

  type StakeKey = (Address, nat)

  datatype State = State(
    admin: Address,
    lpToken: Address,
    rewardToken: Address,
    pairs: map<nat, PairConfig>,
    stakes: map<StakeKey, Stake>,
    totalStaked: int,
    locked: map<Address, int>,
    tokens: map<Address, Balances>)

  datatype Call =
    | CreatePair(admin: Address, pair: nat, emissions: int, budget: int)
    | Provide(user: Address, pair: nat, amount: int)
    | Withdraw(user: Address, pair: nat, amount: int)
    | LockForGovernance(user: Address, pair: nat, days: nat)
    | ClaimRewards(user: Address, pair: nat)

  /** A call with the ledger's block number and time. */
  datatype TimedCall = AtBlock(block: nat, time: nat, call: Call)

  datatype Error =
    | Unauthorized | InvalidAmount | InvalidPair | InsufficientBalance | InsufficientRewardBalance
    | NoRewardsToClaim | InvalidMultiplier | PairAlreadyExists | InvalidLockupPeriod | StillLocked | Aborted

  /** A successful call's new state and the reward it paid. */
  datatype Effect = Effect(state: State, paid: int)

  // ---------------------------------------------------------------- rewards

  function TokenBalances(s: State, token: Address): Balances {
    if token in s.tokens then s.tokens[token] else map[]
  }

  function BonusMultiplier(tier: nat): Result<int, Error> {
    match tier
    case 0 => Success(100)
    case 1 => Success(200)
    case 2 => Success(300)
    case 3 => Success(500)
    case _ => Failure(InvalidMultiplier)
  }

  function Multiplied(share: int, tier: nat): Result<int, Error> {
    match BonusMultiplier(tier)
    case Failure(e) => Failure(e)
    case Success(m) => if Fits(share * m) then Success(TruncDiv(share * m, 100)) else Failure(Aborted)
  }

  /** The user's part of the pair's emissions since the epoch began, less what was already paid. The
      total staked is never negative in a reachable state. */
  function PendingReward(s: State, user: Address, pair: nat, block: nat): Result<int, Error> {
    if (user, pair) !in s.stakes || pair !in s.pairs then Failure(InvalidPair)
    else
      var stake, config := s.stakes[(user, pair)], s.pairs[pair];
      if s.totalStaked <= 0 || stake.lpBalance == 0 then Success(0)
      else if block < config.lastUpdateBlock then Failure(Aborted)
      else if !Fits(stake.lpBalance * config.emissionsPerBlock)
           || !Fits(stake.lpBalance * config.emissionsPerBlock * (block - config.lastUpdateBlock)) then Failure(Aborted)
      else
        var share := TruncDiv(stake.lpBalance * config.emissionsPerBlock * (block - config.lastUpdateBlock), s.totalStaked);
        match Multiplied(share, stake.bonusTier)
        case Failure(e) => Failure(e)
        case Success(reward) => Success(reward - stake.rewardDebt)
  }

  /** The debt after a payment is the reward just computed, so it fits. */
  function PayReward(s: State, user: Address, pair: nat, pending: int): Result<State, Error>
    requires (user, pair) in s.stakes
  {
    var balances := TokenBalances(s, s.rewardToken);
    if BalanceOf(balances, CONTRACT) < pending then Failure(InsufficientRewardBalance)
    else
      match Transfer(balances, CONTRACT, user, pending)
      case None => Failure(Aborted)
      case Some(after) =>
        var stake := s.stakes[(user, pair)];
        Success(s.(tokens := s.tokens[s.rewardToken := after],
                   stakes := s.stakes[(user, pair) := stake.(rewardDebt := stake.rewardDebt + pending)]))
  }

  function RestartEpoch(s: State, pair: nat, block: nat): Result<State, Error> {
    if pair !in s.pairs then Failure(InvalidPair)
    else Success(s.(pairs := s.pairs[pair := s.pairs[pair].(lastUpdateBlock := block)]))
  }

  // ---------------------------------------------------------------- entry points

  function DoCreatePair(s: State, block: nat, c: Call): Result<Effect, Error>
    requires c.CreatePair?
  {
    if c.admin != s.admin then Failure(Unauthorized)
    else if c.emissions <= 0 || c.budget <= 0 then Failure(InvalidAmount)
    else if c.pair in s.pairs then Failure(PairAlreadyExists)
    else Success(Effect(s.(pairs := s.pairs[c.pair := PairConfig(c.emissions, c.budget, block, true)]), 0))
  }

  function StakeOf(s: State, user: Address, pair: nat, time: nat): Stake {
    if (user, pair) in s.stakes then s.stakes[(user, pair)] else Stake(0, time, 0, 0)
  }

  function DoProvide(s: State, block: nat, time: nat, c: Call): Result<Effect, Error>
    requires c.Provide?
  {
    if c.amount <= 0 then Failure(InvalidAmount)
    else if c.pair !in s.pairs || !s.pairs[c.pair].active then Failure(InvalidPair)
    else
      match RestartEpoch(s, c.pair, block)
      case Failure(e) => Failure(e)
      case Success(restarted) =>
        match Transfer(TokenBalances(s, s.lpToken), c.user, CONTRACT, c.amount)
        case None => Failure(Aborted)
        case Some(after) =>
          var stake := StakeOf(s, c.user, c.pair, time);
          if !Fits(stake.lpBalance + c.amount) || !Fits(s.totalStaked + c.amount) then Failure(Aborted)
          else Success(Effect(
            restarted.(
              tokens := s.tokens[s.lpToken := after],
              stakes := s.stakes[(c.user, c.pair) := stake.(lpBalance := stake.lpBalance + c.amount)],
              totalStaked := s.totalStaked + c.amount),
            0))
  }

  function LockSeconds(tier: nat): nat {
    match tier
    case 1 => 30 * DAY
    case 2 => 90 * DAY
    case 3 => 180 * DAY
    case _ => 0
  }

  /** The epoch restarts before the pending reward is computed; the stake written back at the end
      is the one read at the start, less the amount. */
  function DoWithdraw(s: State, block: nat, time: nat, c: Call): Result<Effect, Error>
    requires c.Withdraw?
  {
    if c.amount <= 0 then Failure(InvalidAmount)
    else if (c.user, c.pair) !in s.stakes then Failure(InvalidPair)
    else
      var stake := s.stakes[(c.user, c.pair)];
      if stake.lpBalance < c.amount then Failure(InsufficientBalance)
      else if stake.bonusTier > 0 && time < stake.startTimestamp then Failure(Aborted)
      else if stake.bonusTier > 0 && time - stake.startTimestamp < LockSeconds(stake.bonusTier) then Failure(StillLocked)
      else
        match RestartEpoch(s, c.pair, block)
        case Failure(e) => Failure(e)
        case Success(restarted) =>
          match PendingReward(restarted, c.user, c.pair, block)
          case Failure(e) => Failure(e)
          case Success(pending) =>
            match (if pending > 0 then PayReward(restarted, c.user, c.pair, pending) else Success(restarted))
            case Failure(e) => Failure(e)
            case Success(paid) =>
              match Transfer(TokenBalances(paid, paid.lpToken), CONTRACT, c.user, c.amount)
              case None => Failure(Aborted)
              case Some(after) =>
                Success(Effect(
                  paid.(
                    tokens := paid.tokens[paid.lpToken := after],
                    stakes := paid.stakes[(c.user, c.pair) := stake.(lpBalance := stake.lpBalance - c.amount)],
                    totalStaked := paid.totalStaked - c.amount),
                  Max(pending, 0)))
  }

  function DoClaim(s: State, block: nat, user: Address, pair: nat): Result<Effect, Error>
  {
    match PendingReward(s, user, pair, block)
    case Failure(e) => Failure(e)
    case Success(pending) =>
      if pending <= 0 then Failure(NoRewardsToClaim)
      else
        match PayReward(s, user, pair, pending)
        case Failure(e) => Failure(e)
        case Success(paid) => Success(Effect(paid, pending))
  }

  function LockedOf(s: State, user: Address): int {
    if user in s.locked then s.locked[user] else 0
  }

  /** Half of the reward counts as governance power; the reward itself is still paid in full. */
  function DoLock(s: State, block: nat, c: Call): Result<Effect, Error>
    requires c.LockForGovernance?
  {
    if c.days == 0 || c.days > 365 then Failure(InvalidLockupPeriod)
    else
      match PendingReward(s, c.user, c.pair, block)
      case Failure(e) => Failure(e)
      case Success(pending) =>
        if pending <= 0 then Failure(NoRewardsToClaim)
        else if !Fits(LockedOf(s, c.user) + TruncDiv(pending, 2)) then Failure(Aborted)
        else
          var power := s.(locked := s.locked[c.user := LockedOf(s, c.user) + TruncDiv(pending, 2)]);
          match PayReward(power, c.user, c.pair, pending)
          case Failure(e) => Failure(e)
          case Success(paid) => Success(Effect(paid, pending))
  }

  function Execute(s: State, e: TimedCall): Result<Effect, Error> {
    match e.call
    case CreatePair(_, _, _, _) => DoCreatePair(s, e.block, e.call)
    case Provide(_, _, _) => DoProvide(s, e.block, e.time, e.call)
    case Withdraw(_, _, _) => DoWithdraw(s, e.block, e.time, e.call)
    case LockForGovernance(_, _, _) => DoLock(s, e.block, e.call)
    case ClaimRewards(user, pair) => DoClaim(s, e.block, user, pair)
  }

  function Step(s: State, e: TimedCall): State {
    match Execute(s, e)
    case Success(effect) => effect.state
    case Failure(_) => s
  }

  /** The reward a call pays for a pair. */
  function PaidBy(s: State, e: TimedCall, pair: nat): int {
    if e.call.pair == pair && Execute(s, e).Success? then Execute(s, e).value.paid else 0
  }

  function Initialized(admin: Address, lpToken: Address, rewardToken: Address, tokens: map<Address, Balances>): State {
    State(admin, lpToken, rewardToken, map[], map[], 0, map[], tokens)
  }

  // ---------------------------------------------------------------- runs

  function Run(s: State, calls: seq<TimedCall>): State
    decreases |calls|
  {
    if calls == [] then s else Step(Run(s, calls[..|calls| - 1]), calls[|calls| - 1])
  }

  /** Everything ever paid for a pair. */
  function Paid(s: State, calls: seq<TimedCall>, pair: nat): int
    decreases |calls|
  {
    if calls == [] then 0
    else Paid(s, calls[..|calls| - 1], pair) + PaidBy(Run(s, calls[..|calls| - 1]), calls[|calls| - 1], pair)
  }

  /** Block numbers never go back. */
  predicate Ordered(calls: seq<TimedCall>, first: nat) {
    && (forall i :: 0 <= i < |calls| ==> first <= calls[i].block)
    && (forall i, j :: 0 <= i < j < |calls| ==> calls[i].block <= calls[j].block)
  }

  function UserOf(c: Call): Address {
    if c.CreatePair? then c.admin else c.user
  }
}
