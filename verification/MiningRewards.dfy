/** What a claim pays, which calls go through, and when stakes can be taken out again. */
module MiningRewards {
  import opened Common
  import opened Ledger
  import opened FixedPoint
  import opened Mining
  import opened MiningEmission

  // ---------------------------------------------------------------- what a claim pays

  /** The user's share, by stake in all pairs together, of what the pair emitted since its epoch began. */
  function Earned(s: State, user: Address, pair: nat, block: nat): int
    requires (user, pair) in s.stakes && pair in s.pairs && s.totalStaked > 0
  {
    s.stakes[(user, pair)].lpBalance * s.pairs[pair].emissionsPerBlock * (block - s.pairs[pair].lastUpdateBlock)
    / s.totalStaked
  }

  lemma StakeWithinTotal(s: State, user: Address, pair: nat, n: nat, m: nat)
    requires Valid(s, n, m) && (user, pair) in s.stakes
    ensures 0 <= s.stakes[(user, pair)].lpBalance <= s.totalStaked
    ensures pair in s.pairs && s.stakes[(user, pair)].bonusTier == 0 && s.stakes[(user, pair)].rewardDebt >= 0
  {
    hide PairStake, GrandStake;
    assert user < n && pair < m;
    PairStakeNonNegative(s.stakes, pair, n);
    PairWithinGrand(s.stakes, pair, n, m);
    assert Balance(s.stakes, user, pair) == s.stakes[(user, pair)].lpBalance;
  }

  /** The products behind a reward stay in the 128-bit range. */
  predicate RewardFits(s: State, user: Address, pair: nat, block: nat)
    requires (user, pair) in s.stakes && pair in s.pairs && s.totalStaked > 0
  {
    && Fits(s.stakes[(user, pair)].lpBalance * s.pairs[pair].emissionsPerBlock)
    && Fits(s.stakes[(user, pair)].lpBalance * s.pairs[pair].emissionsPerBlock * (block - s.pairs[pair].lastUpdateBlock))
    && Fits(Earned(s, user, pair, block) * 100)
  }

  lemma PendingIsEarnedLessDebt(s: State, user: Address, pair: nat, block: nat, n: nat, m: nat)
    requires Valid(s, n, m) && (user, pair) in s.stakes && pair in s.pairs
    requires s.pairs[pair].lastUpdateBlock <= block
    requires s.stakes[(user, pair)].lpBalance > 0
    ensures s.totalStaked > 0
    ensures PendingReward(s, user, pair, block)
         == if RewardFits(s, user, pair, block) then Success(Earned(s, user, pair, block) - s.stakes[(user, pair)].rewardDebt)
            else Failure(Aborted)
  {
    hide GrandStake;
    StakeWithinTotal(s, user, pair, n, m);
    var stake, config := s.stakes[(user, pair)], s.pairs[pair];
    MulNonNegative(stake.lpBalance, config.emissionsPerBlock);
    MulNonNegative(stake.lpBalance * config.emissionsPerBlock, block - config.lastUpdateBlock);
    DivNonNegative(stake.lpBalance * config.emissionsPerBlock * (block - config.lastUpdateBlock), s.totalStaked);
    DivUnique(Earned(s, user, pair, block) * 100, 100, Earned(s, user, pair, block));
  }

  /** A claim goes through exactly when something was earned beyond what was already paid, the contract
      holds it and nothing overflows, and pays exactly that. */
  lemma ClaimIsPaidIff(s: State, block: nat, user: Address, pair: nat, n: nat, m: nat)
    requires Valid(s, n, m)
    requires pair in s.pairs ==> s.pairs[pair].lastUpdateBlock <= block
    ensures DoClaim(s, block, user, pair).Success? <==>
      && (user, pair) in s.stakes && s.stakes[(user, pair)].lpBalance > 0 && pair in s.pairs && s.totalStaked > 0
      && RewardFits(s, user, pair, block)
      && 0 < Earned(s, user, pair, block) - s.stakes[(user, pair)].rewardDebt
           <= BalanceOf(TokenBalances(s, s.rewardToken), CONTRACT)
    ensures DoClaim(s, block, user, pair).Success? ==>
      DoClaim(s, block, user, pair).value.paid
      == Earned(s, user, pair, block) - s.stakes[(user, pair)].rewardDebt
  {
    hide GrandStake, Earned, TruncDiv, RewardFits;
    if (user, pair) in s.stakes {
      StakeWithinTotal(s, user, pair, n, m);
      if s.stakes[(user, pair)].lpBalance > 0 {
        PendingIsEarnedLessDebt(s, user, pair, block, n, m);
      }
    }
  }

  /** A single staker of the contract earns all of the pair's emission. */
  lemma SoleStakerEarnsAll(s: State, user: Address, pair: nat, block: nat)
    requires (user, pair) in s.stakes && pair in s.pairs && s.totalStaked > 0
    requires s.stakes[(user, pair)].lpBalance == s.totalStaked
    ensures Earned(s, user, pair, block)
         == s.pairs[pair].emissionsPerBlock * (block - s.pairs[pair].lastUpdateBlock)
  {
    var e, b := s.pairs[pair].emissionsPerBlock, block - s.pairs[pair].lastUpdateBlock;
    assert s.totalStaked * e * b == (e * b) * s.totalStaked;
    DivUnique(s.totalStaked * e * b, s.totalStaked, e * b);
  }

  // ---------------------------------------------------------------- what one user is paid

  /** The reward a call pays a user for a pair. */
  function PaidTo(s: State, e: TimedCall, user: Address, pair: nat): int {
    if !e.call.CreatePair? && e.call.user == user then PaidBy(s, e, pair) else 0
  }

  function TotalPaidTo(s: State, calls: seq<TimedCall>, user: Address, pair: nat): int
    decreases |calls|
  {
    if calls == [] then 0
    else
      var front, last := calls[..|calls| - 1], calls[|calls| - 1];
      TotalPaidTo(s, front, user, pair) + PaidTo(Run(s, front), last, user, pair)
  }

  /** Blocks since the pair's epoch began. */
  function Elapsed(s: State, block: nat, pair: nat): nat {
    if pair in s.pairs && s.pairs[pair].lastUpdateBlock <= block then block - s.pairs[pair].lastUpdateBlock else 0
  }

  /** The longest the pair's epoch has been at any call of the run. */
  function LongestEpoch(s: State, calls: seq<TimedCall>, pair: nat): nat
    decreases |calls|
  {
    if calls == [] then 0
    else
      var front, last := calls[..|calls| - 1], calls[|calls| - 1];
      Max(LongestEpoch(s, front, pair), Elapsed(Run(s, front), last.block, pair))
  }

  function Emissions(s: State, pair: nat): int {
    if pair in s.pairs then s.pairs[pair].emissionsPerBlock else 0
  }

  /** A share of the emissions is no more than all of them. */
  lemma EarnedWithinEmission(s: State, user: Address, pair: nat, block: nat, n: nat, m: nat)
    requires Valid(s, n, m) && (user, pair) in s.stakes && pair in s.pairs && s.totalStaked > 0
    requires s.pairs[pair].lastUpdateBlock <= block
    ensures Earned(s, user, pair, block) <= Emissions(s, pair) * Elapsed(s, block, pair)
  {
    hide GrandStake;
    StakeWithinTotal(s, user, pair, n, m);
    var lp, e, b := s.stakes[(user, pair)].lpBalance, s.pairs[pair].emissionsPerBlock, block - s.pairs[pair].lastUpdateBlock;
    MulNonNegative(e, b);
    MulMonotone(lp, s.totalStaked, e * b);
    assert lp * e * b == lp * (e * b);
    DivMonotone(lp * e * b, s.totalStaked * (e * b), s.totalStaked);
    assert s.totalStaked * (e * b) == (e * b) * s.totalStaked;
    DivUnique(s.totalStaked * (e * b), s.totalStaked, e * b);
  }

  /** A claim leaves the user's debt within the emissions of the running epoch. */
  lemma ClaimWithinEpoch(s: State, e: TimedCall, n: nat, m: nat)
    requires Valid(s, n, m) && (e.call.ClaimRewards? || e.call.LockForGovernance?) && Execute(s, e).Success?
    ensures (e.call.user, e.call.pair) in s.stakes
    ensures s.stakes[(e.call.user, e.call.pair)].rewardDebt + Execute(s, e).value.paid
         <= Emissions(s, e.call.pair) * Elapsed(s, e.block, e.call.pair)
  {
    hide GrandStake, Earned, TruncDiv, RewardFits, Transfer, DoClaim, DoLock, Emissions, Elapsed;
    ClaimEffect(s, e);
    var user, pair := e.call.user, e.call.pair;
    StakeWithinTotal(s, user, pair, n, m);
    assert s.pairs[pair].lastUpdateBlock <= e.block && s.stakes[(user, pair)].lpBalance > 0;
    PendingIsEarnedLessDebt(s, user, pair, e.block, n, m);
    EarnedWithinEmission(s, user, pair, e.block, n, m);
  }

  lemma StepDebt(s: State, e: TimedCall, user: Address, pair: nat, n: nat, m: nat)
    requires Valid(s, n, m)
    ensures Debt(Step(s, e).stakes, user, pair) == Debt(s.stakes, user, pair) + PaidTo(s, e, user, pair)
    ensures PaidTo(s, e, user, pair) != 0 ==>
      Debt(Step(s, e).stakes, user, pair) <= Emissions(s, pair) * Elapsed(s, e.block, pair)
    ensures pair in s.pairs ==> pair in Step(s, e).pairs && Emissions(Step(s, e), pair) == Emissions(s, pair)
    ensures PaidTo(s, e, user, pair) != 0 ==> pair in s.pairs
  {
    hide PendingReward, Transfer, GrandStake, PayReward, TruncDiv, Elapsed;
    if Execute(s, e).Success? {
      match e.call {
        case CreatePair(_, _, _, _) =>
        case Provide(_, _, _) => ProvideEffect(s, e);
        case Withdraw(_, _, _) => WithdrawEffect(s, e, n, m);
        case LockForGovernance(_, _, _) =>
          ClaimEffect(s, e);
          ClaimWithinEpoch(s, e, n, m);
        case ClaimRewards(_, _) =>
          ClaimEffect(s, e);
          ClaimWithinEpoch(s, e, n, m);
      }
    }
  }

  lemma {:induction false} DebtWithinLongestEpoch(s: State, calls: seq<TimedCall>, user: Address, pair: nat, n: nat, m: nat)
    requires Valid(s, n, m) && Within(calls, n, m) && Debt(s.stakes, user, pair) == 0
    ensures var t := Run(s, calls);
      && Debt(t.stakes, user, pair) == TotalPaidTo(s, calls, user, pair)
      && (pair !in t.pairs ==> Debt(t.stakes, user, pair) == 0)
      && Debt(t.stakes, user, pair) <= Emissions(t, pair) * LongestEpoch(s, calls, pair)
    decreases |calls|
  {
    hide Valid, Step, PaidTo, Elapsed, Debt;
    var t := Run(s, calls);
    if calls != [] {
      var front, last := calls[..|calls| - 1], calls[|calls| - 1];
      var r := Run(s, front);
      DebtWithinLongestEpoch(s, front, user, pair, n, m);
      RunKeepsValid(s, front, n, m);
      RunKeepsValid(s, calls, n, m);
      StepDebt(r, last, user, pair, n, m);
      EmissionsNotNegative(t, pair, n, m);
      EmissionsNotNegative(r, pair, n, m);
      var longest := LongestEpoch(s, calls, pair);
      assert Emissions(t, pair) * LongestEpoch(s, front, pair) <= Emissions(t, pair) * longest by {
        MulMonotone(LongestEpoch(s, front, pair), longest, Emissions(t, pair));
      }
      assert Emissions(t, pair) * Elapsed(r, last.block, pair) <= Emissions(t, pair) * longest by {
        MulMonotone(Elapsed(r, last.block, pair), longest, Emissions(t, pair));
      }
      MulNonNegative(Emissions(t, pair), longest);
    }
  }

  lemma EmissionsNotNegative(s: State, pair: nat, n: nat, m: nat)
    requires Valid(s, n, m)
    ensures Emissions(s, pair) >= 0
  {
    hide GrandStake;
  }

  /** Debts outlive epochs: what one user is ever paid for a pair stays within the pair's emissions over its
      single longest epoch, however many epochs there were. */
  lemma PaidWithinLongestEpoch(
    admin: Address, lpToken: Address, rewardToken: Address, tokens: map<Address, Balances>,
    calls: seq<TimedCall>, user: Address, pair: nat)
    ensures var start := Initialized(admin, lpToken, rewardToken, tokens);
      TotalPaidTo(start, calls, user, pair) <= Emissions(Run(start, calls), pair) * LongestEpoch(start, calls, pair)
  {
    hide Run, TotalPaidTo, LongestEpoch, Valid;
    var start := Initialized(admin, lpToken, rewardToken, tokens);
    var n, m := UserBound(calls), PairBound(calls);
    InitiallyValid(start, n, m);
    DebtWithinLongestEpoch(start, calls, user, pair, n, m);
  }

  /** A governance lock of an allowed length pays exactly what a claim pays, and credits half of it,
      rounded down, as power. */
  lemma LockPaysInFull(s: State, block: nat, user: Address, pair: nat, days: nat)
    ensures DoLock(s, block, LockForGovernance(user, pair, days)).Success?
       <==> && 1 <= days <= 365 && DoClaim(s, block, user, pair).Success?
            && Fits(LockedOf(s, user) + DoClaim(s, block, user, pair).value.paid / 2)
    ensures DoLock(s, block, LockForGovernance(user, pair, days)).Success? ==>
      var locked, claimed := DoLock(s, block, LockForGovernance(user, pair, days)).value, DoClaim(s, block, user, pair).value;
      && locked.paid == claimed.paid
      && locked.state == claimed.state.(locked := locked.state.locked)
      && LockedOf(locked.state, user) == LockedOf(s, user) + claimed.paid / 2
      && forall other: Address :: other != user ==> LockedOf(locked.state, other) == LockedOf(s, other)
  {
    hide PendingReward, Transfer;
  }

  /** Half of every reward a user's locks paid, each rounded down. */
  function HalvesOf(s: State, calls: seq<TimedCall>, user: Address): int
    decreases |calls|
  {
    if calls == [] then 0
    else
      var front, last := calls[..|calls| - 1], calls[|calls| - 1];
      HalvesOf(s, front, user)
        + (if last.call.LockForGovernance? && last.call.user == user && Execute(Run(s, front), last).Success? then
             Execute(Run(s, front), last).value.paid / 2
           else 0)
  }

  lemma StepPower(s: State, e: TimedCall, user: Address)
    ensures LockedOf(Step(s, e), user) == LockedOf(s, user)
      + (if e.call.LockForGovernance? && e.call.user == user && Execute(s, e).Success? then
           Execute(s, e).value.paid / 2
         else 0)
  {
    hide Transfer, PendingReward, TruncDiv;
    if e.call.LockForGovernance? {
      LockPaysInFull(s, e.block, e.call.user, e.call.pair, e.call.days);
    }
  }

  /** A user's governance power after any run is the sum of the halves; who never locked has none. */
  lemma {:induction false} PowerIsHalves(
    admin: Address, lpToken: Address, rewardToken: Address, tokens: map<Address, Balances>,
    calls: seq<TimedCall>, user: Address)
    ensures var start := Initialized(admin, lpToken, rewardToken, tokens);
      var t := Run(start, calls);
      (if user in t.locked then t.locked[user] else 0) == HalvesOf(start, calls, user)
    ensures var t := Run(Initialized(admin, lpToken, rewardToken, tokens), calls);
      LockedOf(t, user) == if user in t.locked then t.locked[user] else 0
    decreases |calls|
  {
    hide Step, Execute;
    if calls != [] {
      PowerIsHalves(admin, lpToken, rewardToken, tokens, calls[..|calls| - 1], user);
      StepPower(Run(Initialized(admin, lpToken, rewardToken, tokens), calls[..|calls| - 1]), calls[|calls| - 1], user);
    }
  }

  // ---------------------------------------------------------------- what is accepted

  /** One of the calls created the pair. */
  ghost predicate WasCreated(s: State, calls: seq<TimedCall>, pair: nat) {
    exists k :: 0 <= k < |calls| && Creates(Run(s, calls[..k]), calls[k], pair)
  }

  lemma WasCreatedAppended(s: State, calls: seq<TimedCall>, pair: nat)
    requires calls != []
    ensures var front, last := calls[..|calls| - 1], calls[|calls| - 1];
      WasCreated(s, calls, pair) <==> WasCreated(s, front, pair) || Creates(Run(s, front), last, pair)
  {
    hide Run, Creates;
    var front := calls[..|calls| - 1];
    forall k | 0 <= k < |front|
      ensures front[..k] == calls[..k]
    {
    }
    if WasCreated(s, front, pair) {
      var k :| 0 <= k < |front| && Creates(Run(s, front[..k]), front[k], pair);
      assert Creates(Run(s, calls[..k]), calls[k], pair);
    }
    if WasCreated(s, calls, pair) {
      var k :| 0 <= k < |calls| && Creates(Run(s, calls[..k]), calls[k], pair);
      if k < |front| {
        assert Creates(Run(s, front[..k]), front[k], pair);
      }
    }
  }

  /** What a call does to the pairs: only the creation of a new one adds a pair, and it starts active. */
  lemma StepPairs(s: State, e: TimedCall, pair: nat)
    ensures Step(s, e).admin == s.admin
    ensures pair in Step(s, e).pairs <==> pair in s.pairs || Creates(s, e, pair)
    ensures pair in s.pairs ==>
      !Creates(s, e, pair) && SameTerms(Step(s, e).pairs[pair], s.pairs[pair].emissionsPerBlock, s.pairs[pair].totalAllocated)
      && Step(s, e).pairs[pair].active == s.pairs[pair].active
    ensures Creates(s, e, pair) ==>
      && SameTerms(Step(s, e).pairs[pair], e.call.emissions, e.call.budget)
      && Step(s, e).pairs[pair].active && Step(s, e).pairs[pair].lastUpdateBlock == e.block
  {
    hide TruncDiv, Transfer, PendingReward;
  }

  predicate SameTerms(config: PairConfig, emissions: int, budget: int) {
    config.emissionsPerBlock == emissions && config.totalAllocated == budget
  }

  /** Once a call has created a pair, the pair keeps that call's terms and stays active in every run. */
  lemma {:induction false} TermsAreAsCreated(s: State, calls: seq<TimedCall>, k: nat, pair: nat)
    requires k < |calls| && Creates(Run(s, calls[..k]), calls[k], pair)
    ensures pair in Run(s, calls).pairs && Run(s, calls).pairs[pair].active
    ensures SameTerms(Run(s, calls).pairs[pair], calls[k].call.emissions, calls[k].call.budget)
    decreases |calls|
  {
    hide Step, Creates;
    var n := |calls| - 1;
    StepPairs(Run(s, calls[..n]), calls[n], pair);
    if k < n {
      assert calls[..n][..k] == calls[..k];
      TermsAreAsCreated(s, calls[..n], k, pair);
    }
    CreatesIsCall(Run(s, calls[..k]), calls[k], pair);
  }

  lemma CreatesIsCall(s: State, e: TimedCall, pair: nat)
    requires Creates(s, e, pair)
    ensures e.call.CreatePair?
  {
  }

  /** In every run that starts without pairs, the pairs are those that some call created, all active. */
  lemma {:induction false} PairsAreThoseCreated(s: State, calls: seq<TimedCall>, pair: nat)
    requires s.pairs == map[]
    ensures pair in Run(s, calls).pairs <==> WasCreated(s, calls, pair)
    ensures pair in Run(s, calls).pairs ==> Run(s, calls).pairs[pair].active
    ensures Run(s, calls).admin == s.admin
    decreases |calls|
  {
    hide Step, WasCreated, Creates;
    if calls != [] {
      var front, last := calls[..|calls| - 1], calls[|calls| - 1];
      PairsAreThoseCreated(s, front, pair);
      StepPairs(Run(s, front), last, pair);
      WasCreatedAppended(s, calls, pair);
    } else {
      NothingCreated(s, pair);
    }
  }

  lemma NothingCreated(s: State, pair: nat)
    ensures !WasCreated(s, [], pair)
  {
  }

  /** After any run, a creation goes through exactly when the admin of the initialisation asks, the amounts
      are positive, and no earlier call created the pair: each pair is created at most once. */
  lemma PairIsCreatedOnce(
    admin: Address, lpToken: Address, rewardToken: Address, tokens: map<Address, Balances>,
    calls: seq<TimedCall>, e: TimedCall)
    requires e.call.CreatePair?
    ensures var start := Initialized(admin, lpToken, rewardToken, tokens);
      Execute(Run(start, calls), e).Success? <==>
        && e.call.admin == admin && e.call.emissions > 0 && e.call.budget > 0
        && !WasCreated(start, calls, e.call.pair)
  {
    hide Run, WasCreated;
    PairsAreThoseCreated(Initialized(admin, lpToken, rewardToken, tokens), calls, e.call.pair);
  }

  /** After any run, a deposit goes through exactly when some call created the pair, the amount is positive
      and the user holds it, and the total of all stakes has room for it. */
  lemma DepositIsAccepted(
    admin: Address, lpToken: Address, rewardToken: Address, tokens: map<Address, Balances>,
    calls: seq<TimedCall>, e: TimedCall)
    requires e.call.Provide?
    ensures var start := Initialized(admin, lpToken, rewardToken, tokens);
      var s := Run(start, calls);
      Execute(s, e).Success? <==>
        && WasCreated(start, calls, e.call.pair)
        && 0 < e.call.amount <= BalanceOf(TokenBalances(s, s.lpToken), e.call.user)
        && s.totalStaked + e.call.amount <= I128_MAX
  {
    hide Run, WasCreated, GrandStake, BalanceOf, Valid;
    var start := Initialized(admin, lpToken, rewardToken, tokens);
    var n, m := UserBound(calls), PairBound(calls);
    InitiallyValid(start, n, m);
    RunKeepsValid(start, calls, n, m);
    PairsAreThoseCreated(start, calls, e.call.pair);
    var s := Run(start, calls);
    TotalIsNotNegative(s, n, m);
    if (e.call.user, e.call.pair) in s.stakes {
      StakeWithinTotal(s, e.call.user, e.call.pair, n, m);
    }
  }

  lemma TotalIsNotNegative(s: State, n: nat, m: nat)
    requires Valid(s, n, m)
    ensures s.totalStaked >= 0
  {
    hide PairStake;
    PairWithinGrand(s.stakes, 0, n, m);
  }

  // ---------------------------------------------------------------- stakes stay redeemable

  function HeldLp(s: State): int {
    BalanceOf(TokenBalances(s, s.lpToken), CONTRACT)
  }

  lemma TransferIn(balances: Balances, user: Address, amount: int)
    requires user != CONTRACT && Transfer(balances, user, CONTRACT, amount).Some?
    ensures BalanceOf(Transfer(balances, user, CONTRACT, amount).value, CONTRACT) == BalanceOf(balances, CONTRACT) + amount
  {
  }

  lemma TransferOut(balances: Balances, user: Address, amount: int)
    requires user != CONTRACT
    ensures Transfer(balances, CONTRACT, user, amount).Some? <==> 0 <= amount <= BalanceOf(balances, CONTRACT)
    ensures Transfer(balances, CONTRACT, user, amount).Some? ==>
      BalanceOf(Transfer(balances, CONTRACT, user, amount).value, CONTRACT) == BalanceOf(balances, CONTRACT) - amount
  {
  }

  /** What the contract holds in LP tokens moves with the total staked. */
  lemma StepKeepsCustody(s: State, e: TimedCall, n: nat, m: nat)
    requires Valid(s, n, m) && s.lpToken != s.rewardToken
    requires e.call.CreatePair? || e.call.user != CONTRACT
    ensures HeldLp(Step(s, e)) - Step(s, e).totalStaked == HeldLp(s) - s.totalStaked
    ensures Step(s, e).lpToken == s.lpToken && Step(s, e).rewardToken == s.rewardToken
  {
    hide PendingReward, Transfer, GrandStake, BalanceOf, NonNegativeStakes;
    var c := e.call;
    if Execute(s, e).Success? {
      match c {
        case Provide(user, _, amount) => TransferIn(TokenBalances(s, s.lpToken), user, amount);
        case Withdraw(user, pair, amount) =>
          WithdrawEffect(s, e, n, m);
          var restarted := RestartEpoch(s, pair, e.block).value;
          StakeWithinTotal(s, user, pair, n, m);
          NothingPendingAtRestart(restarted, user, pair, e.block);
          TransferOut(TokenBalances(s, s.lpToken), user, amount);
        case CreatePair(_, _, _, _) =>
        case ClaimRewards(_, _) =>
        case LockForGovernance(_, _, _) =>
      }
    }
  }

  lemma {:induction false} RunKeepsCustody(s: State, calls: seq<TimedCall>, n: nat, m: nat)
    requires Valid(s, n, m) && Within(calls, n, m) && s.lpToken != s.rewardToken
    requires forall i :: 0 <= i < |calls| ==> calls[i].call.CreatePair? || calls[i].call.user != CONTRACT
    ensures HeldLp(Run(s, calls)) - Run(s, calls).totalStaked == HeldLp(s) - s.totalStaked
    ensures Run(s, calls).lpToken == s.lpToken && Run(s, calls).rewardToken == s.rewardToken
    decreases |calls|
  {
    hide Valid, Step, HeldLp;
    if calls != [] {
      RunKeepsCustody(s, calls[..|calls| - 1], n, m);
      RunKeepsValid(s, calls[..|calls| - 1], n, m);
      StepKeepsCustody(Run(s, calls[..|calls| - 1]), calls[|calls| - 1], n, m);
    }
  }

  /** In any valid state, with the tokens distinct or not, a user's withdrawal goes through exactly for a
      positive part of the user's own stake that the contract holds, provided the stake times the pair's
      emissions fits: no reward, other staker, pair or time stands in the way. */
  lemma WithdrawalIsPaidIff(s: State, e: TimedCall, n: nat, m: nat)
    requires Valid(s, n, m) && e.call.Withdraw? && e.call.user != CONTRACT
    ensures Execute(s, e).Success? <==>
      && (e.call.user, e.call.pair) in s.stakes && e.call.pair in s.pairs
      && 0 < e.call.amount <= s.stakes[(e.call.user, e.call.pair)].lpBalance
      && e.call.amount <= HeldLp(s)
      && Fits(s.stakes[(e.call.user, e.call.pair)].lpBalance * s.pairs[e.call.pair].emissionsPerBlock)
  {
    hide PendingReward, Transfer, GrandStake, BalanceOf, NonNegativeStakes, Valid;
    var c := e.call;
    if (c.user, c.pair) in s.stakes {
      StakeWithinTotal(s, c.user, c.pair, n, m);
      var restarted := RestartEpoch(s, c.pair, e.block).value;
      NothingPendingAtRestart(restarted, c.user, c.pair, e.block);
      TransferOut(TokenBalances(s, s.lpToken), c.user, c.amount);
    }
  }

  /** With LP and reward tokens distinct, the contract always holds what is asked for: at any moment of any
      run every staker can withdraw any part of the stake, if the stake times the emissions fits. */
  lemma StakesAreRedeemable(
    admin: Address, lpToken: Address, rewardToken: Address, tokens: map<Address, Balances>,
    calls: seq<TimedCall>, e: TimedCall)
    requires lpToken != rewardToken
    requires BalanceOf(TokenBalances(Initialized(admin, lpToken, rewardToken, tokens), lpToken), CONTRACT) >= 0
    requires forall i :: 0 <= i < |calls| ==> calls[i].call.CreatePair? || calls[i].call.user != CONTRACT
    requires e.call.Withdraw? && e.call.user != CONTRACT
    ensures var s := Run(Initialized(admin, lpToken, rewardToken, tokens), calls);
      Execute(s, e).Success? <==>
        && (e.call.user, e.call.pair) in s.stakes && e.call.pair in s.pairs
        && 0 < e.call.amount <= s.stakes[(e.call.user, e.call.pair)].lpBalance
        && Fits(s.stakes[(e.call.user, e.call.pair)].lpBalance * s.pairs[e.call.pair].emissionsPerBlock)
  {
    hide Run, GrandStake, Valid;
    var start := Initialized(admin, lpToken, rewardToken, tokens);
    var n, m := UserBound(calls), PairBound(calls);
    InitiallyValid(start, n, m);
    RunKeepsValid(start, calls, n, m);
    RunKeepsCustody(start, calls, n, m);
    var s := Run(start, calls);
    WithdrawalIsPaidIff(s, e, n, m);
    if (e.call.user, e.call.pair) in s.stakes {
      StakeWithinTotal(s, e.call.user, e.call.pair, n, m);
    }
  }

  // ---------------------------------------------------------------- one token for stakes and rewards

  /** A pair of one token for stakes and rewards, one stake, one claim a block later. */
  function SelfPaid(stake: int, emissions: int): seq<TimedCall> {
    [AtBlock(1, 0, CreatePair(1, 0, emissions, 1)), AtBlock(1, 0, Provide(1, 0, stake)), AtBlock(2, 0, ClaimRewards(1, 0))]
  }

  /** When stakes and rewards are one token, rewards are paid out of stakes: for every stake and every
      emission up to it, the only staker claims once and can then no longer withdraw the stake. */
  lemma RewardsEatStakes(token: Address, stake: int, emissions: int)
    requires 0 < emissions <= stake && Fits(stake * emissions) && Fits(emissions * 100)
    ensures var start := Initialized(1, token, token, map[token := map[1 := stake]]);
      var s := Run(start, SelfPaid(stake, emissions));
      && (1, 0) in s.stakes && s.stakes[(1, 0)].lpBalance == stake
      && HeldLp(s) == stake - emissions
      && Execute(s, AtBlock(2, 0, Withdraw(1, 0, stake))).Failure?
  {
    hide Run, GrandStake, Valid, TruncDiv, PendingReward;
    var start, calls := Initialized(1, token, token, map[token := map[1 := stake]]), SelfPaid(stake, emissions);
    ThreeCalls(start, calls);
    var s1 := Step(start, calls[0]);
    var s2 := Step(s1, calls[1]);
    assert stake * 1 <= stake * emissions;
    ClaimsItsEmission(s2, 1, 0, stake, emissions);
    var s := Run(start, calls);
    InitiallyValid(start, 2, 1);
    RunKeepsValid(start, calls, 2, 1);
    WithdrawalIsPaidIff(s, AtBlock(2, 0, Withdraw(1, 0, stake)), 2, 1);
  }

  lemma ThreeCalls(s: State, calls: seq<TimedCall>)
    requires |calls| == 3
    ensures Run(s, calls) == Step(Step(Step(s, calls[0]), calls[1]), calls[2])
  {
    hide Step;
    assert calls[..2][..1] == calls[..1] && calls[..1][..0] == [];
    assert Run(s, calls[..1]) == Step(Run(s, []), calls[0]);
    assert Run(s, calls[..2]) == Step(Run(s, calls[..1]), calls[1]);
  }

  lemma ClaimsItsEmission(s: State, user: Address, pair: nat, stake: int, emissions: int)
    requires (user, pair) in s.stakes && s.stakes[(user, pair)] == Stake(stake, 0, 0, 0) && s.totalStaked == stake > 0
    requires pair in s.pairs && s.pairs[pair].emissionsPerBlock == emissions > 0 && s.pairs[pair].lastUpdateBlock == 1
    requires Fits(stake * emissions) && Fits(emissions * 100)
    ensures PendingReward(s, user, pair, 2) == Success(emissions)
  {
    hide TruncDiv;
    DivUnique(stake * emissions, stake, emissions);
    DivUnique(emissions * 100, 100, emissions);
  }
}
