/** The emission bound: what is ever paid for a pair stays within its emissions since creation. */
module MiningEmission {
  import opened Common
  import opened Ledger
  import opened FixedPoint
  import opened Mining

  type Stakes = map<StakeKey, Stake>

  // ---------------------------------------------------------------- sums over stakes

  function Balance(stakes: Stakes, user: Address, pair: nat): int {
    if (user, pair) in stakes then stakes[(user, pair)].lpBalance else 0
  }

  function Debt(stakes: Stakes, user: Address, pair: nat): int {
    if (user, pair) in stakes then stakes[(user, pair)].rewardDebt else 0
  }

  /** Staked in a pair by the users below n. */
  function PairStake(stakes: Stakes, pair: nat, n: nat): int {
    if n == 0 then 0 else PairStake(stakes, pair, n - 1) + Balance(stakes, n - 1, pair)
  }

  /** Paid for a pair to the users below n, as their stakes record it. */
  function PairDebt(stakes: Stakes, pair: nat, n: nat): int {
    if n == 0 then 0 else PairDebt(stakes, pair, n - 1) + Debt(stakes, n - 1, pair)
  }

  /** Staked in the pairs below m. */
  function GrandStake(stakes: Stakes, n: nat, m: nat): int {
    if m == 0 then 0 else GrandStake(stakes, n, m - 1) + PairStake(stakes, m - 1, n)
  }

  lemma {:induction false} PairStakeAfter(stakes: Stakes, user: Address, pair: nat, stake: Stake, q: nat, n: nat)
    ensures PairStake(stakes[(user, pair) := stake], q, n)
         == PairStake(stakes, q, n) + (if q == pair && user < n then stake.lpBalance - Balance(stakes, user, pair) else 0)
  {
    if n > 0 {
      PairStakeAfter(stakes, user, pair, stake, q, n - 1);
    }
  }

  lemma {:induction false} PairDebtAfter(stakes: Stakes, user: Address, pair: nat, stake: Stake, q: nat, n: nat)
    ensures PairDebt(stakes[(user, pair) := stake], q, n)
         == PairDebt(stakes, q, n) + (if q == pair && user < n then stake.rewardDebt - Debt(stakes, user, pair) else 0)
  {
    if n > 0 {
      PairDebtAfter(stakes, user, pair, stake, q, n - 1);
    }
  }

  lemma {:induction false} GrandStakeAfter(stakes: Stakes, user: Address, pair: nat, stake: Stake, n: nat, m: nat)
    requires user < n
    ensures GrandStake(stakes[(user, pair) := stake], n, m)
         == GrandStake(stakes, n, m) + (if pair < m then stake.lpBalance - Balance(stakes, user, pair) else 0)
  {
    if m > 0 {
      GrandStakeAfter(stakes, user, pair, stake, n, m - 1);
      PairStakeAfter(stakes, user, pair, stake, m - 1, n);
    }
  }

  predicate NonNegativeStakes(stakes: Stakes) {
    forall k :: k in stakes ==> stakes[k].lpBalance >= 0 && stakes[k].rewardDebt >= 0
  }

  lemma {:induction false} PairStakeNonNegative(stakes: Stakes, pair: nat, n: nat)
    requires NonNegativeStakes(stakes)
    ensures PairStake(stakes, pair, n) >= 0
    ensures forall user :: 0 <= user < n ==> Balance(stakes, user, pair) <= PairStake(stakes, pair, n)
  {
    if n > 0 {
      PairStakeNonNegative(stakes, pair, n - 1);
    }
  }

  lemma {:induction false} PairWithinGrand(stakes: Stakes, pair: nat, n: nat, m: nat)
    requires NonNegativeStakes(stakes)
    ensures GrandStake(stakes, n, m) >= 0
    ensures pair < m ==> PairStake(stakes, pair, n) <= GrandStake(stakes, n, m)
  {
    if m > 0 {
      PairWithinGrand(stakes, pair, n, m - 1);
      PairStakeNonNegative(stakes, m - 1, n);
    }
  }

  // ---------------------------------------------------------------- valid states

  /** All users are below n and all pairs below m; stakes belong to pairs, no stake has a bonus
      tier, and the global total is the sum of all stakes. */
  predicate Valid(s: State, n: nat, m: nat) {
    && NonNegativeStakes(s.stakes)
    && (forall k :: k in s.stakes ==> k.0 < n && k.1 < m && k.1 in s.pairs && s.stakes[k].bonusTier == 0)
    && (forall p :: p in s.pairs ==> s.pairs[p].emissionsPerBlock > 0)
    && s.totalStaked == GrandStake(s.stakes, n, m)
  }

  predicate Within(calls: seq<TimedCall>, n: nat, m: nat) {
    forall i :: 0 <= i < |calls| ==> UserOf(calls[i].call) < n && calls[i].call.pair < m
  }

  /** At a block where the pair's epoch has just begun nothing is pending. Only the product of the stake
      and the emissions can stop the calculation. */
  lemma NothingPendingAtRestart(s: State, user: Address, pair: nat, block: nat)
    requires (user, pair) in s.stakes && pair in s.pairs
    requires s.stakes[(user, pair)].bonusTier == 0 && s.stakes[(user, pair)].rewardDebt >= 0
    requires s.pairs[pair].lastUpdateBlock == block
    ensures var stake := s.stakes[(user, pair)];
      PendingReward(s, user, pair, block).Success? <==>
      s.totalStaked <= 0 || stake.lpBalance == 0 || Fits(stake.lpBalance * s.pairs[pair].emissionsPerBlock)
    ensures PendingReward(s, user, pair, block).Success? ==> PendingReward(s, user, pair, block).value <= 0
  {
    hide TruncDiv;
    var stake, config := s.stakes[(user, pair)], s.pairs[pair];
    assert stake.lpBalance * config.emissionsPerBlock * 0 == 0;
    if s.totalStaked > 0 {
      DivUnique(0, s.totalStaked, 0);
      DivUnique(0, 100, 0);
    }
  }

  /** So a withdrawal changes only the balance of its stake, the total, and the epoch. */
  lemma WithdrawEffect(s: State, e: TimedCall, n: nat, m: nat)
    requires Valid(s, n, m) && e.call.Withdraw? && Execute(s, e).Success?
    ensures var c, t := e.call, Execute(s, e).value.state;
      && Execute(s, e).value.paid == 0
      && (c.user, c.pair) in s.stakes && c.pair in s.pairs
      && 0 < c.amount <= s.stakes[(c.user, c.pair)].lpBalance
      && t.stakes == s.stakes[(c.user, c.pair) :=
           s.stakes[(c.user, c.pair)].(lpBalance := s.stakes[(c.user, c.pair)].lpBalance - c.amount)]
      && t.totalStaked == s.totalStaked - c.amount
      && t.pairs == s.pairs[c.pair := s.pairs[c.pair].(lastUpdateBlock := e.block)]
  {
    hide PendingReward, Transfer, GrandStake;
    var c := e.call;
    var restarted := RestartEpoch(s, c.pair, e.block).value;
    NothingPendingAtRestart(restarted, c.user, c.pair, e.block);
  }

  lemma ProvideEffect(s: State, e: TimedCall)
    requires e.call.Provide? && Execute(s, e).Success?
    ensures var c, t := e.call, Execute(s, e).value.state;
      var stake := StakeOf(s, c.user, c.pair, e.time);
      && Execute(s, e).value.paid == 0
      && c.pair in s.pairs && c.amount > 0
      && t.stakes == s.stakes[(c.user, c.pair) := stake.(lpBalance := stake.lpBalance + c.amount)]
      && ((c.user, c.pair) !in s.stakes ==> t.stakes[(c.user, c.pair)] == Stake(c.amount, e.time, 0, 0))
      && t.totalStaked == s.totalStaked + c.amount
      && t.pairs == s.pairs[c.pair := s.pairs[c.pair].(lastUpdateBlock := e.block)]
  {
    hide Transfer;
  }

  /** A claim, with or without a governance lock, pays what is pending and adds it to the debt. */
  lemma ClaimEffect(s: State, e: TimedCall)
    requires (e.call.ClaimRewards? || e.call.LockForGovernance?) && Execute(s, e).Success?
    ensures var c, t := e.call, Execute(s, e).value.state;
      && (c.user, c.pair) in s.stakes && c.pair in s.pairs
      && PendingReward(s, c.user, c.pair, e.block) == Success(Execute(s, e).value.paid)
      && Execute(s, e).value.paid > 0
      && t.stakes == s.stakes[(c.user, c.pair) := s.stakes[(c.user, c.pair)].(
           rewardDebt := s.stakes[(c.user, c.pair)].rewardDebt + Execute(s, e).value.paid)]
      && t.totalStaked == s.totalStaked && t.pairs == s.pairs
  {
    hide Transfer;
  }

  lemma StakeChangeKeepsValid(s: State, t: State, user: Address, pair: nat, stake: Stake, n: nat, m: nat)
    requires Valid(s, n, m) && user < n && pair < m && pair in s.pairs
    requires t.stakes == s.stakes[(user, pair) := stake]
    requires stake.lpBalance >= 0 && stake.rewardDebt >= 0 && stake.bonusTier == 0
    requires t.totalStaked == s.totalStaked + stake.lpBalance - Balance(s.stakes, user, pair)
    requires t.pairs.Keys == s.pairs.Keys
    requires forall p :: p in t.pairs ==> t.pairs[p].emissionsPerBlock > 0
    ensures Valid(t, n, m)
  {
    hide GrandStake;
    GrandStakeAfter(s.stakes, user, pair, stake, n, m);
  }

  lemma StepKeepsValid(s: State, e: TimedCall, n: nat, m: nat)
    requires Valid(s, n, m) && UserOf(e.call) < n && e.call.pair < m
    ensures Valid(Step(s, e), n, m)
  {
    hide PendingReward, Transfer, GrandStake, PayReward;
    if Execute(s, e).Success? {
      var c, t := e.call, Step(s, e);
      match c {
        case CreatePair(_, _, _, _) =>
        case Provide(_, _, _) =>
          ProvideEffect(s, e);
          StakeChangeKeepsValid(s, t, c.user, c.pair, t.stakes[(c.user, c.pair)], n, m);
        case Withdraw(_, _, _) =>
          WithdrawEffect(s, e, n, m);
          StakeChangeKeepsValid(s, t, c.user, c.pair, t.stakes[(c.user, c.pair)], n, m);
        case LockForGovernance(_, _, _) =>
          ClaimEffect(s, e);
          StakeChangeKeepsValid(s, t, c.user, c.pair, t.stakes[(c.user, c.pair)], n, m);
        case ClaimRewards(_, _) =>
          ClaimEffect(s, e);
          StakeChangeKeepsValid(s, t, c.user, c.pair, t.stakes[(c.user, c.pair)], n, m);
      }
    }
  }

  /** In every reachable state the stored total is the sum of all stakes, and no stake ever got a
      bonus tier. */
  lemma {:induction false} RunKeepsValid(s: State, calls: seq<TimedCall>, n: nat, m: nat)
    requires Valid(s, n, m) && Within(calls, n, m)
    ensures Valid(Run(s, calls), n, m)
    decreases |calls|
  {
    hide Valid, Step;
    if calls != [] {
      RunKeepsValid(s, calls[..|calls| - 1], n, m);
      StepKeepsValid(Run(s, calls[..|calls| - 1]), calls[|calls| - 1], n, m);
    }
  }

  // ---------------------------------------------------------------- epochs

  /** Debts when the pair's epoch began. */
  type Opening = map<Address, int>

  function OpeningOf(opening: Opening, user: Address): int {
    if user in opening then opening[user] else 0
  }

  function OpeningTotal(opening: Opening, n: nat): int {
    if n == 0 then 0 else OpeningTotal(opening, n - 1) + OpeningOf(opening, n - 1)
  }

  /** A user's debt is at most the opening debt plus the user's share, by stake in the pair, of what
      the pair emitted since the epoch began. Without any stake in the pair no debt can grow. */
  predicate UserWithinShare(debt: int, opening: int, balance: int, emitted: int, staked: int) {
    && 0 <= opening
    && debt * staked <= opening * staked + balance * emitted
    && (staked == 0 ==> debt <= opening)
  }

  /** The potential invariant of a pair created at `created`, with the clock at `clock`. */
  ghost predicate Epoch(s: State, pair: nat, created: nat, clock: nat, opening: Opening, n: nat) {
    && pair in s.pairs
    && created <= s.pairs[pair].lastUpdateBlock <= clock
    && OpeningTotal(opening, n) <= s.pairs[pair].emissionsPerBlock * (s.pairs[pair].lastUpdateBlock - created)
    && forall user :: 0 <= user < n ==> InShare(s, pair, clock, opening, n, user)
  }

  predicate InShare(s: State, pair: nat, clock: nat, opening: Opening, n: nat, user: Address)
    requires pair in s.pairs && s.pairs[pair].lastUpdateBlock <= clock
  {
    UserWithinShare(
      Debt(s.stakes, user, pair), OpeningOf(opening, user), Balance(s.stakes, user, pair),
      s.pairs[pair].emissionsPerBlock * (clock - s.pairs[pair].lastUpdateBlock), PairStake(s.stakes, pair, n))
  }

  /** Shares add up: the sum of the users' debts is within the openings plus all that was emitted. */
  lemma {:induction false} SharesAddUp(
    s: State, pair: nat, clock: nat, opening: Opening, n: nat, k: nat)
    requires pair in s.pairs && s.pairs[pair].lastUpdateBlock <= clock && k <= n
    requires forall user :: 0 <= user < n ==> InShare(s, pair, clock, opening, n, user)
    ensures var staked := PairStake(s.stakes, pair, n);
      var emitted := s.pairs[pair].emissionsPerBlock * (clock - s.pairs[pair].lastUpdateBlock);
      && PairDebt(s.stakes, pair, k) * staked
         <= OpeningTotal(opening, k) * staked + PairStake(s.stakes, pair, k) * emitted
      && (staked == 0 ==> PairDebt(s.stakes, pair, k) <= OpeningTotal(opening, k))
    decreases k
  {
    hide UserWithinShare;
    var staked := PairStake(s.stakes, pair, n);
    var emitted := s.pairs[pair].emissionsPerBlock * (clock - s.pairs[pair].lastUpdateBlock);
    if k > 0 {
      SharesAddUp(s, pair, clock, opening, n, k - 1);
      assert InShare(s, pair, clock, opening, n, k - 1);
      AddShare(PairDebt(s.stakes, pair, k - 1), OpeningTotal(opening, k - 1), PairStake(s.stakes, pair, k - 1),
        Debt(s.stakes, k - 1, pair), OpeningOf(opening, k - 1), Balance(s.stakes, k - 1, pair), emitted, staked);
    }
  }

  lemma AddShare(d: int, o: int, b: int, debt: int, opening: int, balance: int, emitted: int, staked: int)
    requires d * staked <= o * staked + b * emitted && (staked == 0 ==> d <= o)
    requires UserWithinShare(debt, opening, balance, emitted, staked)
    ensures (d + debt) * staked <= (o + opening) * staked + (b + balance) * emitted
    ensures staked == 0 ==> d + debt <= o + opening
  {
    assert (d + debt) * staked == d * staked + debt * staked;
    assert (o + opening) * staked == o * staked + opening * staked;
    assert (b + balance) * emitted == b * emitted + balance * emitted;
  }

  /** The invariant bounds what was paid by what was emitted since creation. */
  lemma EpochBound(s: State, pair: nat, created: nat, clock: nat, opening: Opening, n: nat, m: nat)
    requires Valid(s, n, m) && Epoch(s, pair, created, clock, opening, n)
    ensures PairDebt(s.stakes, pair, n) <= s.pairs[pair].emissionsPerBlock * (clock - created)
  {
    hide UserWithinShare, OpeningTotal, PairDebt, PairStake, GrandStake, InShare;
    SharesAddUp(s, pair, clock, opening, n, n);
    PairStakeNonNegative(s.stakes, pair, n);
    var config := s.pairs[pair];
    CancelStake(PairDebt(s.stakes, pair, n), OpeningTotal(opening, n), PairStake(s.stakes, pair, n),
      config.emissionsPerBlock * (clock - config.lastUpdateBlock));
    MulNonNegative(config.emissionsPerBlock, clock - config.lastUpdateBlock);
    assert config.emissionsPerBlock * (clock - created)
        == config.emissionsPerBlock * (clock - config.lastUpdateBlock)
         + config.emissionsPerBlock * (config.lastUpdateBlock - created);
  }

  lemma CancelStake(debt: int, opening: int, staked: int, emitted: int)
    requires staked >= 0 && emitted >= 0
    requires debt * staked <= opening * staked + staked * emitted && (staked == 0 ==> debt <= opening)
    ensures debt <= opening + emitted
  {
    assert (opening + emitted + 1) * staked == opening * staked + staked * emitted + staked;
    if staked > 0 && debt > opening + emitted {
      MulMonotone(opening + emitted + 1, debt, staked);
    }
  }

  /** Time passing only adds to what was emitted. */
  lemma EpochLater(s: State, pair: nat, created: nat, clock: nat, later: nat, opening: Opening, n: nat, m: nat)
    requires Valid(s, n, m) && Epoch(s, pair, created, clock, opening, n) && clock <= later
    ensures Epoch(s, pair, created, later, opening, n)
  {
    hide OpeningTotal, PairStake, GrandStake, UserWithinShare;
    var config := s.pairs[pair];
    forall user | 0 <= user < n
      ensures InShare(s, pair, later, opening, n, user)
    {
      assert InShare(s, pair, clock, opening, n, user);
      ShareLater(Debt(s.stakes, user, pair), OpeningOf(opening, user), Balance(s.stakes, user, pair),
        config.emissionsPerBlock, clock - config.lastUpdateBlock, later - config.lastUpdateBlock,
        PairStake(s.stakes, pair, n));
    }
  }

  lemma ShareLater(debt: int, opening: int, balance: int, rate: int, before: int, after: int, staked: int)
    requires UserWithinShare(debt, opening, balance, rate * before, staked)
    requires balance >= 0 && rate >= 0 && 0 <= before <= after
    ensures UserWithinShare(debt, opening, balance, rate * after, staked)
  {
    MulMonotone(before, after, rate);
    MulMonotone(rate * before, rate * after, balance);
  }

  // ---------------------------------------------------------------- one call

  /** Calls that change neither the pair's record nor any stake in it. */
  lemma EpochUntouched(s: State, t: State, pair: nat, created: nat, clock: nat, opening: Opening, n: nat)
    requires Epoch(s, pair, created, clock, opening, n)
    requires pair in t.pairs && t.pairs[pair] == s.pairs[pair]
    requires forall user :: (user, pair) in t.stakes <==> (user, pair) in s.stakes
    requires forall user :: (user, pair) in s.stakes ==> t.stakes[(user, pair)] == s.stakes[(user, pair)]
    ensures Epoch(t, pair, created, clock, opening, n)
  {
    hide OpeningTotal, UserWithinShare;
    SameStake(s.stakes, t.stakes, pair, n);
    forall user | 0 <= user < n
      ensures InShare(t, pair, clock, opening, n, user)
    {
      assert InShare(s, pair, clock, opening, n, user);
    }
  }

  lemma {:induction false} SameStake(u: Stakes, v: Stakes, pair: nat, n: nat)
    requires forall user :: (user, pair) in v <==> (user, pair) in u
    requires forall user :: (user, pair) in u ==> v[(user, pair)] == u[(user, pair)]
    ensures PairStake(v, pair, n) == PairStake(u, pair, n)
    ensures PairDebt(v, pair, n) == PairDebt(u, pair, n)
  {
    if n > 0 {
      SameStake(u, v, pair, n - 1);
    }
  }

  function CurrentDebts(stakes: Stakes, pair: nat, n: nat): Opening {
    map user: nat | 0 <= user < n :: Debt(stakes, user, pair)
  }

  lemma {:induction false} CurrentDebtsTotal(stakes: Stakes, pair: nat, n: nat, k: nat)
    requires k <= n
    ensures OpeningTotal(CurrentDebts(stakes, pair, n), k) == PairDebt(stakes, pair, k)
  {
    if k > 0 {
      CurrentDebtsTotal(stakes, pair, n, k - 1);
    }
  }

  /** A stake change restarts the epoch: the debts of that moment become the openings. */
  lemma EpochRestarts(s: State, t: State, pair: nat, created: nat, clock: nat, opening: Opening, n: nat, m: nat)
    requires Valid(s, n, m) && Epoch(s, pair, created, clock, opening, n)
    requires pair in t.pairs && t.pairs[pair] == s.pairs[pair].(lastUpdateBlock := clock)
    requires forall user :: 0 <= user < n ==> Debt(t.stakes, user, pair) == Debt(s.stakes, user, pair)
    ensures Epoch(t, pair, created, clock, CurrentDebts(s.stakes, pair, n), n)
  {
    hide OpeningTotal, PairDebt, PairStake, GrandStake, InShare;
    EpochBound(s, pair, created, clock, opening, n, m);
    CurrentDebtsTotal(s.stakes, pair, n, n);
    forall user | 0 <= user < n
      ensures InShare(t, pair, clock, CurrentDebts(s.stakes, pair, n), n, user)
    {
      ShareAtRestart(t, pair, clock, CurrentDebts(s.stakes, pair, n), n, user);
    }
  }

  lemma ShareAtRestart(t: State, pair: nat, clock: nat, opening: Opening, n: nat, user: Address)
    requires pair in t.pairs && t.pairs[pair].lastUpdateBlock == clock
    requires 0 <= Debt(t.stakes, user, pair) == OpeningOf(opening, user)
    ensures InShare(t, pair, clock, opening, n, user)
  {
    hide PairStake;
    assert t.pairs[pair].emissionsPerBlock * 0 == 0;
    assert Balance(t.stakes, user, pair) * 0 == 0;
  }

  /** What a claim leaves as debt is the user's share of the emissions of the epoch. */
  lemma ClaimedShare(s: State, user: Address, pair: nat, block: nat, n: nat, m: nat)
    requires Valid(s, n, m) && user < n && pair < m
    requires PendingReward(s, user, pair, block).Success? && PendingReward(s, user, pair, block).value > 0
    ensures s.pairs[pair].lastUpdateBlock <= block
    ensures PairStake(s.stakes, pair, n) > 0
    ensures var config := s.pairs[pair];
      (s.stakes[(user, pair)].rewardDebt + PendingReward(s, user, pair, block).value) * PairStake(s.stakes, pair, n)
      <= s.stakes[(user, pair)].lpBalance * (config.emissionsPerBlock * (block - config.lastUpdateBlock))
  {
    hide TruncDiv, PairStake, GrandStake;
    PairWithinGrand(s.stakes, pair, n, m);
    PairStakeNonNegative(s.stakes, pair, n);
    assert Balance(s.stakes, user, pair) <= PairStake(s.stakes, pair, n);
    var stake, config := s.stakes[(user, pair)], s.pairs[pair];
    var emitted := config.emissionsPerBlock * (block - config.lastUpdateBlock);
    assert stake.lpBalance * config.emissionsPerBlock * (block - config.lastUpdateBlock) == stake.lpBalance * emitted;
    MulNonNegative(config.emissionsPerBlock, block - config.lastUpdateBlock);
    MulNonNegative(stake.lpBalance, emitted);
    var share := TruncDiv(stake.lpBalance * emitted, s.totalStaked);
    DivBounds(stake.lpBalance * emitted, s.totalStaked);
    DivUnique(share * 100, 100, share);
    assert share == stake.rewardDebt + PendingReward(s, user, pair, block).value;
    MulMonotone(PairStake(s.stakes, pair, n), s.totalStaked, share);
  }

  lemma EpochClaims(s: State, e: TimedCall, pair: nat, created: nat, opening: Opening, n: nat, m: nat)
    requires Valid(s, n, m) && Epoch(s, pair, created, e.block, opening, n)
    requires (e.call.ClaimRewards? || e.call.LockForGovernance?) && e.call.pair == pair
    requires Execute(s, e).Success? && e.call.user < n && pair < m
    ensures Epoch(Step(s, e), pair, created, e.block, opening, n)
  {
    hide PendingReward, Transfer, GrandStake, PairStake, OpeningTotal, UserWithinShare, DoClaim, DoLock;
    ClaimEffect(s, e);
    var v, t := e.call.user, Step(s, e);
    ClaimedShare(s, v, pair, e.block, n, m);
    PairStakeAfter(s.stakes, v, pair, t.stakes[(v, pair)], pair, n);
    var config := s.pairs[pair];
    forall user | 0 <= user < n
      ensures InShare(t, pair, e.block, opening, n, user)
    {
      assert InShare(s, pair, e.block, opening, n, user);
      if user == v {
        WithinShareOfEmission(Debt(s.stakes, v, pair), Debt(t.stakes, v, pair), OpeningOf(opening, v),
          Balance(s.stakes, v, pair), config.emissionsPerBlock * (e.block - config.lastUpdateBlock),
          PairStake(s.stakes, pair, n));
      }
    }
  }

  lemma WithinShareOfEmission(old_: int, debt: int, opening: int, balance: int, emitted: int, staked: int)
    requires UserWithinShare(old_, opening, balance, emitted, staked)
    requires staked > 0 && debt * staked <= balance * emitted
    ensures UserWithinShare(debt, opening, balance, emitted, staked)
  {
    MulNonNegative(opening, staked);
  }

  lemma EpochStep(s: State, e: TimedCall, pair: nat, created: nat, clock: nat, opening: Opening, n: nat, m: nat)
    returns (next: Opening)
    requires Valid(s, n, m) && Epoch(s, pair, created, clock, opening, n)
    requires clock <= e.block && UserOf(e.call) < n && e.call.pair < m
    ensures Epoch(Step(s, e), pair, created, e.block, next, n)
    ensures Step(s, e).pairs[pair].emissionsPerBlock == s.pairs[pair].emissionsPerBlock
  {
    hide PendingReward, Transfer, GrandStake, PairStake, OpeningTotal, InShare, PayReward, TruncDiv;
    EpochLater(s, pair, created, clock, e.block, opening, n, m);
    next := opening;
    if Execute(s, e).Success? {
      var c, t := e.call, Step(s, e);
      if c.CreatePair? {
        EpochUntouched(s, t, pair, created, e.block, opening, n);
      } else if c.ClaimRewards? || c.LockForGovernance? {
        ClaimEffect(s, e);
        if c.pair == pair {
          EpochClaims(s, e, pair, created, opening, n, m);
        } else {
          EpochUntouched(s, t, pair, created, e.block, opening, n);
        }
      } else {
        if c.Provide? {
          ProvideEffect(s, e);
        } else {
          WithdrawEffect(s, e, n, m);
        }
        if c.pair == pair {
          next := CurrentDebts(s.stakes, pair, n);
          EpochRestarts(s, t, pair, created, e.block, opening, n, m);
        } else {
          EpochUntouched(s, t, pair, created, e.block, opening, n);
        }
      }
    }
  }

  // ---------------------------------------------------------------- whole runs

  lemma PaidIsDebtStep(s: State, e: TimedCall, pair: nat, n: nat, m: nat)
    requires Valid(s, n, m) && UserOf(e.call) < n && e.call.pair < m
    ensures PairDebt(Step(s, e).stakes, pair, n) == PairDebt(s.stakes, pair, n) + PaidBy(s, e, pair)
  {
    hide PendingReward, Transfer, GrandStake, PairDebt, PayReward, TruncDiv;
    if Execute(s, e).Success? && !e.call.CreatePair? {
      var c, t := e.call, Step(s, e);
      if c.Provide? {
        ProvideEffect(s, e);
      } else if c.Withdraw? {
        WithdrawEffect(s, e, n, m);
      } else {
        ClaimEffect(s, e);
      }
      PairDebtAfter(s.stakes, c.user, c.pair, t.stakes[(c.user, c.pair)], pair, n);
    }
  }

  /** The debts recorded in a pair's stakes are exactly what was paid for the pair. */
  lemma {:induction false} PaidIsDebt(s: State, calls: seq<TimedCall>, pair: nat, n: nat, m: nat)
    requires Valid(s, n, m) && Within(calls, n, m)
    ensures PairDebt(Run(s, calls).stakes, pair, n) == PairDebt(s.stakes, pair, n) + Paid(s, calls, pair)
    decreases |calls|
  {
    hide Valid, Step, PairDebt, PaidBy;
    if calls != [] {
      var front, last := calls[..|calls| - 1], calls[|calls| - 1];
      PaidIsDebt(s, front, pair, n, m);
      RunKeepsValid(s, front, n, m);
      PaidIsDebtStep(Run(s, front), last, pair, n, m);
    }
  }

  /** The call creates the pair. */
  predicate Creates(s: State, e: TimedCall, pair: nat) {
    e.call.CreatePair? && e.call.pair == pair && Execute(s, e).Success?
  }

  lemma EpochBegins(s: State, e: TimedCall, pair: nat, n: nat, m: nat)
    requires Valid(s, n, m) && Creates(s, e, pair)
    ensures Epoch(Step(s, e), pair, e.block, e.block, map[], n)
    ensures Step(s, e).pairs[pair].emissionsPerBlock == e.call.emissions
  {
    hide GrandStake, PairStake;
    NoOpening(n);
    forall user | 0 <= user < n
      ensures InShare(Step(s, e), pair, e.block, map[], n, user)
    {
      ShareAtRestart(Step(s, e), pair, e.block, map[], n, user);
    }
  }

  lemma {:induction false} NoOpening(n: nat)
    ensures OpeningTotal(map[], n) == 0
  {
    if n > 0 {
      NoOpening(n - 1);
    }
  }

  lemma {:induction false} EpochHolds(s: State, calls: seq<TimedCall>, k: nat, pair: nat, n: nat, m: nat)
    returns (opening: Opening)
    requires Valid(s, n, m) && Within(calls, n, m) && Ordered(calls, 0)
    requires k < |calls| && Creates(Run(s, calls[..k]), calls[k], pair)
    ensures Epoch(Run(s, calls), pair, calls[k].block, calls[|calls| - 1].block, opening, n)
    ensures Run(s, calls).pairs[pair].emissionsPerBlock == calls[k].call.emissions
    decreases |calls|
  {
    hide Valid, Step, Epoch, Creates;
    var front, last := calls[..|calls| - 1], calls[|calls| - 1];
    RunKeepsValid(s, front, n, m);
    if k == |calls| - 1 {
      opening := map[];
      EpochBegins(Run(s, front), last, pair, n, m);
    } else {
      assert front[..k] == calls[..k];
      var before := EpochHolds(s, front, k, pair, n, m);
      assert pair in Run(s, front).pairs by {
        InPairs(Run(s, front), pair, calls[k].block, front[|front| - 1].block, before, n);
      }
      opening := EpochStep(Run(s, front), last, pair, calls[k].block, front[|front| - 1].block, before, n, m);
    }
  }

  lemma InPairs(s: State, pair: nat, created: nat, clock: nat, opening: Opening, n: nat)
    requires Epoch(s, pair, created, clock, opening, n)
    ensures pair in s.pairs
  {
  }

  function UserBound(calls: seq<TimedCall>): (n: nat)
    ensures forall i :: 0 <= i < |calls| ==> UserOf(calls[i].call) < n
  {
    if calls == [] then 0
    else Max(UserBound(calls[..|calls| - 1]), UserOf(calls[|calls| - 1].call) + 1)
  }

  function PairBound(calls: seq<TimedCall>): (m: nat)
    ensures forall i :: 0 <= i < |calls| ==> calls[i].call.pair < m
  {
    if calls == [] then 0 else Max(PairBound(calls[..|calls| - 1]), calls[|calls| - 1].call.pair + 1)
  }

  lemma InitiallyValid(s: State, n: nat, m: nat)
    requires s.stakes == map[] && s.pairs == map[] && s.totalStaked == 0
    ensures Valid(s, n, m)
    ensures forall pair :: PairDebt(s.stakes, pair, n) == 0
  {
    forall pair
      ensures PairDebt(s.stakes, pair, n) == 0
    {
      NoDebt(pair, n);
    }
    NoStake(n, m);
  }

  lemma {:induction false} NoDebt(pair: nat, n: nat)
    ensures PairDebt(map[], pair, n) == 0 && PairStake(map[], pair, n) == 0
  {
    if n > 0 {
      NoDebt(pair, n - 1);
    }
  }

  lemma {:induction false} NoStake(n: nat, m: nat)
    ensures GrandStake(map[], n, m) == 0
  {
    if m > 0 {
      NoStake(n, m - 1);
      NoDebt(m - 1, n);
    }
  }

  /** From initialisation on, across any users, pairs, deposits, withdrawals, claims and governance
      locks: the rewards ever paid for a pair never exceed its emissions per block times the blocks
      since the call that created it. */
  lemma EmissionBound(
    admin: Address, lpToken: Address, rewardToken: Address, tokens: map<Address, Balances>,
    calls: seq<TimedCall>, k: nat, pair: nat)
    requires Ordered(calls, 0) && k < |calls|
    requires Creates(Run(Initialized(admin, lpToken, rewardToken, tokens), calls[..k]), calls[k], pair)
    ensures Paid(Initialized(admin, lpToken, rewardToken, tokens), calls, pair)
         <= calls[k].call.emissions * (calls[|calls| - 1].block - calls[k].block)
  {
    hide Valid, Run, Paid, Epoch, Creates, Debt, Balance, PairDebt;
    var s := Initialized(admin, lpToken, rewardToken, tokens);
    var n, m := UserBound(calls), PairBound(calls);
    InitiallyValid(s, n, m);
    var opening := EpochHolds(s, calls, k, pair, n, m);
    RunKeepsValid(s, calls, n, m);
    EpochBound(Run(s, calls), pair, calls[k].block, calls[|calls| - 1].block, opening, n, m);
    PaidIsDebt(s, calls, pair, n, m);
  }

  /** Nothing is ever paid for a pair that was not created. */
  lemma {:induction false} NothingPaidBeforeCreation(s: State, calls: seq<TimedCall>, pair: nat, n: nat, m: nat)
    requires Valid(s, n, m) && Within(calls, n, m) && pair !in Run(s, calls).pairs
    ensures Paid(s, calls, pair) == 0
    decreases |calls|
  {
    hide Valid;
    if calls != [] {
      var front, last := calls[..|calls| - 1], calls[|calls| - 1];
      PairsGrow(Run(s, front), last, pair);
      NothingPaidBeforeCreation(s, front, pair, n, m);
      RunKeepsValid(s, front, n, m);
      UnknownPairPaysNothing(Run(s, front), last, pair);
    }
  }

  lemma PairsGrow(s: State, e: TimedCall, pair: nat)
    ensures pair in s.pairs ==> pair in Step(s, e).pairs
  {
    hide TruncDiv, Transfer, PendingReward;
  }

  lemma UnknownPairPaysNothing(s: State, e: TimedCall, pair: nat)
    requires pair !in s.pairs
    ensures PaidBy(s, e, pair) == 0
  {
    hide TruncDiv, Transfer;
  }
}
