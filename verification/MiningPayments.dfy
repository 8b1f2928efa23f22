/** Who pays and who is paid in liquidity mining: every balance of every token follows the calls. */
module MiningPayments {
  import opened Common
  import opened Ledger
  import opened FixedPoint
  import opened Mining
  import opened MiningEmission
  import opened MiningRewards

  /** One token moved between two holders, and nothing else did. */
  ghost predicate TokenMoved(s: State, t: State, token: Address, from: Address, to: Address, amount: int) {
    && Moved(TokenBalances(s, token), TokenBalances(t, token), from, to, amount)
    && forall other :: other != token ==> TokenBalances(t, other) == TokenBalances(s, other)
  }

  /** A deposit takes its amount of LP tokens from the user to the contract. */
  lemma ProvidePays(s: State, e: TimedCall)
    requires e.call.Provide? && Execute(s, e).Success?
    ensures TokenMoved(s, Execute(s, e).value.state, s.lpToken, e.call.user, CONTRACT, e.call.amount)
  {
    hide Transfer, Moved;
    TransferMoves(TokenBalances(s, s.lpToken), e.call.user, CONTRACT, e.call.amount);
  }

  /** A withdrawal gives its amount of LP tokens back to the user. */
  lemma WithdrawPays(s: State, e: TimedCall, n: nat, m: nat)
    requires Valid(s, n, m) && e.call.Withdraw? && Execute(s, e).Success?
    ensures TokenMoved(s, Execute(s, e).value.state, s.lpToken, CONTRACT, e.call.user, e.call.amount)
  {
    hide Transfer, Moved, PendingReward, GrandStake;
    WithdrawEffect(s, e, n, m);
    NothingPendingAtRestart(RestartEpoch(s, e.call.pair, e.block).value, e.call.user, e.call.pair, e.block);
    TransferMoves(TokenBalances(s, s.lpToken), CONTRACT, e.call.user, e.call.amount);
  }

  /** A claim, with or without a governance lock, moves what it returns from the contract to the user who calls, in
      the reward token, and no other balance of any token. */
  lemma ClaimPays(s: State, e: TimedCall)
    requires (e.call.ClaimRewards? || e.call.LockForGovernance?) && Execute(s, e).Success?
    ensures Execute(s, e).value.paid > 0
    ensures TokenMoved(s, Execute(s, e).value.state, s.rewardToken, CONTRACT, e.call.user, Execute(s, e).value.paid)
  {
    hide Transfer, Moved, PendingReward;
    TransferMoves(TokenBalances(s, s.rewardToken), CONTRACT, e.call.user, Execute(s, e).value.paid);
  }

  // ---------------------------------------------------------------- whole runs

  /** What a call adds to a holder's balance of a token. */
  function Flow(s: State, e: TimedCall, token: Address, who: Address): int {
    if Execute(s, e).Failure? then 0
    else
      match e.call
      case CreatePair(_, _, _, _) => 0
      case Provide(user, _, amount) => if token == s.lpToken then Shift(user, CONTRACT, amount, who) else 0
      case Withdraw(user, _, amount) => if token == s.lpToken then Shift(CONTRACT, user, amount, who) else 0
      case LockForGovernance(user, _, _) =>
        if token == s.rewardToken then Shift(CONTRACT, user, Execute(s, e).value.paid, who) else 0
      case ClaimRewards(user, _) =>
        if token == s.rewardToken then Shift(CONTRACT, user, Execute(s, e).value.paid, who) else 0
  }

  function TotalFlow(s: State, calls: seq<TimedCall>, token: Address, who: Address): int
    decreases |calls|
  {
    if calls == [] then 0
    else
      var front, last := calls[..|calls| - 1], calls[|calls| - 1];
      TotalFlow(s, front, token, who) + Flow(Run(s, front), last, token, who)
  }

  lemma StepFlows(s: State, e: TimedCall, token: Address, who: Address, n: nat, m: nat)
    requires Valid(s, n, m)
    ensures BalanceOf(TokenBalances(Step(s, e), token), who)
         == BalanceOf(TokenBalances(s, token), who) + Flow(s, e, token, who)
  {
    hide DoProvide, DoWithdraw, DoClaim, DoLock, BalanceOf, TokenBalances, Valid;
    if Execute(s, e).Success? {
      match e.call {
        case CreatePair(_, _, _, _) => CreationMovesNothing(s, e, token);
        case Provide(_, _, _) => ProvidePays(s, e);
        case Withdraw(_, _, _) => WithdrawPays(s, e, n, m);
        case LockForGovernance(_, _, _) => ClaimPays(s, e);
        case ClaimRewards(_, _) => ClaimPays(s, e);
      }
    }
  }

  lemma CreationMovesNothing(s: State, e: TimedCall, token: Address)
    requires e.call.CreatePair?
    ensures TokenBalances(Step(s, e), token) == TokenBalances(s, token)
  {
  }

  /** Over any run, every holder's balance of every token is what it was and what the calls that went through moved:
      deposits from their users, withdrawals and rewards to theirs. */
  lemma {:induction false} BalancesFollowCalls(
    s: State, calls: seq<TimedCall>, token: Address, who: Address, n: nat, m: nat)
    requires Valid(s, n, m) && Within(calls, n, m)
    ensures BalanceOf(TokenBalances(Run(s, calls), token), who)
         == BalanceOf(TokenBalances(s, token), who) + TotalFlow(s, calls, token, who)
    decreases |calls|
  {
    hide Valid, Step, Flow, BalanceOf, TokenBalances;
    if calls != [] {
      var front, last := calls[..|calls| - 1], calls[|calls| - 1];
      BalancesFollowCalls(s, front, token, who, n, m);
      RunKeepsValid(s, front, n, m);
      StepFlows(Run(s, front), last, token, who, n, m);
    }
  }

  /** What a claim or lock for the pair moves into the user's balance of the reward token. */
  function Received(s: State, e: TimedCall, user: Address, pair: nat): int {
    if (e.call.ClaimRewards? || e.call.LockForGovernance?) && e.call.pair == pair then
      BalanceOf(TokenBalances(Step(s, e), s.rewardToken), user) - BalanceOf(TokenBalances(s, s.rewardToken), user)
    else 0
  }

  function TotalReceived(s: State, calls: seq<TimedCall>, user: Address, pair: nat): int
    decreases |calls|
  {
    if calls == [] then 0
    else
      var front, last := calls[..|calls| - 1], calls[|calls| - 1];
      TotalReceived(s, front, user, pair) + Received(Run(s, front), last, user, pair)
  }

  lemma ReceivesWhatIsPaid(s: State, e: TimedCall, user: Address, pair: nat, n: nat, m: nat)
    requires Valid(s, n, m) && user != CONTRACT
    ensures Received(s, e, user, pair) == PaidTo(s, e, user, pair)
  {
    hide DoProvide, DoWithdraw, DoClaim, DoLock, BalanceOf, TokenBalances, Valid;
    if Execute(s, e).Success? {
      match e.call {
        case CreatePair(_, _, _, _) =>
        case Provide(_, _, _) => ProvideEffect(s, e);
        case Withdraw(_, _, _) => WithdrawEffect(s, e, n, m);
        case LockForGovernance(_, _, _) => ClaimPays(s, e);
        case ClaimRewards(_, _) => ClaimPays(s, e);
      }
    }
  }

  /** Over any run, the rewards that reach a user for a pair are exactly those paid to the user, whoever else claims. */
  lemma {:induction false} RewardsReachUsers(s: State, calls: seq<TimedCall>, user: Address, pair: nat, n: nat, m: nat)
    requires Valid(s, n, m) && Within(calls, n, m) && user != CONTRACT
    ensures TotalReceived(s, calls, user, pair) == TotalPaidTo(s, calls, user, pair)
    decreases |calls|
  {
    hide Valid, Step, Received, PaidTo;
    if calls != [] {
      var front, last := calls[..|calls| - 1], calls[|calls| - 1];
      RewardsReachUsers(s, front, user, pair, n, m);
      RunKeepsValid(s, front, n, m);
      ReceivesWhatIsPaid(Run(s, front), last, user, pair, n, m);
    }
  }
}
