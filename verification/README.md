# Verified model of the Stellara contracts and backend services

This project models the parts of the repository whose correctness depends on whole runs of calls, and
proves what they keep, bound, or undo:

- the concentrated-liquidity AMM (`TickMap`, `LiquidityMath`, `SwapMath`, `Fees`, `IlHedge`, `Amm`,
  `AmmContract`, `AmmEffects`, `AmmPayments`, `AmmAcceptance`, `AmmRuns`, `Withdrawals`, `FeeLedger`, `FeeBound`, `FeePayouts`,
  `AmmExamples`),
- liquidity mining (`Mining`, `MiningEmission`, `MiningRewards`, `MiningPayments`, `MiningContract`),
- the workflow saga engine (`WorkflowStates`, `Saga`, `SagaCorrectness`, `SagaCompensation`,
  `SagaAccounts`, `SagaSequences`, `WorkflowEngine`),
- the two rate limiters (`SlidingWindow`, `FixedWindow`),
- academy vesting (`Vesting`, `VestingRuns`, `VestingContract`),
- upgrade governance (`Governance`), hierarchical access control (`Acl`), the circuit breaker and badge
  redemption (`Breaker`, `Rewards`, `RewardsRuns`, `RewardsContract`), and wallet bindings (`Wallet`).

`FixedPoint` holds the integer arithmetic (saturation, truncating division), `Ledger` token balances, and
`Common` optional values, results, timed calls, and small facts about numbers and lists.

## How the model is built

Storage is a value (`State`), and every entry point is a function `Do…` from a state to a new state or
an error; `Execute` selects the entry point, `Step` ignores failing calls (a failing call changes
nothing), and `Run` applies a list of timed calls. Code that updates storage step by step is also
written as a class with those fields, and each method is proved to reach exactly the state and answer
of its `Do…` function, or to leave the fields alone when that fails. The properties are then proved
about the functions: over every state, every call and every run.

Ledger time and block numbers, success or failure of workflow steps and of their compensations, the
row a database look-up returns, and all amounts are inputs, so every result holds for every choice of
them. Token transfers move amounts in a map of balances and abort when the sender holds too little.
Addresses, symbols, hashes and keys are compared for equality only, but for the ascending order in which a
swap names its two tokens. Arithmetic that leaves its integer
type aborts the call where the source uses plain operators, as with overflow checks switched on, and
saturates where it uses `saturating_mul` or `saturating_add`.

## What the proofs show beyond the documentation

- The pool's O(1) fee accumulators agree with a per-tick ledger over all runs. Fees credited stay
  within fees charged while the tick is inside every live range; in general a surplus term remains,
  because `swap` does not adjust the pool's liquidity when it crosses a tick. With it, four calls on a
  new pool can credit any multiple of the fee they charge.
- A swap's token B pays for the rise of the price along the pool's liquidity exactly when it is fair: its
  product of liquidity and price difference fits, or the input after the fee stays below the clamped
  maximum. A clamped swap is reached by two deposits. Below the table selling token A raises the price,
  and such a sale is fair exactly when liquidity times the rise is less than the price; after a deposit
  and a purchase, one that is not pays nearly seven units of token B for each unit of token A.
- From every price of the table a sale of token A ends at the price of the next tick down, however little
  is sold, because the product of the price and 2^64 saturates; it pays out token B for the whole way.
- `create_pool` stores a pool under its tokens as given, and `swap` looks it up in ascending order: a pool
  created with descending tokens takes deposits but never a swap.
- Removing a whole position forfeits the fees it is owed: they are credited and then deleted with it.
- The impermanent-loss estimate is bounded, and withdrawing at an unchanged price returns at most the
  deposit, without any assumption on saturation, in any pieces and whatever is called in between.
- `withdraw_liquidity` never pays a reward: it restarts the pair's epoch before it computes what is
  pending. A governance lock pays the reward in full although its comment speaks of half. The bonus
  tier of a stake is never set, so every reward uses the base multiplier. When stakes and rewards are one
  token, one claim can make a stake unredeemable; and a stake whose product with the pair's emissions
  overflows cannot be withdrawn at all.
- `batch_claim` pays a grant once for each time its id is listed; over runs each grant is paid at most
  once exactly when no successful batch repeats an id. A grant whose end, or whose product of amount
  and time, leaves its integer type is accepted and cannot be claimed for part of its life.
- A step whose compensation failed is passed over by later compensations, so `COMPENSATED` can leave a
  failed step behind; and executing the failed workflow again can make it succeed and be compensated a
  second time. That takes an execution, a compensation, an execution and a compensation in this order, and
  every such sequence has a run that does it; no compensation succeeds twice. `retryWorkflow` cannot resume: it hands over a RUNNING workflow, which the table refuses.
- Negative deposit amounts pass the bridge's limiter and give usage back; twice the limit and whatever
  was given back can be deposited within one window. Setting a limit again forgets the usage.
- Calls in the same millisecond share one entry of the sliding window, so with a limit of two or more any
  number of them passes: the limit is kept in every run exactly when it is at most one.
- The threshold of a proposal is compared with the length of the approver list, so a list with repeats
  can make a proposal that can never be approved. Cancelling is possible until execution, also after
  rejection.
- The tick table has 33 entries and is scanned in order, where its comments speak of 32 entries and a
  binary search.
- Granting and revoking check a pause state that no call of the vesting contract can ever set.
- A role cycle is accepted, and then any question aborts that the roles of a user who reaches the cycle do
  not grant.
- `createUserWithWallet` leaves a user without any wallet when the key is already bound; logging in
  avoids this by looking the key up first.

## Model

| member | source | states |
|---|---|---|
| FixedPoint.SatMul | Contracts/contracts/amm/src/pool.rs:132-138 | a saturating product: exact when it fits 128 signed bits, clamped otherwise, never beyond the exact product for nonnegative factors |
| FixedPoint.SatAdd | Contracts/contracts/amm/src/pool.rs:232-253 | a saturating sum: exact when it fits, never below either nonnegative summand |
| TickMap.Table | Contracts/contracts/amm/src/pool.rs:35-69 | the table's ticks are evenly spaced, its prices increase and are multiples of 512 |
| TickMap.PriceIsExact | Contracts/contracts/amm/src/pool.rs:75-92 | interpolation between table entries loses nothing, and neighbouring segments agree at their common entry |
| TickMap.PriceStrictlyIncreasing | Contracts/contracts/amm/src/pool.rs:75-92 | a higher supported tick always has a strictly higher price |
| TickMap.PriceRange | Contracts/contracts/amm/src/pool.rs:75-92 | every supported tick's price lies between the two end prices of the table |
| TickMap.ScanFinds | Contracts/contracts/amm/src/pool.rs:95-110 | the table scan returns the floor tick inside the table and the nearer end outside it |
| TickMap.SqrtPriceToTick | Contracts/contracts/amm/src/pool.rs:95-110 | for any price the loop returns the tick that has reached exactly the supported ticks whose prices are reached |
| TickMap.FloorInverse | Contracts/contracts/amm/src/pool.rs:75-110 | for every price of the table range, price(tick(p)) <= p < price(tick(p) + 1) below the top |
| TickMap.TickPriceAdjunction | Contracts/contracts/amm/src/pool.rs:75-110 | t <= tick(p) if and only if price(t) <= p, for every price, in the table or not |
| TickMap.TickOfPriceOfTick | Contracts/contracts/amm/src/pool.rs:75-110 | tick(price(t)) = t for every supported tick |
| TickMap.TickMonotone | Contracts/contracts/amm/src/pool.rs:95-110 | a higher price never has a lower tick |
| LiquidityMath.DepositWithinOffer | Contracts/contracts/amm/src/pool.rs:121-182 | the amounts asked for the liquidity an offer buys never exceed the offer, in either token, for all ranges and prices, saturating or not, and asking does not abort |
| LiquidityMath.LiquidityIsLargest | Contracts/contracts/amm/src/pool.rs:153-182 | the liquidity bought is the largest both offered amounts pay for under the two floors |
| LiquidityMath.PiecesWithinWhole | Contracts/contracts/amm/src/pool.rs:121-149 | withdrawing in any pieces at one price pays at most what withdrawing their sum at once pays |
| LiquidityMath.WithdrawalWithinDeposit | Contracts/contracts/amm/src/pool.rs:121-182 | for the amount formulas at one price: the liquidity an offer buys, paid back in any pieces, comes to at most the deposited amounts (Withdrawals.WithdrawalsWithinDeposit says it of runs) |
| SwapMath.StepBounds | Contracts/contracts/amm/src/pool.rs:199-273 | the new price lies between current and target, input plus fee is within the amount, and the step stops short only when it used the amount up, under saturation too |
| SwapMath.FeeIsBasisPoints | Contracts/contracts/amm/src/pool.rs:206-210 | the fee is the given basis points of the whole input, rounded down |
| SwapMath.SellPotential | Contracts/contracts/amm/src/pool.rs:214-241 | a falling price costs the pool no more token B than the liquidity curve says (SwapMath.SellPaysAlongCurve adds that it costs no less) |
| SwapMath.BuyPotential | Contracts/contracts/amm/src/pool.rs:242-264 | a rising price brings in the token B the curve says, less than one unit short, exactly when the step is not clamped |
| SwapMath.StepPotential | Contracts/contracts/amm/src/pool.rs:199-273 | in either direction, for every step that does not abort: token B keeps up with the price along the curve exactly when the step is not clamped |
| SwapMath.PaysNothingIff | Contracts/contracts/amm/src/pool.rs:242-264 | below the price of tick 0 a rising price pays no token A out exactly when liquidity times the rise is less than the price, and exactly when its input says so |
| SwapMath.BuyPaysAlongCurve | Contracts/contracts/amm/src/pool.rs:242-264 | a rising price pays out token A along the curve, never more, and without saturation short of it by rounding only |
| SwapMath.SellTakesAlongCurve | Contracts/contracts/amm/src/pool.rs:214-237 | a falling price that reaches its target takes token A along the curve, and it reaches the target whenever the amount after the fee pays for the way |
| SwapMath.SellPaysAlongCurve | Contracts/contracts/amm/src/pool.rs:214-241 | a sale of token A pays out exactly the floor of liquidity times the fall of the price in token B, or of the largest number when the product saturates |
| SwapMath.SaleReachesTarget | Contracts/contracts/amm/src/pool.rs:224-233 | from prices of 2^63 on a sale ends at its target, however little is sold |
| SwapMath.SellEndsOnCurve | Contracts/contracts/amm/src/pool.rs:224-233 | at lower prices a sale that stops for lack of input ends where the input takes it along the curve, up to two roundings, never past the target |
| SwapMath.BuyTakesAlongCurve | Contracts/contracts/amm/src/pool.rs:242-255 | a purchase takes the floor of liquidity times the way in token B if that is left after the fee, and otherwise what is left, which moves the price by the floor of its worth |
| Fees.Isqrt | Contracts/contracts/amm/src/fees.rs:84-95 | Newton's iteration terminates with the floor of the square root, zero for nonpositive input |
| Fees.NewtonAbove | Contracts/contracts/amm/src/fees.rs:90-93 | a Newton step from any positive guess lands at or above the root |
| Fees.CollectSamples | Contracts/contracts/amm/src/fees.rs:113-125 | the buffer holds exactly the recorded samples of the last 24 periods, newest first, with their sum |
| Fees.SumSquaredDeviations | Contracts/contracts/amm/src/fees.rs:137-143 | the second loop sums the squared deviations of the samples from their mean |
| Fees.ComputeDynamicFee | Contracts/contracts/amm/src/fees.rs:105-153 | the two loops and the root compute the specified fee |
| Fees.Premium | Contracts/contracts/amm/src/fees.rs:148-152 | the premium never exceeds 50 basis points |
| Fees.DynamicFeeWithinPremium | Contracts/contracts/amm/src/fees.rs:105-153 | the fee lies between the tier and the tier plus 50 basis points |
| Fees.FlatPriceHasNoPremium | Contracts/contracts/amm/src/fees.rs:105-153 | when all samples are the same price the fee is the tier |
| Fees.CollectedIsLastPeriods | Contracts/contracts/amm/src/fees.rs:118-125 | the samples read are exactly those recorded for the last periods, each as often as it was recorded |
| Fees.FeeIsDeviation | Contracts/contracts/amm/src/fees.rs:127-153 | for every list of at least two samples with a positive mean the fee is the tier and a tenth of their standard deviation over the mean in basis points, at most 50 |
| Fees.FeeOfFew | Contracts/contracts/amm/src/fees.rs:127-135 | with fewer than two samples, or a mean below one, the fee is the tier |
| Fees.DynamicFeeIs | Contracts/contracts/amm/src/fees.rs:105-153 | whenever it can be computed, the dynamic fee is that of the samples of the last 24 hours |
| IlHedge.LossIsBounded | Contracts/contracts/amm/src/il_hedge.rs:65-95 | the estimate is between -10000 and 0 basis points for every range and price, despite floors and saturation |
| IlHedge.NoLossAtEntry | Contracts/contracts/amm/src/il_hedge.rs:65-95 | at the middle tick's own price the estimated loss is zero |
| IlHedge.EstimateIs | Contracts/contracts/amm/src/il_hedge.rs:65-95 | for every range and price the estimate is two roots of r over one and r, less one, in basis points, each quotient rounded down and each product stopping at the largest number |
| IlHedge.LossAtTwiceTheRoot | Contracts/contracts/amm/src/il_hedge.rs:79-94 | doubling or halving the root of the price ratio loses a fifth |
| IlHedge.MidTickIsMiddle | Contracts/contracts/amm/src/il_hedge.rs:67 | the entry tick is the middle of the range, rounded towards zero |
| IlHedge.ReserveIsOneInTwenty | Contracts/contracts/amm/src/il_hedge.rs:106-117 | a loss of at least two percent locks one part in twenty of each amount, a smaller one nothing |
| IlHedge.ReleaseWithinReserve | Contracts/contracts/amm/src/il_hedge.rs:123-134 | a removal releases at most the reserve, and the whole reserve with the whole position |
| IlHedge.ReleaseIsShare | Contracts/contracts/amm/src/il_hedge.rs:123-134 | a removal releases the floor of the reserve's share for the part removed |
| Ledger.TransferConserves | Contracts/contracts/amm/src/lib.rs:309-317 | a transfer leaves the sum of all balances unchanged |
| Amm.CreatePool | Contracts/contracts/amm/src/lib.rs:205-253 | a pool is created exactly for a supported tier and a positive price, and is well formed |
| Amm.SwapPrice | Contracts/contracts/amm/src/lib.rs:519-540 | within any reachable pool the step's price, fee and amounts are in bounds |
| Amm.Step | Contracts/contracts/amm/src/lib.rs:257-606 | every entry point, failing or not, leaves a well-formed pool: tick of the price, liquidity in range, fee within tier and tier + 50, positive samples, well-formed positions |
| Amm.Run | Contracts/contracts/amm/src/lib.rs:257-606 | so does every run, in particular tier <= dynamic fee <= tier + 50 throughout |
| AmmContract.Pools.CreatePool | Contracts/contracts/amm/src/lib.rs:205-253 | a caller without permission, an unsupported tier, a nonpositive price and a pair that has its pool are refused in this order, and otherwise a pool with the specified state is stored under its tokens |
| AmmContract.Contract.AddLiquidity | Contracts/contracts/amm/src/lib.rs:257-354 | reading, checking, transferring and writing step by step reaches exactly the state and receipt of Amm.DoAdd, or leaves storage untouched with its error |
| AmmContract.Contract.RemoveLiquidity | Contracts/contracts/amm/src/lib.rs:358-439 | the same for Amm.DoRemove: accrual, hedge release, deletion of an emptied position and its index entry |
| AmmContract.Contract.CollectFees | Contracts/contracts/amm/src/lib.rs:443-480 | the same for Amm.DoCollect: accrue, pay what is owed, clear what was paid |
| AmmContract.Contract.Swap | Contracts/contracts/amm/src/lib.rs:484-586 | the same for AmmContract.DoSwapTokens, which finds the pool by its two tokens in ascending order and then acts as Amm.DoSwap: pause check, price sample, one step towards the next tick, fee growth, the crossed boundary, two transfers |
| AmmContract.SwapsNeedAscendingTokens | Contracts/contracts/amm/src/lib.rs:500-508 | a swap between two tokens goes through exactly when the pool was created with those two in ascending order and Amm.DoSwap accepts it, token A being paid in exactly when it is named so |
| AmmContract.Contract.UpdateDynamicFee | Contracts/contracts/amm/src/lib.rs:590-606 | the same for Amm.DoUpdateFee: the fee of the recorded samples becomes the pool's |
| AmmContract.Contract.Pause | Contracts/contracts/amm/src/lib.rs:637-646 | with permission deposits and swaps are paused and nothing else changes; without it the call aborts |
| AmmContract.Contract.Unpause | Contracts/contracts/amm/src/lib.rs:648-657 | with permission deposits and swaps are open again and nothing else changes; without it the call aborts |
| AmmContract.Contract.IndexOwnerPosition | Contracts/contracts/amm/src/position.rs:68-77 | the owner's list gains the new id at its end |
| AmmContract.Contract.DeindexOwnerPosition | Contracts/contracts/amm/src/position.rs:80-94 | the rebuilding loop leaves the owner's list without the id, in order |
| AmmContract.Contract.AccruePositionFees | Contracts/contracts/amm/src/position.rs:155-174 | credits the floor of liquidity times growth per token and moves both checkpoints |
| AmmContract.Contract.GetOwnerPositions | Contracts/contracts/amm/src/position.rs:97-112 | the loop returns the indexed positions still stored, in order |
| AmmEffects.AddEffect | Contracts/contracts/amm/src/lib.rs:257-354 | a deposit takes between the minimum and the offer in both tokens from the caller, opens one fresh position of the caller, and changes no other |
| AmmEffects.RemoveEffect | Contracts/contracts/amm/src/lib.rs:358-439 | only the owner withdraws, gets at least the minimum besides the hedge release, exactly the named liquidity leaves the position, no other position changes |
| AmmEffects.SwapEffect | Contracts/contracts/amm/src/lib.rs:484-586 | a swap takes no more than the input and pays no less than the minimum, in the right tokens, moves the price only towards its target, and touches no position |
| AmmEffects.SwapBooks | Contracts/contracts/amm/src/lib.rs:514-563 | fee growth rises for the input token alone, by the floor of the fee over the liquidity; volume and the period's price sample are recorded |
| AmmEffects.LiquidityFollowsPrice | Contracts/contracts/amm/src/lib.rs:319-410 | deposits and withdrawals change the pool's liquidity exactly when the price lies between the range's end prices |
| AmmEffects.CollectTwice | Contracts/contracts/amm/src/lib.rs:443-480 | collecting again at once pays nothing and changes nothing |
| AmmEffects.AddThenRemove | Contracts/contracts/amm/src/lib.rs:257-439 | withdrawing a fresh position whole returns exactly the deposit besides the hedge release and restores positions and liquidity |
| AmmEffects.TokensConserved | Contracts/contracts/amm/src/lib.rs:257-606 | no run creates or destroys either token |
| AmmEffects.EmptyPoolStaysEmpty | Contracts/contracts/amm/src/lib.rs:205-606 | over any run from creation in which no deposit goes through, the pool is at its first price and tier with nothing in its books, the balances are untouched, and it is paused as last asked |
| AmmEffects.RunKeepsActive | Contracts/contracts/amm/src/lib.rs:319-410 | over any run active liquidity equals liquidity |
| AmmPayments.CollectEffect | Contracts/contracts/amm/src/lib.rs:443-480 | a collection moves what its receipt says of either token from the contract to the position's owner, and touches neither the pool nor any other position |
| AmmPayments.BalancesFollowReceipts | Contracts/contracts/amm/src/lib.rs:257-586 | over any run every holder's balance of either token is what it was and what the receipts say: what callers paid reached the contract, what it paid reached them |
| AmmPayments.CollectionsReachCallers | Contracts/contracts/amm/src/lib.rs:443-480 | over any run the fees paid out by collections leave the contract and reach the callers, each his own |
| AmmPayments.FirstCollection | Contracts/contracts/amm/src/lib.rs:257-480 | the first collection after a deposit pays the floor of the position's liquidity times the fee growth of exactly the swaps since then that ended in its range |
| AmmPayments.SaleEffect | Contracts/contracts/amm/src/lib.rs:484-586 | a sale from inside the table ends at the price of the next tick down and pays the caller the floor of liquidity times that fall in token B, for token A along the curve at most |
| AmmPayments.PurchaseEffect | Contracts/contracts/amm/src/lib.rs:484-586 | what a purchase takes in token B, where it takes the price, and what it pays in token A, along the liquidity and with rounding bounds, moved between the caller and the contract |
| AmmPayments.DepositAlongCurve | Contracts/contracts/amm/src/lib.rs:257-317 | a deposit takes what its liquidity is worth: in token B the exact floor, in token A the floor of two divisions |
| AmmPayments.WithdrawalAlongCurve | Contracts/contracts/amm/src/lib.rs:358-439 | a withdrawal pays what its liquidity is worth, and the floor of the reserve's share for the part withdrawn |
| AmmPayments.DepositLocks | Contracts/contracts/amm/src/lib.rs:339-345 | a deposit locks one part in twenty of each amount when the estimated loss is at least two percent, and otherwise nothing |
| AmmPayments.UpdateEffect | Contracts/contracts/amm/src/lib.rs:590-606 | an update changes the fee alone, to what the samples of the last 24 hours call for |
| AmmAcceptance.AddIsAcceptedIff | Contracts/contracts/amm/src/lib.rs:257-354 | when a deposit goes through |
| AmmAcceptance.CollectIsAcceptedIff | Contracts/contracts/amm/src/lib.rs:443-480 | when a collection goes through, and that it pays what is owed and the floor of the growth since |
| AmmAcceptance.RemoveIsAcceptedIff | Contracts/contracts/amm/src/lib.rs:358-439 | when a withdrawal goes through |
| AmmAcceptance.SwapIsAcceptedIff | Contracts/contracts/amm/src/lib.rs:484-586 | when a swap goes through |
| AmmAcceptance.UpdateIsAcceptedIff | Contracts/contracts/amm/src/lib.rs:590-606 | an update is refused only when a sum over the samples overflows |
| FeeLedger.TickOnTheWay | Contracts/contracts/amm/src/lib.rs:519-557 | a swap moves the tick by at most one in its direction, and the boundary it mirrors is the higher of the two ticks |
| FeeLedger.MirrorBelow | Contracts/contracts/amm/src/pool.rs:320-349 | mirroring the crossed tick changes the growth below every tick by the swap's own increment only |
| FeeLedger.StepInside | Contracts/contracts/amm/src/pool.rs:320-349 | one call changes the growth inside a range by its increment exactly when it ends in the range |
| FeeLedger.InsideFollowsLedger | Contracts/contracts/amm/src/pool.rs:320-349 | over any run from any state the growth inside a range moves as the per-tick ledger says |
| FeeLedger.AccumulatorsRefineLedger | Contracts/contracts/amm/src/pool.rs:320-349 | from creation on, the constant-time reading equals the sum of the increments of the swaps that ended in the range |
| FeeLedger.AccumulatorsInRange | Contracts/contracts/amm/src/pool.rs:308-349 | every stored number lies between zero and the global growth, so no reading overflows |
| FeeBound.FeeCoversGrowth | Contracts/contracts/amm/src/fees.rs:164-175 | growth times the liquidity it was computed for is within the fee |
| FeeBound.CreditWithinClaim | Contracts/contracts/amm/src/position.rs:155-174 | the floored credit never exceeds the growth it settles |
| FeeBound.RunBalanced | Contracts/contracts/amm/src/lib.rs:257-606 | over any run, credits plus remaining claims are within earlier claims plus fees plus the surplus of tick crossings |
| FeeBound.CreditsWithinFees | Contracts/contracts/amm/src/lib.rs:257-606 | from creation on, fees credited exceed fees charged by no more than that surplus |
| FeeBound.CoveredHasNoSurplus | Contracts/contracts/amm/src/lib.rs:542-563 | a swap that ends inside every live range has no surplus |
| FeeBound.FeesAreBounded | Contracts/contracts/amm/src/lib.rs:257-606 | while the tick stays inside every live range, pool liquidity is the sum of live liquidity and fees ever credited never exceed fees ever charged |
| FeePayouts.CollectPaysAll | Contracts/contracts/amm/src/lib.rs:443-480 | collecting pays exactly what was owed and has accrued since, and leaves nothing owed |
| FeePayouts.RemoveKeepsOwed | Contracts/contracts/amm/src/lib.rs:380-429 | removing part of a position keeps its fees owed, removing the whole forfeits them |
| FeePayouts.PayoutsAreBounded | Contracts/contracts/amm/src/lib.rs:257-606 | from creation on, fees paid out, forfeited and still owed add up to the fees credited, and while the tick stays inside every live range payouts never exceed the fees charged |
| AmmRuns.SwapMovesTokenB | Contracts/contracts/amm/src/lib.rs:567-572 | the contract's balance of token B moves by the amounts on the receipt |
| AmmRuns.SwapPotential | Contracts/contracts/amm/src/lib.rs:484-586 | for every swap that goes through: the pool's token B keeps up with the price exactly when the swap is fair, which is said of its input |
| AmmRuns.SaleBelowTable | Contracts/contracts/amm/src/lib.rs:519-540 | a sale of token A below the table raises the price, and keeps up exactly when liquidity times the rise is less than the price, and exactly when the input says so |
| AmmRuns.TokenBPotential | Contracts/contracts/amm/src/pool.rs:199-273 | over any run at fixed liquidity L whose swaps are fair, 2^64 times the token B received is at least L (P_end - P_start) - n (2^64 - 1) for n swaps that go through |
| AmmRuns.RoundTripLoss | Contracts/contracts/amm/src/pool.rs:199-273 | such a run ending at or above its start price loses fewer than n units of token B for n swaps that go through |
| AmmRuns.RemoveReleases | Contracts/contracts/amm/src/lib.rs:398-402 | the release is within the reserve, so the clamp at zero never acts |
| AmmRuns.HedgeConserved | Contracts/contracts/amm/src/lib.rs:339-402 | over any run, locked reserve is released reserve plus what remains, per token |
| AmmRuns.IndexKept | Contracts/contracts/amm/src/position.rs:68-94 | over any run the index lists an owner's live positions, each once |
| AmmRuns.OwnerQueryIsExact | Contracts/contracts/amm/src/position.rs:97-112 | in every reachable state the query returns all live positions of the owner, each once, and no other |
| Withdrawals.StepPosition | Contracts/contracts/amm/src/lib.rs:257-606 | the range of a stored position never changes, its liquidity only by its own withdrawals, and an id is never given out again |
| Withdrawals.AccountsHold | Contracts/contracts/amm/src/lib.rs:358-439 | over any run the pieces withdrawn from a position at one price add up to what left it, and pay what the formula pays for those pieces |
| Withdrawals.WithdrawalsWithinDeposit | Contracts/contracts/amm/src/lib.rs:257-439 | after a deposit, in any run whose withdrawals from its position are made at the deposit's price, they pay in total at most the deposit besides the hedge releases, in each token |
| AmmExamples.AddGoesThrough | Contracts/contracts/amm/src/lib.rs:257-354 | an open pool far from overflow accepts every deposit of token A that buys liquidity and that its owner holds |
| AmmExamples.CreditsExceedCharges | Contracts/contracts/amm/src/lib.rs:542-563 | for every n up to a million million, a run of four calls from creation charges a fee of 30 and credits at least 30 n |
| AmmExamples.ClampedSwapFails | Contracts/contracts/amm/src/pool.rs:242-264 | after two deposits into a new pool a clamped swap goes through and its token B does not pay for the rise of the price |
| AmmExamples.SaleBelowTableFails | Contracts/contracts/amm/src/lib.rs:484-586 | after a deposit and a purchase below the table a sale of 10,000 token A goes through, raises the price and pays 67,401 token B |
| MiningContract.Contract.constructor | Contracts/contracts/liquidity-mining/src/lib.rs:140-193 | initial storage |
| MiningContract.Contract.CreatePair | Contracts/contracts/liquidity-mining/src/lib.rs:196-258 | a pair is stored exactly as Mining.DoCreatePair says, or nothing changes |
| MiningContract.Contract.ProvideLiquidity | Contracts/contracts/liquidity-mining/src/lib.rs:261-338 | epoch restart, transfer, stake and total change as in Mining.DoProvide, or nothing does |
| MiningContract.Contract.WithdrawLiquidity | Contracts/contracts/liquidity-mining/src/lib.rs:341-429 | epoch restart first, then pending reward, stake, total and transfer as in Mining.DoWithdraw, or nothing changes |
| MiningContract.Contract.LockRewardsForGovernance | Contracts/contracts/liquidity-mining/src/lib.rs:432-479 | half the pending reward becomes power and all of it is paid, as in Mining.DoLock, or nothing changes |
| MiningContract.Contract.ClaimRewards | Contracts/contracts/liquidity-mining/src/lib.rs:482-498 | the pending reward is paid and recorded as debt, as in Mining.DoClaim, or nothing changes |
| MiningContract.Contract.CalculatePendingReward | Contracts/contracts/liquidity-mining/src/lib.rs:642-680 | computes the specified pending reward, or aborts where a product overflows |
| MiningContract.Contract.ClaimRewardsInternal | Contracts/contracts/liquidity-mining/src/lib.rs:590-640 | pays the reward and raises the debt, or changes nothing |
| MiningContract.Contract.UpdatePairRewards | Contracts/contracts/liquidity-mining/src/lib.rs:682-694 | restarts the pair's epoch |
| MiningEmission.WithdrawEffect | Contracts/contracts/liquidity-mining/src/lib.rs:341-429 | a withdrawal pays no reward, takes exactly its amount from stake and total, and restarts the epoch |
| MiningEmission.ClaimEffect | Contracts/contracts/liquidity-mining/src/lib.rs:432-498 | a claim or lock raises the debt by what it pays and touches nothing else of the stakes |
| MiningEmission.RunKeepsValid | Contracts/contracts/liquidity-mining/src/lib.rs:261-498 | over any run the global total is the sum of all stakes and no stake or debt is negative |
| MiningEmission.EpochBound | Contracts/contracts/liquidity-mining/src/lib.rs:642-680 | within an epoch the debts of a pair are within emissions since its creation |
| MiningEmission.EpochStep | Contracts/contracts/liquidity-mining/src/lib.rs:261-498 | every call keeps the epoch's potential invariant |
| MiningEmission.PaidIsDebt | Contracts/contracts/liquidity-mining/src/lib.rs:590-640 | over any run what was paid for a pair is what the stakes record as debt |
| MiningEmission.EmissionBound | Contracts/contracts/liquidity-mining/src/lib.rs:261-694 | total rewards ever paid for a pair never exceed emissions per block times blocks since its creation, over all users, pairs and calls |
| MiningEmission.NothingPaidBeforeCreation | Contracts/contracts/liquidity-mining/src/lib.rs:642-680 | a pair that does not exist has paid nothing |
| MiningRewards.PaidWithinLongestEpoch | Contracts/contracts/liquidity-mining/src/lib.rs:590-694 | over any run, what one user is paid for a pair stays within the pair's emissions over its single longest epoch |
| MiningRewards.ClaimIsPaidIff | Contracts/contracts/liquidity-mining/src/lib.rs:482-498 | a claim goes through exactly when more was earned than paid so far, the contract holds it and no product overflows, and pays exactly the share of the epoch's emission less the debt |
| MiningRewards.SoleStakerEarnsAll | Contracts/contracts/liquidity-mining/src/lib.rs:671-673 | the only staker of the contract earns all of a pair's emission |
| MiningRewards.LockPaysInFull | Contracts/contracts/liquidity-mining/src/lib.rs:432-479 | a lock of 1 to 365 days goes through exactly when a claim does and the power has room, pays what the claim pays and credits half of it as power |
| MiningRewards.PowerIsHalves | Contracts/contracts/liquidity-mining/src/lib.rs:432-479 | after any run a user's governance power is the sum of the halves of what the user's locks paid |
| MiningRewards.PairsAreThoseCreated | Contracts/contracts/liquidity-mining/src/lib.rs:196-258 | over any run the stored pairs are exactly those some call created, and all stay active |
| MiningRewards.TermsAreAsCreated | Contracts/contracts/liquidity-mining/src/lib.rs:196-258 | in every run a pair keeps the emissions and budget of the call that created it |
| MiningRewards.PairIsCreatedOnce | Contracts/contracts/liquidity-mining/src/lib.rs:196-258 | after any run a creation goes through exactly when the admin asks with positive amounts for a pair that no earlier call created |
| MiningRewards.DepositIsAccepted | Contracts/contracts/liquidity-mining/src/lib.rs:261-338 | after any run a deposit goes through exactly when some call created the pair, the user holds the positive amount, and the total of all stakes has room for it |
| MiningRewards.RunKeepsCustody | Contracts/contracts/liquidity-mining/src/lib.rs:261-429 | over any run the LP tokens held move exactly with the total staked |
| MiningRewards.WithdrawalIsPaidIff | Contracts/contracts/liquidity-mining/src/lib.rs:341-429 | whatever the tokens, a withdrawal goes through exactly for a positive part of the user's own stake that the contract holds, if the stake times the emissions fits |
| MiningRewards.StakesAreRedeemable | Contracts/contracts/liquidity-mining/src/lib.rs:341-429 | with distinct tokens, at any moment of any run a withdrawal goes through exactly for a positive part of the user's own stake, if the stake times the emissions fits |
| MiningRewards.RewardsEatStakes | Contracts/contracts/liquidity-mining/src/lib.rs:590-640 | with one token for both, for every stake and every emission up to it, the only staker claims once and can then no longer withdraw the stake |
| MiningPayments.ClaimPays | Contracts/contracts/liquidity-mining/src/lib.rs:590-640 | a claim or lock moves what it returns from the contract to the user who calls, in the reward token, and no other balance of any token |
| MiningPayments.WithdrawPays | Contracts/contracts/liquidity-mining/src/lib.rs:341-429 | a withdrawal moves its amount of LP tokens from the contract to the user, and nothing else |
| MiningPayments.ProvidePays | Contracts/contracts/liquidity-mining/src/lib.rs:261-338 | a deposit moves its amount of LP tokens from the user to the contract, and nothing else |
| MiningPayments.BalancesFollowCalls | Contracts/contracts/liquidity-mining/src/lib.rs:261-498 | over any run every holder's balance of every token is what it was and what the calls that went through moved |
| MiningPayments.RewardsReachUsers | Contracts/contracts/liquidity-mining/src/lib.rs:590-640 | over any run the rewards that reach a user for a pair are exactly those paid to the user |
| WorkflowEngine.Service.StartWorkflow | Backend/src/workflow/services/workflow-execution.service.ts:47-112 | an unknown kind is refused, a key that was started is answered with its workflow, and otherwise a new workflow is created and executed |
| WorkflowEngine.StartedOnce | Backend/src/workflow/services/workflow-execution.service.ts:65-79 | over any sequence of starts a key's workflow is executed exactly once, by the first request that names a known kind |
| WorkflowEngine.StartedWorkflow | Backend/src/workflow/services/workflow-execution.service.ts:82-159 | a started workflow is COMPLETED exactly when every step of its definition succeeds within its retries, three where none or zero are given, and compensating it then reaches exactly the succeeded steps its definition can compensate |
| WorkflowEngine.Engine.constructor | Backend/src/workflow/services/workflow-execution.service.ts:82-104 | a new workflow is PENDING with one fresh step per definition and its retries, three where none or zero are given |
| WorkflowEngine.Engine.ExecuteWorkflow | Backend/src/workflow/services/workflow-execution.service.ts:117-159 | the service method writes the specified states, in order |
| WorkflowEngine.Engine.ExecuteSteps | Backend/src/workflow/services/workflow-execution.service.ts:164-179 | the loop runs the steps by index up to the first error |
| WorkflowEngine.Engine.ExecuteStep | Backend/src/workflow/services/workflow-execution.service.ts:184-286 | one step with its recursive retries |
| WorkflowEngine.Engine.CompensateWorkflow | Backend/src/workflow/services/compensation.service.ts:25-90 | filter, sort and loop of the compensation |
| WorkflowEngine.Engine.StepsToCompensate | Backend/src/workflow/services/compensation.service.ts:59-64 | the completed compensable steps, by descending index |
| WorkflowEngine.Engine.CompensateStep | Backend/src/workflow/services/compensation.service.ts:95-139 | one compensation and its writes |
| WorkflowEngine.Engine.CancelWorkflow | Backend/src/workflow/services/workflow-execution.service.ts:381-403 | cancels exactly when the table allows it |
| SagaCorrectness.StepRuns | Backend/src/workflow/services/workflow-execution.service.ts:184-286 | a step is tried until its first success or until its retries are used up, with exactly that many attempts |
| SagaCorrectness.StepsRun | Backend/src/workflow/services/workflow-execution.service.ts:164-179 | a completed prefix, one exhausted step or none, an untouched suffix |
| SagaCorrectness.ExecutionOutcome | Backend/src/workflow/services/workflow-execution.service.ts:117-286 | from PENDING with fresh steps, for any environment: COMPLETED exactly when every step would succeed within its retries, each success once and in order, at most max(1, maxRetries) attempts a step; otherwise FAILED with prefix, exhausted step, untouched suffix |
| SagaCorrectness.WritesFollowTables | Backend/src/workflow/services/workflow-state-machine.service.ts:9-56 | in any sequence of executions, compensations and cancellations every written state is allowed by its table |
| SagaCompensation.ToCompensateIs | Backend/src/workflow/services/compensation.service.ts:59-64 | the list holds exactly the completed compensable steps, in strictly descending order |
| SagaCompensation.CompensationOutcome | Backend/src/workflow/services/compensation.service.ts:25-139 | compensations tried are that list, all of them exactly when none fails and otherwise up to the first that fails; COMPENSATED or FAILED accordingly |
| SagaCompensation.SagaRoundTrip | Backend/src/workflow/services/compensation.service.ts:25-139 | after an execution, COMPENSATED means exactly the steps that succeeded and need it were compensated, last first, and are marked |
| SagaCompensation.FailedCompensationIsPassedOver | Backend/src/workflow/services/compensation.service.ts:57-89 | a step whose compensation failed is not tried again, and the workflow can still end COMPENSATED |
| SagaAccounts.EverySuccessIsAccounted | Backend/src/workflow/services/workflow-execution.service.ts:117-286 | in any sequence of calls, re-executions included, a step's successes are its compensations plus one exactly while it is completed |
| SagaAccounts.CompletedMeansAllRan | Backend/src/workflow/services/workflow-execution.service.ts:117-179 | an execution ends COMPLETED only if it ran every step itself, so a kept completed step makes re-execution fail |
| SagaAccounts.RunningIsNotResumed | Backend/src/workflow/services/workflow-execution.service.ts:340-376 | only a PENDING or FAILED workflow is changed by executing it |
| SagaAccounts.CompensatedIsFinal | Backend/src/workflow/services/workflow-state-machine.service.ts:29-47 | a compensated workflow never changes again |
| SagaSequences.CanRepeatIff | Backend/src/workflow/services/compensation.service.ts:25-139 | over all new workflows and environments, a sequence of executions, compensations and cancellations can try a step's compensation twice if and only if there are, in this order, an execution with no cancellation before it, a compensation, an execution with no cancellation since the last compensation, and a compensation |
| SagaSequences.CanRepeatInTurn | Backend/src/workflow/services/compensation.service.ts:25-139 | without cancellations: if and only if an execution, a compensation, an execution and a compensation occur in this order |
| SagaSequences.FailingRun | Backend/src/workflow/services/compensation.service.ts:95-139 | for every such sequence, any new workflow with as many compensable steps as there are compensations in between repeats one, when attempts succeed and compensations fail |
| SagaSequences.NoStepCompensatedTwice | Backend/src/workflow/services/compensation.service.ts:25-139 | compensations after all executions, with cancellations anywhere, try no step twice and only steps that succeeded |
| SagaSequences.NoStepRevertedTwice | Backend/src/workflow/services/workflow-state-machine.service.ts:9-56 | in any sequence of calls no step is successfully compensated twice, as a compensated step never changes |
| SlidingWindow.RateLimiter.CheckRateLimit | Backend/src/auth/services/rate-limit.service.ts:8-51 | expiry, removal, count, and denial or insertion give the set and the answer of SlidingWindow.CheckStored |
| SlidingWindow.RateLimiter.ResetRateLimit | Backend/src/auth/services/rate-limit.service.ts:63-71 | empties the set |
| SlidingWindow.ExpiryIsInvisible | Backend/src/auth/services/rate-limit.service.ts:44-45 | key expiry never changes an answer or what a check leaves |
| SlidingWindow.RunTracks | Backend/src/auth/services/rate-limit.service.ts:8-51 | after any run in the order of time the set holds exactly the stamps of the allowed calls of the last window |
| SlidingWindow.StampGuarantee | Backend/src/auth/services/rate-limit.service.ts:8-51 | in every run in the order of time, every interval one window long holds allowed calls of at most limit different stamps |
| SlidingWindow.WindowGuarantee | Backend/src/auth/services/rate-limit.service.ts:8-51 | where stamps differ, or the limit is at most one, every interval one window long holds at most limit allowed calls |
| SlidingWindow.GuaranteedIff | Backend/src/auth/services/rate-limit.service.ts:8-51 | over all runs in the order of time the limit is kept if and only if it is at most one |
| SlidingWindow.ResetIsExact | Backend/src/auth/services/rate-limit.service.ts:26-39 | after a denial every call before the returned time is denied and a call at it is allowed |
| SlidingWindow.RemainingIsExact | Backend/src/auth/services/rate-limit.service.ts:41-51 | the remaining count is what the limit leaves after the different stamps of the window, one less when this stamp was there already; the returned time is when this call's own place is free again |
| SlidingWindow.NoLimitDenies | Backend/src/auth/services/rate-limit.service.ts:26-39 | with a limit of zero or less every call of every run is denied, with a reset one window ahead |
| SlidingWindow.EqualStampsEscape | Backend/src/auth/services/rate-limit.service.ts:41-42 | for every limit of at least two, every window and stamp, any number of calls at that stamp is allowed |
| FixedWindow.Bridge.SetRateLimit | Contracts/contracts/cross-chain-router/src/bridge.rs:153-164 | stores a limit with a fresh window |
| FixedWindow.Bridge.SetPaused | Contracts/contracts/cross-chain-router/src/bridge.rs:166-171 | pauses or resumes deposits |
| FixedWindow.Bridge.Deposit | Contracts/contracts/cross-chain-router/src/bridge.rs:68-94 | a deposit is accepted exactly when FixedWindow.DoDeposit accepts it, and an aborted one changes nothing |
| FixedWindow.Bridge.CheckLimit | Contracts/contracts/cross-chain-router/src/bridge.rs:181-197 | the asset's record is restarted, checked and written back as CheckRateLimit says; a refused amount or an overflow leaves it untouched |
| FixedWindow.WindowsHold | Contracts/contracts/cross-chain-router/src/bridge.rs:181-197 | stored usage is what was accepted since the window began |
| FixedWindow.FixedWindowBound | Contracts/contracts/cross-chain-router/src/bridge.rs:181-197 | for any amounts and a limit set once, any stretch no longer than the window accepts at most twice the limit and the usage given back in the window before it |
| FixedWindow.SettingALimitBoundsDeposits | Contracts/contracts/cross-chain-router/src/bridge.rs:153-197 | with nonnegative amounts at most twice the limit, told from the call that sets it |
| FixedWindow.RefusedOnlyOverLimit | Contracts/contracts/cross-chain-router/src/bridge.rs:181-197 | a deposit is refused exactly when it would lift the current window over the limit or a sum overflows |
| FixedWindow.RefusedAfterSetting | Contracts/contracts/cross-chain-router/src/bridge.rs:153-197 | the same, with the limit and window of the call that set them |
| FixedWindow.BoundIsReached | Contracts/contracts/cross-chain-router/src/bridge.rs:181-197 | for every limit, window and amount given back, twice the limit and that amount is reached around a reset |
| FixedWindow.SettingForgetsUsage | Contracts/contracts/cross-chain-router/src/bridge.rs:153-164 | setting a limit n times accepts n times the limit at one moment, so the bound needs a limit set once |
| VestingContract.Contract.GrantVesting | Contracts/contracts/academy/src/vesting.rs:206-304 | the schedule and counter are written as in Vesting.DoGrant, or nothing is |
| VestingContract.Contract.Claim | Contracts/contracts/academy/src/vesting.rs:307-365 | the grant is marked claimed and paid as in Vesting.DoClaim, or nothing changes |
| VestingContract.Contract.BatchClaim | Contracts/contracts/academy/src/vesting.rs:368-437 | the collecting loop over the unmodified map and the settling loop together give Vesting.DoBatchClaim, or nothing changes |
| VestingContract.Contract.SettleAll | Contracts/contracts/academy/src/vesting.rs:409-434 | the settling loop, all or nothing |
| VestingContract.Contract.Revoke | Contracts/contracts/academy/src/vesting.rs:440-507 | the grant is marked revoked as in Vesting.DoRevoke, or nothing changes |
| VestingRuns.VestedMonotone | Contracts/contracts/academy/src/vesting.rs:527-559 | the vested amount lies between zero and the grant and never falls |
| VestingRuns.VestedIsLinear | Contracts/contracts/academy/src/vesting.rs:527-559 | nothing before the cliff, all from the end on, and in between the floor of the amount in proportion to the time since the cliff; and exactly when it can be read |
| VestingRuns.NeverAborts | Contracts/contracts/academy/src/vesting.rs:527-559 | the schedules whose vested amount can always be read are exactly those whose end and largest product fit |
| VestingRuns.BatchActsAsClaims | Contracts/contracts/academy/src/vesting.rs:368-437 | a batch of distinct ids that passes its checks does what single claims do |
| VestingRuns.BatchRefinesClaims | Contracts/contracts/academy/src/vesting.rs:307-437 | single claims one by one go through exactly when the batch does and repeats no id, with the same state, payments and total |
| VestingRuns.BatchPaysPerOccurrence | Contracts/contracts/academy/src/vesting.rs:396-432 | a batch pays an id once for each time it is listed |
| VestingRuns.RepeatedIdIsPaidTwice | Contracts/contracts/academy/src/vesting.rs:396-432 | a batch that lists a claimable id twice pays it twice, where the second of two claims fails |
| VestingRuns.GrantIsAcceptedIff | Contracts/contracts/academy/src/vesting.rs:206-304 | when a grant is accepted, the pause check included, and that it stores its terms under an unused id |
| VestingRuns.ClaimIsPaidIff | Contracts/contracts/academy/src/vesting.rs:128-155 | a claim is paid exactly when its beneficiary asks, it was never paid nor revoked, something has vested and the contract can pay |
| VestingRuns.RevokeIsAcceptedIff | Contracts/contracts/academy/src/vesting.rs:440-507 | when a revocation is accepted, the pause check included, what it writes, and that the grant cannot be claimed afterwards |
| VestingRuns.OnlyTheEntitledAct | Contracts/contracts/academy/src/vesting.rs:206-507 | only the admin grants and revokes, only the beneficiary claims |
| VestingRuns.RunKeepsBooks | Contracts/contracts/academy/src/vesting.rs:206-507 | over any run no grant is both claimed and revoked, none is revoked within an hour of its start, every payment is what had linearly vested of its grant, to its beneficiary, grants paid are grants claimed, and terms never change |
| VestingRuns.RunPaysOnce | Contracts/contracts/academy/src/vesting.rs:307-437 | over any run each grant is paid at most once exactly when no successful batch repeats an id |
| VestingRuns.BooksFromStart | Contracts/contracts/academy/src/vesting.rs:160-507 | from initialisation on the books are in order, and each grant is paid at most once exactly when no successful batch repeats an id |
| VestingRuns.NeverPaused | Contracts/contracts/academy/src/vesting.rs:206-507 | over any run from initialisation the contract is never paused |
| VestingRuns.RunConservesTokens | Contracts/contracts/academy/src/vesting.rs:307-437 | no run creates or destroys tokens |
| VestingRuns.BalancesFollowPayments | Contracts/contracts/academy/src/vesting.rs:307-437 | over any run every holder's balance is what it was, what others moved, and the recorded payments, each to its beneficiary |
| Governance.Manager.ProposeUpgrade | Contracts/shared/src/governance.rs:91-151 | a proposal is stored under the next number as in Governance.DoPropose, or nothing is |
| Governance.Manager.ApproveProposal | Contracts/shared/src/governance.rs:154-211 | approval recorded, count raised, status moved at the threshold, as in Governance.DoApprove, or nothing changes |
| Governance.Manager.ExecuteProposal | Contracts/shared/src/governance.rs:214-251 | the proposal becomes executed as in Governance.DoEnact, or nothing changes |
| Governance.Manager.RejectProposal | Contracts/shared/src/governance.rs:254-281 | a pending proposal becomes rejected as in Governance.DoReject, or nothing changes |
| Governance.Manager.CancelProposal | Contracts/shared/src/governance.rs:284-311 | an unexecuted proposal becomes cancelled as in Governance.DoCancel, or nothing changes |
| Governance.RunKeepsSound | Contracts/shared/src/governance.rs:91-311 | over any run the count is the number of distinct recorded approvers, all listed; approved or executed means count = threshold >= 1; pending means short of it |
| Governance.ProposalsAreNumbered | Contracts/shared/src/governance.rs:91-151 | over any run from deployment the proposals are numbered one to their count without gaps, each made by the admin's call with that number, whose terms it still has |
| Governance.ExecutableIff | Contracts/shared/src/governance.rs:214-251 | a proposal is executable exactly when approved and from its execution time on, by anyone |
| Governance.ApprovableIff | Contracts/shared/src/governance.rs:154-211 | when an approval is accepted, and what it records |
| Governance.ClosableIff | Contracts/shared/src/governance.rs:254-311 | when a rejection and when a cancellation is accepted |
| Governance.StatusHasCause | Contracts/shared/src/governance.rs:73-311 | a status changes only by the right call, by someone with the right role, execution only after the delay |
| Governance.LifeOfAProposal | Contracts/shared/src/governance.rs:154-311 | over any run terms never change, Executed is final, and a rejected or cancelled proposal never becomes approved or executed |
| Governance.ExecutionWaits | Contracts/shared/src/governance.rs:214-251 | whatever is executed was executed by a call at or after creation plus delay, when approved |
| Governance.ApprovalNeedsDistinctApprovers | Contracts/shared/src/governance.rs:104-107 | a list naming fewer different approvers than the threshold is never approved |
| Acl.Store.CreateRole | Contracts/shared/src/acl.rs:22-32 | records the role |
| Acl.Store.AssignRole | Contracts/shared/src/acl.rs:45-65 | role and assignment are recorded as in Acl.DoAssignRole |
| Acl.Store.AssignPermission | Contracts/shared/src/acl.rs:67-87 | role and permission are recorded as in Acl.DoAssignPermission |
| Acl.Store.AssignPermissionsBatch | Contracts/shared/src/acl.rs:89-97 | the loop is the fold of the single form |
| Acl.Store.SetParentRole | Contracts/shared/src/acl.rs:99-121 | both roles and the parent are recorded; only a role as its own parent is refused, changing nothing |
| Acl.Store.Permits | Contracts/shared/src/acl.rs:133-161 | the scan over the user's roles |
| Acl.Store.WalkUp | Contracts/shared/src/acl.rs:163-188 | the recursive walk with its inner loop |
| Acl.CheckRoleIsExact | Contracts/shared/src/acl.rs:163-188 | on every parent map, cycles included: granted exactly when found among the first eleven roles, aborted exactly when not found there and a twelfth follows |
| Acl.FirstThatDecides | Contracts/shared/src/acl.rs:154-160 | the answer is that of the first role that does not refuse |
| Acl.HasPermissionIsReachability | Contracts/shared/src/acl.rs:133-188 | whenever there is an answer it is reachability, and chains of at most eleven roles always give one |
| Acl.RunKeepsGranted | Contracts/shared/src/acl.rs:45-97 | over any run that leaves parents alone a granted permission stays granted |
| Acl.ReparentingTakesAway | Contracts/shared/src/acl.rs:99-121 | a new parent can take a permission away |
| Acl.AssignRoleEffect | Contracts/shared/src/acl.rs:45-65 | an assignment adds the role once, at the end, and changes nothing else |
| Acl.AssignedRoleIsGranted | Contracts/shared/src/acl.rs:45-188 | with short chains, an assigned role grants all it reaches |
| Acl.BatchIsEach | Contracts/shared/src/acl.rs:89-97 | a nonempty batch equals folding the single form |
| Acl.BatchAssigns | Contracts/shared/src/acl.rs:67-97 | a batch adds exactly its permissions to its role and touches no other |
| Acl.RunKeepsTidy | Contracts/shared/src/acl.rs:22-121 | over any run every named role exists, no list repeats an entry, no role is its own parent |
| Acl.UngrantedAbortsIff | Contracts/shared/src/acl.rs:133-188 | a question that none of the user's roles grants aborts exactly when some role of the user starts a chain of more than eleven roles, and is refused otherwise |
| Acl.CyclesAbort | Contracts/shared/src/acl.rs:133-188 | for any parents: when a role of the user runs into a cycle, every question the user's roles do not grant aborts |
| Acl.CyclesAreAccepted | Contracts/shared/src/acl.rs:99-121 | in every state two roles can be made each other's parent |
| Breaker.CircuitBreaker.IsPaused | Contracts/shared/src/circuit_breaker.rs:56-74 | when a function is paused |
| Breaker.CircuitBreaker.TrackActivity | Contracts/shared/src/circuit_breaker.rs:77-118 | period restart, counting and trip give Breaker.Track, or nothing changes when the clock overflows |
| Breaker.CircuitBreaker.SetPauseLevel | Contracts/shared/src/circuit_breaker.rs:121-131 | only the level changes |
| Breaker.CircuitBreaker.PauseFunction | Contracts/shared/src/circuit_breaker.rs:134-157 | the function is paused by name and a running breaker becomes partially paused |
| Breaker.CircuitBreaker.UnpauseFunction | Contracts/shared/src/circuit_breaker.rs:160-180 | the function is no longer paused by name and the level stays |
| RewardsRuns.TripsAtAllowance | Contracts/shared/src/circuit_breaker.rs:77-118 | with the admin away the breaker is tripped exactly when the current period has seen max(1, min(max_tx, max_volume)) redemptions |
| RewardsRuns.PausedAsLastAsked | Contracts/shared/src/circuit_breaker.rs:56-180 | after any run a function is paused exactly at the full level, or at the partial level when the admin's last call that named it paused it |
| RewardsContract.Contract.CreateBadgeType | Contracts/contracts/academy-rewards/src/lib.rs:110-144 | the type is stored as in Rewards.DoCreateBadgeType, or nothing is |
| RewardsContract.Contract.MintBadge | Contracts/contracts/academy-rewards/src/lib.rs:147-216 | the badge and the type's counter are stored as in Rewards.DoMint, or nothing is |
| RewardsContract.Contract.RevokeBadge | Contracts/contracts/academy-rewards/src/lib.rs:219-237 | the badge is deactivated as in Rewards.DoRevoke, or nothing changes |
| RewardsContract.Contract.RedeemBadge | Contracts/contracts/academy-rewards/src/lib.rs:276-346 | history, hash, count and breaker change as in Rewards.DoRedeem; when the breaker aborts every earlier write is undone |
| RewardsContract.Contract.GetUserDiscount | Contracts/contracts/academy-rewards/src/lib.rs:349-370 | the discount shown |
| RewardsRuns.RedeemReturnsShownDiscount | Contracts/contracts/academy-rewards/src/lib.rs:276-370 | a redemption goes through exactly for an unpaused contract, a fresh hash and a usable badge, and returns the discount shown |
| RewardsRuns.RunWithoutAdmin | Contracts/contracts/academy-rewards/src/lib.rs:110-346 | whatever anyone but the admin calls, no type, badge term or pause changes: badges are only used up and the breaker only trips |
| RewardsRuns.MintedIsCounted | Contracts/contracts/academy-rewards/src/lib.rs:110-208 | over any run a type's counter is the number of its mints since it was last created |
| RewardsRuns.MintIsAcceptedIff | Contracts/contracts/academy-rewards/src/lib.rs:147-216 | when the admin's minting is accepted |
| RewardsRuns.TypesAreAsCreated | Contracts/contracts/academy-rewards/src/lib.rs:110-144 | after any run a type has the terms of the admin's last call that created it |
| RewardsRuns.WritesAreAsCalled | Contracts/contracts/academy-rewards/src/lib.rs:147-346 | a mint gives its recipient a new badge of the type and time, a redemption writes its record under the count before it and stamps a trip with its time |
| RewardsRuns.BadgeLasts | Contracts/contracts/academy-rewards/src/lib.rs:147-346 | over any run without a mint for or revocation of its user, a badge changes only in its count, by the user's redemptions |
| RewardsRuns.MintedBadgeShows | Contracts/contracts/academy-rewards/src/lib.rs:147-370 | over any such run after a mint, the badge shows its type's discount exactly until its validity ends or its redemptions reach the type's limit |
| RewardsRuns.RevokedStaysUseless | Contracts/contracts/academy-rewards/src/lib.rs:219-370 | over any run without a new mint for its user, a revoked badge shows nothing and is not redeemed |
| RewardsRuns.RunKeeps | Contracts/contracts/academy-rewards/src/lib.rs:147-346 | over any run counts stay within nonzero limits, entries 0 to count - 1 match the current badge, and no two history entries share a hash |
| RewardsRuns.HashesAreRedeemedOnce | Contracts/contracts/academy-rewards/src/lib.rs:286-330 | each hash is redeemed at most once in any run, by anyone |
| RewardsRuns.TripIsFinal | Contracts/shared/src/circuit_breaker.rs:56-118 | after a trip, until the admin sets a level, nothing is minted or redeemed |
| RewardsRuns.RedemptionsPerPeriod | Contracts/shared/src/circuit_breaker.rs:77-118 | with the admin away a period sees at most max(1, min(max_tx, max_volume)) redemptions, and any stretch as long as a period fewer than twice that |
| Wallet.Service.BindWalletToUser | Backend/src/auth/services/wallet.service.ts:61-91 | binds a free key, or reports the conflict |
| Wallet.Service.CreateUserWithWallet | Backend/src/auth/services/wallet.service.ts:135-145 | saves the user, then binds the key as primary |
| Wallet.Service.Login | Backend/src/auth/controllers/auth.controller.ts:118-130 | finds the key's user or creates one |
| Wallet.Service.UnbindWallet | Backend/src/auth/services/wallet.service.ts:93-126 | removes the binding and promotes some other wallet when it was primary |
| Wallet.FindUserFinds | Backend/src/auth/services/wallet.service.ts:52-59 | the look-up finds a user exactly when the key is bound, and one it is bound to |
| Wallet.RunKeeps | Backend/src/auth/services/wallet.service.ts:52-146 | over any run every key belongs to one user at most and every user has a wallet and exactly one primary |
| Wallet.CreateKeepsIffFree | Backend/src/auth/services/wallet.service.ts:135-145 | creating a user keeps this exactly when the key is free |
| Wallet.LoginIsStable | Backend/src/auth/controllers/auth.controller.ts:118-130 | logging in again changes nothing |
| Wallet.BindThenUnbind | Backend/src/auth/services/wallet.service.ts:61-126 | binding a further wallet and unbinding it restores the table |

## Left out

- Pools of one token with itself, and tokens shared by several pools: every pool has balances of its own.
- What the AMM's access control decides, which is an input of `create_pool`, `pause` and `unpause`; its initialisation flag, the breaker levels it never sets, and its proxied upgrade governance.
- Whether the AMM holds enough of its tokens to pay: `swap` transfers the input without the fee, and downward steps saturate to the target price, so no such claim is made.
- `should_hedge`, `capital_efficiency_bps`, `estimate_il` and the other AMM queries.
- FeeBound.FeesAreBounded: assumes the tick stays inside every live range, because the pool does not adjust its liquidity on crossing; FeeBound.CreditsWithinFees covers every run with the surplus term.
- FeePayouts.PayoutsAreBounded: the bound by the fees charged assumes the same; the account of payouts does not.
- AmmRuns.TokenBPotential: for runs at fixed liquidity whose swaps are fair; SwapPotential says that exactly the others fail, and AmmExamples.ClampedSwapFails and AmmExamples.SaleBelowTableFails reach such swaps.
- LiquidityMath.WithdrawalWithinDeposit: speaks of the amount formulas only; Withdrawals.WithdrawalsWithinDeposit says it of runs.
- MiningRewards.StakesAreRedeemable: for distinct LP and reward tokens; with one token WithdrawalIsPaidIff gives the condition and RewardsEatStakes a run that fails it. For users other than the contract itself.
- `get_apy`, `get_pairs`, and the queries of the mining contract; the multipliers and lock times of bonus tiers are written out, but no reachable stake has a tier and nothing is claimed of them.
- Workflow inputs, outputs, how idempotency keys are computed, back-off delays, timestamps and failure texts; `forceCompensateWorkflow`, which bypasses the tables; concurrent services acting on one workflow; `recoverWorkflow`.
- SagaSequences.NoStepCompensatedTwice: does not cover executions after compensations; SagaSequences.CanRepeatIff says when it then fails.
- The rate limiter's fail-open path on store errors, and several keys at once: keys do not share state.
- SlidingWindow.WindowGuarantee: not for repeated stamps under a limit of two or more, where it is false (GuaranteedIff).
- FixedWindow.FixedWindowBound: for a limit set once, as SettingForgetsUsage shows that more calls setting it break every bound.
- The bridge's withdrawals, validators, fees, nonces and hashes.
- VestingRuns.BatchRefinesClaims: for beneficiaries other than the contract itself, which cannot sign a claim, and a contract balance within 128 bits.
- Initialisation flags and the vesting queries.
- The proposal's hash, target and description, and the role set-up of the embedding contracts.
- RewardsRuns.RedemptionsPerPeriod: for a period longer than zero; with a zero period every redemption starts its own.
- Signature checks, nonces, tokens, `lastUsed`, and concurrent logins with one key, where two requests may both find it free.
- Events, logging, metrics, HTTP, WebSocket, queue and database plumbing, and all other contracts and services.
