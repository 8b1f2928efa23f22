/** Academy vesting: grants that are paid out at most once, singly or in an atomic batch. Arithmetic
    that leaves its integer type aborts the call. */
module Vesting {
  import opened Common
  import opened FixedPoint
  import opened Ledger
  import B = Breaker

  const CONTRACT: Address := 0
  const MAX_BATCH_CLAIMS: nat := 25
  const MIN_REVOKE_DELAY: nat := 3600
  const GRANT: string := "grant"
  const REVOKE: string := "revoke"
  const U128: int := 0x1_0000_0000_0000_0000_0000_0000_0000_0000

  datatype Schedule = Schedule(
    beneficiary: Address, amount: int, start: nat, cliff: nat, duration: nat,
    claimed: bool, revoked: bool, revokeTime: nat)

  /** What a claim event records. */
  datatype Payment = Payment(id: nat, beneficiary: Address, amount: int, claimedAt: nat)

  datatype State = State(
    admin: Address, counter: nat, schedules: map<nat, Schedule>, balances: Balances, payments: seq<Payment>,
    breaker: B.State)

  datatype Error =
    | Unauthorized | NotVested | AlreadyClaimed | InvalidSchedule | InsufficientBalance | GrantNotFound
    | Revoked | InvalidTimelock | NotEnoughTimeForRevoke | BatchTooLarge | Aborted

  /** A successful call's new state and the number it returns. */
  datatype Effect = Effect(state: State, value: int)

  datatype Call =
    | Grant(admin: Address, beneficiary: Address, amount: int, start: nat, cliff: nat, duration: nat)
    | Claim(id: nat, beneficiary: Address)
    | BatchClaim(ids: seq<nat>, beneficiary: Address)
    | Revoke(id: nat, admin: Address, delay: nat)
    /** Anyone else's use of the token. */
    | MoveTokens(from: Address, to: Address, amount: int)

  type TimedCall = Timed<Call>

  /** The state after initialisation. */
  function Initialized(admin: Address, config: B.Config, now: nat, balances: Balances): State {
    State(admin, 0, map[], balances, [], B.State(config, B.Activity(now, 0, 0, 0, B.Running), {}))
  }

  // ---------------------------------------------------------------- amounts

  /** Nothing before the cliff, everything from the end on, linear in between. The multiplication is
      done in 128 unsigned bits. The source's last guard, for a duration equal to the cliff, is never
      reached: such a schedule is already past its end. */
  function VestedAmount(s: Schedule, now: nat): Result<int, Error> {
    if now < s.start then Success(0)
    else if s.start + s.cliff >= U64 then Failure(Aborted)
    else if now < s.start + s.cliff then Success(0)
    else if s.start + s.duration >= U64 then Failure(Aborted)
    else if now >= s.start + s.duration then Success(s.amount)
    else
      var vested := now - (s.start + s.cliff);
      var remaining := s.duration - s.cliff;
      if s.amount * vested >= U128 then Failure(Aborted) else Success(s.amount * vested / remaining)
  }

  function Claimable(s: Schedule, beneficiary: Address, now: nat): Result<int, Error> {
    if s.beneficiary != beneficiary then Failure(Unauthorized)
    else if s.claimed then Failure(AlreadyClaimed)
    else if s.revoked then Failure(Revoked)
    else
      match VestedAmount(s, now)
      case Failure(e) => Failure(e)
      case Success(amount) => if amount == 0 then Failure(NotVested) else Success(amount)
  }

  // ---------------------------------------------------------------- entry points

  function DoGrant(s: State, c: Call): Result<Effect, Error>
    requires c.Grant?
  {
    if B.Paused(s.breaker, GRANT) then Failure(Aborted)
    else if c.admin != s.admin then Failure(Unauthorized)
    else if c.amount <= 0 || c.cliff > c.duration then Failure(InvalidSchedule)
    else if s.counter + 1 >= U64 then Failure(Aborted)
    else
      var id := s.counter + 1;
      var schedule := Schedule(c.beneficiary, c.amount, c.start, c.cliff, c.duration, false, false, 0);
      Success(Effect(s.(counter := id, schedules := s.schedules[id := schedule]), id))
  }

  /** Marks a grant claimed and pays it. */
  function Pay(s: State, id: nat, beneficiary: Address, amount: int, now: nat): Result<State, Error>
    requires id in s.schedules
  {
    match Transfer(s.balances, CONTRACT, beneficiary, amount)
    case None => Failure(Aborted)
    case Some(after) =>
      Success(s.(schedules := s.schedules[id := s.schedules[id].(claimed := true)], balances := after,
                 payments := s.payments + [Payment(id, beneficiary, amount, now)]))
  }

  function DoClaim(s: State, now: nat, id: nat, beneficiary: Address): Result<Effect, Error> {
    if id !in s.schedules then Failure(GrantNotFound)
    else
      match Claimable(s.schedules[id], beneficiary, now)
      case Failure(e) => Failure(e)
      case Success(amount) =>
        if BalanceOf(s.balances, CONTRACT) < amount then Failure(InsufficientBalance)
        else
          match Pay(s, id, beneficiary, amount, now)
          case Failure(e) => Failure(e)
          case Success(after) => Success(Effect(after, amount))
  }

  datatype Item = Item(id: nat, schedule: Schedule, amount: int)

  datatype Batch = Batch(items: seq<Item>, total: int)

  /** The batch's first loop: every grant is looked up in the map as it stood before the call. */
  function Collect(schedules: map<nat, Schedule>, ids: seq<nat>, beneficiary: Address, now: nat): (r: Result<Batch, Error>)
    ensures r.Success? ==> |r.value.items| == |ids|
    decreases |ids|
  {
    if ids == [] then Success(Batch([], 0))
    else
      var front, id := ids[..|ids| - 1], ids[|ids| - 1];
      match Collect(schedules, front, beneficiary, now)
      case Failure(e) => Failure(e)
      case Success(b) =>
        if id !in schedules then Failure(GrantNotFound)
        else
          match Claimable(schedules[id], beneficiary, now)
          case Failure(e) => Failure(e)
          case Success(amount) =>
            if b.total + amount > I128_MAX then Failure(Aborted)
            else Success(Batch(b.items + [Item(id, schedules[id].(claimed := true), amount)], b.total + amount))
  }

  /** The batch's second loop: schedules written and tokens moved, item by item. */
  function Settle(s: State, items: seq<Item>, beneficiary: Address, now: nat): Result<State, Error>
    decreases |items|
  {
    if items == [] then Success(s)
    else
      var front, item := items[..|items| - 1], items[|items| - 1];
      match Settle(s, front, beneficiary, now)
      case Failure(e) => Failure(e)
      case Success(m) =>
        match Transfer(m.balances, CONTRACT, beneficiary, item.amount)
        case None => Failure(Aborted)
        case Some(after) =>
          Success(m.(schedules := m.schedules[item.id := item.schedule], balances := after,
                     payments := m.payments + [Payment(item.id, beneficiary, item.amount, now)]))
  }

  function DoBatchClaim(s: State, now: nat, ids: seq<nat>, beneficiary: Address): Result<Effect, Error> {
    if ids == [] then Success(Effect(s, 0))
    else if |ids| > MAX_BATCH_CLAIMS then Failure(BatchTooLarge)
    else
      match Collect(s.schedules, ids, beneficiary, now)
      case Failure(e) => Failure(e)
      case Success(b) =>
        if BalanceOf(s.balances, CONTRACT) < b.total then Failure(InsufficientBalance)
        else
          match Settle(s, b.items, beneficiary, now)
          case Failure(e) => Failure(e)
          case Success(after) => Success(Effect(after, b.total))
  }

  function DoRevoke(s: State, now: nat, id: nat, admin: Address, delay: nat): Result<Effect, Error> {
    if B.Paused(s.breaker, REVOKE) then Failure(Aborted)
    else if admin != s.admin then Failure(Unauthorized)
    else if id !in s.schedules then Failure(GrantNotFound)
    else
      var schedule := s.schedules[id];
      if schedule.claimed then Failure(AlreadyClaimed)
      else if schedule.revoked then Failure(Revoked)
      else if delay < MIN_REVOKE_DELAY then Failure(InvalidTimelock)
      else if schedule.start + delay >= U64 then Failure(Aborted)
      else if now < schedule.start + delay then Failure(NotEnoughTimeForRevoke)
      else Success(Effect(s.(schedules := s.schedules[id := schedule.(revoked := true, revokeTime := now)]), 0))
  }

  function Execute(s: State, e: TimedCall): Result<Effect, Error> {
    match e.call
    case Grant(_, _, _, _, _, _) => DoGrant(s, e.call)
    case Claim(id, beneficiary) => DoClaim(s, e.now, id, beneficiary)
    case BatchClaim(ids, beneficiary) => DoBatchClaim(s, e.now, ids, beneficiary)
    case Revoke(id, admin, delay) => DoRevoke(s, e.now, id, admin, delay)
    case MoveTokens(from, to, amount) =>
      if from == CONTRACT then Failure(Unauthorized)
      else
        match Transfer(s.balances, from, to, amount)
        case None => Failure(Aborted)
        case Some(after) => Success(Effect(s.(balances := after), 0))
  }

  /** A failing call leaves the state as it was. */
  function Step(s: State, e: TimedCall): State {
    if Execute(s, e).Success? then Execute(s, e).value.state else s
  }

  function Run(s: State, calls: seq<TimedCall>): State
    decreases |calls|
  {
    if calls == [] then s else Step(Run(s, calls[..|calls| - 1]), calls[|calls| - 1])
  }
}
