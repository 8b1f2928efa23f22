/** The vesting contract over its storage: each entry point changes it in place as Vesting says. */
module VestingContract {
  import opened Common
  import opened FixedPoint
  import opened Ledger
  import opened Vesting
  import B = Breaker

  /** The storage after a call is the specification's on success and untouched on failure. */
  ghost predicate Follows(spec: Result<Effect, Error>, before: State, after: State, answer: Result<int, Error>) {
    match spec
    case Success(e) => after == e.state && answer == Success(e.value)
    case Failure(error) => after == before && answer == Failure(error)
  }

  class Contract {
    const admin: Address
    const breaker: B.CircuitBreaker
    var counter: nat
    var schedules: map<nat, Schedule>
    var balances: Balances
    var payments: seq<Payment>

    ghost function Stored(): State
      reads this, breaker
    {
      State(admin, counter, schedules, balances, payments, breaker.Stored())
    }

    constructor (admin: Address, config: B.Config, now: nat, balances: Balances)
      ensures fresh(breaker)
      ensures Stored() == Initialized(admin, config, now, balances)
    {
      this.admin := admin;
      breaker := new B.CircuitBreaker(config, now);
      counter, schedules, this.balances, payments := 0, map[], balances, [];
    }

    method GrantVesting(caller: Address, beneficiary: Address, amount: int, start: nat, cliff: nat, duration: nat)
      returns (r: Result<int, Error>)
      modifies this
      ensures Follows(DoGrant(old(Stored()), Call.Grant(caller, beneficiary, amount, start, cliff, duration)),
        old(Stored()), Stored(), r)
    {
      var paused := breaker.IsPaused(GRANT);
      if paused {
        return Failure(Error.Aborted);
      }
      if caller != admin {
        return Failure(Unauthorized);
      }
      if amount <= 0 || cliff > duration {
        return Failure(InvalidSchedule);
      }
      if counter + 1 >= U64 {
        return Failure(Aborted);
      }
      var next := counter + 1;
      schedules := schedules[next := Schedule(beneficiary, amount, start, cliff, duration, false, false, 0)];
      counter := next;
      r := Success(next);
    }

    method Claim(id: nat, beneficiary: Address, now: nat) returns (r: Result<int, Error>)
      modifies this
      ensures Follows(DoClaim(old(Stored()), now, id, beneficiary), old(Stored()), Stored(), r)
    {
      hide Claimable, Transfer;
      if id !in schedules {
        return Failure(GrantNotFound);
      }
      var schedule := schedules[id];
      var amount := Claimable(schedule, beneficiary, now);
      if amount.Failure? {
        return Failure(amount.error);
      }
      if BalanceOf(balances, CONTRACT) < amount.value {
        return Failure(InsufficientBalance);
      }
      var after := Transfer(balances, CONTRACT, beneficiary, amount.value);
      if after.None? {
        return Failure(Aborted);
      }
      schedule := schedule.(claimed := true);
      schedules := schedules[id := schedule];
      balances := after.value;
      payments := payments + [Payment(id, beneficiary, amount.value, now)];
      r := Success(amount.value);
    }

    /** The first loop only collects; storage is first written in the second. */
    method BatchClaim(ids: seq<nat>, beneficiary: Address, now: nat) returns (r: Result<int, Error>)
      modifies this
      ensures Follows(DoBatchClaim(old(Stored()), now, ids, beneficiary), old(Stored()), Stored(), r)
    {
      hide Claimable, Transfer;
      if ids == [] {
        return Success(0);
      }
      if |ids| > MAX_BATCH_CLAIMS {
        return Failure(BatchTooLarge);
      }
      var total, updated := 0, [];
      var i := 0;
      while i < |ids|
        invariant 0 <= i <= |ids| && Stored() == old(Stored())
        invariant Collect(schedules, ids[..i], beneficiary, now) == Success(Batch(updated, total))
      {
        var id := ids[i];
        assert ids[..i + 1][..i] == ids[..i];
        if id !in schedules {
          CollectStops(schedules, ids, beneficiary, now, i + 1);
          return Failure(GrantNotFound);
        }
        var schedule := schedules[id];
        var amount := Claimable(schedule, beneficiary, now);
        if amount.Failure? {
          CollectStops(schedules, ids, beneficiary, now, i + 1);
          return Failure(amount.error);
        }
        if total + amount.value > I128_MAX {
          CollectStops(schedules, ids, beneficiary, now, i + 1);
          return Failure(Aborted);
        }
        total := total + amount.value;
        schedule := schedule.(claimed := true);
        updated := updated + [Item(id, schedule, amount.value)];
        i := i + 1;
      }
      assert ids[..|ids|] == ids;
      if BalanceOf(balances, CONTRACT) < total {
        return Failure(InsufficientBalance);
      }
      var ok := SettleAll(updated, beneficiary, now);
      r := if ok then Success(total) else Failure(Aborted);
    }

    /** Writes the collected schedules and moves the tokens, or restores the storage if a transfer aborts. */
    method SettleAll(items: seq<Item>, beneficiary: Address, now: nat) returns (ok: bool)
      modifies this
      ensures match Settle(old(Stored()), items, beneficiary, now)
        case Success(after) => ok && Stored() == after
        case Failure(e) => !ok && e == Aborted && Stored() == old(Stored())
    {
      hide Transfer;
      var schedules0, balances0, payments0 := schedules, balances, payments;
      var i := 0;
      while i < |items|
        invariant 0 <= i <= |items| && counter == old(counter)
        invariant Settle(old(Stored()), items[..i], beneficiary, now) == Success(Stored())
      {
        var item := items[i];
        assert items[..i + 1][..i] == items[..i];
        var after := Transfer(balances, CONTRACT, beneficiary, item.amount);
        if after.None? {
          SettleStops(old(Stored()), items, beneficiary, now, i + 1);
          schedules, balances, payments := schedules0, balances0, payments0;
          return false;
        }
        schedules := schedules[item.id := item.schedule];
        balances := after.value;
        payments := payments + [Payment(item.id, beneficiary, item.amount, now)];
        i := i + 1;
      }
      assert items[..|items|] == items;
      ok := true;
    }

    method Revoke(id: nat, caller: Address, delay: nat, now: nat) returns (r: Result<int, Error>)
      modifies this`schedules
      ensures Follows(DoRevoke(old(Stored()), now, id, caller, delay), old(Stored()), Stored(), r)
    {
      var paused := breaker.IsPaused(REVOKE);
      if paused {
        return Failure(Error.Aborted);
      }
      if caller != admin {
        return Failure(Unauthorized);
      }
      if id !in schedules {
        return Failure(GrantNotFound);
      }
      var schedule := schedules[id];
      if schedule.claimed {
        return Failure(AlreadyClaimed);
      }
      if schedule.revoked {
        return Failure(Revoked);
      }
      if delay < MIN_REVOKE_DELAY {
        return Failure(InvalidTimelock);
      }
      if schedule.start + delay >= U64 {
        return Failure(Aborted);
      }
      if now < schedule.start + delay {
        return Failure(NotEnoughTimeForRevoke);
      }
      schedule := schedule.(revoked := true);
      schedule := schedule.(revokeTime := now);
      schedules := schedules[id := schedule];
      r := Success(0);
    }
  }

  /** Once a prefix of the ids fails the whole batch fails alike. */
  lemma {:induction false} CollectStops(
    schedules: map<nat, Schedule>, ids: seq<nat>, beneficiary: Address, now: nat, k: nat)
    requires k <= |ids| && Collect(schedules, ids[..k], beneficiary, now).Failure?
    ensures Collect(schedules, ids, beneficiary, now) == Collect(schedules, ids[..k], beneficiary, now)
    decreases |ids|
  {
    hide Claimable;
    if k == |ids| {
      assert ids[..k] == ids;
    } else {
      assert ids[..|ids| - 1][..k] == ids[..k];
      CollectStops(schedules, ids[..|ids| - 1], beneficiary, now, k);
    }
  }

  lemma {:induction false} SettleStops(s: State, items: seq<Item>, beneficiary: Address, now: nat, k: nat)
    requires k <= |items| && Settle(s, items[..k], beneficiary, now).Failure?
    ensures Settle(s, items, beneficiary, now) == Settle(s, items[..k], beneficiary, now)
    decreases |items|
  {
    hide Transfer;
    if k == |items| {
      assert items[..k] == items;
    } else {
      assert items[..|items| - 1][..k] == items[..k];
      SettleStops(s, items[..|items| - 1], beneficiary, now, k);
    }
  }
}
