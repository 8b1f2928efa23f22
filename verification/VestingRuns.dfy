/** Amounts over time, batches against single claims, and what every run of vesting calls keeps. */
module VestingRuns {
  import opened Common
  import opened FixedPoint
  import opened Ledger
  import opened Vesting
  import B = Breaker

  // ---------------------------------------------------------------- amounts over time

  /** What a grant stores. */
  predicate WellFormed(s: Schedule) {
    s.amount > 0 && s.cliff <= s.duration
  }

  lemma PartialWithinAmount(amount: int, vested: int, remaining: int)
    requires amount >= 0 && 0 <= vested <= remaining && remaining > 0
    ensures 0 <= amount * vested / remaining <= amount
  {
    MulNonNegative(amount, vested);
    DivAtLeast(amount * vested, remaining, 0);
    MulMonotone(vested, remaining, amount);
    DivMonotone(amount * vested, amount * remaining, remaining);
    DivUnique(amount * remaining, remaining, amount);
  }

  /** What has vested of a grant: nothing before the cliff, all from the end on, and in between the floor of the
      amount in proportion to the time since the cliff. */
  predicate Linear(amount: int, start: nat, cliff: nat, duration: nat, now: nat, vested: int) {
    var cliffEnd, end := start + cliff, start + duration;
    if now < cliffEnd then vested == 0
    else if now >= end then vested == amount
    else vested * (end - cliffEnd) <= amount * (now - cliffEnd) < (vested + 1) * (end - cliffEnd)
  }

  /** Whenever the vested amount can be read it is linear; and it can be read except where a moment it looks at, or
      the product behind it, overflows. */
  lemma VestedIsLinear(s: Schedule, now: nat)
    requires WellFormed(s)
    ensures VestedAmount(s, now).Success? ==>
      Linear(s.amount, s.start, s.cliff, s.duration, now, VestedAmount(s, now).value)
    ensures VestedAmount(s, now).Success? <==>
      || now < s.start
      || (now < s.start + s.cliff < U64)
      || (s.start + s.duration <= now && s.start + s.duration < U64)
      || (&& s.start + s.cliff <= now < s.start + s.duration < U64
          && s.amount * (now - (s.start + s.cliff)) < U128)
  {
    var cliffEnd, end := s.start + s.cliff, s.start + s.duration;
    if cliffEnd <= now < end {
      DivBounds(s.amount * (now - cliffEnd), end - cliffEnd);
    }
  }

  /** The vested amount lies between nothing and the grant, and never falls. */
  lemma VestedMonotone(s: Schedule, now: nat, later: nat)
    requires WellFormed(s) && now <= later
    requires VestedAmount(s, now).Success? && VestedAmount(s, later).Success?
    ensures 0 <= VestedAmount(s, now).value <= VestedAmount(s, later).value <= s.amount
  {
    var cliffEnd, end := s.start + s.cliff, s.start + s.duration;
    var remaining := s.duration - s.cliff;
    if cliffEnd <= now < end {
      PartialWithinAmount(s.amount, now - cliffEnd, remaining);
    }
    if cliffEnd <= later < end {
      PartialWithinAmount(s.amount, later - cliffEnd, remaining);
      if cliffEnd <= now {
        MulMonotone(now - cliffEnd, later - cliffEnd, s.amount);
        DivMonotone(s.amount * (now - cliffEnd), s.amount * (later - cliffEnd), remaining);
      }
    }
  }

  /** The schedules whose vested amount can be read at every moment are exactly these. The grant call
      checks neither bound, so it also accepts schedules that abort every claim for a while or for ever. */
  lemma NeverAborts(s: Schedule)
    requires WellFormed(s) && s.start < U64
    ensures (forall now: nat :: now < U64 ==> VestedAmount(s, now).Success?)
       <==> s.start + s.duration < U64 && (s.cliff < s.duration ==> s.amount * (s.duration - s.cliff - 1) < U128)
  {
    var cliffEnd, end := s.start + s.cliff, s.start + s.duration;
    if end < U64 && (s.cliff < s.duration ==> s.amount * (s.duration - s.cliff - 1) < U128) {
      forall now: nat | now < U64
        ensures VestedAmount(s, now).Success?
      {
        if cliffEnd <= now < end {
          MulMonotone(now - cliffEnd, s.duration - s.cliff - 1, s.amount);
        }
      }
    } else if cliffEnd >= U64 {
      assert VestedAmount(s, s.start).Failure?;
    } else if end >= U64 {
      assert VestedAmount(s, cliffEnd).Failure?;
    } else {
      assert VestedAmount(s, end - 1).Failure?;
    }
  }

  // ---------------------------------------------------------------- a batch is a sequence of claims

  /** Claims made one after the other; None when one of them fails. */
  function ClaimEach(s: State, now: nat, ids: seq<nat>, beneficiary: Address): Option<Effect>
    decreases |ids|
  {
    if ids == [] then Some(Effect(s, 0))
    else
      match ClaimEach(s, now, ids[..|ids| - 1], beneficiary)
      case None => None
      case Some(m) =>
        match DoClaim(m.state, now, ids[|ids| - 1], beneficiary)
        case Failure(_) => None
        case Success(e) => Some(Effect(e.state, m.value + e.value))
  }

  ghost predicate AllWellFormed(schedules: map<nat, Schedule>) {
    forall id <- schedules :: WellFormed(schedules[id])
  }

  /** What a successful claim does. */
  lemma ClaimEffect(s: State, now: nat, id: nat, beneficiary: Address)
    requires DoClaim(s, now, id, beneficiary).Success?
    ensures id in s.schedules && Claimable(s.schedules[id], beneficiary, now).Success?
    ensures var e, amount := DoClaim(s, now, id, beneficiary).value, Claimable(s.schedules[id], beneficiary, now).value;
      && e.value == amount
      && Transfer(s.balances, CONTRACT, beneficiary, amount).Some?
      && e.state == s.(schedules := s.schedules[id := s.schedules[id].(claimed := true)],
           balances := Transfer(s.balances, CONTRACT, beneficiary, amount).value,
           payments := s.payments + [Payment(id, beneficiary, amount, now)])
  {
    hide Claimable, Transfer;
  }

  /** A claimable amount is positive and within the grant. */
  lemma ClaimableBounds(s: Schedule, beneficiary: Address, now: nat)
    requires WellFormed(s) && Claimable(s, beneficiary, now).Success?
    ensures 0 < Claimable(s, beneficiary, now).value <= s.amount
    ensures VestedAmount(s, now) == Claimable(s, beneficiary, now)
    ensures !s.claimed && !s.revoked && s.beneficiary == beneficiary
  {
    VestedMonotone(s, now, now);
  }

  lemma TransferEffect(balances: Balances, to: Address, amount: int)
    requires 0 <= amount <= BalanceOf(balances, CONTRACT)
    ensures Transfer(balances, CONTRACT, to, amount).Some?
    ensures BalanceOf(Transfer(balances, CONTRACT, to, amount).value, CONTRACT)
         == BalanceOf(balances, CONTRACT) - (if to == CONTRACT then 0 else amount)
  {
  }

  /** How far the batch and the claims one by one agree after the ids given: the schedules of ids not
      among them are untouched, the total is what both paid, and it has left the contract. */
  ghost predicate Agree(s: State, ids: seq<nat>, beneficiary: Address, m: State, total: int) {
    && total >= 0
    && (forall id :: id !in ids ==> (id in m.schedules <==> id in s.schedules))
    && (forall id :: id !in ids && id in s.schedules ==> m.schedules[id] == s.schedules[id])
    && (forall id <- ids :: id in m.schedules && m.schedules[id].claimed)
    && BalanceOf(m.balances, CONTRACT)
       == BalanceOf(s.balances, CONTRACT) - (if beneficiary == CONTRACT then 0 else total)
  }

  lemma AgreeExtends(s: State, now: nat, ids: seq<nat>, beneficiary: Address, m: State, total: int)
    requires ids != [] && Agree(s, ids[..|ids| - 1], beneficiary, m, total)
    requires DoClaim(m, now, ids[|ids| - 1], beneficiary).Success?
    requires DoClaim(m, now, ids[|ids| - 1], beneficiary).value.value >= 0
    ensures var e := DoClaim(m, now, ids[|ids| - 1], beneficiary).value;
      Agree(s, ids, beneficiary, e.state, total + e.value)
  {
    hide Claimable, DoClaim, Transfer, BalanceOf;
    var front, id := ids[..|ids| - 1], ids[|ids| - 1];
    assert ids == front + [id];
    ClaimEffect(m, now, id, beneficiary);
    var amount := Claimable(m.schedules[id], beneficiary, now).value;
    TransferNeedsBalance(m.balances, beneficiary, amount);
    TransferEffect(m.balances, beneficiary, amount);
  }

  lemma AgreeReads(s: State, ids: seq<nat>, beneficiary: Address, m: State, total: int, id: nat)
    requires Agree(s, ids, beneficiary, m, total)
    ensures id in ids ==> id in m.schedules && m.schedules[id].claimed
    ensures id !in ids ==> (id in m.schedules <==> id in s.schedules)
    ensures id !in ids && id in s.schedules ==> m.schedules[id] == s.schedules[id]
    ensures total >= 0
    ensures BalanceOf(m.balances, CONTRACT)
         == BalanceOf(s.balances, CONTRACT) - (if beneficiary == CONTRACT then 0 else total)
  {
    hide BalanceOf;
  }

  lemma DistinctLast(ids: seq<nat>)
    requires ids != []
    ensures Distinct(ids) <==> Distinct(ids[..|ids| - 1]) && ids[|ids| - 1] !in ids[..|ids| - 1]
  {
    assert ids == ids[..|ids| - 1] + [ids[|ids| - 1]];
  }

  /** The state after paying one item. */
  function Paid(m: State, item: Item, beneficiary: Address, now: nat): Result<State, Error> {
    match Transfer(m.balances, CONTRACT, beneficiary, item.amount)
    case None => Failure(Aborted)
    case Some(after) =>
      Success(m.(schedules := m.schedules[item.id := item.schedule], balances := after,
                 payments := m.payments + [Payment(item.id, beneficiary, item.amount, now)]))
  }

  lemma SettleLast(s: State, front: seq<Item>, item: Item, beneficiary: Address, now: nat)
    requires Settle(s, front, beneficiary, now).Success?
    ensures Settle(s, front + [item], beneficiary, now)
         == Paid(Settle(s, front, beneficiary, now).value, item, beneficiary, now)
  {
    hide Transfer;
    assert (front + [item])[..|front|] == front;
  }

  /** One more claim that is covered by the balance does what one more item of a batch does. */
  lemma ItemActsAsClaim(m: State, now: nat, item: Item, beneficiary: Address)
    requires item.id in m.schedules && item.schedule == m.schedules[item.id].(claimed := true)
    requires Claimable(m.schedules[item.id], beneficiary, now) == Success(item.amount)
    requires 0 <= item.amount <= BalanceOf(m.balances, CONTRACT)
    ensures Paid(m, item, beneficiary, now).Success?
    ensures DoClaim(m, now, item.id, beneficiary)
         == Success(Effect(Paid(m, item, beneficiary, now).value, item.amount))
  {
    hide Claimable, Transfer, BalanceOf;
    TransferEffect(m.balances, beneficiary, item.amount);
  }

  lemma CollectLast(schedules: map<nat, Schedule>, ids: seq<nat>, beneficiary: Address, now: nat)
    requires ids != [] && Collect(schedules, ids, beneficiary, now).Success?
    ensures var front, id := ids[..|ids| - 1], ids[|ids| - 1];
      && id in schedules
      && Collect(schedules, front, beneficiary, now).Success?
      && Claimable(schedules[id], beneficiary, now).Success?
      && var b0, amount := Collect(schedules, front, beneficiary, now).value, Claimable(schedules[id], beneficiary, now).value;
         Collect(schedules, ids, beneficiary, now)
         == Success(Batch(b0.items + [Item(id, schedules[id].(claimed := true), amount)], b0.total + amount))
  {
    hide Claimable;
  }

  /** A batch of distinct ids that passes its checks does what the claims one by one do. */
  lemma {:induction false} BatchActsAsClaims(s: State, now: nat, ids: seq<nat>, beneficiary: Address)
    requires AllWellFormed(s.schedules) && Distinct(ids)
    requires Collect(s.schedules, ids, beneficiary, now).Success?
    requires Collect(s.schedules, ids, beneficiary, now).value.total <= BalanceOf(s.balances, CONTRACT)
    ensures var b := Collect(s.schedules, ids, beneficiary, now).value;
      && Settle(s, b.items, beneficiary, now).Success?
      && ClaimEach(s, now, ids, beneficiary) == Some(Effect(Settle(s, b.items, beneficiary, now).value, b.total))
      && Agree(s, ids, beneficiary, Settle(s, b.items, beneficiary, now).value, b.total)
    decreases |ids|
  {
    hide Claimable, BalanceOf, WellFormed, Agree, Collect, Settle, DoClaim, Paid, Distinct;
    if ids == [] {
      NothingToClaim(s, now, beneficiary);
    } else {
      var front, id := ids[..|ids| - 1], ids[|ids| - 1];
      CollectLast(s.schedules, ids, beneficiary, now);
      DistinctLast(ids);
      var b0 := Collect(s.schedules, front, beneficiary, now).value;
      ClaimableBounds(s.schedules[id], beneficiary, now);
      BatchActsAsClaims(s, now, front, beneficiary);
      var m := Settle(s, b0.items, beneficiary, now).value;
      var item := Item(id, s.schedules[id].(claimed := true), Claimable(s.schedules[id], beneficiary, now).value);
      AgreeReads(s, front, beneficiary, m, b0.total, id);
      SettleLast(s, b0.items, item, beneficiary, now);
      ItemActsAsClaim(m, now, item, beneficiary);
      AgreeExtends(s, now, ids, beneficiary, m, b0.total);
    }
  }

  lemma NothingToClaim(s: State, now: nat, beneficiary: Address)
    ensures Collect(s.schedules, [], beneficiary, now) == Success(Batch([], 0))
    ensures Settle(s, [], beneficiary, now) == Success(s)
    ensures Agree(s, [], beneficiary, s, 0)
  {
  }

  /** Claims that succeed one by one are on distinct ids, and the batch passes its checks too. */
  lemma {:induction false} ClaimsActAsBatch(s: State, now: nat, ids: seq<nat>, beneficiary: Address)
    requires AllWellFormed(s.schedules) && beneficiary != CONTRACT && BalanceOf(s.balances, CONTRACT) <= I128_MAX
    requires ClaimEach(s, now, ids, beneficiary).Some?
    ensures var e := ClaimEach(s, now, ids, beneficiary).value;
      && Distinct(ids)
      && Collect(s.schedules, ids, beneficiary, now).Success?
      && Collect(s.schedules, ids, beneficiary, now).value.total == e.value
      && (ids == [] || e.value <= BalanceOf(s.balances, CONTRACT))
      && Agree(s, ids, beneficiary, e.state, e.value)
    decreases |ids|
  {
    assert Distinct<nat>([]);
    hide Claimable, Transfer, BalanceOf, WellFormed, Agree, DoClaim, Distinct, Collect;
    if ids == [] {
      NothingToClaim(s, now, beneficiary);
    } else {
      var front, id := ids[..|ids| - 1], ids[|ids| - 1];
      ClaimsActAsBatch(s, now, front, beneficiary);
      var f := ClaimEach(s, now, front, beneficiary).value;
      ClaimEffect(f.state, now, id, beneficiary);
      AgreeReads(s, front, beneficiary, f.state, f.value, id);
      ClaimableMeansUnclaimed(f.state.schedules[id], beneficiary, now);
      DistinctLast(ids);
      ClaimableBounds(s.schedules[id], beneficiary, now);
      TransferNeedsBalance(f.state.balances, beneficiary, Claimable(s.schedules[id], beneficiary, now).value);
      CollectOneMore(s.schedules, ids, beneficiary, now);
      AgreeExtends(s, now, ids, beneficiary, f.state, f.value);
    }
  }

  lemma ClaimableMeansUnclaimed(s: Schedule, beneficiary: Address, now: nat)
    requires Claimable(s, beneficiary, now).Success?
    ensures !s.claimed
  {
  }

  lemma TransferNeedsBalance(balances: Balances, to: Address, amount: int)
    requires Transfer(balances, CONTRACT, to, amount).Some?
    ensures 0 <= amount <= BalanceOf(balances, CONTRACT)
  {
  }

  lemma CollectOneMore(schedules: map<nat, Schedule>, ids: seq<nat>, beneficiary: Address, now: nat)
    requires ids != [] && ids[|ids| - 1] in schedules
    requires Collect(schedules, ids[..|ids| - 1], beneficiary, now).Success?
    requires Claimable(schedules[ids[|ids| - 1]], beneficiary, now).Success?
    ensures var front, id := ids[..|ids| - 1], ids[|ids| - 1];
      var b0, amount := Collect(schedules, front, beneficiary, now).value, Claimable(schedules[id], beneficiary, now).value;
      b0.total + amount <= I128_MAX ==>
        Collect(schedules, ids, beneficiary, now)
        == Success(Batch(b0.items + [Item(id, schedules[id].(claimed := true), amount)], b0.total + amount))
  {
    hide Claimable;
  }

  /** Batch refines sequence: a batch of at most 25 ids goes through as claims one by one do exactly
      when it goes through and repeats no id, and then state, payments and total are the same. */
  lemma BatchRefinesClaims(s: State, now: nat, ids: seq<nat>, beneficiary: Address)
    requires AllWellFormed(s.schedules) && beneficiary != CONTRACT && BalanceOf(s.balances, CONTRACT) <= I128_MAX
    ensures ClaimEach(s, now, ids, beneficiary).Some? && |ids| <= MAX_BATCH_CLAIMS
       <==> DoBatchClaim(s, now, ids, beneficiary).Success? && Distinct(ids)
    ensures ClaimEach(s, now, ids, beneficiary).Some? && |ids| <= MAX_BATCH_CLAIMS ==>
      DoBatchClaim(s, now, ids, beneficiary) == Success(ClaimEach(s, now, ids, beneficiary).value)
  {
    assert Distinct<nat>([]);
    hide Collect, Settle, Claimable, Agree, WellFormed, Distinct, AllWellFormed, BalanceOf;
    if ids == [] {
    } else {
      if ClaimEach(s, now, ids, beneficiary).Some? {
        ClaimsActAsBatch(s, now, ids, beneficiary);
        BatchActsAsClaims(s, now, ids, beneficiary);
      }
      if DoBatchClaim(s, now, ids, beneficiary).Success? && Distinct(ids) {
        BatchActsAsClaims(s, now, ids, beneficiary);
      }
    }
  }

  // ---------------------------------------------------------------- what every run keeps

  function PaymentsOf(payments: seq<Payment>, id: nat): nat
    decreases |payments|
  {
    if payments == [] then 0
    else PaymentsOf(payments[..|payments| - 1], id) + (if payments[|payments| - 1].id == id then 1 else 0)
  }

  function Occurrences(ids: seq<nat>, id: nat): nat
    decreases |ids|
  {
    if ids == [] then 0
    else Occurrences(ids[..|ids| - 1], id) + (if ids[|ids| - 1] == id then 1 else 0)
  }

  lemma {:induction false} OccurrencesCount(ids: seq<nat>, id: nat)
    ensures Occurrences(ids, id) > 0 <==> id in ids
    ensures Distinct(ids) ==> Occurrences(ids, id) <= 1
    decreases |ids|
  {
    if ids != [] {
      var front := ids[..|ids| - 1];
      assert ids == front + [ids[|ids| - 1]];
      OccurrencesCount(front, id);
    }
  }

  lemma {:induction false} RepeatIsCounted(ids: seq<nat>, i: nat, j: nat)
    requires i < j < |ids| && ids[i] == ids[j]
    ensures Occurrences(ids, ids[i]) >= 2
    decreases |ids|
  {
    var front := ids[..|ids| - 1];
    if j == |ids| - 1 {
      OccurrencesCount(front, ids[i]);
      assert front[i] == ids[i];
    } else {
      RepeatIsCounted(front, i, j);
    }
  }

  /** A payment was what had vested of its grant at its moment, to its beneficiary. */
  predicate Justified(schedules: map<nat, Schedule>, p: Payment) {
    && p.id in schedules
    && p.beneficiary == schedules[p.id].beneficiary
    && (var g := schedules[p.id]; Linear(g.amount, g.start, g.cliff, g.duration, p.claimedAt, p.amount))
    && 0 < p.amount <= schedules[p.id].amount
  }

  ghost predicate Grants(s: State) {
    && AllWellFormed(s.schedules)
    && (forall id <- s.schedules :: 1 <= id <= s.counter)
    && (forall id <- s.schedules :: !(s.schedules[id].claimed && s.schedules[id].revoked))
    && (forall id <- s.schedules :: s.schedules[id].revoked ==>
          s.schedules[id].revokeTime >= s.schedules[id].start + MIN_REVOKE_DELAY)
  }

  ghost predicate Claims(s: State) {
    && (forall i :: 0 <= i < |s.payments| ==> Justified(s.schedules, s.payments[i]))
    && (forall id: nat :: PaymentsOf(s.payments, id) > 0 <==> id in s.schedules && s.schedules[id].claimed)
  }

  /** Holds in every reachable state: no grant is claimed and revoked, none is revoked within an hour
      of its start, every payment is justified, and the grants paid are exactly the ones claimed. */
  ghost predicate Books(s: State) {
    Grants(s) && Claims(s)
  }

  ghost predicate PaidAtMostOnce(s: State) {
    forall id: nat :: PaymentsOf(s.payments, id) <= 1
  }

  /** A grant's terms. */
  predicate SameTerms(a: Schedule, b: Schedule) {
    && a.beneficiary == b.beneficiary && a.amount == b.amount
    && a.start == b.start && a.cliff == b.cliff && a.duration == b.duration
  }

  /** What a batch writes, repeated ids or not. */
  ghost predicate Settled(s: State, ids: seq<nat>, beneficiary: Address, now: nat, m: State) {
    && m.admin == s.admin && m.counter == s.counter
    && m.schedules.Keys == s.schedules.Keys
    && (forall id <- ids :: id in s.schedules && Claimable(s.schedules[id], beneficiary, now).Success?)
    && (forall id <- s.schedules :: m.schedules[id] ==
          if id in ids then s.schedules[id].(claimed := true) else s.schedules[id])
    && PaymentsAppended(s, ids, beneficiary, now, m.payments)
  }

  /** The payments a batch of ids appends. */
  ghost predicate PaymentsAppended(s: State, ids: seq<nat>, beneficiary: Address, now: nat, payments: seq<Payment>)
    requires forall id <- ids :: id in s.schedules && Claimable(s.schedules[id], beneficiary, now).Success?
  {
    && |payments| == |s.payments| + |ids|
    && payments[..|s.payments|] == s.payments
    && (forall i :: 0 <= i < |ids| ==>
          payments[|s.payments| + i] ==
            Payment(ids[i], beneficiary, Claimable(s.schedules[ids[i]], beneficiary, now).value, now))
  }

  lemma AppendPayment(s: State, ids: seq<nat>, beneficiary: Address, now: nat, payments: seq<Payment>, amount: int)
    requires ids != []
    requires forall id <- ids :: id in s.schedules && Claimable(s.schedules[id], beneficiary, now).Success?
    requires forall id <- ids[..|ids| - 1] :: id in s.schedules && Claimable(s.schedules[id], beneficiary, now).Success?
    requires PaymentsAppended(s, ids[..|ids| - 1], beneficiary, now, payments)
    requires Claimable(s.schedules[ids[|ids| - 1]], beneficiary, now) == Success(amount)
    ensures PaymentsAppended(s, ids, beneficiary, now, payments + [Payment(ids[|ids| - 1], beneficiary, amount, now)])
  {
    hide Claimable;
    var more := payments + [Payment(ids[|ids| - 1], beneficiary, amount, now)];
    assert more[..|s.payments|] == payments[..|s.payments|];
    forall i | 0 <= i < |ids|
      ensures more[|s.payments| + i] ==
        Payment(ids[i], beneficiary, Claimable(s.schedules[ids[i]], beneficiary, now).value, now)
    {
      if i < |ids| - 1 {
        assert ids[..|ids| - 1][i] == ids[i];
        assert more[|s.payments| + i] == payments[|s.payments| + i];
      }
    }
  }

  /** One more item of a batch, on top of what the items before it settled. */
  lemma SettledOneMore(s: State, ids: seq<nat>, beneficiary: Address, now: nat, m: State, item: Item)
    requires ids != [] && item.id == ids[|ids| - 1]
    requires Settled(s, ids[..|ids| - 1], beneficiary, now, m)
    requires item.id in s.schedules && Claimable(s.schedules[item.id], beneficiary, now) == Success(item.amount)
    requires item.schedule == s.schedules[item.id].(claimed := true)
    requires Paid(m, item, beneficiary, now).Success?
    ensures Settled(s, ids, beneficiary, now, Paid(m, item, beneficiary, now).value)
  {
    hide Claimable, Transfer, PaymentsAppended;
    var front := ids[..|ids| - 1];
    assert ids == front + [item.id];
    var after := Paid(m, item, beneficiary, now).value;
    assert after.schedules.Keys == s.schedules.Keys;
    AppendPayment(s, ids, beneficiary, now, m.payments, item.amount);
  }

  lemma {:induction false} BatchSettles(s: State, now: nat, ids: seq<nat>, beneficiary: Address)
    requires Collect(s.schedules, ids, beneficiary, now).Success?
    requires Settle(s, Collect(s.schedules, ids, beneficiary, now).value.items, beneficiary, now).Success?
    ensures Settled(s, ids, beneficiary, now,
      Settle(s, Collect(s.schedules, ids, beneficiary, now).value.items, beneficiary, now).value)
    decreases |ids|
  {
    hide Claimable, Collect, Settle, Settled, Paid;
    if ids == [] {
      NothingToClaim(s, now, beneficiary);
      NothingSettled(s, beneficiary, now);
    } else {
      var front, id := ids[..|ids| - 1], ids[|ids| - 1];
      CollectLast(s.schedules, ids, beneficiary, now);
      var b0 := Collect(s.schedules, front, beneficiary, now).value;
      var item := Item(id, s.schedules[id].(claimed := true), Claimable(s.schedules[id], beneficiary, now).value);
      SettleFront(s, b0.items, item, beneficiary, now);
      SettleLast(s, b0.items, item, beneficiary, now);
      BatchSettles(s, now, front, beneficiary);
      SettledOneMore(s, ids, beneficiary, now, Settle(s, b0.items, beneficiary, now).value, item);
    }
  }

  lemma NothingSettled(s: State, beneficiary: Address, now: nat)
    ensures Settled(s, [], beneficiary, now, s)
  {
    hide Claimable;
  }

  lemma SettleFront(s: State, front: seq<Item>, item: Item, beneficiary: Address, now: nat)
    requires Settle(s, front + [item], beneficiary, now).Success?
    ensures Settle(s, front, beneficiary, now).Success?
  {
    hide Transfer;
    assert (front + [item])[..|front|] == front;
  }

  lemma {:induction false} SettledCounts(payments: seq<Payment>, more: seq<Payment>, ids: seq<nat>, id: nat)
    requires |more| == |payments| + |ids| && more[..|payments|] == payments
    requires forall i :: 0 <= i < |ids| ==> more[|payments| + i].id == ids[i]
    ensures PaymentsOf(more, id) == PaymentsOf(payments, id) + Occurrences(ids, id)
    decreases |ids|
  {
    if ids == [] {
      assert more == payments;
    } else {
      var front := more[..|more| - 1];
      assert front[..|payments|] == payments;
      SettledCounts(payments, front, ids[..|ids| - 1], id);
    }
  }

  /** A successful batch pays every id once for each time it is listed. */
  lemma BatchPaysPerOccurrence(s: State, now: nat, ids: seq<nat>, beneficiary: Address, id: nat)
    requires DoBatchClaim(s, now, ids, beneficiary).Success?
    ensures var after := DoBatchClaim(s, now, ids, beneficiary).value.state;
      PaymentsOf(after.payments, id) == PaymentsOf(s.payments, id) + Occurrences(ids, id)
  {
    hide Collect, Settle, Claimable;
    if ids != [] {
      BatchSettles(s, now, ids, beneficiary);
      SettledCounts(s.payments, DoBatchClaim(s, now, ids, beneficiary).value.state.payments, ids, id);
    }
  }

  /** Grants stay, with their terms; what is claimed or revoked stays so. */
  ghost predicate Progress(a: map<nat, Schedule>, b: map<nat, Schedule>) {
    forall id <- a :: id in b && SameTerms(a[id], b[id])
      && (a[id].claimed ==> b[id].claimed)
      && (a[id].revoked ==> b[id].revoked && b[id].revokeTime == a[id].revokeTime)
  }

  lemma JustifiedStays(a: map<nat, Schedule>, b: map<nat, Schedule>, p: Payment)
    requires Progress(a, b) && Justified(a, p)
    ensures Justified(b, p)
  {
  }

  lemma PaymentIsJustified(schedules: map<nat, Schedule>, beneficiary: Address, now: nat, id: nat)
    requires id in schedules && WellFormed(schedules[id]) && Claimable(schedules[id], beneficiary, now).Success?
    ensures Justified(schedules, Payment(id, beneficiary, Claimable(schedules[id], beneficiary, now).value, now))
  {
    ClaimableBounds(schedules[id], beneficiary, now);
    VestedIsLinear(schedules[id], now);
  }

  lemma SettledIsProgress(s: State, ids: seq<nat>, beneficiary: Address, now: nat, m: State)
    requires Settled(s, ids, beneficiary, now, m)
    ensures Progress(s.schedules, m.schedules)
  {
    hide Claimable;
  }

  lemma SettledPaymentsAreJustified(s: State, ids: seq<nat>, beneficiary: Address, now: nat, m: State)
    requires Grants(s) && Claims(s) && Settled(s, ids, beneficiary, now, m)
    ensures forall i :: 0 <= i < |m.payments| ==> Justified(m.schedules, m.payments[i])
  {
    hide Claimable, Justified, WellFormed, PaymentsOf, Progress;
    SettledIsProgress(s, ids, beneficiary, now, m);
    forall i | 0 <= i < |m.payments|
      ensures Justified(m.schedules, m.payments[i])
    {
      if i < |s.payments| {
        assert m.payments[i] == m.payments[..|s.payments|][i];
        JustifiedStays(s.schedules, m.schedules, m.payments[i]);
      } else {
        var id := ids[i - |s.payments|];
        PaymentIsJustified(s.schedules, beneficiary, now, id);
        JustifiedStays(s.schedules, m.schedules, m.payments[i]);
      }
    }
  }

  lemma SettledCount(s: State, ids: seq<nat>, beneficiary: Address, now: nat, m: State, id: nat)
    requires Claims(s) && Settled(s, ids, beneficiary, now, m)
    ensures PaymentsOf(m.payments, id) == PaymentsOf(s.payments, id) + Occurrences(ids, id)
    ensures PaymentsOf(m.payments, id) > 0 <==> id in m.schedules && m.schedules[id].claimed
  {
    hide Claimable, Justified, PaymentsOf, Occurrences;
    SettledCounts(s.payments, m.payments, ids, id);
    OccurrencesCount(ids, id);
  }

  lemma SettledKeepsBooks(s: State, ids: seq<nat>, beneficiary: Address, now: nat, m: State)
    requires Books(s) && Settled(s, ids, beneficiary, now, m)
    ensures Books(m)
  {
    hide Justified, PaymentsOf, Occurrences, Claims, Settled;
    SettledPaymentsAreJustified(s, ids, beneficiary, now, m);
    forall id: nat
      ensures PaymentsOf(m.payments, id) > 0 <==> id in m.schedules && m.schedules[id].claimed
    {
      SettledCount(s, ids, beneficiary, now, m, id);
    }
    ClaimsHold(m);
    SettledKeepsGrants(s, ids, beneficiary, now, m);
  }

  lemma ClaimsHold(s: State)
    requires forall i :: 0 <= i < |s.payments| ==> Justified(s.schedules, s.payments[i])
    requires forall id: nat :: PaymentsOf(s.payments, id) > 0 <==> id in s.schedules && s.schedules[id].claimed
    ensures Claims(s)
  {
    hide Justified, PaymentsOf;
  }

  lemma SettledKeepsGrants(s: State, ids: seq<nat>, beneficiary: Address, now: nat, m: State)
    requires Grants(s) && Settled(s, ids, beneficiary, now, m)
    ensures Grants(m)
  {
    hide VestedAmount;
    forall id <- m.schedules
      ensures WellFormed(m.schedules[id]) && 1 <= id <= m.counter
      ensures !(m.schedules[id].claimed && m.schedules[id].revoked)
      ensures m.schedules[id].revoked ==> m.schedules[id].revokeTime >= m.schedules[id].start + MIN_REVOKE_DELAY
    {
      assert id in s.schedules && WellFormed(s.schedules[id]);
      if id in ids {
        assert Claimable(s.schedules[id], beneficiary, now).Success?;
      }
    }
  }

  /** A single claim writes what a batch of one id writes. */
  lemma ClaimSettles(s: State, now: nat, id: nat, beneficiary: Address)
    requires DoClaim(s, now, id, beneficiary).Success?
    ensures Settled(s, [id], beneficiary, now, DoClaim(s, now, id, beneficiary).value.state)
  {
    hide Claimable, DoClaim, Transfer;
    ClaimEffect(s, now, id, beneficiary);
  }

  lemma NewGrantKeepsBooks(s: State, c: Call)
    requires c.Grant? && Books(s) && DoGrant(s, c).Success?
    ensures Books(DoGrant(s, c).value.state)
    ensures Progress(s.schedules, DoGrant(s, c).value.state.schedules)
  {
    hide PaymentsOf, Justified;
    var after := DoGrant(s, c).value.state;
    forall i | 0 <= i < |s.payments|
      ensures Justified(after.schedules, s.payments[i])
    {
      JustifiedStays(s.schedules, after.schedules, s.payments[i]);
    }
  }

  lemma RevokeKeepsBooks(s: State, now: nat, id: nat, admin: Address, delay: nat)
    requires Books(s) && DoRevoke(s, now, id, admin, delay).Success?
    ensures Books(DoRevoke(s, now, id, admin, delay).value.state)
    ensures Progress(s.schedules, DoRevoke(s, now, id, admin, delay).value.state.schedules)
  {
    hide PaymentsOf, Justified;
    var after := DoRevoke(s, now, id, admin, delay).value.state;
    forall i | 0 <= i < |s.payments|
      ensures Justified(after.schedules, s.payments[i])
    {
      JustifiedStays(s.schedules, after.schedules, s.payments[i]);
    }
  }

  predicate PaysGrants(s: State, e: TimedCall) {
    Execute(s, e).Success? && (e.call.Claim? || (e.call.BatchClaim? && e.call.ids != []))
  }

  function PaidIds(c: Call): seq<nat>
    requires c.Claim? || c.BatchClaim?
  {
    if c.Claim? then [c.id] else c.ids
  }

  lemma PayingStep(s: State, e: TimedCall)
    requires PaysGrants(s, e)
    ensures Settled(s, PaidIds(e.call), e.call.beneficiary, e.now, Step(s, e))
  {
    hide Settled, DoClaim, Collect, Settle;
    if e.call.Claim? {
      ClaimSettles(s, e.now, e.call.id, e.call.beneficiary);
    } else {
      BatchSettles(s, e.now, e.call.ids, e.call.beneficiary);
    }
  }

  lemma StepKeepsBooks(s: State, e: TimedCall)
    requires Books(s)
    ensures Books(Step(s, e)) && Progress(s.schedules, Step(s, e).schedules)
    ensures !PaysGrants(s, e) ==> Step(s, e).payments == s.payments
  {
    hide DoClaim, DoBatchClaim, Settled, PaymentsOf, Justified, AllWellFormed, SameTerms;
    if PaysGrants(s, e) {
      PayingStep(s, e);
      SettledKeepsBooks(s, PaidIds(e.call), e.call.beneficiary, e.now, Step(s, e));
      SettledIsProgress(s, PaidIds(e.call), e.call.beneficiary, e.now, Step(s, e));
    } else {
      ProgressOfSame(s.schedules);
      if Execute(s, e).Success? {
        match e.call {
          case Grant(_, _, _, _, _, _) => NewGrantKeepsBooks(s, e.call);
          case Revoke(id, admin, delay) => RevokeKeepsBooks(s, e.now, id, admin, delay);
          case BatchClaim(ids, beneficiary) => EmptyBatchDoesNothing(s, e.now, beneficiary);
          case MoveTokens(_, _, _) =>
          case Claim(_, _) =>
        }
      }
    }
  }

  lemma EmptyBatchDoesNothing(s: State, now: nat, beneficiary: Address)
    ensures DoBatchClaim(s, now, [], beneficiary) == Success(Effect(s, 0))
  {
  }

  lemma ProgressOfSame(a: map<nat, Schedule>)
    ensures Progress(a, a)
  {
  }

  lemma ProgressChains(a: map<nat, Schedule>, b: map<nat, Schedule>, c: map<nat, Schedule>)
    requires Progress(a, b) && Progress(b, c)
    ensures Progress(a, c)
  {
  }

  /** Every run keeps the books: payments are justified, and grants are never claimed and revoked;
      terms, claims and revocations stand. */
  lemma {:induction false} RunKeepsBooks(s: State, calls: seq<TimedCall>)
    requires Books(s)
    ensures Books(Run(s, calls)) && Progress(s.schedules, Run(s, calls).schedules)
    decreases |calls|
  {
    hide Step, Books, Progress;
    if calls == [] {
      ProgressOfSame(s.schedules);
    } else {
      var m := Run(s, calls[..|calls| - 1]);
      RunKeepsBooks(s, calls[..|calls| - 1]);
      StepKeepsBooks(m, calls[|calls| - 1]);
      ProgressChains(s.schedules, m.schedules, Run(s, calls).schedules);
    }
  }

  /** A grant is refused only for its caller, its terms or a full counter, and otherwise opens under an
      id not used before, neither claimed nor revoked. */
  lemma GrantIsAcceptedIff(s: State, c: Call)
    requires c.Grant? && Books(s)
    ensures DoGrant(s, c).Success? ==>
      var e := DoGrant(s, c).value;
      && e.value == e.state.counter && e.value == s.counter + 1 && e.value !in s.schedules
      && e.state.schedules
         == s.schedules[e.value := Schedule(c.beneficiary, c.amount, c.start, c.cliff, c.duration, false, false, 0)]
      && e.state.balances == s.balances && e.state.payments == s.payments
    ensures DoGrant(s, c).Success? <==>
      && !B.Paused(s.breaker, GRANT)
      && c.admin == s.admin
      && WellFormed(Schedule(c.beneficiary, c.amount, c.start, c.cliff, c.duration, false, false, 0))
      && s.counter + 1 < U64
  {
  }

  /** A claim goes through exactly when the beneficiary of a standing grant asks, something of it has
      vested and the contract can pay it. */
  lemma ClaimIsPaidIff(s: State, now: nat, id: nat, beneficiary: Address)
    requires Books(s)
    ensures DoClaim(s, now, id, beneficiary).Success? <==>
      && id in s.schedules
      && beneficiary == s.schedules[id].beneficiary
      && PaymentsOf(s.payments, id) == 0 && !s.schedules[id].revoked
      && VestedAmount(s.schedules[id], now).Success?
      && 0 < VestedAmount(s.schedules[id], now).value <= BalanceOf(s.balances, CONTRACT)
  {
    hide VestedAmount, PaymentsOf, Justified;
    if id in s.schedules && VestedAmount(s.schedules[id], now).Success? {
      VestedMonotone(s.schedules[id], now, now);
    }
  }

  /** A revocation goes through exactly when the admin asks for a standing grant, at least an hour and
      the chosen delay after its start; from then on the grant cannot be claimed. */
  lemma RevokeIsAcceptedIff(s: State, now: nat, id: nat, admin: Address, delay: nat, later: nat, beneficiary: Address)
    requires Books(s)
    ensures DoRevoke(s, now, id, admin, delay).Success? <==>
      && !B.Paused(s.breaker, REVOKE)
      && admin == s.admin && id in s.schedules
      && PaymentsOf(s.payments, id) == 0 && !s.schedules[id].revoked
      && delay >= MIN_REVOKE_DELAY
      && s.schedules[id].start + delay <= now && s.schedules[id].start + delay < U64
    ensures DoRevoke(s, now, id, admin, delay).Success? ==>
      var after := DoRevoke(s, now, id, admin, delay).value.state;
      && after == s.(schedules := after.schedules)
      && after.schedules - {id} == s.schedules - {id}
      && after.schedules[id] == s.schedules[id].(revoked := true, revokeTime := now)
      && DoClaim(after, later, id, beneficiary).Failure?
  {
    hide PaymentsOf, Justified, VestedAmount;
  }

  /** Only the admin grants and revokes, and only a grant's beneficiary claims it. */
  lemma OnlyTheEntitledAct(s: State, e: TimedCall, id: nat)
    requires Books(s)
    ensures id in Step(s, e).schedules && id !in s.schedules ==> e.call.Grant? && e.call.admin == s.admin
    ensures id in s.schedules && id in Step(s, e).schedules ==>
      var before, after := s.schedules[id], Step(s, e).schedules[id];
      && (after.revoked && !before.revoked ==> e.call.Revoke? && e.call.admin == s.admin)
      && (after.claimed && !before.claimed ==>
            (e.call.Claim? || e.call.BatchClaim?) && e.call.beneficiary == before.beneficiary)
  {
    hide Transfer, VestedAmount, Collect, Settle, DoClaim, Claims, Justified;
    if PaysGrants(s, e) {
      PayingStep(s, e);
    } else if e.call.BatchClaim? && e.call.ids == [] {
      EmptyBatchDoesNothing(s, e.now, e.call.beneficiary);
    }
  }

  /** No successful batch of the run repeats an id. */
  predicate NoRepeats(s: State, calls: seq<TimedCall>)
    decreases |calls|
  {
    calls != [] ==>
      var front, last := calls[..|calls| - 1], calls[|calls| - 1];
      && NoRepeats(s, front)
      && (last.call.BatchClaim? && Execute(Run(s, front), last).Success? ==> Distinct(last.call.ids))
  }

  /** Paying ids that were not paid before keeps one payment per grant exactly when they are distinct. */
  lemma PayingOnce(s: State, ids: seq<nat>, beneficiary: Address, now: nat, m: State)
    requires Books(s) && Settled(s, ids, beneficiary, now, m)
    ensures PaidAtMostOnce(m) <==> PaidAtMostOnce(s) && Distinct(ids)
  {
    hide PaymentsOf, Occurrences, Justified, Settled, Distinct, WellFormed;
    forall id: nat
      ensures PaymentsOf(m.payments, id) == PaymentsOf(s.payments, id) + Occurrences(ids, id)
      ensures PaymentsOf(s.payments, id) == 0 || Occurrences(ids, id) == 0
      ensures Distinct(ids) ==> Occurrences(ids, id) <= 1
    {
      SettledCount(s, ids, beneficiary, now, m, id);
      OccurrencesCount(ids, id);
      if id in ids {
        UnpaidBefore(s, ids, beneficiary, now, m, id);
      }
    }
    if PaidAtMostOnce(m) {
      forall i, j | 0 <= i < j < |ids|
        ensures ids[i] != ids[j]
      {
        if ids[i] == ids[j] {
          assert PaymentsOf(m.payments, ids[i]) <= 1;
          RepeatIsCounted(ids, i, j);
          assert false;
        }
      }
      DistinctByPairs(ids);
      assert forall id: nat {:trigger PaymentsOf(s.payments, id)} :: PaymentsOf(m.payments, id) <= 1;
    }
  }

  lemma DistinctByPairs(ids: seq<nat>)
    requires forall i, j :: 0 <= i < j < |ids| ==> ids[i] != ids[j]
    ensures Distinct(ids)
  {
  }

  lemma UnpaidBefore(s: State, ids: seq<nat>, beneficiary: Address, now: nat, m: State, id: nat)
    requires Claims(s) && Settled(s, ids, beneficiary, now, m) && id in ids
    ensures PaymentsOf(s.payments, id) == 0
  {
    hide PaymentsOf, Justified, VestedAmount;
    assert Claimable(s.schedules[id], beneficiary, now).Success?;
  }

  /** Each grant is paid at most once over the whole run, exactly when no successful batch repeats an id. */
  lemma {:induction false} RunPaysOnce(s: State, calls: seq<TimedCall>)
    requires Books(s) && PaidAtMostOnce(s)
    ensures PaidAtMostOnce(Run(s, calls)) <==> NoRepeats(s, calls)
    decreases |calls|
  {
    hide Step, Books, Progress, PaidAtMostOnce, Execute, Distinct, Settled;
    if calls != [] {
      var front, last := calls[..|calls| - 1], calls[|calls| - 1];
      var m := Run(s, front);
      RunKeepsBooks(s, front);
      RunPaysOnce(s, front);
      if PaysGrants(m, last) {
        PayingStep(m, last);
        PayingOnce(m, PaidIds(last.call), last.call.beneficiary, last.now, Step(m, last));
        OneIsDistinct(last.call);
      } else {
        StepKeepsBooks(m, last);
        SamePayments(m, Step(m, last));
        OneIsDistinct(last.call);
      }
    }
  }

  lemma SamePayments(a: State, b: State)
    requires a.payments == b.payments
    ensures PaidAtMostOnce(a) <==> PaidAtMostOnce(b)
  {
    hide PaymentsOf;
  }

  lemma OneIsDistinct(c: Call)
    ensures c.Claim? ==> Distinct(PaidIds(c))
    ensures c.BatchClaim? && c.ids == [] ==> Distinct(c.ids)
  {
  }

  lemma StartKeepsBooks(admin: Address, config: B.Config, now: nat, balances: Balances)
    ensures var s := Initialized(admin, config, now, balances); Books(s) && PaidAtMostOnce(s)
  {
  }

  /** From initialisation on the books are in order, and each grant is paid at most once exactly when no
      successful batch repeats an id. */
  lemma BooksFromStart(admin: Address, config: B.Config, now: nat, balances: Balances, calls: seq<TimedCall>)
    ensures var s := Initialized(admin, config, now, balances);
      Books(Run(s, calls)) && (PaidAtMostOnce(Run(s, calls)) <==> NoRepeats(s, calls))
  {
    hide Books, PaidAtMostOnce, Run, NoRepeats;
    StartKeepsBooks(admin, config, now, balances);
    RunKeepsBooks(Initialized(admin, config, now, balances), calls);
    RunPaysOnce(Initialized(admin, config, now, balances), calls);
  }

  lemma {:induction false} SettleLeavesBreaker(s: State, items: seq<Item>, beneficiary: Address, now: nat)
    requires Settle(s, items, beneficiary, now).Success?
    ensures Settle(s, items, beneficiary, now).value.breaker == s.breaker
    decreases |items|
  {
    hide Transfer;
    if items != [] {
      SettleLeavesBreaker(s, items[..|items| - 1], beneficiary, now);
    }
  }

  /** No call of the contract ever pauses it: the checks of its pause state never refuse anything. */
  lemma {:induction false} NeverPaused(
    admin: Address, config: B.Config, now: nat, balances: Balances, calls: seq<TimedCall>, name: string)
    ensures Run(Initialized(admin, config, now, balances), calls).breaker == Initialized(admin, config, now, balances).breaker
    ensures !B.Paused(Run(Initialized(admin, config, now, balances), calls).breaker, name)
    decreases |calls|
  {
    hide Transfer, Claimable, Collect, Settle;
    if calls != [] {
      NeverPaused(admin, config, now, balances, calls[..|calls| - 1], name);
      var m, e := Run(Initialized(admin, config, now, balances), calls[..|calls| - 1]), calls[|calls| - 1];
      if e.call.BatchClaim? && e.call.ids != [] && Execute(m, e).Success? {
        var b := Collect(m.schedules, e.call.ids, e.call.beneficiary, e.now).value;
        SettleLeavesBreaker(m, b.items, e.call.beneficiary, e.now);
      }
    }
  }

  // ---------------------------------------------------------------- tokens

  predicate AddressesBelow(c: Call, n: nat) {
    match c
    case Claim(_, beneficiary) => beneficiary < n
    case BatchClaim(_, beneficiary) => beneficiary < n
    case MoveTokens(from, to, _) => from < n && to < n
    case _ => true
  }

  lemma {:induction false} SettleConserves(s: State, items: seq<Item>, beneficiary: Address, now: nat, n: nat)
    requires beneficiary < n && Settle(s, items, beneficiary, now).Success?
    ensures TotalBelow(Settle(s, items, beneficiary, now).value.balances, n) == TotalBelow(s.balances, n)
    decreases |items|
  {
    hide Transfer, TotalBelow;
    if items != [] {
      var front, item := items[..|items| - 1], items[|items| - 1];
      SettleConserves(s, front, beneficiary, now, n);
      TransferConserves(Settle(s, front, beneficiary, now).value.balances, CONTRACT, beneficiary, item.amount, n);
    }
  }

  lemma StepConserves(s: State, e: TimedCall, n: nat)
    requires AddressesBelow(e.call, n)
    ensures TotalBelow(Step(s, e).balances, n) == TotalBelow(s.balances, n)
  {
    hide Transfer, TotalBelow, Claimable, Collect, Settle;
    if Execute(s, e).Success? {
      match e.call {
        case Claim(id, beneficiary) =>
          TransferConserves(s.balances, CONTRACT, beneficiary, Claimable(s.schedules[id], beneficiary, e.now).value, n);
        case BatchClaim(ids, beneficiary) =>
          if ids != [] {
            SettleConserves(s, Collect(s.schedules, ids, beneficiary, e.now).value.items, beneficiary, e.now, n);
          }
        case MoveTokens(from, to, amount) => TransferConserves(s.balances, from, to, amount, n);
        case Grant(_, _, _, _, _, _) =>
        case Revoke(_, _, _) =>
      }
    }
  }

  /** No call creates or destroys tokens. */
  lemma {:induction false} RunConservesTokens(s: State, calls: seq<TimedCall>, n: nat)
    requires forall i :: 0 <= i < |calls| ==> AddressesBelow(calls[i].call, n)
    ensures TotalBelow(Run(s, calls).balances, n) == TotalBelow(s.balances, n)
    decreases |calls|
  {
    hide Step, TotalBelow, AddressesBelow;
    if calls != [] {
      RunConservesTokens(s, calls[..|calls| - 1], n);
      StepConserves(Run(s, calls[..|calls| - 1]), calls[|calls| - 1], n);
    }
  }

  /** What payments add to a holder's balance. */
  function Net(payments: seq<Payment>, who: Address): int
    decreases |payments|
  {
    if payments == [] then 0
    else
      var p := payments[|payments| - 1];
      Net(payments[..|payments| - 1], who) + Shift(CONTRACT, p.beneficiary, p.amount, who)
  }

  /** What the uses of the token by others add to it. */
  function OthersNet(s: State, calls: seq<TimedCall>, who: Address): int
    decreases |calls|
  {
    if calls == [] then 0
    else
      var front, last := calls[..|calls| - 1], calls[|calls| - 1];
      OthersNet(s, front, who)
        + (if last.call.MoveTokens? && Execute(Run(s, front), last).Success? then
             Shift(last.call.from, last.call.to, last.call.amount, who)
           else 0)
  }

  lemma PaidMoves(s: State, p: Payment, after: Balances, who: Address)
    requires Transfer(s.balances, CONTRACT, p.beneficiary, p.amount) == Some(after)
    ensures BalanceOf(after, who) - Net(s.payments + [p], who) == BalanceOf(s.balances, who) - Net(s.payments, who)
  {
    hide Transfer;
    assert (s.payments + [p])[..|s.payments|] == s.payments;
    TransferNeedsBalance(s.balances, p.beneficiary, p.amount);
    TransferMoves(s.balances, CONTRACT, p.beneficiary, p.amount);
  }

  lemma {:induction false} SettlePays(s: State, items: seq<Item>, beneficiary: Address, now: nat, who: Address)
    requires Settle(s, items, beneficiary, now).Success?
    ensures var t := Settle(s, items, beneficiary, now).value;
      BalanceOf(t.balances, who) - Net(t.payments, who) == BalanceOf(s.balances, who) - Net(s.payments, who)
    decreases |items|
  {
    hide Transfer, BalanceOf, Net;
    if items != [] {
      var front, item := items[..|items| - 1], items[|items| - 1];
      SettlePays(s, front, beneficiary, now, who);
      var m := Settle(s, front, beneficiary, now).value;
      PaidMoves(m, Payment(item.id, beneficiary, item.amount, now),
        Transfer(m.balances, CONTRACT, beneficiary, item.amount).value, who);
    }
  }

  lemma StepPays(s: State, e: TimedCall, who: Address)
    ensures BalanceOf(Step(s, e).balances, who) - Net(Step(s, e).payments, who)
         == BalanceOf(s.balances, who) - Net(s.payments, who)
            + (if e.call.MoveTokens? && Execute(s, e).Success? then Shift(e.call.from, e.call.to, e.call.amount, who) else 0)
  {
    hide Transfer, BalanceOf, Net, Claimable, Collect, Settle;
    if Execute(s, e).Success? {
      match e.call {
        case Claim(id, beneficiary) =>
          ClaimEffect(s, e.now, id, beneficiary);
          var amount := Claimable(s.schedules[id], beneficiary, e.now).value;
          PaidMoves(s, Payment(id, beneficiary, amount, e.now), Transfer(s.balances, CONTRACT, beneficiary, amount).value, who);
        case BatchClaim(ids, beneficiary) =>
          if ids != [] {
            SettlePays(s, Collect(s.schedules, ids, beneficiary, e.now).value.items, beneficiary, e.now, who);
          }
        case MoveTokens(from, to, amount) => OthersMove(s, from, to, amount);
        case Grant(_, _, _, _, _, _) =>
        case Revoke(_, _, _) =>
      }
    }
  }

  lemma OthersMove(s: State, from: Address, to: Address, amount: int)
    requires Transfer(s.balances, from, to, amount).Some?
    ensures Moved(s.balances, Transfer(s.balances, from, to, amount).value, from, to, amount)
  {
  }

  /** Over any run every holder's balance is what it was, what others moved, and the recorded payments: what the
      contract paid reached the beneficiaries, each his own. */
  lemma {:induction false} BalancesFollowPayments(s: State, calls: seq<TimedCall>, who: Address)
    ensures BalanceOf(Run(s, calls).balances, who) - Net(Run(s, calls).payments, who)
         == BalanceOf(s.balances, who) - Net(s.payments, who) + OthersNet(s, calls, who)
    decreases |calls|
  {
    hide Step, BalanceOf, Net, Execute;
    if calls != [] {
      BalancesFollowPayments(s, calls[..|calls| - 1], who);
      StepPays(Run(s, calls[..|calls| - 1]), calls[|calls| - 1], who);
    }
  }

  /** A batch that lists a claimable id twice pays the grant twice whenever the contract holds that
      much, where the second of two claims would fail. */
  lemma RepeatedIdIsPaidTwice(s: State, now: nat, id: nat, beneficiary: Address)
    requires AllWellFormed(s.schedules) && beneficiary != CONTRACT
    requires id in s.schedules && Claimable(s.schedules[id], beneficiary, now).Success?
    requires 2 * Claimable(s.schedules[id], beneficiary, now).value <= BalanceOf(s.balances, CONTRACT) <= I128_MAX
    ensures var batch := DoBatchClaim(s, now, [id, id], beneficiary);
      && batch.Success?
      && batch.value.value == 2 * Claimable(s.schedules[id], beneficiary, now).value
      && PaymentsOf(batch.value.state.payments, id) == PaymentsOf(s.payments, id) + 2
    ensures ClaimEach(s, now, [id, id], beneficiary).None?
  {
    assert WellFormed(s.schedules[id]);
    assert [id, id][0] == [id, id][1];
    assert !Distinct([id, id]);
    hide Settle, Collect, Claimable, Paid, BalanceOf, ClaimEach, PaymentsOf, Distinct, AllWellFormed, WellFormed;
    var amount := Claimable(s.schedules[id], beneficiary, now).value;
    ClaimableBounds(s.schedules[id], beneficiary, now);
    var item := Item(id, s.schedules[id].(claimed := true), amount);
    CollectsTwice(s, now, item, beneficiary);
    SettlesTwice(s, now, item, beneficiary);
    BatchPaysPerOccurrence(s, now, [id, id], beneficiary, id);
    OccursTwice(id);
    BatchRefinesClaims(s, now, [id, id], beneficiary);
  }

  lemma CollectsTwice(s: State, now: nat, item: Item, beneficiary: Address)
    requires item.id in s.schedules && item.schedule == s.schedules[item.id].(claimed := true)
    requires Claimable(s.schedules[item.id], beneficiary, now) == Success(item.amount)
    requires item.amount >= 0 && 2 * item.amount <= I128_MAX
    ensures Collect(s.schedules, [item.id, item.id], beneficiary, now) == Success(Batch([item, item], 2 * item.amount))
  {
    hide Collect, Claimable;
    var one, two := [item.id], [item.id, item.id];
    assert one[..0] == [] && two[..1] == one;
    NothingToClaim(s, now, beneficiary);
    CollectOneMore(s.schedules, one, beneficiary, now);
    CollectOneMore(s.schedules, two, beneficiary, now);
    assert [] + [item] == [item] && [item] + [item] == [item, item];
  }

  lemma SettlesTwice(s: State, now: nat, item: Item, beneficiary: Address)
    requires item.amount >= 0 && 2 * item.amount <= BalanceOf(s.balances, CONTRACT) && beneficiary != CONTRACT
    ensures Settle(s, [item, item], beneficiary, now).Success?
  {
    hide Settle, BalanceOf, Transfer;
    NothingToClaim(s, now, beneficiary);
    assert [] + [item] == [item] && [item] + [item] == [item, item];
    TransferEffect(s.balances, beneficiary, item.amount);
    SettleLast(s, [], item, beneficiary, now);
    var m := Settle(s, [item], beneficiary, now).value;
    TransferEffect(m.balances, beneficiary, item.amount);
    SettleLast(s, [item], item, beneficiary, now);
  }

  lemma OccursTwice(id: nat)
    ensures Occurrences([id, id], id) == 2
  {
    assert [id, id][..1] == [id] && [id][..0] == [];
    assert Occurrences([id], id) == 1;
  }
}
