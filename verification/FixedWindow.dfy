/** The bridge's fixed-window deposit limiter. */
module FixedWindow {
  import opened Common
  import opened FixedPoint
  import opened Ledger

  datatype RateLimit = RateLimit(limit: int, window: nat, currentUsage: int, lastUpdate: nat)

  datatype State = State(paused: bool, limits: map<Address, RateLimit>)

  datatype Call =
    | Deposit(asset: Address, amount: int)
    | SetRateLimit(asset: Address, limit: int, window: nat)
    | SetPaused(paused: bool)

  type TimedCall = Timed<Call>

  /** Usage restarts when the window has passed. A deposit over the limit aborts, and so does a sum that
      overflows. */
  function CheckRateLimit(rl: RateLimit, now: nat, amount: int): Option<RateLimit> {
    if rl.lastUpdate + rl.window >= U64 then None
    else
      var current := if now >= rl.lastUpdate + rl.window then rl.(currentUsage := 0, lastUpdate := now) else rl;
      if !Fits(current.currentUsage + amount) || current.currentUsage + amount > current.limit then None
      else Some(current.(currentUsage := current.currentUsage + amount))
  }

  function DoDeposit(s: State, now: nat, asset: Address, amount: int): Option<State> {
    if s.paused then None
    else if asset !in s.limits then Some(s)
    else
      match CheckRateLimit(s.limits[asset], now, amount)
      case None => None
      case Some(rl) => Some(s.(limits := s.limits[asset := rl]))
  }

  /** None when the call aborts. */
  function Execute(s: State, e: TimedCall): Option<State> {
    match e.call
    case Deposit(asset, amount) => DoDeposit(s, e.now, asset, amount)
    case SetRateLimit(asset, limit, window) =>
      Some(s.(limits := s.limits[asset := RateLimit(limit, window, 0, e.now)]))
    case SetPaused(paused) => Some(s.(paused := paused))
  }

  function Step(s: State, e: TimedCall): State {
    if Execute(s, e).Some? then Execute(s, e).value else s
  }

  function Run(s: State, calls: seq<TimedCall>): State
    decreases |calls|
  {
    if calls == [] then s else Step(Run(s, calls[..|calls| - 1]), calls[|calls| - 1])
  }

  /** The amount a call deposits of an asset. */
  function Accepted(s: State, e: TimedCall, asset: Address): int {
    if e.call.Deposit? && e.call.asset == asset && Execute(s, e).Some? then e.call.amount else 0
  }

  /** Deposits of an asset accepted from time lo until before time hi. */
  function AcceptedIn(s: State, calls: seq<TimedCall>, asset: Address, lo: int, hi: int): int
    decreases |calls|
  {
    if calls == [] then 0
    else
      var front, last := calls[..|calls| - 1], calls[|calls| - 1];
      AcceptedIn(s, front, asset, lo, hi) + (if lo <= last.now < hi then Accepted(Run(s, front), last, asset) else 0)
  }

  /** Usage of an asset given back, by accepted negative amounts, from time lo until before time hi. */
  function GivenBackIn(s: State, calls: seq<TimedCall>, asset: Address, lo: int, hi: int): int
    decreases |calls|
  {
    if calls == [] then 0
    else
      var front, last := calls[..|calls| - 1], calls[|calls| - 1];
      GivenBackIn(s, front, asset, lo, hi)
        + (if lo <= last.now < hi then Max(-Accepted(Run(s, front), last, asset), 0) else 0)
  }

  /** Time does not go back, and the limit of the asset is not changed. */
  predicate Regular(calls: seq<TimedCall>, asset: Address, start: nat) {
    && (forall i :: 0 <= i < |calls| ==> start <= calls[i].now)
    && (forall i, j :: 0 <= i < j < |calls| ==> calls[i].now <= calls[j].now)
    && (forall i :: 0 <= i < |calls| && calls[i].call.SetRateLimit? ==> calls[i].call.asset != asset)
  }

  /** Amounts of the asset are not negative. */
  predicate NonNegativeAmounts(calls: seq<TimedCall>, asset: Address) {
    forall i :: 0 <= i < |calls| && calls[i].call.Deposit? && calls[i].call.asset == asset ==> calls[i].call.amount >= 0
  }

  lemma RegularFront(calls: seq<TimedCall>, asset: Address, start: nat)
    requires Regular(calls, asset, start) && calls != []
    ensures Regular(calls[..|calls| - 1], asset, start)
    ensures LastTime(calls[..|calls| - 1], start) <= calls[|calls| - 1].now
  {
  }

  lemma {:induction false} AcceptedSplits(s: State, calls: seq<TimedCall>, asset: Address, lo: int, mid: int, hi: int)
    requires lo <= mid <= hi
    ensures AcceptedIn(s, calls, asset, lo, hi)
         == AcceptedIn(s, calls, asset, lo, mid) + AcceptedIn(s, calls, asset, mid, hi)
    decreases |calls|
  {
    hide Run, Accepted;
    if calls != [] {
      AcceptedSplits(s, calls[..|calls| - 1], asset, lo, mid, hi);
    }
  }

  /** What is accepted is short of zero by no more than what is given back, and an earlier start gives
      back no less. */
  lemma {:induction false} GivenBackBounds(s: State, calls: seq<TimedCall>, asset: Address, lo: int, mid: int, hi: int)
    requires lo <= mid
    ensures AcceptedIn(s, calls, asset, mid, hi) >= -GivenBackIn(s, calls, asset, mid, hi)
    ensures 0 <= GivenBackIn(s, calls, asset, mid, hi) <= GivenBackIn(s, calls, asset, lo, hi)
    decreases |calls|
  {
    hide Run, Accepted;
    if calls != [] {
      GivenBackBounds(s, calls[..|calls| - 1], asset, lo, mid, hi);
    }
  }

  lemma {:induction false} NothingGivenBack(s: State, calls: seq<TimedCall>, asset: Address, lo: int, hi: int)
    requires NonNegativeAmounts(calls, asset)
    ensures GivenBackIn(s, calls, asset, lo, hi) == 0
    decreases |calls|
  {
    hide Run, Execute;
    if calls != [] {
      NothingGivenBack(s, calls[..|calls| - 1], asset, lo, hi);
    }
  }

  /** Deposits of an asset accepted from time lo on. */
  function AcceptedSince(s: State, calls: seq<TimedCall>, asset: Address, lo: int): int
    decreases |calls|
  {
    if calls == [] then 0
    else
      var front, last := calls[..|calls| - 1], calls[|calls| - 1];
      AcceptedSince(s, front, asset, lo) + (if lo <= last.now then Accepted(Run(s, front), last, asset) else 0)
  }

  /** From time lo on, no amount but zero was accepted. */
  predicate QuietSince(s: State, calls: seq<TimedCall>, asset: Address, lo: int)
    decreases |calls|
  {
    calls != [] ==>
      var front, last := calls[..|calls| - 1], calls[|calls| - 1];
      && QuietSince(s, front, asset, lo)
      && (lo <= last.now ==> Accepted(Run(s, front), last, asset) == 0)
  }

  lemma {:induction false} QuietSums(s: State, calls: seq<TimedCall>, asset: Address, lo: int, mid: int, hi: int)
    requires QuietSince(s, calls, asset, lo) && lo <= mid
    ensures QuietSince(s, calls, asset, mid)
    ensures AcceptedIn(s, calls, asset, mid, hi) == AcceptedSince(s, calls, asset, mid) == 0
    decreases |calls|
  {
    hide Run, Accepted;
    if calls != [] {
      QuietSums(s, calls[..|calls| - 1], asset, lo, mid, hi);
    }
  }

  /** Nothing comes after the last call. */
  lemma {:induction false} AfterLast(s: State, calls: seq<TimedCall>, asset: Address, start: nat, lo: int, hi: int)
    requires Regular(calls, asset, start) && hi > LastTime(calls, start)
    ensures AcceptedIn(s, calls, asset, lo, hi) == AcceptedSince(s, calls, asset, lo)
    ensures lo > LastTime(calls, start) ==> QuietSince(s, calls, asset, lo)
    decreases |calls|
  {
    hide Run, Accepted;
    if calls != [] {
      RegularFront(calls, asset, start);
      AfterLast(s, calls[..|calls| - 1], asset, start, lo, hi);
    }
  }

  /** The current window started at lastUpdate. Its usage is what was accepted since then, never over
      the limit; nothing was accepted a window later; and what was accepted in a stretch of one window
      before it is within the limit and what was given back before the stretch. */
  ghost predicate Windows(s: State, calls: seq<TimedCall>, rl: RateLimit, asset: Address, start: nat) {
    && rl.currentUsage <= Max(rl.limit, 0)
    && start <= rl.lastUpdate <= LastTime(calls, start)
    && AcceptedSince(s, calls, asset, rl.lastUpdate) == rl.currentUsage
    && QuietSince(s, calls, asset, rl.lastUpdate + rl.window)
    && (forall hi :: AcceptedIn(s, calls, asset, rl.lastUpdate, hi) <= Max(rl.limit, 0))
    && (forall lo :: rl.lastUpdate - rl.window <= lo <= rl.lastUpdate ==>
         AcceptedIn(s, calls, asset, lo, rl.lastUpdate)
         <= Max(rl.limit, 0) + GivenBackIn(s, calls, asset, lo - rl.window, lo))
  }

  /** A call that accepts nothing of the asset leaves its record as it was. */
  lemma StepEffect(s: State, e: TimedCall, asset: Address)
    requires asset in s.limits
    requires e.call.SetRateLimit? ==> e.call.asset != asset
    ensures asset in Step(s, e).limits
    ensures e.call.Deposit? && e.call.asset == asset && Execute(s, e).Some? ==>
      CheckRateLimit(s.limits[asset], e.now, e.call.amount) == Some(Step(s, e).limits[asset])
    ensures !(e.call.Deposit? && e.call.asset == asset && Execute(s, e).Some?) ==>
      Step(s, e).limits[asset] == s.limits[asset] && Accepted(s, e, asset) == 0
  {
  }

  /** What one more call adds to the sums. */
  lemma SumsOfLast(s: State, calls: seq<TimedCall>, asset: Address, lo: int, hi: int)
    requires calls != []
    ensures var front, last := calls[..|calls| - 1], calls[|calls| - 1];
      var m := Accepted(Run(s, front), last, asset);
      && AcceptedIn(s, calls, asset, lo, hi)
         == AcceptedIn(s, front, asset, lo, hi) + (if lo <= last.now < hi then m else 0)
      && GivenBackIn(s, calls, asset, lo, hi)
         == GivenBackIn(s, front, asset, lo, hi) + (if lo <= last.now < hi then Max(-m, 0) else 0)
      && AcceptedSince(s, calls, asset, lo) == AcceptedSince(s, front, asset, lo) + (if lo <= last.now then m else 0)
      && (QuietSince(s, calls, asset, lo) <==> QuietSince(s, front, asset, lo) && (lo <= last.now ==> m == 0))
  {
  }

  /** A stretch that starts in the current window or later. */
  lemma StretchInWindow(
    s: State, calls: seq<TimedCall>, rl: RateLimit, asset: Address, start: nat, lo: int, hi: int)
    requires Windows(s, calls, rl, asset, start) && rl.lastUpdate <= lo <= hi
    ensures AcceptedIn(s, calls, asset, lo, hi)
         <= Max(rl.limit, 0) + GivenBackIn(s, calls, asset, lo - rl.window, lo)
  {
    hide AcceptedIn, AcceptedSince, GivenBackIn, QuietSince;
    var e := rl.lastUpdate;
    GivenBackBounds(s, calls, asset, lo - rl.window, lo - rl.window, lo);
    if lo >= e + rl.window {
      QuietSums(s, calls, asset, e + rl.window, lo, hi);
    } else {
      AcceptedSplits(s, calls, asset, e, lo, hi);
      GivenBackBounds(s, calls, asset, lo - rl.window, e, lo);
    }
  }

  lemma IdleKeepsWindows(s: State, calls: seq<TimedCall>, rl: RateLimit, asset: Address, start: nat)
    requires Regular(calls, asset, start) && calls != []
    requires Windows(s, calls[..|calls| - 1], rl, asset, start)
    requires Accepted(Run(s, calls[..|calls| - 1]), calls[|calls| - 1], asset) == 0
    ensures Windows(s, calls, rl, asset, start)
  {
    hide Run, Accepted, AcceptedIn, AcceptedSince, GivenBackIn, QuietSince;
    RegularFront(calls, asset, start);
    SumsOfLast(s, calls, asset, rl.lastUpdate, 0);
    SumsOfLast(s, calls, asset, rl.lastUpdate + rl.window, 0);
    forall hi
      ensures AcceptedIn(s, calls, asset, rl.lastUpdate, hi) <= Max(rl.limit, 0)
    {
      SumsOfLast(s, calls, asset, rl.lastUpdate, hi);
    }
    forall lo | rl.lastUpdate - rl.window <= lo <= rl.lastUpdate
      ensures AcceptedIn(s, calls, asset, lo, rl.lastUpdate)
           <= Max(rl.limit, 0) + GivenBackIn(s, calls, asset, lo - rl.window, lo)
    {
      SumsOfLast(s, calls, asset, lo, rl.lastUpdate);
      SumsOfLast(s, calls, asset, lo - rl.window, lo);
    }
  }

  /** A deposit in the current window. */
  lemma DepositInWindow(s: State, calls: seq<TimedCall>, rl: RateLimit, asset: Address, start: nat, amount: int)
    requires Regular(calls, asset, start) && calls != []
    requires Windows(s, calls[..|calls| - 1], rl, asset, start)
    requires calls[|calls| - 1].now < rl.lastUpdate + rl.window && rl.currentUsage + amount <= rl.limit
    requires Accepted(Run(s, calls[..|calls| - 1]), calls[|calls| - 1], asset) == amount
    ensures Windows(s, calls, rl.(currentUsage := rl.currentUsage + amount), asset, start)
  {
    hide Run, Accepted, AcceptedIn, AcceptedSince, GivenBackIn, QuietSince;
    var front, last := calls[..|calls| - 1], calls[|calls| - 1];
    var e := rl.lastUpdate;
    RegularFront(calls, asset, start);
    SumsOfLast(s, calls, asset, e, 0);
    SumsOfLast(s, calls, asset, e + rl.window, 0);
    forall hi
      ensures AcceptedIn(s, calls, asset, e, hi) <= Max(rl.limit, 0)
    {
      SumsOfLast(s, calls, asset, e, hi);
      if hi > last.now {
        AfterLast(s, front, asset, start, e, hi);
      }
    }
    forall lo | e - rl.window <= lo <= e
      ensures AcceptedIn(s, calls, asset, lo, e) <= Max(rl.limit, 0) + GivenBackIn(s, calls, asset, lo - rl.window, lo)
    {
      SumsOfLast(s, calls, asset, lo, e);
      SumsOfLast(s, calls, asset, lo - rl.window, lo);
    }
  }

  /** A deposit that starts a new window. */
  lemma DepositAfterWindow(s: State, calls: seq<TimedCall>, rl: RateLimit, asset: Address, start: nat, amount: int)
    requires Regular(calls, asset, start) && calls != [] && rl.window > 0
    requires Windows(s, calls[..|calls| - 1], rl, asset, start)
    requires calls[|calls| - 1].now >= rl.lastUpdate + rl.window && amount <= rl.limit
    requires Accepted(Run(s, calls[..|calls| - 1]), calls[|calls| - 1], asset) == amount
    ensures Windows(s, calls, rl.(currentUsage := amount, lastUpdate := calls[|calls| - 1].now), asset, start)
  {
    hide Run, Accepted, AcceptedIn, AcceptedSince, GivenBackIn, QuietSince;
    var front, now := calls[..|calls| - 1], calls[|calls| - 1].now;
    RegularFront(calls, asset, start);
    SumsOfLast(s, calls, asset, now, 0);
    SumsOfLast(s, calls, asset, now + rl.window, 0);
    QuietSums(s, front, asset, rl.lastUpdate + rl.window, now + rl.window, 0);
    forall hi
      ensures AcceptedIn(s, calls, asset, now, hi) <= Max(rl.limit, 0)
    {
      SumsOfLast(s, calls, asset, now, hi);
      QuietSums(s, front, asset, rl.lastUpdate + rl.window, now, hi);
    }
    forall lo | now - rl.window <= lo <= now
      ensures AcceptedIn(s, calls, asset, lo, now) <= Max(rl.limit, 0) + GivenBackIn(s, calls, asset, lo - rl.window, lo)
    {
      SumsOfLast(s, calls, asset, lo, now);
      SumsOfLast(s, calls, asset, lo - rl.window, lo);
      StretchInWindow(s, front, rl, asset, start, lo, now);
    }
    QuietSums(s, front, asset, rl.lastUpdate + rl.window, now, 0);
  }

  lemma {:induction false} WindowsHold(s: State, calls: seq<TimedCall>, asset: Address, limit: int, window: nat, start: nat)
    requires Regular(calls, asset, start) && window > 0
    requires asset in s.limits && s.limits[asset] == RateLimit(limit, window, 0, start)
    ensures asset in Run(s, calls).limits
    ensures var rl := Run(s, calls).limits[asset];
      rl.limit == limit && rl.window == window && Windows(s, calls, rl, asset, start)
    decreases |calls|
  {
    hide Step, Accepted, Windows, Regular;
    if calls == [] {
      WindowsAtStart(s, asset, limit, window, start);
    } else {
      var front, last := calls[..|calls| - 1], calls[|calls| - 1];
      RegularFront(calls, asset, start);
      WindowsHold(s, front, asset, limit, window, start);
      var m := Run(s, front);
      NoChangeOfLimit(calls, asset, start);
      StepEffect(m, last, asset);
      if last.call.Deposit? && last.call.asset == asset && Execute(m, last).Some? {
        AcceptedAmount(m, last, asset);
        var rl := m.limits[asset];
        if last.now < rl.lastUpdate + rl.window {
          DepositInWindow(s, calls, rl, asset, start, last.call.amount);
        } else {
          DepositAfterWindow(s, calls, rl, asset, start, last.call.amount);
        }
      } else {
        IdleKeepsWindows(s, calls, m.limits[asset], asset, start);
      }
    }
  }

  lemma AcceptedAmount(s: State, e: TimedCall, asset: Address)
    requires e.call.Deposit? && e.call.asset == asset && Execute(s, e).Some?
    ensures Accepted(s, e, asset) == e.call.amount
  {
  }

  lemma NoChangeOfLimit(calls: seq<TimedCall>, asset: Address, start: nat)
    requires Regular(calls, asset, start) && calls != []
    ensures var last := calls[|calls| - 1]; last.call.SetRateLimit? ==> last.call.asset != asset
  {
  }

  lemma WindowsAtStart(s: State, asset: Address, limit: int, window: nat, start: nat)
    ensures Windows(s, [], RateLimit(limit, window, 0, start), asset, start)
  {
  }

  /** The guarantee: from the moment the limit is set, in any stretch of time no longer than the
      window, however it lies against the resets, the net amount accepted is at most twice the limit and
      the usage given back in the window before the stretch. */
  lemma {:induction false} FixedWindowBound(
    s: State, calls: seq<TimedCall>, asset: Address, limit: int, window: nat, start: nat, lo: int, hi: int)
    requires Regular(calls, asset, start) && window > 0
    requires asset in s.limits && s.limits[asset] == RateLimit(limit, window, 0, start)
    requires lo <= hi <= lo + window
    ensures AcceptedIn(s, calls, asset, lo, hi) <= 2 * Max(limit, 0) + GivenBackIn(s, calls, asset, lo - window, lo)
    decreases |calls|
  {
    hide Run, Accepted, AcceptedIn, AcceptedSince, GivenBackIn, QuietSince, Regular;
    WindowsHold(s, calls, asset, limit, window, start);
    var rl := Run(s, calls).limits[asset];
    var e := rl.lastUpdate;
    if hi <= e {
      if calls == [] {
        NothingAccepted(s, asset, lo, hi);
        GivenBackBounds(s, calls, asset, lo - window, lo - window, lo);
      } else {
        var front := calls[..|calls| - 1];
        RegularFront(calls, asset, start);
        SumsOfLast(s, calls, asset, lo, hi);
        SumsOfLast(s, calls, asset, lo - window, lo);
        FixedWindowBound(s, front, asset, limit, window, start, lo, hi);
      }
    } else if lo >= e {
      StretchInWindow(s, calls, rl, asset, start, lo, hi);
    } else {
      AcceptedSplits(s, calls, asset, lo, e, hi);
    }
  }

  /** With amounts that are not negative: at most twice the limit, told from the call that sets it. */
  lemma SettingALimitBoundsDeposits(
    s: State, setting: TimedCall, calls: seq<TimedCall>, lo: int, hi: int)
    requires setting.call.SetRateLimit? && setting.call.window > 0
    requires Regular(calls, setting.call.asset, setting.now) && NonNegativeAmounts(calls, setting.call.asset)
    requires lo <= hi <= lo + setting.call.window
    ensures AcceptedIn(Step(s, setting), calls, setting.call.asset, lo, hi) <= 2 * Max(setting.call.limit, 0)
  {
    hide Run, AcceptedIn, GivenBackIn, Regular, NonNegativeAmounts;
    var c := setting.call;
    FixedWindowBound(Step(s, setting), calls, c.asset, c.limit, c.window, setting.now, lo, hi);
    NothingGivenBack(Step(s, setting), calls, c.asset, lo - c.window, lo);
  }

  /** No deposit is refused without cause: with the bridge running, exactly those are that would lift
      what the window has accepted so far, or a fresh window, over the limit, or whose sums overflow. */
  lemma RefusedOnlyOverLimit(
    s: State, calls: seq<TimedCall>, asset: Address, limit: int, window: nat, start: nat, now: nat, amount: int)
    requires Regular(calls, asset, start) && window > 0
    requires asset in s.limits && s.limits[asset] == RateLimit(limit, window, 0, start)
    requires !Run(s, calls).paused
    ensures asset in Run(s, calls).limits
    ensures var windowStart := Run(s, calls).limits[asset].lastUpdate;
      var used := if now >= windowStart + window then 0 else AcceptedSince(s, calls, asset, windowStart);
      Execute(Run(s, calls), At(now, Deposit(asset, amount))).None? <==>
      used + amount > limit || !Fits(used + amount) || windowStart + window >= U64
  {
    hide Run, AcceptedSince, AcceptedIn, GivenBackIn, QuietSince, Regular;
    WindowsHold(s, calls, asset, limit, window, start);
  }

  /** The same, told from the call that sets the limit. */
  lemma RefusedAfterSetting(
    s: State, setting: TimedCall, calls: seq<TimedCall>, now: nat, amount: int)
    requires setting.call.SetRateLimit? && setting.call.window > 0
    requires Regular(calls, setting.call.asset, setting.now) && !Run(Step(s, setting), calls).paused
    ensures var c, t := setting.call, Run(Step(s, setting), calls);
      && c.asset in t.limits
      && setting.now <= t.limits[c.asset].lastUpdate <= LastTime(calls, setting.now)
      && var windowStart := t.limits[c.asset].lastUpdate;
      var used := if now >= windowStart + c.window then 0 else AcceptedSince(Step(s, setting), calls, c.asset, windowStart);
      Execute(t, At(now, Deposit(c.asset, amount))).None? <==>
        used + amount > c.limit || !Fits(used + amount) || windowStart + c.window >= U64
  {
    hide Run, AcceptedSince, AcceptedIn, GivenBackIn, QuietSince, Regular;
    var c := setting.call;
    WindowsHold(Step(s, setting), calls, c.asset, c.limit, c.window, setting.now);
    RefusedOnlyOverLimit(Step(s, setting), calls, c.asset, c.limit, c.window, setting.now, now, amount);
  }

  lemma NothingAccepted(s: State, asset: Address, lo: int, hi: int)
    ensures AcceptedIn(s, [], asset, lo, hi) == GivenBackIn(s, [], asset, lo, hi) == 0
  {
  }

  lemma OneMore(s: State, calls: seq<TimedCall>, e: TimedCall, asset: Address, lo: int, hi: int)
    ensures Run(s, calls + [e]) == Step(Run(s, calls), e)
    ensures var m := Accepted(Run(s, calls), e, asset);
      && AcceptedIn(s, calls + [e], asset, lo, hi)
         == AcceptedIn(s, calls, asset, lo, hi) + (if lo <= e.now < hi then m else 0)
      && GivenBackIn(s, calls + [e], asset, lo, hi)
         == GivenBackIn(s, calls, asset, lo, hi) + (if lo <= e.now < hi then Max(-m, 0) else 0)
  {
    hide Step, Accepted;
    assert (calls + [e])[..|calls|] == calls;
  }

  /** An amount given back, the limit and that amount just before a reset, the limit again at the reset. */
  function AroundReset(asset: Address, limit: int, window: nat, back: int): seq<TimedCall>
    requires window > 2
  {
    [At(0, Deposit(asset, -back)), At(window - 1, Deposit(asset, limit + back)), At(window, Deposit(asset, limit))]
  }

  /** The bound is reached for every limit, window and amount given back. So negative amounts, which
      nothing refuses, lift what is accepted over twice the limit by whatever they give back. */
  lemma BoundIsReached(limit: int, window: nat, asset: Address, back: int)
    requires limit >= 0 && 2 < window < U64 && back >= 0 && Fits(limit + back)
    ensures var s := State(false, map[asset := RateLimit(limit, window, 0, 0)]);
      var calls := AroundReset(asset, limit, window, back);
      && Regular(calls, asset, 0)
      && AcceptedIn(s, calls, asset, window - 1, window + 1) == 2 * limit + back
      && GivenBackIn(s, calls, asset, -1, window - 1) == back
  {
    hide Run, AcceptedIn, GivenBackIn;
    var s, c := State(false, map[asset := RateLimit(limit, window, 0, 0)]), AroundReset(asset, limit, window, back);
    assert [] + [c[0]] == [c[0]] && [c[0]] + [c[1]] == [c[0], c[1]] && [c[0], c[1]] + [c[2]] == c;
    NothingRun(s);
    NothingAccepted(s, asset, window - 1, window + 1);
    NothingAccepted(s, asset, -1, window - 1);
    OneMore(s, [], c[0], asset, window - 1, window + 1);
    OneMore(s, [], c[0], asset, -1, window - 1);
    OneMore(s, [c[0]], c[1], asset, window - 1, window + 1);
    OneMore(s, [c[0]], c[1], asset, -1, window - 1);
    OneMore(s, [c[0], c[1]], c[2], asset, window - 1, window + 1);
    OneMore(s, [c[0], c[1]], c[2], asset, -1, window - 1);
  }

  lemma NothingRun(s: State)
    ensures Run(s, []) == s
  {
  }

  /** The limit set and used up n times at one moment. */
  function SetAndUse(asset: Address, limit: int, window: nat, now: nat, n: nat): seq<TimedCall> {
    if n == 0 then []
    else
      SetAndUse(asset, limit, window, now, n - 1)
        + [At(now, SetRateLimit(asset, limit, window))] + [At(now, Deposit(asset, limit))]
  }

  /** Setting a limit, even to what it was, forgets the usage: no multiple of the limit bounds what is
      accepted at one moment when the limit may be set again. */
  lemma {:induction false} SettingForgetsUsage(asset: Address, limit: int, window: nat, now: nat, n: nat)
    requires limit >= 0 && Fits(limit) && window > 0 && now + window < U64
    ensures var s, calls := State(false, map[]), SetAndUse(asset, limit, window, now, n);
      AcceptedIn(s, calls, asset, now, now + 1) == n * limit && !Run(s, calls).paused
  {
    hide Run, AcceptedIn, GivenBackIn;
    var s := State(false, map[]);
    if n == 0 {
      NothingRun(s);
      NothingAccepted(s, asset, now, now + 1);
    } else {
      SettingForgetsUsage(asset, limit, window, now, n - 1);
      var before := SetAndUse(asset, limit, window, now, n - 1);
      var setting, use := At(now, SetRateLimit(asset, limit, window)), At(now, Deposit(asset, limit));
      OneMore(s, before, setting, asset, now, now + 1);
      OneMore(s, before + [setting], use, asset, now, now + 1);
      assert n * limit == (n - 1) * limit + limit;
    }
  }

  /** The bridge's limiter over its storage. */
  class Bridge {
    var paused: bool
    var limits: map<Address, RateLimit>

    ghost function Stored(): State
      reads this
    {
      State(paused, limits)
    }

    constructor ()
      ensures Stored() == State(false, map[])
    {
      paused, limits := false, map[];
    }

    method SetRateLimit(asset: Address, limit: int, window: nat, now: nat)
      modifies this`limits
      ensures Some(Stored()) == Execute(old(Stored()), At(now, Call.SetRateLimit(asset, limit, window)))
    {
      limits := limits[asset := RateLimit(limit, window, 0, now)];
    }

    method SetPaused(value: bool)
      modifies this`paused
      ensures Some(Stored()) == Execute(old(Stored()), At(0, Call.SetPaused(value)))
    {
      paused := value;
    }

    method Deposit(asset: Address, amount: int, now: nat) returns (ok: bool)
      modifies this
      ensures ok == Execute(old(Stored()), At(now, Call.Deposit(asset, amount))).Some?
      ensures Stored() == Step(old(Stored()), At(now, Call.Deposit(asset, amount)))
    {
      if paused {
        return false;
      }
      ok := CheckLimit(asset, amount, now);
    }

    /** Works on a copy of the record, which is written back only if the limit holds. */
    method CheckLimit(asset: Address, amount: int, now: nat) returns (ok: bool)
      modifies this`limits
      ensures asset !in old(limits) ==> ok && limits == old(limits)
      ensures asset in old(limits) ==>
        match CheckRateLimit(old(limits)[asset], now, amount)
        case None => !ok && limits == old(limits)
        case Some(rl) => ok && limits == old(limits)[asset := rl]
    {
      if asset !in limits {
        return true;
      }
      var rl := limits[asset];
      if rl.lastUpdate + rl.window >= U64 {
        return false;
      }
      if now >= rl.lastUpdate + rl.window {
        rl := rl.(currentUsage := 0);
        rl := rl.(lastUpdate := now);
      }
      if !Fits(rl.currentUsage + amount) || rl.currentUsage + amount > rl.limit {
        return false;
      }
      rl := rl.(currentUsage := rl.currentUsage + amount);
      limits := limits[asset := rl];
      ok := true;
    }
  }
}
