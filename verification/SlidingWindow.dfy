/** The sliding-window rate limiter over a stored sorted set, for one key. Members of the set are the
    millisecond stamps themselves, so an ascending list without repeats is all it holds. */
module SlidingWindow {
  import opened Common

  /** The stored set and the moment its key expires. */
  datatype State = State(entries: seq<int>, expiresAt: int)

  datatype Answer = Answer(allowed: bool, remaining: int, resetAt: int)

  const Empty: State := State([], 0)

  /** Stamps that survive the removal of everything scored from 0 to the start of the window. */
  function Kept(entries: seq<int>, windowStart: int): seq<int> {
    if entries == [] then []
    else
      var front, last := entries[..|entries| - 1], entries[|entries| - 1];
      Kept(front, windowStart) + (if 0 <= last <= windowStart then [] else [last])
  }

  /** Adding a member that is already there changes nothing. */
  function Insert(entries: seq<int>, stamp: int): seq<int> {
    if entries == [] then [stamp]
    else
      var front, last := entries[..|entries| - 1], entries[|entries| - 1];
      if stamp == last then entries
      else if last < stamp then entries + [stamp]
      else Insert(front, stamp) + [last]
  }

  /** One check with the key's expiry ignored. */
  function Check(entries: seq<int>, now: int, limit: int, window: int): (seq<int>, Answer) {
    var kept := Kept(entries, now - window);
    if |kept| >= limit then
      (kept, Answer(false, 0, (if kept != [] then kept[0] else now) + window))
    else
      (Insert(kept, now), Answer(true, limit - |kept| - 1, now + window))
  }

  /** One check as stored: an expired key is gone before the check, and an allowed check sets the
      expiry one window ahead. */
  function CheckStored(s: State, now: int, limit: int, window: int): (State, Answer) {
    var entries := if now >= s.expiresAt then [] else s.entries;
    var (after, answer) := Check(entries, now, limit, window);
    (State(after, if answer.allowed then now + window else s.expiresAt), answer)
  }

  predicate Sorted(calls: seq<int>) {
    forall i, j :: 0 <= i < j < |calls| ==> calls[i] < calls[j]
  }

  /** Calls in the order of a clock that may stand still but never runs back. */
  predicate InOrder(times: seq<int>) {
    && (forall i :: 0 <= i < |times| ==> times[i] >= 0)
    && (forall i, j :: 0 <= i < j < |times| ==> times[i] <= times[j])
  }

  /** The different stamps of a list of calls, in the order of their first call. */
  function Stamps(calls: seq<int>): seq<int> {
    if calls == [] then []
    else
      var front, last := Stamps(calls[..|calls| - 1]), calls[|calls| - 1];
      if last in front then front else front + [last]
  }

  /** Stamps are not negative and lie at least one window before the expiry. */
  predicate Fresh(s: State, window: int) {
    forall i :: 0 <= i < |s.entries| ==> 0 <= s.entries[i] && s.entries[i] + window <= s.expiresAt
  }

  lemma {:induction false} KeptNone(entries: seq<int>, windowStart: int)
    requires forall i :: 0 <= i < |entries| ==> 0 <= entries[i] <= windowStart
    ensures Kept(entries, windowStart) == []
  {
    if entries != [] {
      KeptNone(entries[..|entries| - 1], windowStart);
    }
  }

  lemma {:induction false} KeptAll(entries: seq<int>, windowStart: int)
    requires forall i :: 0 <= i < |entries| ==> windowStart < entries[i]
    ensures Kept(entries, windowStart) == entries
  {
    if entries != [] {
      KeptAll(entries[..|entries| - 1], windowStart);
    }
  }

  lemma {:induction false} KeptShorter(entries: seq<int>, windowStart: int)
    ensures |Kept(entries, windowStart)| <= |entries|
    ensures entries != [] && 0 <= entries[0] <= windowStart ==> |Kept(entries, windowStart)| < |entries|
  {
    if entries != [] {
      KeptShorter(entries[..|entries| - 1], windowStart);
    }
  }

  lemma {:induction false} KeptBounded(entries: seq<int>, windowStart: int, hi: int)
    requires forall i :: 0 <= i < |entries| ==> 0 <= entries[i] <= hi
    ensures forall i :: 0 <= i < |Kept(entries, windowStart)| ==>
      0 <= Kept(entries, windowStart)[i] <= hi && windowStart < Kept(entries, windowStart)[i]
  {
    if entries != [] {
      var front, last := entries[..|entries| - 1], entries[|entries| - 1];
      KeptBounded(front, windowStart, hi);
      assert 0 <= last <= hi;
      assert Kept(entries, windowStart) == Kept(front, windowStart) + (if 0 <= last <= windowStart then [] else [last]);
    }
  }

  /** Key expiry never changes an answer nor what a check leaves behind. */
  lemma ExpiryIsInvisible(s: State, now: int, limit: int, window: int)
    requires Fresh(s, window) && window >= 0
    ensures CheckStored(s, now, limit, window).1 == Check(s.entries, now, limit, window).1
    ensures CheckStored(s, now, limit, window).0.entries == Check(s.entries, now, limit, window).0
  {
    hide Insert;
    if now >= s.expiresAt {
      KeptNone(s.entries, now - window);
      KeptNone([], now - window);
    }
  }

  // ---------------------------------------------------------------- runs with one limit

  function Run(limit: int, window: int, times: seq<int>): State
    decreases |times|
  {
    if times == [] then Empty
    else CheckStored(Run(limit, window, times[..|times| - 1]), times[|times| - 1], limit, window).0
  }

  /** The calls of a run that were allowed, in order. */
  function Allowed(limit: int, window: int, times: seq<int>): seq<int>
    decreases |times|
  {
    if times == [] then []
    else
      var front, last := times[..|times| - 1], times[|times| - 1];
      Allowed(limit, window, front)
        + (if CheckStored(Run(limit, window, front), last, limit, window).1.allowed then [last] else [])
  }

  /** The calls that fall after lo and not after hi. */
  function Within(calls: seq<int>, lo: int, hi: int): seq<int> {
    if calls == [] then []
    else
      Within(calls[..|calls| - 1], lo, hi)
        + (if lo < calls[|calls| - 1] <= hi then [calls[|calls| - 1]] else [])
  }

  predicate AllBelow(calls: seq<int>, t: int) {
    forall i :: 0 <= i < |calls| ==> 0 <= calls[i] < t
  }

  /** What is stored after the last call, at time `last`: the stamps of the allowed calls of the window
      that ends there, within the limit. */
  ghost predicate Tracks(s: State, allowed: seq<int>, limit: int, window: int, last: int) {
    && s.entries == Stamps(Within(allowed, last - window, last))
    && |s.entries| <= Max(limit, 0)
    && AllBelow(allowed, last + 1) && InOrder(allowed)
    && s.expiresAt <= last + window
    && Fresh(s, window)
  }

  lemma {:induction false} StampsHold(calls: seq<int>)
    ensures forall x :: x in Stamps(calls) <==> x in calls
  {
    if calls != [] {
      var front, last := calls[..|calls| - 1], calls[|calls| - 1];
      assert calls == front + [last];
      StampsHold(front);
    }
  }

  lemma {:induction false} StampsSorted(calls: seq<int>)
    requires InOrder(calls)
    ensures Sorted(Stamps(calls))
  {
    if calls != [] {
      var front, last := calls[..|calls| - 1], calls[|calls| - 1];
      StampsSorted(front);
      StampsHold(front);
      forall i | 0 <= i < |Stamps(front)| && last !in Stamps(front)
        ensures Stamps(front)[i] < last
      {
        assert Stamps(front)[i] in Stamps(front);
      }
    }
  }

  lemma {:induction false} StampsOfSorted(calls: seq<int>)
    requires Sorted(calls)
    ensures Stamps(calls) == calls
  {
    if calls != [] {
      var front, last := calls[..|calls| - 1], calls[|calls| - 1];
      StampsOfSorted(front);
      assert calls == front + [last];
    }
  }

  lemma StampsAppended(front: seq<int>, last: int)
    ensures Stamps(front + [last]) == if last in front then Stamps(front) else Stamps(front) + [last]
  {
    assert (front + [last])[..|front|] == front;
    StampsHold(front);
  }

  lemma {:induction false} KeptHolds(entries: seq<int>, windowStart: int)
    ensures forall x :: x in Kept(entries, windowStart) <==> x in entries && !(0 <= x <= windowStart)
  {
    if entries != [] {
      var front, last := entries[..|entries| - 1], entries[|entries| - 1];
      assert entries == front + [last];
      KeptHolds(front, windowStart);
    }
  }

  /** Removing old calls and merging equal stamps commute. */
  lemma {:induction false} KeptOfStamps(calls: seq<int>, windowStart: int)
    ensures Kept(Stamps(calls), windowStart) == Stamps(Kept(calls, windowStart))
  {
    if calls != [] {
      var front, last := calls[..|calls| - 1], calls[|calls| - 1];
      assert calls == front + [last];
      KeptOfStamps(front, windowStart);
      KeptOfOneMore(front, last, windowStart);
    }
  }

  lemma KeptOfOneMore(front: seq<int>, last: int, windowStart: int)
    requires Kept(Stamps(front), windowStart) == Stamps(Kept(front, windowStart))
    ensures Kept(Stamps(front + [last]), windowStart) == Stamps(Kept(front + [last], windowStart))
  {
    hide Kept, Stamps;
    var kept := Kept(front, windowStart);
    StampsAppended(front, last);
    KeptAppended(front, last, windowStart);
    KeptAppended(Stamps(front), last, windowStart);
    KeptHolds(front, windowStart);
    StampsAppended(kept, last);
    assert Stamps(kept) + [] == Stamps(kept) && kept + [] == kept;
  }

  lemma {:induction false} WithinBelow(calls: seq<int>, lo: int, hi: int, m: int)
    requires AllBelow(calls, m)
    ensures AllBelow(Within(calls, lo, hi), m)
    ensures forall i :: 0 <= i < |Within(calls, lo, hi)| ==> lo < Within(calls, lo, hi)[i]
  {
    if calls != [] {
      WithinBelow(calls[..|calls| - 1], lo, hi, m);
    }
  }

  lemma {:induction false} WithinOrdered(calls: seq<int>, lo: int, hi: int)
    requires InOrder(calls)
    ensures InOrder(Within(calls, lo, hi))
    ensures Sorted(calls) ==> Sorted(Within(calls, lo, hi))
  {
    if calls != [] {
      var front, last := calls[..|calls| - 1], calls[|calls| - 1];
      WithinOrdered(front, lo, hi);
      WithinBelow(front, lo, hi, last + 1);
      if Sorted(calls) {
        WithinBelow(front, lo, hi, last);
      }
    }
  }

  lemma {:induction false} WithinHolds(calls: seq<int>, lo: int, hi: int)
    ensures forall x :: x in Within(calls, lo, hi) <==> x in calls && lo < x <= hi
  {
    if calls != [] {
      var front, last := calls[..|calls| - 1], calls[|calls| - 1];
      assert calls == front + [last];
      WithinHolds(front, lo, hi);
    }
  }

  /** Removing what has left the window leaves the calls of the later window. */
  lemma {:induction false} KeptIsWithin(calls: seq<int>, earlier: int, later: int, window: int)
    requires AllBelow(calls, earlier + 1) && earlier <= later && window >= 0
    ensures Kept(Within(calls, earlier - window, earlier), later - window) == Within(calls, later - window, later)
  {
    hide Kept;
    if calls == [] {
      KeptNone([], later - window);
    } else {
      var front, last := calls[..|calls| - 1], calls[|calls| - 1];
      KeptIsWithin(front, earlier, later, window);
      KeptAppended(Within(front, earlier - window, earlier), last, later - window);
      var after, before := Within(front, later - window, later), Within(front, earlier - window, earlier);
      assert after + [] == after && before + [] == before;
    }
  }

  lemma KeptAppended(front: seq<int>, last: int, windowStart: int)
    ensures Kept(front + [last], windowStart) == Kept(front, windowStart) + (if 0 <= last <= windowStart then [] else [last])
  {
    assert (front + [last])[..|front|] == front;
  }

  lemma WithinAppended(front: seq<int>, last: int, lo: int, hi: int)
    ensures Within(front + [last], lo, hi) == Within(front, lo, hi) + (if lo < last <= hi then [last] else [])
  {
    assert (front + [last])[..|front|] == front;
  }

  lemma InsertLast(entries: seq<int>, stamp: int)
    requires Sorted(entries) && AllBelow(entries, stamp + 1)
    ensures Insert(entries, stamp) == if stamp in entries then entries else entries + [stamp]
  {
  }

  /** What a check keeps: the stamps of the allowed calls of the window ending now. */
  lemma KeptTracks(s: State, before: seq<int>, limit: int, window: int, earlier: int, now: int)
    requires window > 0 && -1 <= earlier <= now && Tracks(s, before, limit, window, earlier)
    ensures var kept := Kept(s.entries, now - window);
      && kept == Stamps(Within(before, now - window, now))
      && |kept| <= Max(limit, 0)
      && AllBelow(kept, earlier + 1) && Sorted(kept)
      && (forall i :: 0 <= i < |kept| ==> now - window < kept[i] && kept[i] + window <= s.expiresAt)
      && (now in kept <==> now in before)
  {
    hide Kept, Within, Stamps;
    var inside := Within(before, now - window, now);
    KeptOfStamps(Within(before, earlier - window, earlier), now - window);
    KeptIsWithin(before, earlier, now, window);
    KeptShorter(s.entries, now - window);
    KeptBounded(s.entries, now - window, s.expiresAt - window);
    WithinBelow(before, now - window, now, earlier + 1);
    WithinOrdered(before, now - window, now);
    WithinHolds(before, now - window, now);
    StampsSorted(inside);
    StampsHold(inside);
    var kept := Kept(s.entries, now - window);
    forall i | 0 <= i < |kept|
      ensures 0 <= kept[i] < earlier + 1
    {
      assert kept[i] in inside;
    }
  }

  lemma TracksAllowed(kept: seq<int>, before: seq<int>, limit: int, window: int, now: int)
    requires window > 0 && now >= 0 && kept == Stamps(Within(before, now - window, now)) && |kept| < limit
    requires AllBelow(kept, now + 1) && AllBelow(before, now + 1) && InOrder(before)
    ensures Tracks(State(if now in kept then kept else kept + [now], now + window), before + [now], limit, window, now)
  {
    hide Within, Stamps;
    WithinAppended(before, now, now - window, now);
    StampsAppended(Within(before, now - window, now), now);
    StampsHold(Within(before, now - window, now));
  }

  /** A check at a later time, or at the same, keeps the stored set in step with the allowed calls. */
  lemma StepTracks(s: State, before: seq<int>, limit: int, window: int, earlier: int, now: int)
    requires window > 0 && -1 <= earlier <= now && 0 <= now && Tracks(s, before, limit, window, earlier)
    ensures var (t, answer) := CheckStored(s, now, limit, window);
      Tracks(t, before + (if answer.allowed then [now] else []), limit, window, now)
  {
    hide Kept, Within, Insert, Stamps;
    ExpiryIsInvisible(s, now, limit, window);
    KeptTracks(s, before, limit, window, earlier, now);
    var kept := Kept(s.entries, now - window);
    if |kept| < limit {
      InsertLast(kept, now);
      TracksAllowed(kept, before, limit, window, now);
    } else {
      assert before + [] == before;
    }
  }

  function LastStamp(times: seq<int>): int {
    if times == [] then -1 else times[|times| - 1]
  }

  lemma {:induction false} RunTracks(limit: int, window: int, times: seq<int>)
    requires InOrder(times) && window > 0
    ensures Tracks(Run(limit, window, times), Allowed(limit, window, times), limit, window, LastStamp(times))
    decreases |times|
  {
    hide Tracks, CheckStored;
    if times == [] {
      TracksNothing(limit, window);
    } else {
      var front, last := times[..|times| - 1], times[|times| - 1];
      RunTracks(limit, window, front);
      StepTracks(Run(limit, window, front), Allowed(limit, window, front), limit, window, LastStamp(front), last);
    }
  }

  lemma TracksNothing(limit: int, window: int)
    requires window > 0
    ensures Tracks(Empty, [], limit, window, -1)
  {
  }

  /** Every interval one window long holds allowed calls of at most `limit` different stamps, wherever it
      lies. */
  lemma {:induction false} StampGuarantee(limit: int, window: int, times: seq<int>, t: int)
    requires InOrder(times) && window >= 0
    ensures |Stamps(Within(Allowed(limit, window, times), t - window, t))| <= Max(limit, 0)
    decreases |times|
  {
    hide CheckStored, Run, Tracks, Within;
    var allowed := Allowed(limit, window, times);
    if window == 0 {
      NothingWithin(allowed, t);
    } else if times == [] {
      NothingIn(t - window, t);
    } else {
      var front, last := times[..|times| - 1], times[|times| - 1];
      if t >= last {
        RunTracks(limit, window, times);
        WithinTracked(Run(limit, window, times), allowed, limit, window, last, t);
      } else {
        StampGuarantee(limit, window, front, t);
        WithinAppended(Allowed(limit, window, front), last, t - window, t);
        var before := Allowed(limit, window, front);
        assert before + [] == before && Within(before, t - window, t) + [] == Within(before, t - window, t);
      }
    }
  }

  /** Different times, or a limit of at most one, leave no two allowed calls with one stamp. */
  lemma {:induction false} AllowedSorted(limit: int, window: int, times: seq<int>)
    requires InOrder(times) && window > 0 && (Sorted(times) || limit <= 1)
    ensures Sorted(Allowed(limit, window, times))
    decreases |times|
  {
    hide CheckStored, Tracks;
    if times != [] {
      var front, last := times[..|times| - 1], times[|times| - 1];
      AllowedSorted(limit, window, front);
      var s, before := Run(limit, window, front), Allowed(limit, window, front);
      RunTracks(limit, window, front);
      AllowedAreCalls(limit, window, front);
      OneAllowed(s, before, limit, window, LastStamp(front), last);
      if CheckStored(s, last, limit, window).1.allowed {
        SortedAppended(before, front, last);
      }
    }
  }

  lemma {:induction false} AllowedAreCalls(limit: int, window: int, times: seq<int>)
    ensures forall x :: x in Allowed(limit, window, times) ==> x in times
    decreases |times|
  {
    hide CheckStored, Run;
    if times != [] {
      var front, last := times[..|times| - 1], times[|times| - 1];
      assert times == front + [last];
      AllowedAreCalls(limit, window, front);
    }
  }

  lemma SortedAppended(calls: seq<int>, front: seq<int>, last: int)
    requires Sorted(calls) && InOrder(front + [last]) && (forall x :: x in calls ==> x in front)
    requires last !in calls
    ensures Sorted(calls + [last])
  {
    forall i | 0 <= i < |calls|
      ensures calls[i] < last
    {
      assert calls[i] in calls;
      var k :| 0 <= k < |front| && front[k] == calls[i];
      assert (front + [last])[k] <= (front + [last])[|front|];
    }
  }

  /** With a limit of at most one, a call is allowed only if none was allowed at its stamp. */
  lemma OneAllowed(s: State, before: seq<int>, limit: int, window: int, earlier: int, now: int)
    requires window > 0 && -1 <= earlier <= now && Tracks(s, before, limit, window, earlier)
    ensures CheckStored(s, now, limit, window).1.allowed && limit <= 1 ==> now !in before
  {
    hide Kept, Within, Insert, Stamps;
    ExpiryIsInvisible(s, now, limit, window);
    KeptTracks(s, before, limit, window, earlier, now);
  }

  /** Where stamps differ, or the limit is at most one, every interval one window long holds at most
      `limit` allowed calls. */
  lemma WindowGuarantee(limit: int, window: int, times: seq<int>, t: int)
    requires InOrder(times) && window >= 0 && (Sorted(times) || limit <= 1)
    ensures |Within(Allowed(limit, window, times), t - window, t)| <= Max(limit, 0)
  {
    hide CheckStored, Run, Tracks, Within, Allowed, Stamps;
    var allowed := Allowed(limit, window, times);
    if window == 0 {
      NothingWithin(allowed, t);
    } else {
      AllowedSorted(limit, window, times);
      RunTracks(limit, window, times);
      TracksReads(Run(limit, window, times), allowed, limit, window, LastStamp(times));
      WithinOrdered(allowed, t - window, t);
      StampsOfSorted(Within(allowed, t - window, t));
      StampGuarantee(limit, window, times, t);
    }
  }

  lemma NothingIn(lo: int, hi: int)
    ensures Within([], lo, hi) == []
  {
  }

  lemma WithinTracked(s: State, allowed: seq<int>, limit: int, window: int, last: int, t: int)
    requires window > 0 && last <= t && Tracks(s, allowed, limit, window, last)
    ensures |Stamps(Within(allowed, t - window, t))| <= Max(limit, 0)
  {
    hide Within, Kept, Stamps;
    KeptIsWithin(allowed, last, t, window);
    KeptOfStamps(Within(allowed, last - window, last), t - window);
    KeptShorter(s.entries, t - window);
  }

  lemma {:induction false} NothingWithin(calls: seq<int>, t: int)
    ensures Within(calls, t, t) == []
  {
    if calls != [] {
      NothingWithin(calls[..|calls| - 1], t);
    }
  }

  // ---------------------------------------------------------------- the reset time

  /** A window full to the limit, with the time its oldest entry leaves. */
  predicate FullUntil(s: State, limit: int, window: int, reset: int) {
    && Fresh(s, window) && Sorted(s.entries) && window > 0 && limit > 0
    && |s.entries| == limit && reset == s.entries[0] + window
  }

  /** Denied calls leave the stored set as it was, until the oldest entry leaves the window. */
  lemma DeniedUntilReset(s: State, now: int, limit: int, window: int, reset: int)
    requires FullUntil(s, limit, window, reset) && now < reset
    ensures !CheckStored(s, now, limit, window).1.allowed
    ensures CheckStored(s, now, limit, window).1.resetAt == reset
    ensures CheckStored(s, now, limit, window).0 == s
  {
    hide Kept, Insert;
    ExpiryIsInvisible(s, now, limit, window);
    KeptAll(s.entries, now - window);
  }

  lemma {:induction false} AllDeniedUntilReset(
    limit: int, window: int, times: seq<int>, later: seq<int>, s: State, reset: int)
    requires FullUntil(s, limit, window, reset) && s == Run(limit, window, times)
    requires forall k :: 0 <= k < |later| ==> later[k] < reset
    ensures Run(limit, window, times + later) == s
    ensures Allowed(limit, window, times + later) == Allowed(limit, window, times)
    decreases |later|
  {
    hide CheckStored, FullUntil;
    if later == [] {
      assert times + later == times;
    } else {
      var front, last := later[..|later| - 1], later[|later| - 1];
      AllDeniedUntilReset(limit, window, times, front, s, reset);
      var whole := times + later;
      assert whole[..|whole| - 1] == times + front && whole[|whole| - 1] == last;
      DeniedUntilReset(s, last, limit, window, reset);
      assert Allowed(limit, window, whole) == Allowed(limit, window, times + front) + [];
    }
  }

  /** A denial finds the window full to the limit, and announces when its oldest entry leaves. */
  lemma DenialIsFull(s: State, allowed: seq<int>, limit: int, window: int, earlier: int, now: int)
    requires limit > 0 && window > 0 && -1 <= earlier <= now && Tracks(s, allowed, limit, window, earlier)
    requires !CheckStored(s, now, limit, window).1.allowed
    ensures var (t, answer) := CheckStored(s, now, limit, window);
      FullUntil(t, limit, window, answer.resetAt) && now < answer.resetAt
  {
    hide Kept, Insert, Within, Stamps;
    ExpiryIsInvisible(s, now, limit, window);
    KeptTracks(s, allowed, limit, window, earlier, now);
  }

  lemma AllowedAtReset(s: State, limit: int, window: int, reset: int)
    requires FullUntil(s, limit, window, reset)
    ensures CheckStored(s, reset, limit, window).1.allowed
  {
    hide Kept, Insert;
    ExpiryIsInvisible(s, reset, limit, window);
    KeptShorter(s.entries, reset - window);
  }

  /** After a denial the returned reset time is exact: whatever calls are made before it are denied,
      and a call made at it is allowed. */
  lemma ResetIsExact(limit: int, window: int, times: seq<int>, now: int, later: seq<int>)
    requires limit > 0 && window > 0 && InOrder(times + [now])
    requires !CheckStored(Run(limit, window, times), now, limit, window).1.allowed
    requires forall k :: 0 <= k < |later| ==>
      later[k] < CheckStored(Run(limit, window, times), now, limit, window).1.resetAt
    ensures var reset := CheckStored(Run(limit, window, times), now, limit, window).1.resetAt;
      && now < reset
      && Allowed(limit, window, times + [now] + later) == Allowed(limit, window, times)
      && CheckStored(Run(limit, window, times + [now] + later), reset, limit, window).1.allowed
  {
    hide CheckStored, Tracks, FullUntil;
    assert (times + [now])[..|times|] == times && (times + [now])[|times|] == now;
    OrderedFront(times, now);
    RunTracks(limit, window, times);
    DenialIsFull(Run(limit, window, times), Allowed(limit, window, times), limit, window, LastStamp(times), now);
    var (s, answer) := CheckStored(Run(limit, window, times), now, limit, window);
    assert Allowed(limit, window, times + [now]) == Allowed(limit, window, times) + [];
    AllDeniedUntilReset(limit, window, times + [now], later, s, answer.resetAt);
    AllowedAtReset(s, limit, window, answer.resetAt);
  }

  /** With a limit of zero or less every call of every run is denied, with a reset one window ahead that allows
      nothing either. */
  lemma NoLimitDenies(limit: int, window: int, times: seq<int>, now: int)
    requires limit <= 0 && window > 0 && InOrder(times + [now])
    ensures CheckStored(Run(limit, window, times), now, limit, window).1 == Answer(false, 0, now + window)
  {
    hide Tracks, Within, Kept, Stamps, Insert;
    OrderedFront(times, now);
    RunTracks(limit, window, times);
    var s, allowed := Run(limit, window, times), Allowed(limit, window, times);
    TracksReads(s, allowed, limit, window, LastStamp(times));
    ExpiryIsInvisible(s, now, limit, window);
    KeptTracks(s, allowed, limit, window, LastStamp(times), now);
  }

  /** The remaining count of an answer is what the limit leaves once this call's stamp is counted with
      those of its window, one less if the stamp was there already, and nothing after a denial. An
      allowed call's own place is free again at the time returned. */
  lemma RemainingIsExact(limit: int, window: int, times: seq<int>, now: int)
    requires window > 0 && limit > 0 && InOrder(times + [now])
    ensures var answer := CheckStored(Run(limit, window, times), now, limit, window).1;
      && answer.remaining
         == limit - |Stamps(Within(Allowed(limit, window, times + [now]), now - window, now))|
            - (if answer.allowed && now in Allowed(limit, window, times) then 1 else 0)
      && (answer.allowed ==> now !in Kept(Run(limit, window, times + [now]).entries, answer.resetAt - window))
      && (answer.allowed ==> now in Kept(Run(limit, window, times + [now]).entries, answer.resetAt - window - 1))
  {
    hide Tracks, Within, Kept, CheckStored, Allowed, Sorted, Stamps;
    var all := times + [now];
    assert all[..|times|] == times && all[|times|] == now;
    OrderedFront(times, now);
    RunTracks(limit, window, times);
    RunTracks(limit, window, all);
    OneCheck(Run(limit, window, times), Allowed(limit, window, times), limit, window, LastStamp(times), now);
    TracksReads(Run(limit, window, all), Allowed(limit, window, all), limit, window, now);
  }

  lemma TracksReads(s: State, allowed: seq<int>, limit: int, window: int, last: int)
    requires Tracks(s, allowed, limit, window, last)
    ensures s.entries == Stamps(Within(allowed, last - window, last)) && Fresh(s, window) && InOrder(allowed)
  {
  }

  lemma OrderedFront(times: seq<int>, now: int)
    requires InOrder(times + [now])
    ensures InOrder(times) && -1 <= LastStamp(times) <= now && 0 <= now
  {
    var all := times + [now];
    assert forall i :: 0 <= i < |times| ==> times[i] == all[i];
    assert all[|times|] == now;
  }

  lemma OneCheck(s: State, before: seq<int>, limit: int, window: int, earlier: int, now: int)
    requires window > 0 && limit > 0 && -1 <= earlier <= now && 0 <= now && Tracks(s, before, limit, window, earlier)
    ensures var (t, answer) := CheckStored(s, now, limit, window);
      && answer.remaining == limit - |t.entries| - (if answer.allowed && now in before then 1 else 0)
      && (answer.allowed ==> answer.resetAt == now + window && now !in Kept(t.entries, now) && now in Kept(t.entries, now - 1))
  {
    hide Kept, Within, Insert, Tracks, Stamps;
    TracksReads(s, before, limit, window, earlier);
    ExpiryIsInvisible(s, now, limit, window);
    KeptTracks(s, before, limit, window, earlier, now);
    var kept := Kept(s.entries, now - window);
    if |kept| < limit {
      InsertLast(kept, now);
      var after := Insert(kept, now);
      KeptHolds(after, now);
      KeptHolds(after, now - 1);
    }
  }

  lemma RunAppended(limit: int, window: int, front: seq<int>, last: int)
    ensures Run(limit, window, front + [last]) == CheckStored(Run(limit, window, front), last, limit, window).0
    ensures Allowed(limit, window, front + [last]) == Allowed(limit, window, front)
      + (if CheckStored(Run(limit, window, front), last, limit, window).1.allowed then [last] else [])
  {
    hide CheckStored;
    assert (front + [last])[..|front|] == front;
  }

  lemma StartsEmpty(limit: int, window: int)
    ensures Run(limit, window, []) == Empty && Allowed(limit, window, []) == []
  {
  }

  /** n calls with one stamp. */
  function Same(t: int, n: nat): seq<int> {
    if n == 0 then [] else Same(t, n - 1) + [t]
  }

  lemma FirstCall(limit: int, window: int, t: int)
    requires limit >= 1 && window > 0 && t >= 0
    ensures CheckStored(Empty, t, limit, window).0 == State([t], t + window)
    ensures CheckStored(Empty, t, limit, window).1.allowed
  {
    hide Kept, Insert;
    KeptAll([], t - window);
    InsertLast([], t);
    assert [] + [t] == [t];
  }

  /** A further check in the same millisecond finds its own stamp, adds nothing, and is allowed again. */
  lemma SameAgain(limit: int, window: int, t: int)
    requires limit >= 2 && window > 0 && t >= 0
    ensures CheckStored(State([t], t + window), t, limit, window).0 == State([t], t + window)
    ensures CheckStored(State([t], t + window), t, limit, window).1.allowed
  {
    hide Kept, Insert;
    KeptAll([t], t - window);
    InsertLast([t], t);
  }

  /** Calls within one millisecond share one member of the set: with a limit of two or more any number
      of them passes. */
  lemma {:induction false} EqualStampsEscape(limit: int, window: int, t: int, n: nat)
    requires limit >= 2 && window > 0 && t >= 0
    ensures InOrder(Same(t, n)) && |Same(t, n)| == n && (forall i :: 0 <= i < n ==> Same(t, n)[i] == t)
    ensures Run(limit, window, Same(t, n)) == if n == 0 then Empty else State([t], t + window)
    ensures Allowed(limit, window, Same(t, n)) == Same(t, n)
    ensures Within(Allowed(limit, window, Same(t, n)), t - window, t) == Same(t, n)
  {
    hide CheckStored, Run, Allowed, Within;
    if n == 0 {
      StartsEmpty(limit, window);
      NothingIn(t - window, t);
    } else {
      EqualStampsEscape(limit, window, t, n - 1);
      FirstCall(limit, window, t);
      SameAgain(limit, window, t);
      RunAppended(limit, window, Same(t, n - 1), t);
      WithinAppended(Same(t, n - 1), t, t - window, t);
    }
  }

  /** Allowed calls of a run in the interval one window long that ends at t. */
  function AllowedWithin(limit: int, window: int, times: seq<int>, t: int): nat {
    |Within(Allowed(limit, window, times), t - window, t)|
  }

  lemma AtMostOne(limit: int, window: int, times: seq<int>, t: int)
    requires window > 0 && limit <= 1 && InOrder(times)
    ensures AllowedWithin(limit, window, times, t) <= Max(limit, 0)
  {
    hide Within, Allowed, InOrder;
    WindowGuarantee(limit, window, times, t);
  }

  lemma AnyNumberWithin(limit: int, window: int, t: int, n: nat)
    requires limit >= 2 && window > 0 && t >= 0
    ensures InOrder(Same(t, n)) && AllowedWithin(limit, window, Same(t, n), t) == n
  {
    hide Within, Allowed, InOrder, Same, Run;
    EqualStampsEscape(limit, window, t, n);
  }

  /** No interval one window long holds more than `limit` allowed calls, in any run in the order of time. */
  ghost predicate Guaranteed(limit: int, window: int) {
    forall times, t :: InOrder(times) ==> AllowedWithin(limit, window, times, t) <= Max(limit, 0)
  }

  /** With stamps that may repeat, the limit is kept in every run exactly when it is at most one. */
  lemma GuaranteedIff(limit: int, window: int)
    requires window > 0
    ensures Guaranteed(limit, window) <==> limit <= 1
  {
    hide AllowedWithin, InOrder;
    if limit <= 1 {
      forall times, t | InOrder(times)
        ensures AllowedWithin(limit, window, times, t) <= Max(limit, 0)
      {
        AtMostOne(limit, window, times, t);
      }
    } else {
      AnyNumberWithin(limit, window, 0, limit + 1);
    }
  }

  // ---------------------------------------------------------------- the service

  /** The limiter over its store: remove, count, then deny or add and set the expiry. */
  class RateLimiter {
    var entries: seq<int>
    var expiresAt: int

    ghost function Stored(): State
      reads this
    {
      State(entries, expiresAt)
    }

    constructor ()
      ensures Stored() == Empty
    {
      entries, expiresAt := [], 0;
    }

    /** The store drops the key once its time to live has passed. */
    method Expire(now: int)
      modifies this`entries
      ensures entries == if now >= expiresAt then [] else old(entries)
    {
      if now >= expiresAt {
        entries := [];
      }
    }

    method CheckRateLimit(now: int, limit: int, windowSeconds: int) returns (answer: Answer)
      modifies this
      ensures (Stored(), answer) == CheckStored(old(Stored()), now, limit, windowSeconds * 1000)
    {
      Expire(now);
      var windowStart := now - windowSeconds * 1000;
      entries := Kept(entries, windowStart);
      var requestCount := |entries|;
      if requestCount >= limit {
        var resetTime := now + windowSeconds * 1000;
        if entries != [] {
          resetTime := entries[0] + windowSeconds * 1000;
        }
        return Answer(false, 0, resetTime);
      }
      entries := Insert(entries, now);
      expiresAt := now + windowSeconds * 1000;
      answer := Answer(true, limit - requestCount - 1, now + windowSeconds * 1000);
    }

    method ResetRateLimit()
      modifies this
      ensures Stored() == Empty
    {
      entries, expiresAt := [], 0;
    }
  }
}
