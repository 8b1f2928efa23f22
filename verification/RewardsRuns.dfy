/** What every run of badge calls keeps, and how many redemptions the breaker lets through. */
module RewardsRuns {
  import opened Common
  import opened Ledger
  import opened Rewards
  import B = Breaker

  // ---------------------------------------------------------------- badges and history

  predicate Redeems(s: State, e: TimedCall) {
    e.call.Redeem? && Execute(s, e).Success?
  }

  /** The badge can be redeemed as far as the user is concerned. */
  predicate Usable(s: State, now: nat, user: Address) {
    && user in s.badges
    && s.badges[user].active && !Expired(s.badges[user], now) && !UsedUp(s.badges[user])
  }

  /** A redemption goes through exactly when nothing is paused, the hash is fresh, the badge usable and
      no counter or clock overflows; it returns the discount the user is shown. */
  lemma RedeemReturnsShownDiscount(s: State, now: nat, user: Address, hash: string)
    ensures DoRedeem(s, now, user, hash).Success? <==>
      && !B.Paused(s.breaker, REDEEM)
      && hash !in s.usedHashes
      && Usable(s, now, user)
      && s.badges[user].redeemedCount + 1 < U32
      && s.breaker.activity.periodStart + s.breaker.config.period <= 0xffff_ffff_ffff_ffff
      && (now < s.breaker.activity.periodStart + s.breaker.config.period ==>
            && s.breaker.activity.txCount + 1 <= 0xffff_ffff_ffff_ffff
            && -0x8000_0000_0000_0000_0000_0000_0000_0000 <= s.breaker.activity.volume + 1
               <= 0x7fff_ffff_ffff_ffff_ffff_ffff_ffff_ffff)
    ensures DoRedeem(s, now, user, hash).Success? ==>
      DoRedeem(s, now, user, hash).value.discount == UserDiscount(s, now, user)
    ensures UserDiscount(s, now, user) != 0 ==> Usable(s, now, user)
  {
  }

  /** What remains when the admin does nothing: types, counters and the badges' terms stay, badges are only
      used up, and the breaker only trips. */
  predicate OnlyRedeemed(s: State, t: State) {
    && t.admin == s.admin && t.metadata == s.metadata && t.minted == s.minted
    && t.breaker.config == s.breaker.config && t.breaker.pausedFunctions == s.breaker.pausedFunctions
    && (t.breaker.activity.level == s.breaker.activity.level
        || (s.breaker.activity.level.Running? && t.breaker.activity.level.Full?))
    && t.badges.Keys == s.badges.Keys
    && (forall user <- t.badges ::
          && t.badges[user] == s.badges[user].(redeemedCount := t.badges[user].redeemedCount)
          && t.badges[user].redeemedCount >= s.badges[user].redeemedCount)
  }

  lemma StepWithoutAdmin(s: State, e: TimedCall)
    requires e.call.Redeem? || e.call.admin != s.admin
    ensures OnlyRedeemed(s, Step(s, e))
  {
    hide B.TrackFits;
  }

  /** However many calls anyone but the admin makes, they change nothing but redemptions and what those
      trip: no badge, type or pause is ever given, taken or altered. */
  lemma {:induction false} RunWithoutAdmin(s: State, calls: seq<TimedCall>)
    requires forall i :: 0 <= i < |calls| ==> calls[i].call.Redeem? || calls[i].call.admin != s.admin
    ensures OnlyRedeemed(s, Run(s, calls))
    decreases |calls|
  {
    hide Step;
    if calls != [] {
      RunWithoutAdmin(s, calls[..|calls| - 1]);
      StepWithoutAdmin(Run(s, calls[..|calls| - 1]), calls[|calls| - 1]);
    }
  }

  /** Mints of a type in a run since its last creation. */
  function MintsSinceCreation(s: State, calls: seq<TimedCall>, badgeType: nat): nat
    decreases |calls|
  {
    if calls == [] then Minted(s, badgeType)
    else
      var front, last := calls[..|calls| - 1], calls[|calls| - 1];
      var before := MintsSinceCreation(s, front, badgeType);
      if Execute(Run(s, front), last).Failure? then before
      else if last.call.CreateBadgeType? && last.call.badgeType == badgeType then 0
      else if last.call.Mint? && last.call.badgeType == badgeType then before + 1
      else before
  }

  /** The stored counter of a type is the number of its mints since it was last created. */
  lemma {:induction false} MintedIsCounted(s: State, calls: seq<TimedCall>, badgeType: nat)
    ensures Minted(Run(s, calls), badgeType) == MintsSinceCreation(s, calls, badgeType)
    decreases |calls|
  {
    hide DoRedeem, B.Paused;
    if calls != [] {
      MintedIsCounted(s, calls[..|calls| - 1], badgeType);
      if calls[|calls| - 1].call.Redeem? {
        RedeemLeavesMinted(Run(s, calls[..|calls| - 1]), calls[|calls| - 1]);
      }
    }
  }

  lemma RedeemLeavesMinted(s: State, e: TimedCall)
    requires e.call.Redeem?
    ensures Step(s, e).minted == s.minted
  {
    hide B.Track;
  }

  /** A type once created can be minted: the admin's minting is refused only when paused, for a type
      never created, for an active badge of the same type, or when its expiry or the type's counter
      overflows. */
  lemma MintIsAcceptedIff(s: State, now: nat, c: Call)
    requires Kept(s) && c.Mint? && c.admin == s.admin
    ensures DoMint(s, now, c).Success? <==>
      && !B.Paused(s.breaker, MINT)
      && c.badgeType in s.metadata
      && (s.metadata[c.badgeType].validity == 0 || now + s.metadata[c.badgeType].validity < U64)
      && Minted(s, c.badgeType) + 1 < U32
      && !(c.recipient in s.badges && s.badges[c.recipient].active && s.badges[c.recipient].badgeType == c.badgeType)
  {
    hide B.Paused, BadgeKept;
  }

  /** The call gives the user a new badge or takes the old one away. */
  predicate Replaces(c: Call, user: Address) {
    (c.Mint? && c.recipient == user) || (c.Revoke? && c.user == user)
  }

  /** How often a run redeems a user's badge. */
  function RedemptionsBy(s: State, calls: seq<TimedCall>, user: Address): nat
    decreases |calls|
  {
    if calls == [] then 0
    else
      var front, last := calls[..|calls| - 1], calls[|calls| - 1];
      RedemptionsBy(s, front, user) + (if Redeems(Run(s, front), last) && last.call.user == user then 1 else 0)
  }

  lemma StepBadge(s: State, e: TimedCall, user: Address)
    requires user in s.badges && !Replaces(e.call, user)
    ensures var one := if Redeems(s, e) && e.call.user == user then 1 else 0;
      && user in Step(s, e).badges
      && Step(s, e).badges[user] == s.badges[user].(redeemedCount := s.badges[user].redeemedCount + one)
  {
    hide B.Track, B.Paused;
  }

  /** Whatever else happens, a user's badge changes only by the user's redemptions until the next mint for
      or revocation of the user. */
  lemma {:induction false} BadgeLasts(s: State, calls: seq<TimedCall>, user: Address)
    requires user in s.badges && forall i :: 0 <= i < |calls| ==> !Replaces(calls[i].call, user)
    ensures user in Run(s, calls).badges
    ensures Run(s, calls).badges[user]
         == s.badges[user].(redeemedCount := s.badges[user].redeemedCount + RedemptionsBy(s, calls, user))
    decreases |calls|
  {
    hide Step, Redeems;
    if calls != [] {
      BadgeLasts(s, calls[..|calls| - 1], user);
      StepBadge(Run(s, calls[..|calls| - 1]), calls[|calls| - 1], user);
    }
  }

  /** The terms of a type are those of the admin's last call that created it. */
  function TermsOf(s: State, calls: seq<TimedCall>, badgeType: nat): Option<Metadata>
    decreases |calls|
  {
    if calls == [] then if badgeType in s.metadata then Some(s.metadata[badgeType]) else None
    else
      var c := calls[|calls| - 1].call;
      if c.CreateBadgeType? && c.badgeType == badgeType && c.admin == s.admin && c.discountBps <= 10_000 then
        Some(Metadata(c.name, c.discountBps, c.maxRedemptions, c.validity, true))
      else TermsOf(s, calls[..|calls| - 1], badgeType)
  }

  lemma StepTerms(s: State, e: TimedCall, badgeType: nat)
    ensures Step(s, e).admin == s.admin
    ensures var c, after := e.call, Step(s, e).metadata;
      if c.CreateBadgeType? && c.badgeType == badgeType && c.admin == s.admin && c.discountBps <= 10_000 then
        badgeType in after && after[badgeType] == Metadata(c.name, c.discountBps, c.maxRedemptions, c.validity, true)
      else
        && (badgeType in after <==> badgeType in s.metadata)
        && (badgeType in after ==> after[badgeType] == s.metadata[badgeType])
  {
    hide B.Track, B.Paused;
  }

  lemma {:induction false} TypesAreAsCreated(s: State, calls: seq<TimedCall>, badgeType: nat)
    ensures Run(s, calls).admin == s.admin
    ensures var t := Run(s, calls);
      (if badgeType in t.metadata then Some(t.metadata[badgeType]) else None) == TermsOf(s, calls, badgeType)
    decreases |calls|
  {
    hide Step;
    if calls != [] {
      TypesAreAsCreated(s, calls[..|calls| - 1], badgeType);
      StepTerms(Run(s, calls[..|calls| - 1]), calls[|calls| - 1], badgeType);
    }
  }

  /** A mint gives its recipient a new badge of the type, and a redemption writes its record under the badge's count
      before it: type, time, discount and hash. No other badge or record changes, and a trip is stamped with its
      time. */
  lemma WritesAreAsCalled(s: State, e: TimedCall)
    requires Execute(s, e).Success?
    ensures e.call.Mint? ==>
      && e.call.recipient in Step(s, e).badges
      && Step(s, e).badges == s.badges[e.call.recipient := Step(s, e).badges[e.call.recipient]]
      && Step(s, e).history == s.history
      && var b := Step(s, e).badges[e.call.recipient];
         b.badgeType == e.call.badgeType && b.earnedAt == e.now && b.redeemedCount == 0 && b.active
    ensures e.call.Redeem? ==>
      && e.call.user in s.badges
      && var b := s.badges[e.call.user];
         Step(s, e).history
         == s.history[(e.call.user, b.redeemedCount) := Record(b.badgeType, e.now, b.discountBps, e.call.hash)]
    ensures e.call.Redeem? ==>
      var before, after := s.breaker.activity, Step(s, e).breaker.activity;
      after.lastTrigger == if after.level != before.level then e.now else before.lastTrigger
  {
    hide B.Paused, B.TrackFits;
  }

  /** After a mint, in any run without another mint or a revocation for its recipient, the badge shows its
      type's discount exactly until its validity ends or it was redeemed as often as the type allows. */
  lemma MintedBadgeShows(s: State, e: TimedCall, calls: seq<TimedCall>, later: nat)
    requires e.call.Mint? && Execute(s, e).Success?
    requires forall i :: 0 <= i < |calls| ==> !Replaces(calls[i].call, e.call.recipient)
    ensures e.call.admin == s.admin && e.call.badgeType in s.metadata
    ensures var m, t, user := s.metadata[e.call.badgeType], Step(s, e), e.call.recipient;
      UserDiscount(Run(t, calls), later, user)
      == if || (m.validity > 0 && later > e.now + m.validity)
            || (m.maxRedemptions > 0 && RedemptionsBy(t, calls, user) >= m.maxRedemptions) then 0
         else m.discountBps
  {
    hide Run, RedemptionsBy, B.Paused;
    BadgeLasts(Step(s, e), calls, e.call.recipient);
  }

  lemma InactiveStep(s: State, e: TimedCall, user: Address)
    requires user in s.badges && !s.badges[user].active && !(e.call.Mint? && e.call.recipient == user)
    ensures user in Step(s, e).badges && !Step(s, e).badges[user].active
  {
    hide B.Track, B.Paused;
  }

  lemma InactiveIsUseless(s: State, user: Address, now: nat, hash: string)
    requires user in s.badges && !s.badges[user].active
    ensures UserDiscount(s, now, user) == 0 && DoRedeem(s, now, user, hash).Failure?
  {
    hide B.Track, B.Paused;
  }

  /** A revoked badge shows nothing and cannot be redeemed, in any run without a new mint for its user. */
  lemma {:induction false} RevokedStaysUseless(s: State, calls: seq<TimedCall>, user: Address, now: nat, hash: string)
    requires user in s.badges && !s.badges[user].active
    requires forall i :: 0 <= i < |calls| ==> !(calls[i].call.Mint? && calls[i].call.recipient == user)
    ensures user in Run(s, calls).badges && !Run(s, calls).badges[user].active
    ensures UserDiscount(Run(s, calls), now, user) == 0
    ensures DoRedeem(Run(s, calls), now, user, hash).Failure?
    decreases |calls|
  {
    hide Step, DoRedeem, UserDiscount;
    if calls != [] {
      RevokedStaysUseless(s, calls[..|calls| - 1], user, now, hash);
      InactiveStep(Run(s, calls[..|calls| - 1]), calls[|calls| - 1], user);
    }
    InactiveIsUseless(Run(s, calls), user, now, hash);
  }

  predicate EntryMatches(s: State, user: Address, i: nat) {
    && (user, i) in s.history && user in s.badges
    && s.history[(user, i)].badgeType == s.badges[user].badgeType
    && s.history[(user, i)].discountApplied == s.badges[user].discountBps
  }

  ghost predicate BadgeKept(s: State, user: Address)
    requires user in s.badges
  {
    var b := s.badges[user];
    && (b.maxRedemptions > 0 ==> b.redeemedCount <= b.maxRedemptions)
    && b.discountBps <= 10000
    && forall i: nat :: i < b.redeemedCount ==> EntryMatches(s, user, i)
  }

  /** Types are never disabled; a badge stays within its limit, its history is complete and its own, and
      no two entries of any history carry the same hash. */
  ghost predicate Kept(s: State) {
    && (forall user <- s.badges :: BadgeKept(s, user))
    && (forall badgeType <- s.metadata :: s.metadata[badgeType].discountBps <= 10000 && s.metadata[badgeType].enabled)
    && (forall k <- s.history :: s.history[k].hash in s.usedHashes)
    && (forall k, l :: k in s.history && l in s.history && k != l ==> s.history[k].hash != s.history[l].hash)
  }

  lemma RedeemKeeps(s: State, now: nat, user: Address, hash: string)
    requires Kept(s) && DoRedeem(s, now, user, hash).Success?
    ensures Kept(DoRedeem(s, now, user, hash).value.state)
  {
    hide B.Track, B.Paused;
    var after := DoRedeem(s, now, user, hash).value.state;
    forall u <- after.badges
      ensures BadgeKept(after, u)
    {
      assert BadgeKept(s, u);
      forall i: nat | i < after.badges[u].redeemedCount
        ensures EntryMatches(after, u, i)
      {
        if u != user || i < s.badges[u].redeemedCount {
          assert EntryMatches(s, u, i);
        }
      }
    }
  }

  lemma MintKeeps(s: State, now: nat, c: Call)
    requires Kept(s) && c.Mint? && DoMint(s, now, c).Success?
    ensures Kept(DoMint(s, now, c).value.state)
  {
    hide B.Paused;
    var after := DoMint(s, now, c).value.state;
    forall u <- after.badges
      ensures BadgeKept(after, u)
    {
      if u != c.recipient {
        assert BadgeKept(s, u);
        assert forall i: nat :: EntryMatches(s, u, i) ==> EntryMatches(after, u, i);
      }
    }
  }

  lemma RevokeKeeps(s: State, admin: Address, user: Address)
    requires Kept(s) && DoRevoke(s, admin, user).Success?
    ensures Kept(DoRevoke(s, admin, user).value.state)
  {
    var after := DoRevoke(s, admin, user).value.state;
    forall u <- after.badges
      ensures BadgeKept(after, u)
    {
      assert BadgeKept(s, u);
      assert forall i: nat :: EntryMatches(s, u, i) ==> EntryMatches(after, u, i);
    }
  }

  /** The rest touches neither badges nor history. */
  lemma AsideKeeps(s: State, t: State)
    requires Kept(s) && t.badges == s.badges && t.history == s.history && t.usedHashes == s.usedHashes
    requires forall badgeType <- t.metadata :: t.metadata[badgeType].discountBps <= 10000 && t.metadata[badgeType].enabled
    ensures Kept(t)
  {
    forall u <- t.badges
      ensures BadgeKept(t, u)
    {
      assert BadgeKept(s, u);
      assert forall i: nat :: EntryMatches(s, u, i) ==> EntryMatches(t, u, i);
    }
  }

  lemma StepKeeps(s: State, e: TimedCall)
    requires Kept(s)
    ensures Kept(Step(s, e))
  {
    hide DoRedeem, DoMint, DoRevoke, BadgeKept;
    if Execute(s, e).Success? {
      match e.call {
        case Redeem(user, hash) => RedeemKeeps(s, e.now, user, hash);
        case Mint(_, _, _) => MintKeeps(s, e.now, e.call);
        case Revoke(admin, user) => RevokeKeeps(s, admin, user);
        case _ => AsideKeeps(s, Step(s, e));
      }
    }
  }

  /** The state after deployment. */
  function Start(admin: Address, config: B.Config, now: nat): State {
    State(admin, B.State(config, B.Activity(now, 0, 0, 0, B.Running), {}), map[], map[], map[], map[], {})
  }

  lemma {:induction false} RunKeeps(s: State, calls: seq<TimedCall>)
    requires Kept(s)
    ensures Kept(Run(s, calls))
    decreases |calls|
  {
    hide Kept, Step;
    if calls != [] {
      RunKeeps(s, calls[..|calls| - 1]);
      StepKeeps(Run(s, calls[..|calls| - 1]), calls[|calls| - 1]);
    }
  }

  lemma StartIsKept(admin: Address, config: B.Config, now: nat)
    ensures Kept(Start(admin, config, now))
  {
  }

  // ---------------------------------------------------------------- one redemption per hash

  /** How often the run redeems with a hash. */
  function RedemptionsWith(s: State, calls: seq<TimedCall>, hash: string): nat
    decreases |calls|
  {
    if calls == [] then 0
    else
      var front, last := calls[..|calls| - 1], calls[|calls| - 1];
      RedemptionsWith(s, front, hash)
      + (if Redeems(Run(s, front), last) && last.call.hash == hash then 1 else 0)
  }

  lemma StepHashes(s: State, e: TimedCall)
    ensures Step(s, e).usedHashes == s.usedHashes + (if Redeems(s, e) then {e.call.hash} else {})
    ensures Redeems(s, e) ==> e.call.hash !in s.usedHashes
  {
  }

  /** Each hash is redeemed at most once in any run, whoever redeems it, and is on record from then on. */
  lemma {:induction false} HashesAreRedeemedOnce(s: State, calls: seq<TimedCall>, hash: string)
    ensures RedemptionsWith(s, calls, hash)
         == (if hash in Run(s, calls).usedHashes && hash !in s.usedHashes then 1 else 0)
    ensures s.usedHashes <= Run(s, calls).usedHashes
    decreases |calls|
  {
    hide Step, Redeems;
    if calls != [] {
      HashesAreRedeemedOnce(s, calls[..|calls| - 1], hash);
      StepHashes(Run(s, calls[..|calls| - 1]), calls[|calls| - 1]);
    }
  }

  // ---------------------------------------------------------------- after a trip

  /** Once fully paused, and until the admin sets another level, nothing is minted or redeemed. */
  lemma {:induction false} TripIsFinal(s: State, calls: seq<TimedCall>)
    requires s.breaker.activity.level.Full?
    requires forall i :: 0 <= i < |calls| ==> !calls[i].call.SetPauseLevel?
    ensures Run(s, calls).breaker.activity == s.breaker.activity
    ensures calls != [] && (calls[|calls| - 1].call.Redeem? || calls[|calls| - 1].call.Mint?) ==>
      Execute(Run(s, calls[..|calls| - 1]), calls[|calls| - 1]).Failure?
    decreases |calls|
  {
    if calls != [] {
      TripIsFinal(s, calls[..|calls| - 1]);
    }
  }

  // ---------------------------------------------------------------- what is paused

  /** The last of the admin's calls that name the function, if any, paused it. */
  function LastPaused(s: State, calls: seq<TimedCall>, name: string): bool
    decreases |calls|
  {
    if calls == [] then name in s.breaker.pausedFunctions
    else
      var c := calls[|calls| - 1].call;
      if c.PauseFunction? && c.admin == s.admin && c.name == name then true
      else if c.UnpauseFunction? && c.admin == s.admin && c.name == name then false
      else LastPaused(s, calls[..|calls| - 1], name)
  }

  lemma StepPauses(s: State, e: TimedCall, name: string)
    ensures Step(s, e).admin == s.admin
    ensures var c, after := e.call, name in Step(s, e).breaker.pausedFunctions;
      && (c.PauseFunction? && c.admin == s.admin && c.name == name ==> after)
      && (c.UnpauseFunction? && c.admin == s.admin && c.name == name ==> !after)
      && (!((c.PauseFunction? || c.UnpauseFunction?) && c.admin == s.admin && c.name == name) ==>
            (after <==> name in s.breaker.pausedFunctions))
  {
    hide B.Track, B.Paused;
  }

  /** After any run a function is paused exactly at the full level, or at the partial level when the admin's
      last call that named it paused it. */
  lemma {:induction false} PausedAsLastAsked(s: State, calls: seq<TimedCall>, name: string)
    ensures Run(s, calls).admin == s.admin
    ensures name in Run(s, calls).breaker.pausedFunctions <==> LastPaused(s, calls, name)
    ensures var level := Run(s, calls).breaker.activity.level;
      B.Paused(Run(s, calls).breaker, name) <==> level.Full? || (level.Partial? && LastPaused(s, calls, name))
    decreases |calls|
  {
    hide Step;
    if calls != [] {
      PausedAsLastAsked(s, calls[..|calls| - 1], name);
      StepPauses(Run(s, calls[..|calls| - 1]), calls[|calls| - 1], name);
    }
  }

  // ---------------------------------------------------------------- redemptions per period

  /** The redemption that trips the breaker is the last of this many in its period. */
  function Allowance(config: B.Config): nat {
    if Min(config.maxVolume, config.maxTx) < 1 then 1 else Min(config.maxVolume, config.maxTx)
  }

  /** Redemptions from time lo until before time hi. */
  function RedeemedIn(s: State, calls: seq<TimedCall>, lo: int, hi: int): nat
    decreases |calls|
  {
    if calls == [] then 0
    else
      var front, last := calls[..|calls| - 1], calls[|calls| - 1];
      RedeemedIn(s, front, lo, hi) + (if lo <= last.now < hi && Redeems(Run(s, front), last) then 1 else 0)
  }

  /** Redemptions from time lo on. */
  function RedeemedSince(s: State, calls: seq<TimedCall>, lo: int): nat
    decreases |calls|
  {
    if calls == [] then 0
    else
      var front, last := calls[..|calls| - 1], calls[|calls| - 1];
      RedeemedSince(s, front, lo) + (if lo <= last.now && Redeems(Run(s, front), last) then 1 else 0)
  }

  /** Time does not go back and the admin leaves the breaker alone. */
  predicate Unattended(calls: seq<TimedCall>, start: nat) {
    && (forall i :: 0 <= i < |calls| ==> start <= calls[i].now)
    && (forall i, j :: 0 <= i < j < |calls| ==> calls[i].now <= calls[j].now)
    && (forall i :: 0 <= i < |calls| ==> !calls[i].call.SetPauseLevel? && !calls[i].call.PauseFunction?)
  }

  lemma UnattendedFront(calls: seq<TimedCall>, start: nat)
    requires Unattended(calls, start) && calls != []
    ensures Unattended(calls[..|calls| - 1], start)
    ensures start <= LastTime(calls[..|calls| - 1], start) <= calls[|calls| - 1].now == LastTime(calls, start)
    ensures !calls[|calls| - 1].call.SetPauseLevel? && !calls[|calls| - 1].call.PauseFunction?
  {
  }

  lemma CountsOfLast(s: State, calls: seq<TimedCall>, lo: int, hi: int)
    requires calls != []
    ensures var front, last := calls[..|calls| - 1], calls[|calls| - 1];
      var one := if Redeems(Run(s, front), last) then 1 else 0;
      && RedeemedIn(s, calls, lo, hi) == RedeemedIn(s, front, lo, hi) + (if lo <= last.now < hi then one else 0)
      && RedeemedSince(s, calls, lo) == RedeemedSince(s, front, lo) + (if lo <= last.now then one else 0)
  {
    hide Run, Redeems;
  }

  lemma {:induction false} CountsSplit(s: State, calls: seq<TimedCall>, lo: int, mid: int, hi: int)
    requires lo <= mid <= hi
    ensures RedeemedIn(s, calls, lo, hi) == RedeemedIn(s, calls, lo, mid) + RedeemedIn(s, calls, mid, hi)
    decreases |calls|
  {
    hide Run, Redeems;
    if calls != [] {
      CountsSplit(s, calls[..|calls| - 1], lo, mid, hi);
    }
  }

  lemma {:induction false} CountsOrdered(s: State, calls: seq<TimedCall>, lo: int, mid: int, hi: int)
    requires lo <= mid
    ensures RedeemedIn(s, calls, lo, hi) <= RedeemedSince(s, calls, lo)
    ensures RedeemedSince(s, calls, mid) <= RedeemedSince(s, calls, lo)
    decreases |calls|
  {
    hide Run, Redeems;
    if calls != [] {
      CountsOrdered(s, calls[..|calls| - 1], lo, mid, hi);
    }
  }

  /** The period's count is what was redeemed since it began, and the breaker is tripped exactly when it
      has reached the allowance; nothing was redeemed a period later; and every stretch of one period before it holds less
      than the allowance. */
  ghost predicate Periods(s: State, calls: seq<TimedCall>, a: B.Activity, config: B.Config, start: nat) {
    && !a.level.Partial?
    && a.volume == a.txCount
    && a.txCount <= Allowance(config) && (a.level.Full? <==> a.txCount == Allowance(config))
    && start <= a.periodStart <= LastTime(calls, start)
    && RedeemedSince(s, calls, a.periodStart) == a.txCount
    && RedeemedSince(s, calls, a.periodStart + config.period) == 0
    && forall lo :: a.periodStart - config.period <= lo <= a.periodStart ==>
         RedeemedIn(s, calls, lo, a.periodStart) <= Allowance(config) - 1
  }

  lemma RedeemTracks(s: State, e: TimedCall)
    requires Redeems(s, e)
    ensures B.Track(s.breaker.config, s.breaker.activity, e.now, 1) == B.Tracked(Step(s, e).breaker.activity)
    ensures Step(s, e).breaker.config == s.breaker.config
    ensures !s.breaker.activity.level.Full?
  {
    hide B.Track;
  }

  lemma OthersLeaveActivity(s: State, e: TimedCall)
    requires !Redeems(s, e) && !e.call.SetPauseLevel? && !e.call.PauseFunction?
    ensures Step(s, e).breaker.activity == s.breaker.activity
    ensures Step(s, e).breaker.config == s.breaker.config
  {
  }

  lemma IdleKeepsPeriods(s: State, calls: seq<TimedCall>, a: B.Activity, config: B.Config, start: nat)
    requires Unattended(calls, start) && calls != []
    requires Periods(s, calls[..|calls| - 1], a, config, start)
    requires !Redeems(Run(s, calls[..|calls| - 1]), calls[|calls| - 1])
    ensures Periods(s, calls, a, config, start)
  {
    hide Run, Redeems, RedeemedIn, RedeemedSince, Unattended;
    UnattendedFront(calls, start);
    CountsOfLast(s, calls, a.periodStart, 0);
    CountsOfLast(s, calls, a.periodStart + config.period, 0);
    forall lo | a.periodStart - config.period <= lo <= a.periodStart
      ensures RedeemedIn(s, calls, lo, a.periodStart) <= Allowance(config) - 1
    {
      CountsOfLast(s, calls, lo, a.periodStart);
    }
  }

  lemma RedeemKeepsPeriods(
    s: State, calls: seq<TimedCall>, a: B.Activity, after: B.Activity, config: B.Config, start: nat)
    requires Unattended(calls, start) && calls != [] && config.period > 0
    requires Periods(s, calls[..|calls| - 1], a, config, start) && a.level.Running?
    requires Redeems(Run(s, calls[..|calls| - 1]), calls[|calls| - 1])
    requires B.Track(config, a, calls[|calls| - 1].now, 1) == B.Tracked(after)
    ensures Periods(s, calls, after, config, start)
  {
    hide Run, Redeems, RedeemedIn, RedeemedSince, Unattended;
    var front, last := calls[..|calls| - 1], calls[|calls| - 1];
    UnattendedFront(calls, start);
    CountsOfLast(s, calls, after.periodStart, 0);
    CountsOfLast(s, calls, after.periodStart + config.period, 0);
    if B.Restarts(config, a, last.now) {
      CountsOrdered(s, front, a.periodStart + config.period, last.now, 0);
      CountsOrdered(s, front, a.periodStart + config.period, last.now + config.period, 0);
    }
    forall lo | after.periodStart - config.period <= lo <= after.periodStart
      ensures RedeemedIn(s, calls, lo, after.periodStart) <= Allowance(config) - 1
    {
      CountsOfLast(s, calls, lo, after.periodStart);
      if B.Restarts(config, a, last.now) {
        CountsOrdered(s, front, a.periodStart, lo, after.periodStart);
        CountsOrdered(s, front, lo, lo, after.periodStart);
      }
    }
  }

  lemma PeriodsAtStart(s: State, start: nat)
    requires s.breaker.activity == B.Activity(start, 0, 0, s.breaker.activity.lastTrigger, B.Running)
    ensures Periods(s, [], s.breaker.activity, s.breaker.config, start)
  {
  }

  lemma NeverPartial(s: State, calls: seq<TimedCall>, a: B.Activity, config: B.Config, start: nat)
    requires Periods(s, calls, a, config, start)
    ensures !a.level.Partial?
  {
  }

  lemma NothingRedeemed(s: State, lo: int, hi: int)
    ensures RedeemedIn(s, [], lo, hi) == 0
  {
  }

  lemma AllowanceIsPositive(config: B.Config)
    ensures Allowance(config) >= 1
  {
  }

  /** Holds from deployment, or from any fresh period of a running breaker. */
  lemma {:induction false} PeriodsHold(s: State, calls: seq<TimedCall>, start: nat)
    requires Unattended(calls, start) && s.breaker.config.period > 0
    requires s.breaker.activity == B.Activity(start, 0, 0, s.breaker.activity.lastTrigger, B.Running)
    ensures var m := Run(s, calls).breaker;
      m.config == s.breaker.config && Periods(s, calls, m.activity, m.config, start)
    decreases |calls|
  {
    hide Step, Redeems, Periods, Unattended, B.Track;
    if calls == [] {
      PeriodsAtStart(s, start);
    } else {
      var front, last := calls[..|calls| - 1], calls[|calls| - 1];
      UnattendedFront(calls, start);
      PeriodsHold(s, front, start);
      var m := Run(s, front);
      if Redeems(m, last) {
        RedeemTracks(m, last);
        NeverPartial(s, front, m.breaker.activity, s.breaker.config, start);
        RedeemKeepsPeriods(s, calls, m.breaker.activity, Step(m, last).breaker.activity, s.breaker.config, start);
      } else {
        OthersLeaveActivity(m, last);
        IdleKeepsPeriods(s, calls, m.breaker.activity, s.breaker.config, start);
      }
    }
  }

  /** With the admin away the breaker is tripped exactly when the current period has seen as many
      redemptions as the allowance, and otherwise it runs. */
  lemma TripsAtAllowance(s: State, calls: seq<TimedCall>, start: nat)
    requires Unattended(calls, start) && s.breaker.config.period > 0
    requires s.breaker.activity == B.Activity(start, 0, 0, s.breaker.activity.lastTrigger, B.Running)
    ensures var a := Run(s, calls).breaker.activity;
      && (a.level.Full? <==> RedeemedSince(s, calls, a.periodStart) == Allowance(s.breaker.config))
      && (a.level.Full? || a.level.Running?)
  {
    hide Run, RedeemedIn, RedeemedSince, Unattended, Allowance;
    PeriodsHold(s, calls, start);
  }

  /** With the admin away no period sees more redemptions than the allowance, and no stretch of time
      as long as a period sees twice the allowance, however it lies against the periods. */
  lemma {:induction false} RedemptionsPerPeriod(s: State, calls: seq<TimedCall>, start: nat, lo: int, hi: int)
    requires Unattended(calls, start) && s.breaker.config.period > 0
    requires s.breaker.activity == B.Activity(start, 0, 0, s.breaker.activity.lastTrigger, B.Running)
    requires lo <= hi <= lo + s.breaker.config.period
    ensures RedeemedSince(s, calls, Run(s, calls).breaker.activity.periodStart) <= Allowance(s.breaker.config)
    ensures RedeemedIn(s, calls, lo, hi) < 2 * Allowance(s.breaker.config)
    decreases |calls|
  {
    hide Run, Redeems, RedeemedIn, RedeemedSince, Unattended, Allowance;
    PeriodsHold(s, calls, start);
    AllowanceIsPositive(s.breaker.config);
    var p := Run(s, calls).breaker.activity.periodStart;
    if calls == [] {
      NothingRedeemed(s, lo, hi);
    } else if hi <= p {
      UnattendedFront(calls, start);
      CountsOfLast(s, calls, lo, hi);
      RedemptionsPerPeriod(s, calls[..|calls| - 1], start, lo, hi);
    } else if lo >= p {
      CountsOrdered(s, calls, p, lo, hi);
      CountsOrdered(s, calls, lo, lo, hi);
    } else {
      CountsSplit(s, calls, lo, p, hi);
      CountsOrdered(s, calls, p, p, hi);
    }
  }
}
