/**
 Daily maintenance pauses searches nobody uses and extends the others. Times
 are whole seconds.
 */
module SearchExpiry {
  import opened Prelude
  import E = Entitlements

  type ProfileId = string

  const DAY: int := 86400
  const EXTENSION_MIN_DELTA: int := 12 * 3600

  datatype Profile = Profile(searchActive: bool, searchExpiresAt: Option<int>, updatedAt: int)

  /** What maintenance reads about one profile: its latest subscription and the times of its engagement events. */
  datatype Account = Account(subscription: Option<E.Subscription>, engagements: set<int>)

  function NextSearchExpiry(now: int, pauseDays: nat): int {
    now + pauseDays * DAY
  }

  predicate ShouldExtend(current: Option<int>, next: int) {
    current.None? || next - current.value >= EXTENSION_MIN_DELTA
  }

  predicate PaidAccess(account: Account, now: int) {
    E.EffectiveEntitlement(account.subscription, now).paidAccess
  }

  predicate EngagedSince(account: Account, since: int) {
    exists e :: e in account.engagements && e >= since
  }

  datatype Decision = Unchanged | Extended | Seeded | Paused

  /** What maintenance decides about one profile. */
  function Decide(p: Profile, account: Account, pauseDays: nat, now: int): Decision {
    var next := NextSearchExpiry(now, pauseDays);
    if !p.searchActive then Unchanged
    else if PaidAccess(account, now) then
      if ShouldExtend(p.searchExpiresAt, next) then Extended else Unchanged
    else if p.searchExpiresAt.None? then Seeded
    else if EngagedSince(account, p.searchExpiresAt.value - pauseDays * DAY) then
      if ShouldExtend(p.searchExpiresAt, next) then Extended else Unchanged
    else if p.searchExpiresAt.value < now then Paused
    else Unchanged
  }

  function Apply(p: Profile, decision: Decision, pauseDays: nat, now: int): Profile {
    match decision
    case Unchanged => p
    case Extended => Profile(true, Some(NextSearchExpiry(now, pauseDays)), now)
    case Seeded => p.(searchExpiresAt := Some(NextSearchExpiry(now, pauseDays)), updatedAt := now)
    case Paused => p.(searchActive := false, updatedAt := now)
  }

  function Maintained(p: Profile, account: Account, pauseDays: nat, now: int): Profile {
    Apply(p, Decide(p, account, pauseDays, now), pauseDays, now)
  }

  function MaintainedAll(profiles: map<ProfileId, Profile>, accounts: map<ProfileId, Account>, pauseDays: nat,
                         now: int):
    map<ProfileId, Profile>
    requires profiles.Keys <= accounts.Keys
  {
    map id | id in profiles :: Maintained(profiles[id], accounts[id], pauseDays, now)
  }

  /** Inactive profiles are left alone. */
  lemma OnlyActiveOnesMatter(profiles: map<ProfileId, Profile>, accounts: map<ProfileId, Account>, pauseDays: nat,
                             now: int)
    requires profiles.Keys <= accounts.Keys
    ensures forall id | id in profiles ::
              MaintainedAll(profiles, accounts, pauseDays, now)[id]
                == Maintained(profiles[id], accounts[id], pauseDays, now)
    ensures forall id | id in profiles && !profiles[id].searchActive ::
              MaintainedAll(profiles, accounts, pauseDays, now)[id] == profiles[id]
  {
  }

  // ----- The same, column by column

  /** The subscription is active, or canceled, and its period has not ended. */
  predicate Pays(account: Account, now: int) {
    && account.subscription != None && account.subscription.value.currentPeriodEnd > now
    && (account.subscription.value.status == "active" || account.subscription.value.status == "canceled")
  }

  /** The search is on and expires in pauseDays days. */
  predicate RunsOn(before: Profile, after: Profile, pauseDays: nat, now: int) {
    after == before.(searchExpiresAt := Some(now + pauseDays * 86400), updatedAt := now)
  }

  /**
   What maintenance makes of an active search. It is extended when the owner
   pays, or was engaged in the pauseDays days before it expires, and the
   extension is worth twelve hours; it gets its first expiry when it has none;
   and it is switched off when it expired without any of that.
   */
  predicate MaintenanceLeaves(before: Profile, after: Profile, account: Account, pauseDays: nat, now: int) {
    var expiry := before.searchExpiresAt;
    if expiry == None then RunsOn(before, after, pauseDays, now)
    else if Pays(account, now) || exists e | e in account.engagements :: e + pauseDays * 86400 >= expiry.value then
      if expiry.value + 43200 <= now + pauseDays * 86400 then RunsOn(before, after, pauseDays, now) else after == before
    else if expiry.value < now then after == before.(searchActive := false, updatedAt := now)
    else after == before
  }

  lemma MaintenanceSpelledOut(p: Profile, account: Account, pauseDays: nat, now: int)
    requires p.searchActive
    ensures MaintenanceLeaves(p, Maintained(p, account, pauseDays, now), account, pauseDays, now)
  {
    if p.searchExpiresAt.Some? && EngagedSince(account, p.searchExpiresAt.value - pauseDays * DAY) {
      var e :| e in account.engagements && e >= p.searchExpiresAt.value - pauseDays * DAY;
      assert e + pauseDays * 86400 >= p.searchExpiresAt.value;
    }
    if p.searchExpiresAt.Some? {
      forall e | e in account.engagements && e + pauseDays * 86400 >= p.searchExpiresAt.value
        ensures EngagedSince(account, p.searchExpiresAt.value - pauseDays * DAY)
      {
      }
    }
  }

  class Profiles {
    var profiles: map<ProfileId, Profile>

    constructor (profiles: map<ProfileId, Profile>)
      ensures this.profiles == profiles
    {
      this.profiles := profiles;
    }

    /** One active profile, branch by branch. */
    method ReconcileOne(id: ProfileId, account: Account, pauseDays: nat, now: int)
      returns (extended: bool, paused: bool)
      requires id in profiles && profiles[id].searchActive
      modifies this
      ensures profiles.Keys == old(profiles).Keys
      ensures forall other | other in profiles && other != id :: profiles[other] == old(profiles)[other]
      ensures profiles[id] == Maintained(old(profiles)[id], account, pauseDays, now)
      ensures MaintenanceLeaves(old(profiles)[id], profiles[id], account, pauseDays, now)
      ensures extended <==> Decide(old(profiles)[id], account, pauseDays, now) in {Extended, Seeded}
      ensures paused <==> Decide(old(profiles)[id], account, pauseDays, now).Paused?
      ensures !extended && !paused ==> profiles == old(profiles)
    {
      MaintenanceSpelledOut(profiles[id], account, pauseDays, now);
      extended, paused := false, false;
      var entitlements := E.EffectiveEntitlement(account.subscription, now);
      var profile := profiles[id];
      var nextExpiry := NextSearchExpiry(now, pauseDays);
      if entitlements.paidAccess {
        if ShouldExtend(profile.searchExpiresAt, nextExpiry) {
          profile := profile.(searchActive := true, searchExpiresAt := Some(nextExpiry), updatedAt := now);
          extended := true;
        }
      } else if profile.searchExpiresAt.None? {
        profile := profile.(searchExpiresAt := Some(nextExpiry), updatedAt := now);
        extended := true;
      } else {
        var windowStart := profile.searchExpiresAt.value - pauseDays * DAY;
        var engagements := set e | e in account.engagements && e >= windowStart;
        assert engagements != {} <==> EngagedSince(account, windowStart) by {
          if EngagedSince(account, windowStart) {
            var e :| e in account.engagements && e >= windowStart;
            assert e in engagements;
          }
        }
        if engagements != {} {
          if ShouldExtend(profile.searchExpiresAt, nextExpiry) {
            profile := profile.(searchExpiresAt := Some(nextExpiry), updatedAt := now);
            extended := true;
          }
        } else if profile.searchExpiresAt.value < now {
          profile := profile.(searchActive := false, updatedAt := now);
          paused := true;
        }
      }
      profiles := profiles[id := profile];
    }

    /** The maintenance loop over all active profiles; it commits only when it counted a change. */
    method ReconcileSearches(accounts: map<ProfileId, Account>, pauseDays: nat, now: int)
      returns (searchesExtended: nat, searchesPaused: nat)
      requires profiles.Keys <= accounts.Keys
      modifies this
      ensures profiles == MaintainedAll(old(profiles), accounts, pauseDays, now)
      ensures searchesExtended == 0 && searchesPaused == 0 ==> profiles == old(profiles)
    {
      OnlyActiveOnesMatter(profiles, accounts, pauseDays, now);
      var active := set id | id in profiles && profiles[id].searchActive;
      searchesExtended, searchesPaused :=
        ReconcileActive(active, accounts, pauseDays, now, MaintainedAll(profiles, accounts, pauseDays, now));
    }

    method ReconcileActive(active: set<ProfileId>, accounts: map<ProfileId, Account>, pauseDays: nat, now: int,
                           ghost all: map<ProfileId, Profile>)
      returns (searchesExtended: nat, searchesPaused: nat)
      requires profiles.Keys == all.Keys && profiles.Keys <= accounts.Keys
      requires active <= profiles.Keys && forall id | id in active :: profiles[id].searchActive
      requires forall id | id in active :: all[id] == Maintained(profiles[id], accounts[id], pauseDays, now)
      requires forall id | id in profiles && id !in active :: all[id] == profiles[id]
      modifies this
      ensures profiles == all
      ensures searchesExtended == 0 && searchesPaused == 0 ==> profiles == old(profiles)
    {
      ghost var before := profiles;
      var todo := active;
      searchesExtended, searchesPaused := 0, 0;
      while todo != {}
        invariant todo <= active && profiles.Keys == before.Keys
        invariant forall id | id in before :: profiles[id] == if id in todo then before[id] else all[id]
        invariant searchesExtended == 0 && searchesPaused == 0 ==> profiles == before
        decreases |todo|
      {
        var id :| id in todo;
        var extended, paused := ReconcileOne(id, accounts[id], pauseDays, now);
        if extended {
          searchesExtended := searchesExtended + 1;
        }
        if paused {
          searchesPaused := searchesPaused + 1;
        }
        todo := todo - {id};
      }
    }
  }

  // ----- When a search is paused

  /**
   A search is paused only without paid access and without any engagement in
   the last pauseDays days.
   */
  lemma PausedMeansInactive(p: Profile, account: Account, pauseDays: nat, now: int)
    requires p.searchActive && !Maintained(p, account, pauseDays, now).searchActive
    ensures !PaidAccess(account, now) && !EngagedSince(account, now - pauseDays * DAY)
    ensures p.searchExpiresAt.Some? && p.searchExpiresAt.value < now
  {
    assert Decide(p, account, pauseDays, now).Paused?;
  }

  /**
   The other way round fails: among expired, unpaid searches without engagement
   in the last pauseDays days, exactly those are paused that also had none in
   the pauseDays days before they expired.
   */
  lemma InactiveIsPausedUnlessEngagedBeforeExpiry(p: Profile, account: Account, pauseDays: nat, now: int)
    requires p.searchActive && p.searchExpiresAt.Some? && p.searchExpiresAt.value < now
    requires !PaidAccess(account, now) && !EngagedSince(account, now - pauseDays * DAY)
    ensures !Maintained(p, account, pauseDays, now).searchActive
            <==> forall e | e in account.engagements :: e < p.searchExpiresAt.value - pauseDays * DAY
  {
  }

  /**
   An inactive search that maintenance extends: last engaged eleven days ago,
   under a ten-day window, and expired two days ago.
   */
  lemma InactiveSearchExtended() returns (p: Profile, account: Account, now: int)
    ensures p.searchActive && p.searchExpiresAt.Some? && p.searchExpiresAt.value < now
    ensures !PaidAccess(account, now) && !EngagedSince(account, now - 10 * DAY)
    ensures Decide(p, account, 10, now).Extended?
  {
    now := 20 * DAY;
    p := Profile(true, Some(18 * DAY), 0);
    account := Account(None, {9 * DAY});
    assert 9 * DAY in account.engagements && 9 * DAY >= 18 * DAY - 10 * DAY;
  }

  // ----- Runs

  /** What happens to one profile: maintenance, or the user switching the search on or off. */
  datatype Move = Maintain(account: Account, now: int) | SwitchOn(now: int) | SwitchOff(now: int)

  function After(p: Profile, m: Move, pauseDays: nat): Profile {
    match m
    case Maintain(account, now) => Maintained(p, account, pauseDays, now)
    case SwitchOn(now) => Profile(true, Some(NextSearchExpiry(now, pauseDays)), now)
    case SwitchOff(now) => Profile(false, None, now)
  }

  /** The time of the last of the first k moves. */
  function Clock(ms: seq<Move>, start: int, k: nat): int
    requires k <= |ms|
  {
    if k == 0 then start else ms[k - 1].now
  }

  ghost predicate ProfileRun(ps: seq<Profile>, ms: seq<Move>, pauseDays: nat, start: int) {
    && |ps| == |ms| + 1
    && (ps[0].searchExpiresAt.Some? ==> ps[0].searchExpiresAt.value <= NextSearchExpiry(start, pauseDays))
    && (forall k | 0 <= k < |ms| :: ps[k + 1] == After(ps[k], ms[k], pauseDays))
    && (forall k | 0 <= k < |ms| :: Clock(ms, start, k + 1) >= Clock(ms, start, k))
  }

  /** No search ever expires later than pauseDays days after the last move. */
  lemma {:induction false} ExpiryIsNear(ps: seq<Profile>, ms: seq<Move>, pauseDays: nat, start: int, k: nat)
    requires ProfileRun(ps, ms, pauseDays, start) && k < |ps|
    ensures ps[k].searchExpiresAt.Some? ==>
              ps[k].searchExpiresAt.value <= NextSearchExpiry(Clock(ms, start, k), pauseDays)
  {
    if k > 0 {
      ExpiryIsNear(ps, ms, pauseDays, start, k - 1);
      assert Clock(ms, start, k) >= Clock(ms, start, k - 1);
      assert ps[k] == After(ps[k - 1], ms[k - 1], pauseDays);
    }
  }

  /** Maintenance never brings an expiry forward, and never forgets one. */
  lemma {:induction false} ExpiryNeverDecreases(ps: seq<Profile>, ms: seq<Move>, pauseDays: nat, start: int, i: nat,
                                                j: nat)
    requires ProfileRun(ps, ms, pauseDays, start) && i <= j < |ps|
    requires forall k | i <= k < j :: ms[k].Maintain?
    requires ps[i].searchExpiresAt.Some?
    ensures ps[j].searchExpiresAt.Some? && ps[j].searchExpiresAt.value >= ps[i].searchExpiresAt.value
  {
    if i < j {
      ExpiryNeverDecreases(ps, ms, pauseDays, start, i, j - 1);
    }
  }

  /**
   A search whose owner pays, or engages at least every pauseDays days, runs as
   long as the owner does not switch it off.
   */
  lemma {:induction false} UsedSearchesStayActive(ps: seq<Profile>, ms: seq<Move>, pauseDays: nat, start: int, i: nat,
                                                  j: nat)
    requires ProfileRun(ps, ms, pauseDays, start) && i <= j < |ps| && ps[i].searchActive
    requires forall k | i <= k < j :: !ms[k].SwitchOff?
    requires forall k | i <= k < j && ms[k].Maintain? ::
               PaidAccess(ms[k].account, ms[k].now) || EngagedSince(ms[k].account, ms[k].now - pauseDays * DAY)
    ensures ps[j].searchActive
  {
    if i < j {
      UsedSearchesStayActive(ps, ms, pauseDays, start, i, j - 1);
      if ms[j - 1].Maintain? && !ps[j].searchActive {
        PausedMeansInactive(ps[j - 1], ms[j - 1].account, pauseDays, ms[j - 1].now);
        assert false;
      }
    }
  }
}
