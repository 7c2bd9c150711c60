/**
 Fetch state per provider slug, and the two ways to list the slugs that are due:
 a loop for one profile, and one relational query for all active profiles.
 */
module SlugRegistry {
  import opened Prelude

  type CompanyId = string
  type ProfileId = string

  const INVALID_THRESHOLD: nat := 2
  const NOT_FOUND: string := "Greenhouse returned 404 (board not found)"

  datatype SlugFetch = SlugFetch(
    lastAttemptedAt: Option<int>,
    lastFetchedAt: Option<int>,
    consecutive404: nat,
    consecutive5xx: nat,
    isInvalid: bool,
    invalidReason: Option<string>)

  const NEVER_FETCHED: SlugFetch := SlugFetch(None, None, 0, 0, false, None)

  datatype Pair = Pair(source: string, slug: string)

  type Fetches = map<Pair, SlugFetch>

  // ----- Recording outcomes

  datatype Outcome = FetchedOk | NotFound(error: Option<string>) | TransientError

  datatype FetchStatus = Known(outcome: Outcome) | Unknown(text: string)

  function AfterOutcome(row: SlugFetch, outcome: Outcome, now: int): SlugFetch {
    var attempted := row.(lastAttemptedAt := Some(now));
    match outcome
    case FetchedOk => attempted.(lastFetchedAt := Some(now), consecutive404 := 0, consecutive5xx := 0)
    case TransientError => attempted.(consecutive5xx := row.consecutive5xx + 1)
    case NotFound(error) =>
      var counted := attempted.(consecutive404 := row.consecutive404 + 1, consecutive5xx := 0);
      if counted.consecutive404 < INVALID_THRESHOLD then counted
      else counted.(isInvalid := true,
                    invalidReason := if error.Some? && error.value != "" then error else Some(NOT_FOUND))
  }

  function RowOf(fetches: Fetches, pair: Pair): SlugFetch {
    if pair in fetches then fetches[pair] else NEVER_FETCHED
  }

  /** The row after these outcomes, the i-th at times[i]. */
  function RowAfter(outcomes: seq<Outcome>, times: seq<int>): SlugFetch
    requires |times| == |outcomes|
  {
    if outcomes == [] then NEVER_FETCHED
    else
      var n := |outcomes| - 1;
      AfterOutcome(RowAfter(outcomes[..n], times[..n]), outcomes[n], times[n])
  }

  /** No successful fetch at the positions from i on. */
  predicate NoSuccessSince(outcomes: seq<Outcome>, i: nat) {
    forall k | i <= k < |outcomes| :: !outcomes[k].FetchedOk?
  }

  /** Two misses with no success in between; transient errors do not count. */
  ghost predicate TwoMissesInARow(outcomes: seq<Outcome>) {
    exists i: nat, j: nat :: MissedTwice(outcomes, i, j)
  }

  /** The miss at position i was not followed by a success. */
  predicate MissCounts(outcomes: seq<Outcome>, i: nat) {
    i < |outcomes| && outcomes[i].NotFound? && NoSuccessSince(outcomes, i)
  }

  lemma MissCountsNext(outcomes: seq<Outcome>, n: nat, i: nat)
    requires |outcomes| == n + 1 && i < n
    ensures MissCounts(outcomes, i) <==> MissCounts(outcomes[..n], i) && !outcomes[n].FetchedOk?
  {
    assert forall k | 0 <= k < n :: outcomes[..n][k] == outcomes[k];
  }

  lemma {:induction false} MissCounted(outcomes: seq<Outcome>, times: seq<int>)
    requires |times| == |outcomes|
    ensures RowAfter(outcomes, times).consecutive404 > 0 <==> exists i: nat :: MissCounts(outcomes, i)
  {
    if outcomes != [] {
      var n := |outcomes| - 1;
      MissCounted(outcomes[..n], times[..n]);
      forall i | 0 <= i < n
        ensures MissCounts(outcomes, i) <==> MissCounts(outcomes[..n], i) && !outcomes[n].FetchedOk?
      {
        MissCountsNext(outcomes, n, i);
      }
      assert MissCounts(outcomes, n) <==> outcomes[n].NotFound?;
    }
  }

  /** Positions i and j are the two misses. */
  predicate MissedTwice(outcomes: seq<Outcome>, i: nat, j: nat) {
    i < j < |outcomes| && outcomes[i].NotFound? && outcomes[j].NotFound? && NoSuccessSince(outcomes[..j], i)
  }

  lemma EarlierMissesCount(outcomes: seq<Outcome>, n: nat, i: nat, j: nat)
    requires n <= |outcomes| && j < n
    ensures MissedTwice(outcomes[..n], i, j) <==> MissedTwice(outcomes, i, j)
  {
    assert outcomes[..n][..j] == outcomes[..j];
  }

  /** One more outcome makes two misses in a row exactly when it is a miss and an earlier miss still counts. */
  lemma TwoMissesGrow(outcomes: seq<Outcome>, n: nat)
    requires |outcomes| == n + 1
    ensures TwoMissesInARow(outcomes) <==>
            || TwoMissesInARow(outcomes[..n])
            || (outcomes[n].NotFound? && exists i: nat :: MissCounts(outcomes[..n], i))
  {
    if i: nat, j: nat :| MissedTwice(outcomes[..n], i, j) {
      EarlierMissesCount(outcomes, n, i, j);
    }
    if i: nat, j: nat :| MissedTwice(outcomes, i, j) {
      if j < n {
        EarlierMissesCount(outcomes, n, i, j);
      } else {
        assert MissCounts(outcomes[..n], i);
      }
    }
    if i: nat :| outcomes[n].NotFound? && MissCounts(outcomes[..n], i) {
      assert MissedTwice(outcomes, i, n);
    }
  }

  /** A slug becomes invalid, for good, exactly when it is missed twice without a success in between. */
  lemma {:induction false} InvalidAfterTwoMisses(outcomes: seq<Outcome>, times: seq<int>)
    requires |times| == |outcomes|
    ensures RowAfter(outcomes, times).isInvalid <==> TwoMissesInARow(outcomes)
  {
    if outcomes != [] {
      var n := |outcomes| - 1;
      InvalidAfterTwoMisses(outcomes[..n], times[..n]);
      MissCounted(outcomes[..n], times[..n]);
      TwoMissesGrow(outcomes, n);
    }
  }

  /** Position i is the last success. */
  predicate LastSuccess(outcomes: seq<Outcome>, i: nat) {
    i < |outcomes| && outcomes[i].FetchedOk? && NoSuccessSince(outcomes, i + 1)
  }

  /** A pair carries the times of its last attempt and of its last success. */
  lemma {:induction false} TimesAreRecorded(outcomes: seq<Outcome>, times: seq<int>)
    requires |times| == |outcomes|
    ensures var row := RowAfter(outcomes, times);
            && row.lastAttemptedAt == (if outcomes == [] then None else Some(times[|times| - 1]))
            && (forall i: nat | LastSuccess(outcomes, i) :: row.lastFetchedAt == Some(times[i]))
            && (row.lastFetchedAt.Some? ==> exists i: nat :: LastSuccess(outcomes, i))
  {
    if outcomes != [] {
      var n := |outcomes| - 1;
      TimesAreRecorded(outcomes[..n], times[..n]);
      if outcomes[n].FetchedOk? {
        assert LastSuccess(outcomes, n);
      } else {
        forall i: nat ensures LastSuccess(outcomes, i) <==> LastSuccess(outcomes[..n], i) {
          LastSuccessStays(outcomes, i);
        }
      }
    }
  }

  lemma LastSuccessStays(outcomes: seq<Outcome>, i: nat)
    requires outcomes != [] && !outcomes[|outcomes| - 1].FetchedOk?
    ensures LastSuccess(outcomes, i) <==> LastSuccess(outcomes[..|outcomes| - 1], i)
  {
    var n := |outcomes| - 1;
    assert forall k | 0 <= k < n :: outcomes[..n][k] == outcomes[k];
  }

  class Registry {
    var fetches: Fetches

    constructor ()
      ensures fetches == map[]
    {
      fetches := map[];
    }

    /** False is the ValueError for an unknown status: nothing is committed. */
    method MarkFetched(pair: Pair, status: FetchStatus, now: int) returns (ok: bool)
      modifies this
      ensures ok <==> status.Known?
      ensures !ok ==> fetches == old(fetches)
      ensures ok ==> fetches == old(fetches)[pair := AfterOutcome(RowOf(old(fetches), pair), status.outcome, now)]
    {
      if status.Unknown? {
        return false;
      }
      var row := RowOf(fetches, pair).(lastAttemptedAt := Some(now));
      match status.outcome {
        case FetchedOk =>
          row := row.(lastFetchedAt := Some(now), consecutive404 := 0, consecutive5xx := 0);
        case NotFound(error) =>
          row := row.(consecutive404 := row.consecutive404 + 1, consecutive5xx := 0);
          if row.consecutive404 >= INVALID_THRESHOLD {
            var reason := if error.Some? && error.value != "" then error.value else NOT_FOUND;
            row := row.(isInvalid := true, invalidReason := Some(reason));
          }
        case TransientError =>
          row := row.(consecutive5xx := row.consecutive5xx + 1);
      }
      fetches := fetches[pair := row];
      ok := true;
    }
  }

  // ----- Listing what is due

  /** A null slug is None. */
  datatype Company = Company(unfollowable: bool, providerSlugs: map<string, Option<string>>)

  datatype Profile = Profile(searchActive: bool, targetCompanyIds: Option<seq<CompanyId>>)

  /** A listed pair of the loop may carry a null slug. */
  datatype Listed = Listed(source: string, slug: Option<string>)

  predicate IsDue(fetches: Fetches, source: string, slug: Option<string>, cutoff: int) {
    slug.None?
    || var pair := Pair(source, slug.value);
       pair !in fetches
       || (!fetches[pair].isInvalid
           && (fetches[pair].lastFetchedAt.None? || fetches[pair].lastFetchedAt.value < cutoff))
  }

  /**
   A successful fetch takes the pair off the list until the time to live is over;
   it does not bring an invalid pair back.
   */
  lemma FetchedPairIsDueAgain(fetches: Fetches, pair: Pair, now: int, cutoff: int)
    ensures var after := fetches[pair := AfterOutcome(RowOf(fetches, pair), FetchedOk, now)];
            IsDue(after, pair.source, Some(pair.slug), cutoff) <==> now < cutoff && !RowOf(fetches, pair).isInvalid
  {
    assert Pair(pair.source, pair.slug) == pair;
  }

  /** Companies the profile follows and may follow. */
  predicate Follows(p: Profile, companies: map<CompanyId, Company>, c: CompanyId) {
    p.targetCompanyIds.Some? && c in p.targetCompanyIds.value && c in companies && !companies[c].unfollowable
  }

  /** Company c puts this pair on the profile's list. */
  predicate Offers(p: Profile, companies: map<CompanyId, Company>, fetches: Fetches, cutoff: int, c: CompanyId,
                   l: Listed) {
    && Follows(p, companies, c)
    && l.source in companies[c].providerSlugs && companies[c].providerSlugs[l.source] == l.slug
    && IsDue(fetches, l.source, l.slug, cutoff)
  }

  /** The per-profile loop lists each offered pair once, and nothing else. */
  method ListStaleForProfile(p: Profile, companies: map<CompanyId, Company>, fetches: Fetches, cutoff: int)
    returns (pairs: seq<Listed>)
    ensures Distinct(pairs)
    ensures forall l :: l in pairs <==> exists c :: Offers(p, companies, fetches, cutoff, c, l)
  {
    pairs := [];
    var followed := set c | c in companies && Follows(p, companies, c);
    var todo := followed;
    while todo != {}
      invariant todo <= followed && Distinct(pairs)
      invariant forall l :: l in pairs <==>
                  exists c :: c in followed - todo && Offers(p, companies, fetches, cutoff, c, l)
      decreases |todo|
    {
      var c :| c in todo;
      pairs := ListCompany(p, companies, fetches, cutoff, c, pairs, followed - todo);
      todo := todo - {c};
      assert followed - todo == (followed - (todo + {c})) + {c};
    }
  }

  /** The slugs of one company that are due and not listed yet. */
  method ListCompany(p: Profile, companies: map<CompanyId, Company>, fetches: Fetches, cutoff: int, c: CompanyId,
                     pairs: seq<Listed>, ghost done: set<CompanyId>) returns (longer: seq<Listed>)
    requires Follows(p, companies, c) && Distinct(pairs)
    requires forall l :: l in pairs <==> exists d :: d in done && Offers(p, companies, fetches, cutoff, d, l)
    ensures Distinct(longer)
    ensures forall l :: l in longer <==> exists d :: d in done + {c} && Offers(p, companies, fetches, cutoff, d, l)
  {
    longer := pairs;
    var slugs := companies[c].providerSlugs;
    var todo := slugs.Keys;
    while todo != {}
      invariant todo <= slugs.Keys && Distinct(longer)
      invariant forall l :: l in longer <==>
                  l in pairs || (l.source !in todo && Offers(p, companies, fetches, cutoff, c, l))
      decreases |todo|
    {
      var provider :| provider in todo;
      var key := Listed(provider, slugs[provider]);
      if key !in longer && IsDue(fetches, provider, key.slug, cutoff) {
        longer := longer + [key];
      }
      todo := todo - {provider};
    }
  }

  /** A row of the bulk query. */
  datatype BulkRow = BulkRow(profile: ProfileId, source: string, slug: string)

  /** The WHERE clauses of the bulk query, for one joined row. */
  predicate InBulk(profiles: map<ProfileId, Profile>, companies: map<CompanyId, Company>, fetches: Fetches,
                   cutoff: int, r: BulkRow) {
    && r.profile in profiles && profiles[r.profile].searchActive
    && r.slug != ""
    && (Pair(r.source, r.slug) !in fetches
        || (!fetches[Pair(r.source, r.slug)].isInvalid
            && (fetches[Pair(r.source, r.slug)].lastFetchedAt.None?
                || fetches[Pair(r.source, r.slug)].lastFetchedAt.value < cutoff)))
    && profiles[r.profile].targetCompanyIds.Some?
    && exists c | c in profiles[r.profile].targetCompanyIds.value ::
         c in companies && !companies[c].unfollowable
         && r.source in companies[c].providerSlugs && companies[c].providerSlugs[r.source] == Some(r.slug)
  }

  /** The bulk query's answer: SELECT DISTINCT, in some order. */
  ghost predicate BulkAnswer(profiles: map<ProfileId, Profile>, companies: map<CompanyId, Company>, fetches: Fetches,
                             cutoff: int, rows: seq<BulkRow>) {
    Distinct(rows) && forall r :: r in rows <==> InBulk(profiles, companies, fetches, cutoff, r)
  }

  /** Company c has a null slug for this provider, or an empty one that is due. */
  predicate OffersBlank(p: Profile, companies: map<CompanyId, Company>, fetches: Fetches, cutoff: int, c: CompanyId,
                        source: string) {
    && Follows(p, companies, c)
    && source in companies[c].providerSlugs
    && (companies[c].providerSlugs[source].None?
        || (companies[c].providerSlugs[source] == Some("") && IsDue(fetches, source, Some(""), cutoff)))
  }

  /** For an active profile the bulk query lists what the loop lists, except blank slugs. */
  lemma BulkListsTheSamePairs(profiles: map<ProfileId, Profile>, companies: map<CompanyId, Company>, fetches: Fetches,
                              cutoff: int,
                              rows: seq<BulkRow>, id: ProfileId, pairs: seq<Listed>, source: string, slug: string)
    requires BulkAnswer(profiles, companies, fetches, cutoff, rows)
    requires id in profiles && profiles[id].searchActive
    requires forall l :: l in pairs <==> exists c :: Offers(profiles[id], companies, fetches, cutoff, c, l)
    ensures BulkRow(id, source, slug) in rows <==> Listed(source, Some(slug)) in pairs && slug != ""
  {
    var p, l := profiles[id], Listed(source, Some(slug));
    if BulkRow(id, source, slug) in rows {
      assert InBulk(profiles, companies, fetches, cutoff, BulkRow(id, source, slug));
      var c :| c in p.targetCompanyIds.value && c in companies && !companies[c].unfollowable
               && source in companies[c].providerSlugs && companies[c].providerSlugs[source] == Some(slug);
      assert Offers(p, companies, fetches, cutoff, c, l);
    }
    if l in pairs && slug != "" {
      var c :| Offers(p, companies, fetches, cutoff, c, l);
      assert InBulk(profiles, companies, fetches, cutoff, BulkRow(id, source, slug));
    }
  }

  /** The two listings agree for a profile exactly when none of the companies it follows offers a blank slug. */
  lemma ListingsAgreeWithoutBlanks(profiles: map<ProfileId, Profile>, companies: map<CompanyId, Company>,
                                   fetches: Fetches, cutoff: int,
                                   rows: seq<BulkRow>, id: ProfileId, pairs: seq<Listed>)
    requires BulkAnswer(profiles, companies, fetches, cutoff, rows)
    requires id in profiles && profiles[id].searchActive
    requires forall l :: l in pairs <==> exists c :: Offers(profiles[id], companies, fetches, cutoff, c, l)
    ensures (forall l :: l in pairs <==> l.slug.Some? && BulkRow(id, l.source, l.slug.value) in rows)
            <==> !exists c, source :: OffersBlank(profiles[id], companies, fetches, cutoff, c, source)
  {
    var p := profiles[id];
    forall source, slug
      ensures BulkRow(id, source, slug) in rows <==> Listed(source, Some(slug)) in pairs && slug != ""
    {
      BulkListsTheSamePairs(profiles, companies, fetches, cutoff, rows, id, pairs, source, slug);
    }
    if c, source :| OffersBlank(p, companies, fetches, cutoff, c, source) {
      var l := Listed(source, companies[c].providerSlugs[source]);
      assert Offers(p, companies, fetches, cutoff, c, l);
      assert l in pairs;
    }
    forall l | l in pairs && (l.slug.None? || l.slug.value == "")
      ensures exists c :: OffersBlank(p, companies, fetches, cutoff, c, l.source)
    {
      var c :| Offers(p, companies, fetches, cutoff, c, l);
      assert OffersBlank(p, companies, fetches, cutoff, c, l.source);
    }
    assert forall l | l in pairs && l.slug.Some? :: l == Listed(l.source, Some(l.slug.value));
  }
}
