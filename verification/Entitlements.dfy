/** What a subscription grants, and how many companies a profile may follow. */
module Entitlements {
  import opened Prelude

  const FREE_TIER: string := "free"
  const FREE_COMPANY_LIMIT: int := 5

  datatype Subscription = Subscription(tier: string, status: string, currentPeriodEnd: int, followedCompanyLimit: int)

  datatype Entitlement = Entitlement(
    tier: string,
    subscriptionStatus: Option<string>,
    paidAccess: bool,
    searchAutoPause: bool,
    followedCompanyLimit: int)

  function FreeEntitlement(status: Option<string>): Entitlement {
    Entitlement(FREE_TIER, status, false, true, FREE_COMPANY_LIMIT)
  }

  /** A canceled subscription pays until its period ends; auto-pause and the free limit apply to everyone else. */
  function EffectiveEntitlement(subscription: Option<Subscription>, now: int): (e: Entitlement)
    ensures e.paidAccess <==> !e.searchAutoPause
    ensures e.paidAccess <==> subscription.Some? && subscription.value.currentPeriodEnd > now
                              && (subscription.value.status == "active" || subscription.value.status == "canceled")
    ensures e.followedCompanyLimit
            == if e.paidAccess then subscription.value.followedCompanyLimit else FREE_COMPANY_LIMIT
    ensures !e.paidAccess ==> e.tier == "free" && e.followedCompanyLimit == 5
  {
    if subscription.None? then FreeEntitlement(None)
    else
      var s := subscription.value;
      if s.status in {"active", "canceled"} && s.currentPeriodEnd > now then
        Entitlement(s.tier, Some(s.status), true, false, s.followedCompanyLimit)
      else FreeEntitlement(Some(s.status))
  }

  // ----- Following companies

  type CompanyId = string

  function Elements(ids: seq<CompanyId>): set<CompanyId> {
    set x | x in ids
  }

  /** The first occurrence of every id. */
  function Dedupe(ids: seq<CompanyId>): (r: seq<CompanyId>)
    ensures Distinct(r) && Elements(r) == Elements(ids)
  {
    if ids == [] then []
    else
      var n, last := |ids| - 1, ids[|ids| - 1];
      assert ids == ids[..n] + [last];
      var rest := Dedupe(ids[..n]);
      assert forall x :: x in rest <==> x in Elements(ids[..n]);
      if last in rest then rest else rest + [last]
  }

  method DedupeCompanyIds(ids: seq<CompanyId>) returns (deduped: seq<CompanyId>)
    ensures deduped == Dedupe(ids)
  {
    deduped := [];
    var seen: set<CompanyId> := {};
    for i := 0 to |ids|
      invariant deduped == Dedupe(ids[..i])
      invariant seen == Elements(deduped)
    {
      assert ids[..i + 1][..i] == ids[..i];
      if ids[i] !in seen {
        seen := seen + {ids[i]};
        deduped := deduped + [ids[i]];
      }
    }
    assert ids[..|ids|] == ids;
  }

  function FirstIndex(ids: seq<CompanyId>, x: CompanyId): (i: nat)
    requires x in ids
    ensures i < |ids| && ids[i] == x && x !in ids[..i]
  {
    if ids[0] == x then 0
    else
      var i := FirstIndex(ids[1..], x);
      assert ids[..i + 1] == [ids[0]] + ids[1..][..i];
      i + 1
  }

  lemma FirstIndexIs(ids: seq<CompanyId>, i: nat)
    requires i < |ids| && ids[i] !in ids[..i]
    ensures FirstIndex(ids, ids[i]) == i
  {
    var k := FirstIndex(ids, ids[i]);
    forall a, b | 0 <= a < b < |ids| ensures ids[a] in ids[..b] {
      assert ids[..b][a] == ids[a];
    }
  }

  /** Deduplication keeps the order in which ids first occur. */
  lemma {:induction false} DedupeKeepsFirstOccurrences(ids: seq<CompanyId>, i: nat, j: nat)
    requires i < j < |Dedupe(ids)|
    ensures Dedupe(ids)[i] in ids && Dedupe(ids)[j] in ids
    ensures FirstIndex(ids, Dedupe(ids)[i]) < FirstIndex(ids, Dedupe(ids)[j])
  {
    var n, last := |ids| - 1, ids[|ids| - 1];
    assert ids == ids[..n] + [last];
    var rest := Dedupe(ids[..n]);
    assert forall x | x in rest :: x in Elements(ids[..n]);
    var x, y := Dedupe(ids)[i], Dedupe(ids)[j];
    assert x in rest;
    PrefixFirstIndex(ids, n, x);
    if j < |rest| {
      DedupeKeepsFirstOccurrences(ids[..n], i, j);
      assert y in rest;
      PrefixFirstIndex(ids, n, y);
    } else {
      assert y in ids[..n] <==> y in Elements(ids[..n]);
      FirstIndexIs(ids, n);
    }
  }

  lemma PrefixFirstIndex(ids: seq<CompanyId>, n: nat, x: CompanyId)
    requires n <= |ids| && x in ids[..n]
    ensures FirstIndex(ids, x) == FirstIndex(ids[..n], x)
  {
    var i := FirstIndex(ids[..n], x);
    assert ids[..i] == ids[..n][..i];
    FirstIndexIs(ids, i);
  }

  predicate MayFollow(limit: int, current: seq<CompanyId>, requested: seq<CompanyId>) {
    || |Dedupe(requested)| <= limit
    || (|Dedupe(current)| > limit && Elements(requested) < Elements(current))
  }

  /** None is CompanyFollowLimitError. */
  method ValidateCompanyFollowChange(limit: int, current: seq<CompanyId>, requested: seq<CompanyId>)
    returns (accepted: Option<seq<CompanyId>>)
    ensures accepted == if MayFollow(limit, current, requested) then Some(Dedupe(requested)) else None
    ensures var asked, followed := set x | x in requested, set x | x in current;
            accepted.None? <==> |asked| > limit && (|followed| <= limit || !(asked < followed))
    ensures accepted.Some? ==> Distinct(accepted.value) && forall x :: x in accepted.value <==> x in requested
  {
    RefusedWhen(limit, current, requested);
    var currentDeduped := DedupeCompanyIds(current);
    var requestedDeduped := DedupeCompanyIds(requested);
    if |requestedDeduped| <= limit {
      return Some(requestedDeduped);
    }
    var currentSet, requestedSet := set x | x in currentDeduped, set x | x in requestedDeduped;
    assert currentSet == Elements(currentDeduped) && requestedSet == Elements(requestedDeduped);
    if |currentDeduped| > limit && requestedSet < currentSet {
      return Some(requestedDeduped);
    }
    accepted := None;
  }

  /** Refused are requests for too many companies, unless they drop some of too many already followed and add none. */
  lemma RefusedWhen(limit: int, current: seq<CompanyId>, requested: seq<CompanyId>)
    ensures var asked, followed := set x | x in requested, set x | x in current;
            !MayFollow(limit, current, requested) <==> |asked| > limit && (|followed| <= limit || !(asked < followed))
    ensures forall x :: x in Dedupe(requested) <==> x in requested
  {
    DedupeIsSize(current);
    DedupeIsSize(requested);
    assert Elements(requested) == (set x | x in requested) && Elements(current) == (set x | x in current);
    assert forall x :: x in Dedupe(requested) <==> x in Elements(Dedupe(requested));
  }

  // ----- Runs of requests under one limit

  /** The list after one request: replaced when accepted, unchanged when refused. */
  function AfterRequest(limit: int, current: seq<CompanyId>, requested: seq<CompanyId>): seq<CompanyId> {
    if MayFollow(limit, current, requested) then Dedupe(requested) else current
  }

  ghost predicate FollowRun(limit: int, lists: seq<seq<CompanyId>>, requests: seq<seq<CompanyId>>) {
    && |lists| == |requests| + 1
    && forall k | 0 <= k < |requests| :: lists[k + 1] == AfterRequest(limit, lists[k], requests[k])
  }

  predicate Within(limit: int, list: seq<CompanyId>) {
    |Dedupe(list)| <= limit
  }

  /** Accepted requests among the first k. */
  function AcceptedCount(limit: int, lists: seq<seq<CompanyId>>, requests: seq<seq<CompanyId>>, k: nat): nat
    requires k <= |requests| < |lists|
  {
    if k == 0 then 0
    else
      AcceptedCount(limit, lists, requests, k - 1)
      + (if MayFollow(limit, lists[k - 1], requests[k - 1]) then 1 else 0)
  }

  lemma {:induction false} DedupeIsSize(ids: seq<CompanyId>)
    ensures |Dedupe(ids)| == |Elements(ids)|
  {
    DistinctIsSize(Dedupe(ids));
  }

  lemma {:induction false} DistinctIsSize(ids: seq<CompanyId>)
    requires Distinct(ids)
    ensures |ids| == |Elements(ids)|
  {
    if ids != [] {
      var n := |ids| - 1;
      DistinctIsSize(ids[..n]);
      assert ids == ids[..n] + [ids[n]];
      assert Elements(ids) == Elements(ids[..n]) + {ids[n]};
      assert ids[n] !in Elements(ids[..n]);
    }
  }

  /**
   An accepted change of a list over the limit drops followed companies: all of
   the new ones were followed, or it is within the limit.
   */
  lemma AcceptedChangeShrinks(limit: int, current: seq<CompanyId>, requested: seq<CompanyId>)
    requires !Within(limit, current) && MayFollow(limit, current, requested)
    ensures |Elements(requested)| < |Elements(current)|
    ensures Within(limit, requested) || Elements(requested) < Elements(current)
  {
    DedupeIsSize(current);
    DedupeIsSize(requested);
    if Elements(requested) < Elements(current) {
      SubsetSize(Elements(requested), Elements(current));
    }
  }

  lemma DedupedStays(ids: seq<CompanyId>)
    ensures |Dedupe(Dedupe(ids))| == |Dedupe(ids)|
  {
    DedupeIsSize(Dedupe(ids));
    DedupeIsSize(ids);
  }

  /** Requests never bring a profile that is within the limit over it. */
  lemma {:induction false} WithinStaysWithin(limit: int, lists: seq<seq<CompanyId>>, requests: seq<seq<CompanyId>>,
                                             i: nat, j: nat)
    requires FollowRun(limit, lists, requests) && i <= j < |lists|
    requires Within(limit, lists[i])
    ensures Within(limit, lists[j])
  {
    if i < j {
      WithinStaysWithin(limit, lists, requests, i, j - 1);
      DedupedStays(requests[j - 1]);
    }
  }

  /** Every accepted list is free of duplicates. */
  lemma AcceptedListsAreDistinct(limit: int, lists: seq<seq<CompanyId>>, requests: seq<seq<CompanyId>>, k: nat)
    requires FollowRun(limit, lists, requests) && k < |requests|
    requires MayFollow(limit, lists[k], requests[k])
    ensures Distinct(lists[k + 1]) && Elements(lists[k + 1]) == Elements(requests[k])
  {
  }

  lemma RequestCosts(limit: int, current: seq<CompanyId>, requested: seq<CompanyId>)
    requires !Within(limit, current)
    ensures |Elements(AfterRequest(limit, current, requested))|
            + (if MayFollow(limit, current, requested) then 1 else 0)
            <= |Elements(current)|
  {
    if MayFollow(limit, current, requested) {
      AcceptedChangeShrinks(limit, current, requested);
    }
  }

  /** While over the limit, every accepted request costs at least one company. */
  lemma {:induction false} EachAcceptedRequestCosts(limit: int, lists: seq<seq<CompanyId>>,
                                                    requests: seq<seq<CompanyId>>, k: nat)
    requires FollowRun(limit, lists, requests) && k < |lists|
    requires forall i | 0 <= i < k :: !Within(limit, lists[i])
    ensures |Elements(lists[k])| + AcceptedCount(limit, lists, requests, k) <= |Elements(lists[0])|
  {
    if k > 0 {
      EachAcceptedRequestCosts(limit, lists, requests, k - 1);
      RequestCosts(limit, lists[k - 1], requests[k - 1]);
    }
  }

  /** A profile that starts over the limit with n companies is within it after at most n - limit accepted requests. */
  lemma FewAcceptedRequestsWhileOver(limit: int, lists: seq<seq<CompanyId>>, requests: seq<seq<CompanyId>>, k: nat)
    requires FollowRun(limit, lists, requests) && k < |lists|
    requires !Within(limit, lists[0]) && forall i | 0 <= i < k :: !Within(limit, lists[i])
    ensures AcceptedCount(limit, lists, requests, k) <= |Elements(lists[0])| - limit
  {
    DedupeIsSize(lists[0]);
    if k > 0 {
      EachAcceptedRequestCosts(limit, lists, requests, k - 1);
      DedupeIsSize(lists[k - 1]);
      assert !Within(limit, lists[k - 1]);
    }
  }
}
