/** Which applications a batch takes, and how a tick accounts for what it did. */
module BatchMatchAccounts {
  import opened Prelude
  import opened Applications
  import opened BatchMatch
  import Laws = BatchMatchLaws

  // ----- Priorities

  predicate Descending(s: seq<AppId>, score: AppId -> real) {
    forall i, j | 0 <= i < j < |s| :: score(s[i]) >= score(s[j])
  }

  /** The applications of one score, in order. */
  function Scoring(s: seq<AppId>, score: AppId -> real, value: real): seq<AppId> {
    if s == [] then []
    else
      var n := |s| - 1;
      if score(s[n]) == value then Scoring(s[..n], score, value) + [s[n]] else Scoring(s[..n], score, value)
  }

  lemma {:induction false} InsertAddsOne(sorted: seq<AppId>, x: AppId, score: AppId -> real)
    ensures forall a :: a in InsertDescending(sorted, x, score) <==> a in sorted || a == x
  {
    var inserted := InsertDescending(sorted, x, score);
    forall a ensures a in inserted <==> a in sorted || a == x {
      assert a in inserted <==> a in multiset(inserted);
      assert a in sorted <==> a in multiset(sorted);
    }
  }

  lemma {:induction false} InsertKeepsDescending(sorted: seq<AppId>, x: AppId, score: AppId -> real)
    requires Descending(sorted, score)
    ensures Descending(InsertDescending(sorted, x, score), score)
  {
    if sorted != [] {
      var n, last := |sorted| - 1, sorted[|sorted| - 1];
      if score(last) < score(x) {
        InsertKeepsDescending(sorted[..n], x, score);
        InsertAddsOne(sorted[..n], x, score);
        forall a | a in InsertDescending(sorted[..n], x, score) ensures score(a) >= score(last) {
        }
      }
    }
  }

  lemma {:induction false} InsertIsStable(sorted: seq<AppId>, x: AppId, score: AppId -> real, value: real)
    requires Descending(sorted, score)
    ensures Scoring(InsertDescending(sorted, x, score), score, value)
            == if score(x) == value then Scoring(sorted, score, value) + [x] else Scoring(sorted, score, value)
  {
    if sorted == [] {
      assert [x][..0] == [];
    } else {
      var n, last := |sorted| - 1, sorted[|sorted| - 1];
      if score(last) >= score(x) {
        assert (sorted + [x])[..|sorted|] == sorted;
      } else {
        var rest := InsertDescending(sorted[..n], x, score);
        InsertIsStable(sorted[..n], x, score, value);
        assert (rest + [last])[..|rest|] == rest;
      }
    }
  }

  /** Best first, and equals in the order the query gave them. */
  lemma {:induction false} SortIsDescendingAndStable(s: seq<AppId>, score: AppId -> real)
    ensures Descending(SortDescending(s, score), score)
    ensures forall value :: Scoring(SortDescending(s, score), score, value) == Scoring(s, score, value)
  {
    if s != [] {
      var n := |s| - 1;
      SortIsDescendingAndStable(s[..n], score);
      InsertKeepsDescending(SortDescending(s[..n], score), s[n], score);
      forall value ensures Scoring(SortDescending(s, score), score, value) == Scoring(s, score, value) {
        InsertIsStable(SortDescending(s[..n], score), s[n], score, value);
      }
    }
  }

  /** What is kept are the first `limit` in that order, and nothing left out scores more. */
  lemma BestAreKept(survivors: seq<AppId>, score: AppId -> real, limit: nat)
    requires limit >= 1
    ensures |PrioritizeBatchJobs(survivors, score, limit)| == Min(limit, |survivors|)
    ensures forall kept, left | kept in PrioritizeBatchJobs(survivors, score, limit) && left in survivors
                                && left !in PrioritizeBatchJobs(survivors, score, limit) :: score(kept) >= score(left)
  {
    if |survivors| > limit {
      var sorted := SortDescending(survivors, score);
      SortIsDescendingAndStable(survivors, score);
      assert |sorted| == |multiset(sorted)| == |multiset(survivors)|;
      forall kept, left | kept in sorted[..limit] && left in survivors && left !in sorted[..limit]
        ensures score(kept) >= score(left)
      {
        assert sorted == sorted[..limit] + sorted[limit..];
        assert left in multiset(sorted);
        var i :| 0 <= i < limit && sorted[i] == kept;
        var j :| 0 <= j < |sorted| - limit && sorted[limit..][j] == left;
      }
    }
  }

  /** A batch takes at most its limit of the survivors, and none that scores less than one it leaves out. */
  lemma BestSurvivorsAreChosen(s: Store, profile: ProfileId, env: Env, rows: seq<AppId>)
    requires SelectedRows(s, profile, env, PoolLimit(env), rows)
    ensures |Chosen(rows, env)| <= EffectiveMaxItems(env)
    ensures forall kept, left | kept in Chosen(rows, env) && left in Survivors(rows, env.rejections)
            && left !in Chosen(rows, env) ::
              env.priority(kept) >= env.priority(left)
  {
    var limit := EffectiveMaxItems(env);
    if limit == 0 {
      assert PoolLimit(env) == 0 && rows == [];
    } else {
      BestAreKept(Survivors(rows, env.rejections), env.priority, limit);
    }
  }

  // ----- What a tick reports

  lemma SubmissionReportsItsItems(s: Store, profile: ProfileId, chosen: seq<AppId>, keys: seq<string>, env: Env,
                                  counts: TickResult)
    requires |keys| == |chosen|
    ensures var (t, outcome) := CreateAndSubmit(s, profile, chosen, keys, env, counts);
            outcome.Returned? ==> outcome.result == counts.(submitted := t.nextItem - s.nextItem)
  {
  }

  /** A build that returns reports exactly the items it created. */
  lemma BuildReportsItsItems(s: Store, profile: ProfileId, env: Env, rows: seq<AppId>)
    requires InCatalog(s, env, rows)
    ensures var (t, outcome) := BuildAndSubmit(s, profile, env, rows);
            outcome.Returned? ==> outcome.result.submitted == t.nextItem - s.nextItem
                                  && outcome.result.imported == outcome.result.retryableFailed
                                    == outcome.result.terminalFailed == 0
  {
    if env.profileExists && rows != [] {
      var chosen := Chosen(rows, env);
      var counts := NOTHING.(selected := |rows|, deterministicRejected := |rows| - |Survivors(rows, env.rejections)|);
      SubmissionReportsItsItems(s.(apps := RejectRows(s.apps, rows, env)), profile, chosen,
                                BatchPacking.RequestKeys(|chosen|), env, counts);
    }
  }

  lemma PollCreatesNothing(s: Store, b: BatchId, env: Env)
    requires b in s.batches
    ensures var (t, outcome) := PollAndImport(s, b, env);
            t.nextItem == s.nextItem && (outcome.Returned? ==> outcome.result.submitted == 0)
  {
  }

  /** Conservation: what a tick reports as submitted is the number of items it added. */
  lemma TickReportsItsItems(s: Store, profile: ProfileId, env: Env, rows: seq<AppId>)
    requires BatchInv(s) && RowsFor(s, profile, env, rows)
    ensures var (t, outcome) := Tick(s, profile, env, rows);
            outcome.Returned? ==> outcome.result.submitted == t.nextItem - s.nextItem
  {
    var active := ActiveBatch(s, profile);
    var from := BuildsFrom(s, profile, env);
    if active.Some? && !s.batches[active.value].status.Building? {
      PollCreatesNothing(s, active.value, env);
    }
    if from.Some? {
      Laws.BuildsFromCleanStore(s, profile, env);
      Laws.BuildKeepsInv(from.value, profile, env, rows);
      BuildReportsItsItems(from.value, profile, env, rows);
    }
  }

  /** What the poll half of a tick reports about a batch it drains. */
  lemma ImportReportsItsItems(s: Store, b: BatchId, env: Env)
    requires b in s.batches && s.batches[b].Active()
    ensures var (t, outcome) := PollAndImport(s, b, env);
            outcome.Returned? && t.batches[b].status.BatchDone? ==>
              CountersOf(t.items, PendingIds(s.items, b))
              == ImportCounters(outcome.result.imported, outcome.result.retryableFailed, outcome.result.terminalFailed)
  {
  }

  lemma SettledCountsStay(before: map<ItemId, Item>, after: map<ItemId, Item>, ids: set<ItemId>)
    requires forall id | id in ids :: id in before && id in after && after[id] == before[id]
    ensures CountersOf(after, ids) == CountersOf(before, ids)
  {
    assert WithStatus(after, ids, Imported) == WithStatus(before, ids, Imported);
    assert WithStatus(after, ids, RetryableFailed) == WithStatus(before, ids, RetryableFailed);
    assert WithStatus(after, ids, TerminalFailed) == WithStatus(before, ids, TerminalFailed);
  }

  /**
   Conservation: after a tick that returns and has drained the batch it polled,
   its three counters are the outcomes of the items that were waiting, and
   together they are all of them.
   */
  lemma TickReportsTheImport(s: Store, profile: ProfileId, env: Env, rows: seq<AppId>, b: BatchId)
    requires BatchInv(s) && RowsFor(s, profile, env, rows)
    requires ActiveFor(s.batches, profile, b) && !s.batches[b].status.Building?
    requires Tick(s, profile, env, rows).1.Returned?
    requires b in Tick(s, profile, env, rows).0.batches && Tick(s, profile, env, rows).0.batches[b].status.BatchDone?
    ensures var (t, outcome) := Tick(s, profile, env, rows);
            var r := outcome.result;
            && CountersOf(t.items, PendingIds(s.items, b))
              == ImportCounters(r.imported, r.retryableFailed, r.terminalFailed)
            && r.imported + r.retryableFailed + r.terminalFailed == |PendingIds(s.items, b)|
  {
    var polled := PollAndImport(s, b, env).0;
    var t, waiting := Tick(s, profile, env, rows).0, PendingIds(s.items, b);
    TickAfterPoll(s, profile, env, rows, b);
    Laws.PollKeepsInv(s, b, env);
    ImportReportsItsItems(s, b, env);
    DrainedItemsAreSettled(s, b, polled);
    SettledCountsStay(polled.items, t.items, waiting);
    Laws.EveryItemIsCounted(t.items, waiting);
  }

  /** What the build half adds to a tick leaves the poll half's counters and settled items alone. */
  lemma TickAfterPoll(s: Store, profile: ProfileId, env: Env, rows: seq<AppId>, b: BatchId)
    requires BatchInv(s) && RowsFor(s, profile, env, rows)
    requires ActiveFor(s.batches, profile, b) && !s.batches[b].status.Building?
    requires Tick(s, profile, env, rows).1.Returned?
    requires b in Tick(s, profile, env, rows).0.batches && Tick(s, profile, env, rows).0.batches[b].status.BatchDone?
    ensures var (t, outcome) := Tick(s, profile, env, rows);
            var (polled, first) := PollAndImport(s, b, env);
            && first.Returned? && b in polled.batches && polled.batches[b].status.BatchDone?
            && outcome.result.imported == first.result.imported
            && outcome.result.retryableFailed == first.result.retryableFailed
            && outcome.result.terminalFailed == first.result.terminalFailed
            && forall id | id in polled.items && !polled.items[id].status.ItemSubmitted? ::
                 id in t.items && t.items[id] == polled.items[id]
  {
    Laws.ActiveBatchIsTheOne(s, profile, b);
    if BuildsFrom(s, profile, env).Some? {
      Laws.BuildsFromCleanStore(s, profile, env);
      Laws.BuildKeepsInv(PollAndImport(s, b, env).0, profile, env, rows);
    }
  }

  lemma DrainedItemsAreSettled(s: Store, b: BatchId, t: Store)
    requires BatchInv(t) && Laws.Progress(s, t) && b in t.batches && t.batches[b].status.BatchDone?
    ensures forall id | id in PendingIds(s.items, b) :: id in t.items && !t.items[id].status.ItemSubmitted?
  {
  }
}
