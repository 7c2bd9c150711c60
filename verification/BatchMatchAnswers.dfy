/**
 What the batch path answers to whom, on the columns of the stored rows: items
 and applications after an import or a failure, the rows a build selects, and
 the batch it submits.
 */
module BatchMatchAnswers {
  import opened Prelude
  import opened Applications
  import opened BatchMatch
  import BatchPacking
  import Laws = BatchMatchLaws

  // ----- What one answer of the provider says

  /** No error is reported; None and the empty string are both none. */
  predicate NoError(error: Option<string>) {
    error == None || error == Some("")
  }

  /** The answer scores its application: one result, without errors, complete, with a score between 0 and 1. */
  predicate Scores(r: ProviderRequest, score: real, feedback: Feedback) {
    && NoError(r.error) && |r.results| == 1 && NoError(r.results[0].error)
    && r.results[0].score == Number(score) && 0.0 <= score <= 1.0
    && r.results[0].strengths.Some? && r.results[0].gaps.Some?
    && r.results[0].summary.Some? && r.results[0].rationale.Some?
    && feedback == Feedback(r.results[0].summary, r.results[0].rationale,
                            r.results[0].strengths.value, r.results[0].gaps.value)
  }

  /** The item did not bring a score; its error says why. */
  predicate EndedWith(before: Item, after: Item, status: ItemStatus, error: string, now: int) {
    after == before.(status := status, error := Some(error), updatedAt := now)
  }

  /** The score reaches an application that has none; below the threshold it rejects one that is pending review. */
  predicate ReceivesScore(before: Application, after: Application, score: real, feedback: Feedback, threshold: real,
                          now: int) {
    if before.score == None then
      && after.score == Some(score) && after.feedback == feedback && after.updatedAt == now
      && after.status == (if before.status == PendingReview && score < threshold then AutoRejected else before.status)
      && after == before.(score := after.score, feedback := after.feedback, status := after.status,
                          updatedAt := after.updatedAt)
    else after == before
  }

  /** The errors an answer reports, and the wrong number of results, in the order in which they are looked at. */
  function ErrorOf(r: ProviderRequest): Option<string> {
    if !NoError(r.error) then r.error
    else if |r.results| != 1 then Some("provider result count mismatch")
    else if !NoError(r.results[0].error) then r.results[0].error
    else None
  }

  // ----- Which answer reaches an item

  ghost predicate KeysDiffer(output: seq<ProviderRequest>) {
    forall i, j | 0 <= i < j < |output| :: output[i].key != output[j].key
  }

  /** A submitted item of the batch has this key. */
  ghost predicate Asked(items: map<ItemId, Item>, b: BatchId, key: string) {
    exists id | id in items :: items[id].batch == b && items[id].status == ItemSubmitted && items[id].key == key
  }

  /** Answer i has the key, and it and all answers before it were asked for. */
  ghost predicate Reaches(output: seq<ProviderRequest>, items: map<ItemId, Item>, b: BatchId, i: nat, key: string) {
    i < |output| && output[i].key == key && forall k | 0 <= k <= i :: Asked(items, b, output[k].key)
  }

  /** Item id waits for the batch's output. */
  predicate Waits(s: Store, b: BatchId, id: ItemId) {
    id in s.items && s.items[id].batch == b && s.items[id].status == ItemSubmitted
  }

  lemma {:induction false} DifferentKeysCount(output: seq<ProviderRequest>)
    requires KeysDiffer(output)
    ensures |set r | r in output :: r.key| == |output|
  {
    if output != [] {
      var n := |output| - 1;
      DifferentKeysCount(output[..n]);
      assert output == output[..n] + [output[n]];
      assert (set r | r in output :: r.key) == (set r | r in output[..n] :: r.key) + {output[n].key};
    }
  }

  lemma AskedIsKnown(s: Store, b: BatchId, key: string)
    ensures Asked(s.items, b, key) <==> key in KnownKeys(s.items, b)
  {
    if Asked(s.items, b, key) {
      var id :| id in s.items && s.items[id].batch == b && s.items[id].status == ItemSubmitted
        && s.items[id].key == key;
      assert Pending(s.items, b, id);
    }
  }

  lemma ReachedAnswerCounts(s: Store, b: BatchId, output: seq<ProviderRequest>, i: nat, key: string)
    requires KeysDiffer(output) && Reaches(output, s.items, b, i, key)
    ensures Fate(output, KnownKeys(s.items, b), key) == RequestVerdict(output[i])
  {
    DifferentKeysCount(output);
    var known := KnownKeys(s.items, b);
    var n := KnownPrefix(output, known);
    if n <= i {
      AskedIsKnown(s, b, output[n].key);
      assert false;
    }
    Laws.AnswerIsUnique(output, n, i);
  }

  lemma NoAnswerCounts(s: Store, b: BatchId, output: seq<ProviderRequest>, key: string)
    requires KeysDiffer(output) && forall i :: !Reaches(output, s.items, b, i, key)
    ensures Fate(output, KnownKeys(s.items, b), key)
            == if forall k | 0 <= k < |output| :: Asked(s.items, b, output[k].key) then Retry("provider result missing")
               else Terminate("provider returned unknown request_key")
  {
    DifferentKeysCount(output);
    var known := KnownKeys(s.items, b);
    var n := KnownPrefix(output, known);
    forall k | 0 <= k < |output| ensures Asked(s.items, b, output[k].key) <==> output[k].key in known {
      AskedIsKnown(s, b, output[k].key);
    }
    forall k | 0 <= k < n ensures output[k].key != key {
      assert output[k].key == key ==> Reaches(output, s.items, b, k, key);
    }
    Laws.NoAnswer(output, n, key);
  }

  /** The item, and its application, after the verdict. */
  lemma VerdictArrives(s: Store, b: BatchId, output: seq<ProviderRequest>, threshold: real, now: int, id: ItemId,
                       verdict: Verdict)
    requires BatchInv(s) && Waits(s, b, id) && Fate(output, KnownKeys(s.items, b), s.items[id].key) == verdict
    ensures var t, app := ImportOutput(s, b, output, threshold, now), s.items[id].app;
            && id in t.items && t.items[id] == ItemAfter(s.items[id], verdict, app in s.apps, now)
            && t.apps.Keys == s.apps.Keys
            && (app in s.apps ==> t.apps[app] == AppAfter(s.apps[app], t.items[id], threshold, now))
  {
    Laws.ItemForIsTheItem(s, b, id);
  }

  // ----- The import, item by item

  /** A key answered twice fails every waiting item, and no application changes. */
  lemma RepeatedKeysFailEverything(s: Store, b: BatchId, output: seq<ProviderRequest>, threshold: real, now: int,
                                   id: ItemId, i: nat, j: nat)
    requires BatchInv(s) && Waits(s, b, id)
    requires i < j < |output| && output[i].key == output[j].key
    ensures var t := ImportOutput(s, b, output, threshold, now);
            && id in t.items
            && EndedWith(s.items[id], t.items[id], TerminalFailed, "provider returned duplicate request_key", now)
            && (s.items[id].app in s.apps
                ==> s.items[id].app in t.apps && t.apps[s.items[id].app] == s.apps[s.items[id].app])
  {
    if !HasDuplicateKeys(output) {
      Laws.NoDuplicates(output, i, j);
      assert false;
    }
    VerdictArrives(s, b, output, threshold, now, id, Terminate(DUPLICATE_KEY));
  }

  /**
   The answer under an item's key, if the import gets to it: the item and its
   application receive the score it carries, or the item is to be tried again.
   */
  lemma AnswersReachTheirItems(s: Store, b: BatchId, output: seq<ProviderRequest>, threshold: real, now: int,
                               id: ItemId, i: nat)
    requires BatchInv(s) && Waits(s, b, id)
    requires KeysDiffer(output) && Reaches(output, s.items, b, i, s.items[id].key)
    ensures var t := ImportOutput(s, b, output, threshold, now);
            var app := s.items[id].app;
            && id in t.items
            && (forall score, feedback | Scores(output[i], score, feedback) ::
                  if app in s.apps then
                    && t.items[id] == s.items[id].(status := Imported, score := Some(score), feedback := feedback,
                                                   error := None, updatedAt := now)
                    && app in t.apps && ReceivesScore(s.apps[app], t.apps[app], score, feedback, threshold, now)
                  else EndedWith(s.items[id], t.items[id], TerminalFailed, "application missing", now))
            && ((forall score, feedback :: !Scores(output[i], score, feedback)) ==>
                  && (exists error :: EndedWith(s.items[id], t.items[id], RetryableFailed, error, now)
                                      && (ErrorOf(output[i]).Some? ==> ErrorOf(output[i]) == Some(error)))
                  && (app in s.apps ==> app in t.apps && t.apps[app] == s.apps[app]))
  {
    ReachedAnswerCounts(s, b, output, i, s.items[id].key);
    var verdict := RequestVerdict(output[i]);
    VerdictArrives(s, b, output, threshold, now, id, verdict);
    VerdictsScore(output[i]);
    if verdict.Retry? {
      assert EndedWith(s.items[id], ImportOutput(s, b, output, threshold, now).items[id], RetryableFailed,
                       verdict.error, now);
    }
  }

  /** Exactly the answers that carry a score are accepted; no answer fails an item for good. */
  lemma VerdictsScore(r: ProviderRequest)
    ensures forall score, feedback :: Scores(r, score, feedback) <==> RequestVerdict(r) == Accept(score, feedback)
    ensures !RequestVerdict(r).Terminate?
    ensures ErrorOf(r).Some? ==> RequestVerdict(r) == Retry(ErrorOf(r).value)
  {
  }

  /** Without an answer: another try when every answer was asked for, and failed for good when one was not. */
  lemma UnansweredItemsFail(s: Store, b: BatchId, output: seq<ProviderRequest>, threshold: real, now: int, id: ItemId)
    requires BatchInv(s) && Waits(s, b, id)
    requires KeysDiffer(output) && forall i :: !Reaches(output, s.items, b, i, s.items[id].key)
    ensures var t := ImportOutput(s, b, output, threshold, now);
            && id in t.items
            && (if forall k | 0 <= k < |output| :: Asked(s.items, b, output[k].key) then
                  EndedWith(s.items[id], t.items[id], RetryableFailed, "provider result missing", now)
                else
                  EndedWith(s.items[id], t.items[id], TerminalFailed, "provider returned unknown request_key", now))
            && (s.items[id].app in s.apps
                ==> s.items[id].app in t.apps && t.apps[s.items[id].app] == s.apps[s.items[id].app])
  {
    NoAnswerCounts(s, b, output, s.items[id].key);
    VerdictArrives(s, b, output, threshold, now, id, Fate(output, KnownKeys(s.items, b), s.items[id].key));
  }

  /** What does not wait for this batch is left alone: other items, and applications without a waiting item. */
  lemma ImportLeavesOthers(s: Store, b: BatchId, output: seq<ProviderRequest>, threshold: real, now: int)
    ensures var t := ImportOutput(s, b, output, threshold, now);
            && t.items.Keys == s.items.Keys && t.apps.Keys == s.apps.Keys
            && (forall id | id in s.items && !Waits(s, b, id) :: t.items[id] == s.items[id])
            && (forall a | a in s.apps && !exists id :: Waits(s, b, id) && s.items[id].app == a ::
                  t.apps[a] == s.apps[a])
  {
    forall a | a in s.apps && !exists id :: Waits(s, b, id) && s.items[id].app == a
      ensures ItemFor(s.items, b, a) == None
    {
      forall id ensures !(Pending(s.items, b, id) && s.items[id].app == a) {
        assert Pending(s.items, b, id) ==> Waits(s, b, id);
      }
    }
  }

  // ----- A failed batch

  /** The batch is over with its error; its waiting items may be tried again, everything else is as before. */
  lemma FailedBatchMayBeRetried(s: Store, b: BatchId, error: string, now: int)
    requires b in s.batches
    ensures var t := FailBatch(s, b, error, now);
            && t.apps == s.apps && t.items.Keys == s.items.Keys && t.batches.Keys == s.batches.Keys
            && t.batches[b] == s.batches[b].(status := BatchFailed, lastError := Some(error), completedAt := Some(now),
                                             nextPollAt := None, updatedAt := now)
            && (forall c | c in s.batches && c != b :: t.batches[c] == s.batches[c])
            && (forall id | id in s.items ::
                  if Waits(s, b, id) then EndedWith(s.items[id], t.items[id], RetryableFailed, error, now)
                  else t.items[id] == s.items[id])
  {
  }

  // ----- What a build selects

  /** The columns a selected application has. */
  ghost predicate MayBeMatched(s: Store, profile: ProfileId, env: Env, a: AppId) {
    && a in s.apps && s.apps[a].profile == profile && s.apps[a].score == None
    && (s.apps[a].status == PendingReview || s.apps[a].status == AutoRejected)
    && s.apps[a].job in env.jobs && env.jobs[s.apps[a].job].active
    && (env.jobs[s.apps[a].job].postedAt == None || env.jobs[s.apps[a].job].postedAt.value + 864000 >= env.now)
    && (forall id | id in s.items && s.items[id].app == a ::
          && s.items[id].status != TerminalFailed
          && (s.items[id].status == ItemSubmitted && s.items[id].batch in s.batches ==>
                var batch := s.batches[s.items[id].batch].status;
                batch == BatchDone || batch == BatchFailed))
  }

  /** a may come before c: posted later or at an unknown time last, then created later, then the smaller identifier. */
  ghost predicate MayPrecede(s: Store, env: Env, a: AppId, c: AppId)
    requires a in s.apps && c in s.apps && s.apps[a].job in env.jobs && s.apps[c].job in env.jobs
  {
    var p, q := env.jobs[s.apps[a].job].postedAt, env.jobs[s.apps[c].job].postedAt;
    && (p == None ==> q == None)
    && (p.Some? && q.Some? ==> p.value >= q.value)
    && (p == q ==> s.apps[a].createdAt >= s.apps[c].createdAt)
    && (p == q && s.apps[a].createdAt == s.apps[c].createdAt ==> a == c || Smaller(a, c))
  }

  /** a is a proper beginning of c, or has the smaller character where they first differ. */
  ghost predicate Smaller(a: string, c: string) {
    exists k: nat :: k <= |a| && k < |c| && a[..k] == c[..k] && (k == |a| || a[k] < c[k])
  }

  lemma {:induction false} SmallerIsBefore(a: string, c: string)
    ensures LexBefore(a, c) ==> Smaller(a, c)
    ensures !LexBefore(a, c) ==> c == a || LexBefore(c, a)
  {
    if a != [] && c != [] && a[0] == c[0] {
      SmallerIsBefore(a[1..], c[1..]);
      if LexBefore(a, c) {
        var k: nat :| k <= |a[1..]| && k < |c[1..]| && a[1..][..k] == c[1..][..k]
                      && (k == |a[1..]| || a[1..][k] < c[1..][k]);
        assert a == [a[0]] + a[1..] && c == [c[0]] + c[1..];
        assert a[..k + 1] == [a[0]] + a[1..][..k] && c[..k + 1] == [c[0]] + c[1..][..k];
        assert Smaller(a, c);
      } else {
        assert a == [a[0]] + a[1..] && c == [c[0]] + c[1..];
      }
    } else if LexBefore(a, c) {
      assert a[..0] == c[..0];
      assert Smaller(a, c);
    }
  }

  lemma NotAfter(s: Store, env: Env, a: AppId, c: AppId)
    requires a in s.apps && c in s.apps && s.apps[a].job in env.jobs && s.apps[c].job in env.jobs
    requires !RowBefore(s, env, c, a)
    ensures MayPrecede(s, env, a, c)
  {
    SmallerIsBefore(c, a);
    SmallerIsBefore(a, c);
  }

  lemma SelectableSpelledOut(s: Store, profile: ProfileId, env: Env, a: AppId)
    ensures Selectable(s, profile, env, a) <==> MayBeMatched(s, profile, env, a)
  {
  }

  /**
   A tick looks at no more applications than the candidate pool holds. They are
   different, each may be matched, in the order of the query; and what may be
   matched too and was left out would come after all of them, and is left out
   only when the pool is full.
   */
  lemma SelectionIsTheFirstPool(s: Store, profile: ProfileId, env: Env, rows: seq<AppId>)
    requires SelectedRows(s, profile, env, PoolLimit(env), rows)
    ensures forall i | 0 <= i < |rows| :: MayBeMatched(s, profile, env, rows[i])
    ensures forall i, j | 0 <= i < j < |rows| :: rows[i] != rows[j] && MayPrecede(s, env, rows[i], rows[j])
    ensures forall a, i | MayBeMatched(s, profile, env, a) && a !in rows && 0 <= i < |rows| ::
              MayPrecede(s, env, rows[i], a)
    ensures var most := if env.maxItems.Some? && env.maxItems.value > 0 then env.maxItems.value
                        else env.settings.maxItemsPerBatch;
            var pool := if env.settings.poolMultiplier > 1 then most * env.settings.poolMultiplier else most;
            |rows| <= pool && forall a | MayBeMatched(s, profile, env, a) && a !in rows :: |rows| == pool
  {
    PoolSpelledOut(env);
    forall a ensures Selectable(s, profile, env, a) <==> MayBeMatched(s, profile, env, a) {
      SelectableSpelledOut(s, profile, env, a);
    }
    forall i, j | 0 <= i < j < |rows| ensures MayPrecede(s, env, rows[i], rows[j]) {
      NotAfter(s, env, rows[i], rows[j]);
    }
    forall a, i | MayBeMatched(s, profile, env, a) && a !in rows && 0 <= i < |rows|
      ensures MayPrecede(s, env, rows[i], a)
    {
      NotAfter(s, env, rows[i], a);
    }
  }

  lemma PoolSpelledOut(env: Env)
    ensures var most := if env.maxItems.Some? && env.maxItems.value > 0 then env.maxItems.value
                        else env.settings.maxItemsPerBatch;
            PoolLimit(env) == if env.settings.poolMultiplier > 1 then most * env.settings.poolMultiplier else most
  {
    var most := EffectiveMaxItems(env);
    if env.settings.poolMultiplier > 1 {
      assert most * env.settings.poolMultiplier >= most * 1 by {
        Grows(most, env.settings.poolMultiplier);
      }
    }
  }

  lemma Grows(n: nat, factor: nat)
    requires factor >= 1
    ensures n * factor >= n
  {
    assert n * factor == n + n * (factor - 1);
    assert n * (factor - 1) >= 0;
  }

  // ----- What a build leaves

  /** A row with a rejection verdict is scored under 0.3, and rejected when that is below the threshold. */
  predicate Rejected(before: Application, after: Application, feedback: Feedback, threshold: real, now: int) {
    var score := if threshold - 0.01 < 0.0 then 0.0 else if threshold - 0.01 > 0.29 then 0.29 else threshold - 0.01;
    after == before.(score := Some(score), feedback := feedback, updatedAt := now,
                     status := if before.status == PendingReview && score < threshold then AutoRejected
                               else before.status)
  }

  /** Of the selected rows, those with a rejection verdict are rejected; nothing else changes. */
  ghost predicate RejectionsOnly(before: Table, after: Table, rows: seq<AppId>, env: Env) {
    && after.Keys == before.Keys
    && forall a | a in before ::
         if a in rows && a in env.rejections then
           Rejected(before[a], after[a], env.rejections[a], env.settings.threshold, env.now)
         else after[a] == before[a]
  }

  /** New are one waiting item per application, under numbered keys, from item number `first` on; the old ones stay. */
  ghost predicate ItemsAdded(before: map<ItemId, Item>, items: map<ItemId, Item>, first: ItemId, b: BatchId,
                             apps: seq<AppId>, now: int) {
    && (forall id :: id in items <==> id in before || first <= id < first + |apps|)
    && (forall id | id in before :: id in items && items[id] == before[id])
    && (forall i | 0 <= i < |apps| ::
          && first + i in items
          && items[first + i]
             == Item(b, apps[i], BatchPacking.RequestKey(i + 1), ItemSubmitted, None, NO_FEEDBACK, None, now))
  }

  /** The provider holds a new batch of the applications, to be polled after one interval. */
  ghost predicate HoldsBatch(s: Store, t: Store, profile: ProfileId, env: Env, apps: seq<AppId>) {
    && env.submit.Accepted?
    && t.batches == s.batches[s.nextBatch := Batch(profile, Submitted, Some(env.submit.id), Some(env.now), None,
                                                   Some(env.now + env.settings.pollInterval), None, None, env.now)]
    && ItemsAdded(s.items, t.items, s.nextItem, s.nextBatch, apps, env.now)
  }

  lemma CreatedItemIs(s: Store, chosen: seq<AppId>, now: int, i: nat)
    requires i < |chosen|
    ensures var created := NewItems(s, chosen, BatchPacking.RequestKeys(|chosen|), now);
            && s.nextItem + i in created
            && created[s.nextItem + i] == Item(s.nextBatch, chosen[i], BatchPacking.RequestKey(i + 1), ItemSubmitted,
                                               None, NO_FEEDBACK, None, now)
  {
    var keys := BatchPacking.RequestKeys(|chosen|);
    assert NewItems(s, chosen, keys, now)[s.nextItem + i] == NewItemAt(s, chosen, keys, now, s.nextItem + i);
  }

  lemma CreatedIds(s: Store, chosen: seq<AppId>, now: int, id: ItemId)
    ensures id in NewItems(s, chosen, BatchPacking.RequestKeys(|chosen|), now)
            <==> s.nextItem <= id < s.nextItem + |chosen|
  {
  }

  lemma CreatedItemsAreAdded(s: Store, chosen: seq<AppId>, now: int)
    requires WellNumbered(s)
    ensures ItemsAdded(s.items, s.items + NewItems(s, chosen, BatchPacking.RequestKeys(|chosen|), now), s.nextItem,
                       s.nextBatch, chosen, now)
  {
    var created := NewItems(s, chosen, BatchPacking.RequestKeys(|chosen|), now);
    forall id: ItemId ensures id in created <==> s.nextItem <= id < s.nextItem + |chosen| {
      CreatedIds(s, chosen, now, id);
    }
    forall i: nat | i < |chosen|
      ensures s.nextItem + i in s.items + created
      ensures (s.items + created)[s.nextItem + i]
              == Item(s.nextBatch, chosen[i], BatchPacking.RequestKey(i + 1), ItemSubmitted, None, NO_FEEDBACK, None,
                      now)
    {
      CreatedItemIs(s, chosen, now, i);
    }
  }

  lemma AcceptedBatchIsHeld(s: Store, profile: ProfileId, env: Env, chosen: seq<AppId>, counts: TickResult)
    requires WellNumbered(s) && env.submit.Accepted?
    ensures var (t, outcome) := CreateAndSubmit(s, profile, chosen, BatchPacking.RequestKeys(|chosen|), env, counts);
            && HoldsBatch(s, t, profile, env, chosen) && t.apps == s.apps
            && outcome == Returned(counts.(submitted := |chosen|))
  {
    CreatedItemsAreAdded(s, chosen, env.now);
  }

  lemma RejectionsOfRows(apps: Table, rows: seq<AppId>, env: Env)
    ensures RejectionsOnly(apps, RejectRows(apps, rows, env), rows, env)
  {
  }

  lemma ReturnedSubmission(s: Store, rejected: Store, profile: ProfileId, env: Env, chosen: seq<AppId>,
                           counts: TickResult)
    requires InCatalog(s, env, chosen) && WellNumbered(rejected) && rejected == s.(apps := rejected.apps)
    requires PackAndSubmit(s, rejected, profile, env, chosen, counts).1.Returned? && counts.submitted == 0
    ensures var (t, outcome) := PackAndSubmit(s, rejected, profile, env, chosen, counts);
            && t.apps == rejected.apps && outcome.result == counts.(submitted := |chosen|)
            && if chosen == [] then t == rejected else HoldsBatch(s, t, profile, env, chosen)
  {
    if chosen != [] && env.submit.Accepted? {
      AcceptedBatchIsHeld(rejected, profile, env, chosen, counts);
    }
  }

  /**
   A build that returns has rejected what was to be rejected. Either nothing was
   left to submit and no batch changed, or the provider holds a batch of all
   that was chosen, to be polled after one interval.
   */
  lemma BuildsRejectAndSubmit(s: Store, profile: ProfileId, env: Env, rows: seq<AppId>)
    requires BatchInv(s) && InCatalog(s, env, rows) && env.profileExists && rows != []
    requires BuildAndSubmit(s, profile, env, rows).1.Returned?
    ensures var (t, outcome) := BuildAndSubmit(s, profile, env, rows);
            var chosen := Chosen(rows, env);
            && RejectionsOnly(s.apps, t.apps, rows, env)
            && outcome.result.selected == |rows| && outcome.result.submitted == |chosen|
            && if chosen == [] then t.batches == s.batches && t.items == s.items
               else HoldsBatch(s, t, profile, env, chosen)
  {
    var rejected := s.(apps := RejectRows(s.apps, rows, env));
    var counts := NOTHING.(selected := |rows|, deterministicRejected := |rows| - |Survivors(rows, env.rejections)|);
    RejectionsOfRows(s.apps, rows, env);
    ReturnedSubmission(s, rejected, profile, env, Chosen(rows, env), counts);
  }

  /** Items first, first + 1, ... are those of the applications, to be tried again because of the error. */
  ghost predicate ItemsRetryable(items: map<ItemId, Item>, first: ItemId, apps: seq<AppId>, error: string) {
    forall i | 0 <= i < |apps| ::
      && first + i in items && items[first + i].app == apps[i]
      && items[first + i].status == RetryableFailed && items[first + i].error == Some(error)
  }

  /** What a submission the provider refuses leaves. */
  function RefusedStore(s: Store, profile: ProfileId, env: Env, chosen: seq<AppId>, error: string): Store {
    FailBatch(CreateBatch(s, profile, chosen, BatchPacking.RequestKeys(|chosen|), env.now), s.nextBatch, error, env.now)
  }

  lemma RefusedItemMayBeRetried(s: Store, profile: ProfileId, env: Env, chosen: seq<AppId>, error: string, i: nat)
    requires i < |chosen|
    ensures var items := RefusedStore(s, profile, env, chosen, error).items;
            && s.nextItem + i in items && items[s.nextItem + i].app == chosen[i]
            && items[s.nextItem + i].status == RetryableFailed && items[s.nextItem + i].error == Some(error)
  {
    CreatedItemIs(s, chosen, env.now, i);
    var created := CreateBatch(s, profile, chosen, BatchPacking.RequestKeys(|chosen|), env.now);
    assert Waits(created, s.nextBatch, s.nextItem + i);
  }

  lemma RefusedItemsMayBeRetried(s: Store, profile: ProfileId, env: Env, chosen: seq<AppId>, error: string)
    ensures ItemsRetryable(RefusedStore(s, profile, env, chosen, error).items, s.nextItem, chosen, error)
  {
    var items := RefusedStore(s, profile, env, chosen, error).items;
    forall i | 0 <= i < |chosen|
      ensures s.nextItem + i in items && items[s.nextItem + i].app == chosen[i]
      ensures items[s.nextItem + i].status == RetryableFailed && items[s.nextItem + i].error == Some(error)
    {
      RefusedItemMayBeRetried(s, profile, env, chosen, error, i);
    }
  }

  lemma RefusedBatchFails(s: Store, profile: ProfileId, env: Env, chosen: seq<AppId>, counts: TickResult)
    requires env.submit.SubmitRaises?
    ensures var (t, outcome) := CreateAndSubmit(s, profile, chosen, BatchPacking.RequestKeys(|chosen|), env, counts);
            && outcome == Raised(env.submit.error) && t.apps == s.apps
            && s.nextBatch in t.batches && t.batches[s.nextBatch].status == BatchFailed
            && t.batches[s.nextBatch].lastError == Some(env.submit.error)
            && ItemsRetryable(t.items, s.nextItem, chosen, env.submit.error)
  {
    RefusedItemsMayBeRetried(s, profile, env, chosen, env.submit.error);
  }

  /**
   A build that raises because an application cannot fit leaves everything as it
   was; one the provider refuses leaves a failed batch, whose items may be tried
   again, and the rejections.
   */
  lemma BuildsThatRaise(s: Store, profile: ProfileId, env: Env, rows: seq<AppId>)
    requires BatchInv(s) && InCatalog(s, env, rows) && env.profileExists && rows != []
    requires BuildAndSubmit(s, profile, env, rows).1.Raised?
    ensures var (t, outcome) := BuildAndSubmit(s, profile, env, rows);
            var fits := BatchPacking.AllFit(env.profileText, Contexts(s, env, Chosen(rows, env)),
                                            env.settings.maxRequestChars);
            if !fits then
              t == s && outcome == Raised("max_request_chars cannot fit a single job without description")
            else
              && env.submit.SubmitRaises? && outcome == Raised(env.submit.error)
              && RejectionsOnly(s.apps, t.apps, rows, env)
              && s.nextBatch in t.batches && t.batches[s.nextBatch].status == BatchFailed
              && ItemsRetryable(t.items, s.nextItem, Chosen(rows, env), env.submit.error)
  {
    var rejected := s.(apps := RejectRows(s.apps, rows, env));
    var counts := NOTHING.(selected := |rows|, deterministicRejected := |rows| - |Survivors(rows, env.rejections)|);
    RejectionsOfRows(s.apps, rows, env);
    RaisedSubmission(s, rejected, profile, env, Chosen(rows, env), counts);
  }

  lemma RaisedSubmission(s: Store, rejected: Store, profile: ProfileId, env: Env, chosen: seq<AppId>,
                         counts: TickResult)
    requires InCatalog(s, env, chosen) && WellNumbered(rejected) && rejected == s.(apps := rejected.apps)
    requires PackAndSubmit(s, rejected, profile, env, chosen, counts).1.Raised?
    ensures var (t, outcome) := PackAndSubmit(s, rejected, profile, env, chosen, counts);
            if !BatchPacking.AllFit(env.profileText, Contexts(s, env, chosen), env.settings.maxRequestChars) then
              t == s && outcome == Raised("max_request_chars cannot fit a single job without description")
            else
              && env.submit.SubmitRaises? && outcome == Raised(env.submit.error) && t.apps == rejected.apps
              && s.nextBatch in t.batches && t.batches[s.nextBatch].status == BatchFailed
              && ItemsRetryable(t.items, s.nextItem, chosen, env.submit.error)
  {
    if env.submit.SubmitRaises? {
      RefusedBatchFails(rejected, profile, env, chosen, counts);
    }
  }

  /** The request is about the application's job, told as the job is stored; only the description may be cut. */
  predicate Describes(r: BatchPacking.PackedRequest, app: AppId, job: Job) {
    && r.job.app == app && r.job.title == job.title && r.job.company == job.company
    && r.job.location == job.location && r.job.workplaceType == job.workplaceType
    && (r.job.description == job.description || |r.job.description| < |job.description|)
  }

  /** Every request the provider is sent describes its application's job, fits, and has its own key. */
  lemma RequestsDescribeTheirJobs(s: Store, env: Env, chosen: seq<AppId>, packed: seq<BatchPacking.PackedRequest>)
    requires InCatalog(s, env, chosen)
    requires BatchPacking.PackedFrom(env.profileText, Contexts(s, env, chosen), env.settings.maxRequestChars, packed)
    ensures |packed| == |chosen|
    ensures forall i | 0 <= i < |chosen| ::
              && chosen[i] in s.apps && s.apps[chosen[i]].job in env.jobs
              && Describes(packed[i], chosen[i], env.jobs[s.apps[chosen[i]].job])
              && packed[i].estimatedChars <= env.settings.maxRequestChars
              && packed[i].key == BatchPacking.RequestKey(i + 1)
  {
    var contexts := Contexts(s, env, chosen);
    BatchPacking.PackingContract(env.profileText, contexts, env.settings.maxRequestChars, packed);
    forall i | 0 <= i < |chosen|
      ensures chosen[i] in s.apps && s.apps[chosen[i]].job in env.jobs
      ensures Describes(packed[i], chosen[i], env.jobs[s.apps[chosen[i]].job])
      ensures packed[i].key == BatchPacking.RequestKey(i + 1)
    {
      assert BatchPacking.PackedAt(env.profileText, contexts[i], env.settings.maxRequestChars, i + 1, packed[i]);
      assert contexts[i] == ContextOf(s, env, chosen[i]);
    }
  }

  // ----- What a poll leaves

  /** Not ready: the batch is to be polled again after one interval, and nothing else changes. */
  lemma UnreadyBatchIsPolledAgain(s: Store, b: BatchId, env: Env)
    requires b in s.batches && !NoError(s.batches[b].providerBatchId)
    requires env.poll.Polled? && !env.poll.ready && !env.poll.failed
    ensures var (t, outcome) := PollAndImport(s, b, env);
            var nextPollAt := Some(env.now + env.settings.pollInterval);
            && t == s.(batches := s.batches[b := s.batches[b].(lastPolledAt := Some(env.now), updatedAt := env.now,
                                                               nextPollAt := nextPollAt)])
            && outcome == Returned(TickResult(0, 0, 0, 0, 0, 0, true))
  {
    var polled := s.(batches := s.batches[b := s.batches[b].(lastPolledAt := Some(env.now), updatedAt := env.now)]);
    var nextPollAt := Some(env.now + env.settings.pollInterval);
    assert polled.batches[b := polled.batches[b].(nextPollAt := nextPollAt)]
           == s.batches[b := polled.batches[b].(nextPollAt := nextPollAt)];
  }

  /** How a poll finds out that a batch failed. */
  function Failure(batch: Batch, env: Env): Option<string> {
    if NoError(batch.providerBatchId) then Some("missing provider_batch_id")
    else if env.poll.PollRaises? then Some("provider poll failed: " + env.poll.error)
    else if env.poll.failed then
      if NoError(env.poll.failure) then Some("provider failed") else env.poll.failure
    else if env.poll.ready && env.fetch.FetchRaises? then Some("provider output fetch failed: " + env.fetch.error)
    else None
  }

  /** The result counts these items by how they ended. */
  predicate CountsOutcomes(r: TickResult, items: map<ItemId, Item>, ids: set<ItemId>) {
    && r.imported == |set id | id in ids && id in items && items[id].status == Imported|
    && r.retryableFailed == |set id | id in ids && id in items && items[id].status == RetryableFailed|
    && r.terminalFailed == |set id | id in ids && id in items && items[id].status == TerminalFailed|
  }

  /**
   A batch whose output arrives is done now, whatever the output is; the items
   that waited are counted by how they ended, and the tick is not to be repeated.
   */
  lemma FetchedBatchIsDone(s: Store, b: BatchId, env: Env)
    requires BatchInv(s) && b in s.batches && !NoError(s.batches[b].providerBatchId)
    requires env.poll.Polled? && env.poll.ready && !env.poll.failed && env.fetch.Fetched?
    ensures var (t, outcome) := PollAndImport(s, b, env);
            && t.batches == s.batches[b := s.batches[b].(status := BatchDone, completedAt := Some(env.now),
                                                         nextPollAt := None, lastPolledAt := Some(env.now),
                                                         updatedAt := env.now)]
            && (forall id | id in t.items :: !Waits(t, b, id))
            && outcome.Returned? && !outcome.result.requeued
            && CountsOutcomes(outcome.result, t.items, set id | id in s.items && Waits(s, b, id))
  {
    var importing := Laws.ImportingStore(s, b, env.now);
    Laws.FetchOutcome(s, b, env);
    Laws.ImportDrains(importing, b, env.fetch.output, env.settings.threshold, env.now);
    FetchedIsCounted(s, b, env);
  }

  lemma CountersCount(items: map<ItemId, Item>, ids: set<ItemId>, r: TickResult)
    requires var c := CountersOf(items, ids);
             r.imported == c.imported && r.retryableFailed == c.retryable && r.terminalFailed == c.terminal
    ensures CountsOutcomes(r, items, ids)
  {
    assert (set id | id in ids && id in items && items[id].status == Imported) == WithStatus(items, ids, Imported);
    assert (set id | id in ids && id in items && items[id].status == RetryableFailed)
           == WithStatus(items, ids, RetryableFailed);
    assert (set id | id in ids && id in items && items[id].status == TerminalFailed)
           == WithStatus(items, ids, TerminalFailed);
  }

  lemma FetchedIsCounted(s: Store, b: BatchId, env: Env)
    requires b in s.batches && !NoError(s.batches[b].providerBatchId)
    requires env.poll.Polled? && env.poll.ready && !env.poll.failed && env.fetch.Fetched?
    ensures var (t, outcome) := PollAndImport(s, b, env);
            && outcome.Returned? && !outcome.result.requeued
            && CountsOutcomes(outcome.result, t.items, set id | id in s.items && Waits(s, b, id))
  {
    var ids := set id | id in s.items && Waits(s, b, id);
    assert ids == PendingIds(s.items, b);
    var (t, outcome) := PollAndImport(s, b, env);
    CountersCount(t.items, ids, outcome.result);
  }

  /** The result of a failed poll counts all items of the batch, also those of earlier imports. */
  lemma FailedPollIsCounted(s: Store, b: BatchId, env: Env)
    requires b in s.batches && Failure(s.batches[b], env).Some?
    ensures var (t, outcome) := PollAndImport(s, b, env);
            outcome.Returned?
            && CountsOutcomes(outcome.result, t.items, set id | id in t.items && t.items[id].batch == b)
  {
    var (t, outcome) := PollAndImport(s, b, env);
    var ids := set id | id in t.items && t.items[id].batch == b;
    assert ids == ItemsOf(t.items, b);
    CountersCount(t.items, ids, outcome.result);
  }

  /**
   A failed batch is closed with its error, its waiting items may be tried again,
   and only a lost id ends the tick.
   */
  lemma FailedPollClosesTheBatch(s: Store, b: BatchId, env: Env)
    requires b in s.batches && Failure(s.batches[b], env).Some?
    ensures var (t, outcome) := PollAndImport(s, b, env);
            var error := Failure(s.batches[b], env).value;
            && t.apps == s.apps && b in t.batches
            && t.batches[b].status == BatchFailed && t.batches[b].lastError == Some(error)
            && t.batches[b].completedAt == Some(env.now) && t.batches[b].nextPollAt == None
            && t.items.Keys == s.items.Keys
            && (forall id | id in s.items ::
                  if Waits(s, b, id) then EndedWith(s.items[id], t.items[id], RetryableFailed, error, env.now)
                  else t.items[id] == s.items[id])
            && outcome.Returned? && (outcome.result.requeued <==> !NoError(s.batches[b].providerBatchId))
  {
    if NoError(s.batches[b].providerBatchId) || env.poll.PollRaises? || env.poll.failed {
      Laws.PollOutcome(s, b, env);
    } else {
      Laws.FetchOutcome(s, b, env);
    }
  }

  /**
   A building batch untouched for a poll interval, and for a minute at least, is
   given up; a younger one is waited for.
   */
  lemma StaleBuildsAreGivenUp(s: Store, profile: ProfileId, env: Env, b: BatchId)
    requires BatchInv(s) && ActiveFor(s.batches, profile, b) && s.batches[b].status == Building
    ensures if s.batches[b].updatedAt + 60 < env.now
            && s.batches[b].updatedAt + env.settings.pollInterval < env.now then
              BuildsFrom(s, profile, env) == Some(FailBatch(s, b, "stale building batch", env.now))
            else
              && BuildsFrom(s, profile, env) == None && RowsFor(s, profile, env, [])
              && Tick(s, profile, env, []) == (s, Returned(TickResult(0, 0, 0, 0, 0, 0, true)))
  {
    Laws.ActiveBatchIsTheOne(s, profile, b);
  }
}
