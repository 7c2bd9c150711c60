/** What every tick, and every run of ticks, keeps and promises. */
module BatchMatchLaws {
  import opened Prelude
  import opened Applications
  import opened BatchMatch
  import BatchPacking

  // ----- What one step may do to batches and items

  /**
   Batches and items are never removed or renamed, a settled item never
   changes, a closed batch stays closed, and an application with a terminally
   failed item gets no new item.
   */
  ghost predicate Progress(s: Store, t: Store) {
    && s.nextItem <= t.nextItem && s.nextBatch <= t.nextBatch
    && (forall b | b in s.batches :: b in t.batches && t.batches[b].profile == s.batches[b].profile
                                     && (!s.batches[b].Active() ==> t.batches[b] == s.batches[b]))
    && (forall id | id in s.items :: id in t.items && t.items[id].batch == s.items[id].batch
                                     && t.items[id].app == s.items[id].app && t.items[id].key == s.items[id].key
                                     && (!s.items[id].status.ItemSubmitted? ==> t.items[id] == s.items[id]))
    && (forall id | id in t.items && id !in s.items :: id >= s.nextItem)
    && (forall id, j | id in t.items && id !in s.items && j in s.items && s.items[j].status.TerminalFailed? ::
          s.items[j].app != t.items[id].app)
  }

  lemma ProgressIsTransitive(s: Store, t: Store, u: Store)
    requires BatchInv(s) && Progress(s, t) && Progress(t, u)
    ensures Progress(s, u)
  {
    forall id, j | id in u.items && id !in s.items && j in s.items && s.items[j].status.TerminalFailed?
      ensures s.items[j].app != u.items[id].app
    {
      assert t.items[j] == s.items[j];
      if id in t.items {
        assert u.items[id].app == t.items[id].app;
      }
    }
  }

  /** Items of batch b may settle; nothing else about any item changes. */
  ghost predicate ItemsSettle(before: map<ItemId, Item>, b: BatchId, after: map<ItemId, Item>) {
    && after.Keys == before.Keys
    && forall id | id in before ::
         && after[id].batch == before[id].batch && after[id].app == before[id].app && after[id].key == before[id].key
         && (!Pending(before, b, id) ==> after[id] == before[id])
  }

  lemma SettledItemsStayUnique(before: map<ItemId, Item>, b: BatchId, after: map<ItemId, Item>)
    requires ItemsSettle(before, b, after)
    requires OneSubmittedItemPerApplication(before) && OneItemPerKey(before)
    ensures OneSubmittedItemPerApplication(after) && OneItemPerKey(after)
  {
    forall app, i: ItemId, j: ItemId | SubmittedFor(after, app, i) && SubmittedFor(after, app, j) ensures i == j {
      assert SubmittedFor(before, app, i) && SubmittedFor(before, app, j);
    }
    forall c, key, i: ItemId, j: ItemId | HasKey(after, c, key, i) && HasKey(after, c, key, j) ensures i == j {
      assert HasKey(before, c, key, i) && HasKey(before, c, key, j);
    }
  }

  /** Settling items of b while b stays active, or draining b altogether. */
  lemma SettlingKeepsInv(s: Store, b: BatchId, batch: Batch, items: map<ItemId, Item>, apps: Table)
    requires BatchInv(s) && b in s.batches && s.batches[b].Active() && batch.profile == s.batches[b].profile
    requires ItemsSettle(s.items, b, items)
    requires batch.Active() || PendingIds(items, b) == {}
    ensures var t := s.(batches := s.batches[b := batch], items := items, apps := apps);
            BatchInv(t) && Progress(s, t)
  {
    var t := s.(batches := s.batches[b := batch], items := items, apps := apps);
    SettledItemsStayUnique(s.items, b, items);
    forall profile, c: BatchId, d: BatchId | ActiveFor(t.batches, profile, c) && ActiveFor(t.batches, profile, d)
      ensures c == d {
      assert ActiveFor(s.batches, profile, c) && ActiveFor(s.batches, profile, d);
    }
    forall id | id in t.items && t.items[id].status.ItemSubmitted?
      ensures t.items[id].batch in t.batches && t.batches[t.items[id].batch].Active()
    {
      assert t.items[id].batch == b ==> id in PendingIds(items, b);
    }
  }

  // ----- Import

  lemma ImportSettles(s: Store, b: BatchId, output: seq<ProviderRequest>, now: int)
    ensures ItemsSettle(s.items, b, ImportedItems(s, b, output, now))
    ensures PendingIds(ImportedItems(s, b, output, now), b) == {}
  {
  }

  /** Once no item of ids is submitted, each of them is counted under exactly one of the three outcomes. */
  lemma EveryItemIsCounted(items: map<ItemId, Item>, ids: set<ItemId>)
    requires forall id | id in ids :: id in items && !items[id].status.ItemSubmitted?
    ensures var c := CountersOf(items, ids); c.imported + c.retryable + c.terminal == |ids|
  {
    var imported := WithStatus(items, ids, Imported);
    var retryable := WithStatus(items, ids, RetryableFailed);
    var terminal := WithStatus(items, ids, TerminalFailed);
    assert ids == imported + retryable + terminal;
    assert imported !! retryable && imported + retryable !! terminal;
  }

  /** Every item that waited is settled, and the counters account for each of them exactly once. */
  lemma ImportDrains(s: Store, b: BatchId, output: seq<ProviderRequest>, threshold: real, now: int)
    requires b in s.batches
    ensures var t := ImportOutput(s, b, output, threshold, now);
            var c := CountersOf(t.items, PendingIds(s.items, b));
            && PendingIds(t.items, b) == {}
            && c.imported + c.retryable + c.terminal == |PendingIds(s.items, b)|
            && FinishIfDrained(t, b, now).batches[b].status.BatchDone?
  {
    var items := ImportedItems(s, b, output, now);
    ImportSettles(s, b, output, now);
    forall id | id in PendingIds(s.items, b) ensures id in items && !items[id].status.ItemSubmitted? {
      assert Pending(items, b, id) ==> id in PendingIds(items, b);
    }
    EveryItemIsCounted(items, PendingIds(s.items, b));
  }

  /** A result reaches the application whose item carries the request key, once, and by its own batch's item only. */
  lemma ResultsFollowRequestKeys(s: Store, b: BatchId, output: seq<ProviderRequest>, threshold: real, now: int,
                                 id: ItemId, i: nat)
    requires BatchInv(s) && b in s.batches && Pending(s.items, b, id) && s.items[id].app in s.apps
    requires !HasDuplicateKeys(output)
    requires i < |output| && output[i].key == s.items[id].key
    requires forall k | 0 <= k < |output| :: output[k].key in KnownKeys(s.items, b)
    ensures var t := ImportOutput(s, b, output, threshold, now);
            var app := s.items[id].app;
            var verdict := RequestVerdict(output[i]);
            && t.items[id] == ItemAfter(s.items[id], verdict, true, now)
            && (verdict.Accept? && s.apps[app].score.None? ==>
                  t.apps[app].score == Some(verdict.score) && t.apps[app].feedback == verdict.feedback)
            && (!verdict.Accept? || s.apps[app].score.Some? ==> t.apps[app] == s.apps[app])
  {
    AllKnown(output, KnownKeys(s.items, b));
    AnswerIsUnique(output, |output|, i);
    var t := ImportOutput(s, b, output, threshold, now);
    assert t.items[id] == ItemAfter(s.items[id], RequestVerdict(output[i]), true, now);
    ItemForIsTheItem(s, b, id);
  }

  lemma ItemForIsTheItem(s: Store, b: BatchId, id: ItemId)
    requires BatchInv(s) && Pending(s.items, b, id)
    ensures ItemFor(s.items, b, s.items[id].app) == Some(id)
  {
    var app := s.items[id].app;
    assert forall other | Pending(s.items, b, other) && s.items[other].app == app :: SubmittedFor(s.items, app, other);
    assert SubmittedFor(s.items, app, id);
  }

  lemma {:induction false} AllKnown(output: seq<ProviderRequest>, known: set<string>)
    requires forall k | 0 <= k < |output| :: output[k].key in known
    ensures KnownPrefix(output, known) == |output|
  {
    if output != [] {
      AllKnown(output[1..], known);
    }
  }

  lemma {:induction false} NoDuplicates(output: seq<ProviderRequest>, i: nat, j: nat)
    requires !HasDuplicateKeys(output) && i < j < |output|
    ensures output[i].key != output[j].key
  {
    if output[i].key == output[j].key {
      var rest := output[..i] + output[i + 1..];
      var keys := set r | r in output :: r.key;
      assert keys <= set r | r in rest :: r.key by {
        forall r | r in output ensures r.key in set r' | r' in rest :: r'.key {
          var k :| 0 <= k < |output| && output[k] == r;
          var r' := if k < i then rest[k] else if k == i then rest[j - 1] else rest[k - 1];
          assert r' in rest && r'.key == r.key;
        }
      }
      FewKeys(rest);
      SubsetSize(keys, set r | r in rest :: r.key);
      assert false;
    }
  }

  lemma {:induction false} FewKeys(output: seq<ProviderRequest>)
    ensures |set r | r in output :: r.key| <= |output|
  {
    if output != [] {
      var n := |output| - 1;
      FewKeys(output[..n]);
      assert output == output[..n] + [output[n]];
      assert (set r | r in output :: r.key) == (set r | r in output[..n] :: r.key) + {output[n].key};
    }
  }

  lemma {:induction false} AnswerIsUnique(output: seq<ProviderRequest>, n: nat, i: nat)
    requires !HasDuplicateKeys(output) && i < n <= |output|
    ensures AnswerFor(output, n, output[i].key) == Some(output[i])
  {
    if i < n - 1 {
      NoDuplicates(output, i, n - 1);
      AnswerIsUnique(output, n - 1, i);
    }
  }

  lemma {:induction false} NoAnswer(output: seq<ProviderRequest>, n: nat, key: string)
    requires n <= |output|
    requires forall k | 0 <= k < n :: output[k].key != key
    ensures AnswerFor(output, n, key) == None
  {
    if n > 0 {
      NoAnswer(output, n - 1, key);
    }
  }

  /** With distinct, known keys the verdict on a key does not depend on the order of the answers. */
  lemma FateIgnoresOrder(output: seq<ProviderRequest>, shuffled: seq<ProviderRequest>, known: set<string>, key: string)
    requires multiset(output) == multiset(shuffled)
    requires !HasDuplicateKeys(output)
    requires forall k | 0 <= k < |output| :: output[k].key in known
    ensures Fate(output, known, key) == Fate(shuffled, known, key)
  {
    assert forall r :: r in output <==> r in shuffled by {
      assert forall r :: r in output <==> r in multiset(output);
      assert forall r :: r in shuffled <==> r in multiset(shuffled);
    }
    assert |output| == |multiset(output)| == |multiset(shuffled)| == |shuffled|;
    assert (set r | r in output :: r.key) == (set r | r in shuffled :: r.key);
    AllKnown(output, known);
    forall k | 0 <= k < |shuffled| ensures shuffled[k].key in known {
      assert shuffled[k] in output;
    }
    AllKnown(shuffled, known);
    if i :| 0 <= i < |output| && output[i].key == key {
      AnswerIsUnique(output, |output|, i);
      assert output[i] in shuffled;
      var j :| 0 <= j < |shuffled| && shuffled[j] == output[i];
      AnswerIsUnique(shuffled, |shuffled|, j);
    } else {
      NoAnswer(output, |output|, key);
      forall k | 0 <= k < |shuffled| ensures shuffled[k].key != key {
        assert shuffled[k] in output;
      }
      NoAnswer(shuffled, |shuffled|, key);
    }
  }

  /** Import gives the same items, applications and counters for every ordering of the responses. */
  lemma ImportIgnoresOrder(s: Store, b: BatchId, output: seq<ProviderRequest>, shuffled: seq<ProviderRequest>,
                           threshold: real, now: int)
    requires multiset(output) == multiset(shuffled)
    requires !HasDuplicateKeys(output)
    requires forall k | 0 <= k < |output| :: output[k].key in KnownKeys(s.items, b)
    ensures ImportOutput(s, b, output, threshold, now) == ImportOutput(s, b, shuffled, threshold, now)
    ensures CountersOf(ImportOutput(s, b, output, threshold, now).items, PendingIds(s.items, b))
            == CountersOf(ImportOutput(s, b, shuffled, threshold, now).items, PendingIds(s.items, b))
  {
    ItemsIgnoreOrder(s, b, output, shuffled, now);
  }

  lemma ItemsIgnoreOrder(s: Store, b: BatchId, output: seq<ProviderRequest>, shuffled: seq<ProviderRequest>, now: int)
    requires multiset(output) == multiset(shuffled)
    requires !HasDuplicateKeys(output)
    requires forall k | 0 <= k < |output| :: output[k].key in KnownKeys(s.items, b)
    ensures ImportedItems(s, b, output, now) == ImportedItems(s, b, shuffled, now)
  {
    var known := KnownKeys(s.items, b);
    forall id | id in s.items
      ensures Fate(output, known, s.items[id].key) == Fate(shuffled, known, s.items[id].key)
    {
      FateIgnoresOrder(output, shuffled, known, s.items[id].key);
    }
  }

  /** The same answers, but echoing other application ids. */
  ghost predicate SameButEchoes(a: seq<ProviderRequest>, b: seq<ProviderRequest>) {
    && |a| == |b|
    && forall i | 0 <= i < |a| ::
         && a[i].key == b[i].key && a[i].error == b[i].error && |a[i].results| == |b[i].results|
         && forall k | 0 <= k < |a[i].results| ::
              a[i].results[k] == b[i].results[k].(echoedApp := a[i].results[k].echoedApp)
  }

  lemma {:induction false} AnswerIgnoresEchoes(a: seq<ProviderRequest>, b: seq<ProviderRequest>, n: nat, key: string)
    requires SameButEchoes(a, b) && n <= |a|
    ensures AnswerFor(a, n, key).Some? <==> AnswerFor(b, n, key).Some?
    ensures AnswerFor(a, n, key).Some?
            ==> RequestVerdict(AnswerFor(a, n, key).value) == RequestVerdict(AnswerFor(b, n, key).value)
  {
    if n > 0 {
      AnswerIgnoresEchoes(a, b, n - 1, key);
    }
  }

  lemma {:induction false} PrefixIgnoresEchoes(a: seq<ProviderRequest>, b: seq<ProviderRequest>, known: set<string>)
    requires |a| == |b| && forall i | 0 <= i < |a| :: a[i].key == b[i].key
    ensures KnownPrefix(a, known) == KnownPrefix(b, known)
  {
    if a != [] {
      PrefixIgnoresEchoes(a[1..], b[1..], known);
    }
  }

  lemma KeysIgnoreEchoes(a: seq<ProviderRequest>, b: seq<ProviderRequest>)
    requires SameButEchoes(a, b)
    ensures HasDuplicateKeys(a) <==> HasDuplicateKeys(b)
  {
    var ka, kb := set r | r in a :: r.key, set r | r in b :: r.key;
    forall k | k in ka ensures k in kb {
      var i :| 0 <= i < |a| && a[i].key == k;
      assert b[i] in b;
    }
    forall k | k in kb ensures k in ka {
      var i :| 0 <= i < |b| && b[i].key == k;
      assert a[i] in a;
    }
    assert ka == kb;
  }

  /** Whatever application ids the provider echoes, the import is the same. */
  lemma ImportIgnoresEchoes(s: Store, b: BatchId, a1: seq<ProviderRequest>, a2: seq<ProviderRequest>, threshold: real,
                            now: int)
    requires SameButEchoes(a1, a2)
    ensures ImportOutput(s, b, a1, threshold, now) == ImportOutput(s, b, a2, threshold, now)
  {
    var known := KnownKeys(s.items, b);
    PrefixIgnoresEchoes(a1, a2, known);
    KeysIgnoreEchoes(a1, a2);
    forall id | id in s.items ensures Fate(a1, known, s.items[id].key) == Fate(a2, known, s.items[id].key) {
      AnswerIgnoresEchoes(a1, a2, KnownPrefix(a1, known), s.items[id].key);
    }
    assert ImportedItems(s, b, a1, now) == ImportedItems(s, b, a2, now);
  }

  // ----- The halves of a tick

  lemma FailKeepsInv(s: Store, b: BatchId, error: string, now: int)
    requires BatchInv(s) && b in s.batches && s.batches[b].Active()
    ensures var t := FailBatch(s, b, error, now);
            BatchInv(t) && Progress(s, t) && t.batches[b].status.BatchFailed?
  {
    var t := FailBatch(s, b, error, now);
    SettlingKeepsInv(s, b, t.batches[b], t.items, s.apps);
  }

  /** A batch row changes but the batch stays active. */
  lemma TouchKeepsInv(s: Store, b: BatchId, batch: Batch)
    requires BatchInv(s) && b in s.batches && s.batches[b].Active()
    requires batch.Active() && batch.profile == s.batches[b].profile
    ensures var t := s.(batches := s.batches[b := batch]); BatchInv(t) && Progress(s, t)
  {
    SettlingKeepsInv(s, b, batch, s.items, s.apps);
  }

  lemma FailAfterTouch(s: Store, b: BatchId, touched: Store, error: string, now: int)
    requires BatchInv(s) && BatchInv(touched) && Progress(s, touched)
    requires b in touched.batches && touched.batches[b].Active()
    ensures var t := FailBatch(touched, b, error, now);
            BatchInv(t) && Progress(s, t) && t.batches[b].status.BatchFailed?
  {
    FailKeepsInv(touched, b, error, now);
    ProgressIsTransitive(s, touched, FailBatch(touched, b, error, now));
  }

  lemma ImportKeepsInv(s: Store, b: BatchId, output: seq<ProviderRequest>, threshold: real, now: int)
    requires BatchInv(s) && b in s.batches && s.batches[b].Active()
    ensures var t := FinishIfDrained(ImportOutput(s, b, output, threshold, now), b, now);
            BatchInv(t) && Progress(s, t)
  {
    ImportDrains(s, b, output, threshold, now);
    ImportSettles(s, b, output, now);
    var t := FinishIfDrained(ImportOutput(s, b, output, threshold, now), b, now);
    SettlingKeepsInv(s, b, t.batches[b], t.items, t.apps);
  }

  /** How an application may change by scoring: at most once, and only from pending review to auto-rejected. */
  ghost predicate ScoredOnce(before: Application, after: Application) {
    && (after.score != before.score ==> before.score.None?)
    && (after.status != before.status ==>
          before.score.None? && after.score.Some? && before.status.PendingReview? && after.status.AutoRejected?)
    && after == before.(score := after.score, status := after.status, feedback := after.feedback,
                        updatedAt := after.updatedAt)
  }

  ghost predicate AppsScoredOnce(s: Store, t: Store) {
    t.apps.Keys == s.apps.Keys && forall a | a in s.apps :: ScoredOnce(s.apps[a], t.apps[a])
  }

  lemma ImportScoresOnce(s: Store, b: BatchId, output: seq<ProviderRequest>, threshold: real, now: int)
    ensures AppsScoredOnce(s, ImportOutput(s, b, output, threshold, now))
  {
  }

  /** The batch row after the provider said it is ready. */
  function ImportingBatch(batch: Batch, now: int): Batch {
    batch.(status := Importing, nextPollAt := None, lastPolledAt := Some(now), updatedAt := now)
  }

  /** The store while the output is fetched. */
  function ImportingStore(s: Store, b: BatchId, now: int): Store
    requires b in s.batches
  {
    s.(batches := s.batches[b := ImportingBatch(s.batches[b], now)])
  }

  lemma FetchOutcome(s: Store, b: BatchId, env: Env)
    requires b in s.batches
    requires Truthy(s.batches[b].providerBatchId) && env.poll.Polled? && env.poll.ready && !env.poll.failed
    ensures var importing := ImportingStore(s, b, env.now);
            PollAndImport(s, b, env).0 ==
            match env.fetch
            case FetchCrashes => importing
            case FetchRaises(error) => FailBatch(importing, b, "provider output fetch failed: " + error, env.now)
            case Fetched(output) =>
              FinishIfDrained(ImportOutput(importing, b, output, env.settings.threshold, env.now), b, env.now)
  {
    var polled := s.(batches := s.batches[b := s.batches[b].(lastPolledAt := Some(env.now), updatedAt := env.now)]);
    assert polled.(batches := polled.batches[b := polled.batches[b].(status := Importing, nextPollAt := None)])
           == ImportingStore(s, b, env.now);
  }

  lemma FetchKeepsInv(s: Store, b: BatchId, env: Env)
    requires BatchInv(s) && b in s.batches && s.batches[b].Active()
    requires Truthy(s.batches[b].providerBatchId) && env.poll.Polled? && env.poll.ready && !env.poll.failed
    ensures var t := PollAndImport(s, b, env).0; BatchInv(t) && Progress(s, t) && AppsScoredOnce(s, t)
  {
    var importing := ImportingStore(s, b, env.now);
    FetchOutcome(s, b, env);
    TouchKeepsInv(s, b, importing.batches[b]);
    match env.fetch
    case FetchCrashes =>
    case FetchRaises(error) => FailAfterTouch(s, b, importing, "provider output fetch failed: " + error, env.now);
    case Fetched(output) => ImportAfterTouch(s, b, importing, output, env.settings.threshold, env.now);
  }

  lemma ImportAfterTouch(s: Store, b: BatchId, touched: Store, output: seq<ProviderRequest>, threshold: real, now: int)
    requires BatchInv(s) && BatchInv(touched) && Progress(s, touched) && touched.apps == s.apps
    requires b in touched.batches && touched.batches[b].Active()
    ensures var t := FinishIfDrained(ImportOutput(touched, b, output, threshold, now), b, now);
            BatchInv(t) && Progress(s, t) && AppsScoredOnce(s, t)
  {
    ImportKeepsInv(touched, b, output, threshold, now);
    ImportScoresOnce(touched, b, output, threshold, now);
    ProgressIsTransitive(s, touched, FinishIfDrained(ImportOutput(touched, b, output, threshold, now), b, now));
  }

  /** The batch row after a poll that did not find it ready. */
  function PolledBatch(batch: Batch, nextPollAt: Option<int>, now: int): Batch {
    batch.(lastPolledAt := Some(now), updatedAt := now, nextPollAt := nextPollAt)
  }

  /** Why a poll fails the batch, if it does. */
  function PollFailure(batch: Batch, poll: PollAnswer): Option<string> {
    if !Truthy(batch.providerBatchId) then Some("missing provider_batch_id")
    else if poll.PollRaises? then Some("provider poll failed: " + poll.error)
    else if !poll.failed then None
    else if Truthy(poll.failure) then poll.failure
    else Some("provider failed")
  }

  /** What a poll without an import leaves: a failed batch, or one that is polled again. */
  function PolledStore(s: Store, b: BatchId, env: Env): Store
    requires b in s.batches
  {
    var batch := s.batches[b];
    var failure := PollFailure(batch, env.poll);
    var polled := s.(batches := s.batches[b := PolledBatch(batch, batch.nextPollAt, env.now)]);
    if failure.None? then
      s.(batches := s.batches[b := PolledBatch(batch, Some(env.now + env.settings.pollInterval), env.now)])
    else if Truthy(batch.providerBatchId) && env.poll.Polled? then FailBatch(polled, b, failure.value, env.now)
    else FailBatch(s, b, failure.value, env.now)
  }

  lemma PollOutcome(s: Store, b: BatchId, env: Env)
    requires b in s.batches
    requires !(Truthy(s.batches[b].providerBatchId) && env.poll.Polled? && env.poll.ready && !env.poll.failed)
    ensures PollAndImport(s, b, env).0 == PolledStore(s, b, env)
  {
    var polled := s.(batches := s.batches[b := PolledBatch(s.batches[b], s.batches[b].nextPollAt, env.now)]);
    var waiting := PolledBatch(s.batches[b], Some(env.now + env.settings.pollInterval), env.now);
    assert polled.(batches := polled.batches[b := waiting]) == s.(batches := s.batches[b := waiting]);
  }

  lemma PolledStoreKeepsInv(s: Store, b: BatchId, env: Env)
    requires BatchInv(s) && b in s.batches && s.batches[b].Active()
    ensures var t := PolledStore(s, b, env); BatchInv(t) && Progress(s, t) && t.apps == s.apps
  {
    var batch := s.batches[b];
    var failure := PollFailure(batch, env.poll);
    if failure.None? {
      TouchKeepsInv(s, b, PolledBatch(batch, Some(env.now + env.settings.pollInterval), env.now));
    } else if Truthy(batch.providerBatchId) && env.poll.Polled? {
      var polled := s.(batches := s.batches[b := PolledBatch(batch, batch.nextPollAt, env.now)]);
      TouchKeepsInv(s, b, polled.batches[b]);
      FailAfterTouch(s, b, polled, failure.value, env.now);
    } else {
      FailKeepsInv(s, b, failure.value, env.now);
    }
  }

  lemma PollOnlyKeepsInv(s: Store, b: BatchId, env: Env)
    requires BatchInv(s) && b in s.batches && s.batches[b].Active()
    requires !(Truthy(s.batches[b].providerBatchId) && env.poll.Polled? && env.poll.ready && !env.poll.failed)
    ensures var t := PollAndImport(s, b, env).0; BatchInv(t) && Progress(s, t) && AppsScoredOnce(s, t)
  {
    PollOutcome(s, b, env);
    PolledStoreKeepsInv(s, b, env);
  }

  lemma FetchSettles(s: Store, b: BatchId, env: Env)
    requires b in s.batches
    requires Truthy(s.batches[b].providerBatchId) && env.poll.Polled? && env.poll.ready && !env.poll.failed
    ensures var (t, outcome) := PollAndImport(s, b, env);
            && t.batches.Keys == s.batches.Keys && !outcome.Raised?
            && (outcome.Returned? && !outcome.result.requeued ==> t.batches[b].status.BatchDone?)
  {
    FetchOutcome(s, b, env);
    if env.fetch.Fetched? {
      ImportDrains(ImportingStore(s, b, env.now), b, env.fetch.output, env.settings.threshold, env.now);
    }
  }

  /** A poll that returns leaves the batch active only with requeued set; otherwise the batch is done or failed. */
  lemma PollSettlesOrRequeues(s: Store, b: BatchId, env: Env)
    requires b in s.batches
    ensures var (t, outcome) := PollAndImport(s, b, env);
            && t.batches.Keys == s.batches.Keys && !outcome.Raised?
            && (outcome.Returned? && !outcome.result.requeued
                ==> t.batches[b].status.BatchDone? || t.batches[b].status.BatchFailed?)
  {
    if Truthy(s.batches[b].providerBatchId) && env.poll.Polled? && env.poll.ready && !env.poll.failed {
      FetchSettles(s, b, env);
    }
  }

  // ----- Building

  lemma SelectedAreInCatalog(s: Store, profile: ProfileId, env: Env, limit: nat, rows: seq<AppId>)
    requires SelectedRows(s, profile, env, limit, rows)
    ensures InCatalog(s, env, rows) && Distinct(rows)
    ensures forall a | a in rows :: Selectable(s, profile, env, a)
  {
  }

  lemma RejectionScoresOnce(s: Store, rows: seq<AppId>, env: Env)
    requires forall a | a in rows && a in s.apps :: s.apps[a].score.None?
    ensures AppsScoredOnce(s, s.(apps := RejectRows(s.apps, rows, env)))
  {
  }

  lemma NewItemsHaveOwnKeys(s: Store, chosen: seq<AppId>, keys: seq<string>, now: int)
    requires |keys| == |chosen| && Distinct(keys)
    ensures OneItemPerKey(NewItems(s, chosen, keys, now))
  {
    var items := NewItems(s, chosen, keys, now);
    forall b, key, i: ItemId, j: ItemId | HasKey(items, b, key, i) && HasKey(items, b, key, j) ensures i == j {
      assert items[i] == NewItemAt(s, chosen, keys, now, i) && items[j] == NewItemAt(s, chosen, keys, now, j);
      assert keys[i - s.nextItem] == keys[j - s.nextItem];
    }
  }

  /** Distinct applications and distinct request keys, so no two new items share either. */
  lemma NewItemsAreSingle(s: Store, chosen: seq<AppId>, keys: seq<string>, now: int)
    requires |keys| == |chosen| && Distinct(chosen)
    ensures var items := NewItems(s, chosen, keys, now);
            && (forall i | i in items :: items[i].app in chosen && items[i].batch == s.nextBatch)
            && OneSubmittedItemPerApplication(items)
  {
    var items := NewItems(s, chosen, keys, now);
    forall i | i in items ensures items[i].app in chosen && items[i].batch == s.nextBatch {
      assert items[i] == NewItemAt(s, chosen, keys, now, i);
    }
    forall app, i: ItemId, j: ItemId | SubmittedFor(items, app, i) && SubmittedFor(items, app, j) ensures i == j {
      assert items[i] == NewItemAt(s, chosen, keys, now, i) && items[j] == NewItemAt(s, chosen, keys, now, j);
      assert chosen[i - s.nextItem] == chosen[j - s.nextItem];
    }
  }

  lemma CreatedItemsAreUnique(s: Store, chosen: seq<AppId>, keys: seq<string>, now: int)
    requires BatchInv(s) && |keys| == |chosen| && Distinct(chosen) && Distinct(keys)
    requires forall a | a in chosen :: !Blocked(s, a)
    ensures OneSubmittedItemPerApplication(s.items + NewItems(s, chosen, keys, now))
    ensures OneItemPerKey(s.items + NewItems(s, chosen, keys, now))
  {
    var added := NewItems(s, chosen, keys, now);
    var items := s.items + added;
    NewItemsAreSingle(s, chosen, keys, now);
    NewItemsHaveOwnKeys(s, chosen, keys, now);
    forall app, i: ItemId | SubmittedFor(s.items, app, i) ensures app !in chosen {
      assert Blocked(s, app);
    }
    forall app, i: ItemId, j: ItemId | SubmittedFor(items, app, i) && SubmittedFor(items, app, j) ensures i == j {
      assert if i in added then SubmittedFor(added, app, i) else SubmittedFor(s.items, app, i);
      assert if j in added then SubmittedFor(added, app, j) else SubmittedFor(s.items, app, j);
    }
    forall b, key, i: ItemId, j: ItemId | HasKey(items, b, key, i) && HasKey(items, b, key, j) ensures i == j {
      assert if i in added then HasKey(added, b, key, i) else HasKey(s.items, b, key, i);
      assert if j in added then HasKey(added, b, key, j) else HasKey(s.items, b, key, j);
    }
  }

  /** A new batch for unblocked, distinct applications of a profile without an active batch, under distinct keys. */
  lemma CreateKeepsInv(s: Store, profile: ProfileId, chosen: seq<AppId>, keys: seq<string>, now: int)
    requires BatchInv(s) && |keys| == |chosen| && Distinct(chosen) && Distinct(keys)
    requires forall b :: !ActiveFor(s.batches, profile, b)
    requires forall a | a in chosen :: !Blocked(s, a)
    ensures BatchInv(CreateBatch(s, profile, chosen, keys, now))
  {
    var t := CreateBatch(s, profile, chosen, keys, now);
    CreatedItemsAreUnique(s, chosen, keys, now);
    NewItemsAreSingle(s, chosen, keys, now);
    forall p, b: BatchId, c: BatchId | ActiveFor(t.batches, p, b) && ActiveFor(t.batches, p, c) ensures b == c {
      assert b != s.nextBatch ==> ActiveFor(s.batches, p, b);
      assert c != s.nextBatch ==> ActiveFor(s.batches, p, c);
    }
  }

  lemma CreateProgresses(s: Store, profile: ProfileId, chosen: seq<AppId>, keys: seq<string>, now: int)
    requires BatchInv(s) && |keys| == |chosen| && forall a | a in chosen :: !Blocked(s, a)
    ensures Progress(s, CreateBatch(s, profile, chosen, keys, now))
  {
    var t := CreateBatch(s, profile, chosen, keys, now);
    forall id, j | id in t.items && id !in s.items && j in s.items && s.items[j].status.TerminalFailed?
      ensures s.items[j].app != t.items[id].app
    {
      assert t.items[id] == NewItemAt(s, chosen, keys, now, id);
      assert !Blocked(s, t.items[id].app);
    }
  }

  /** The store once the batch of a build is committed. */
  function CreatedStore(s: Store, profile: ProfileId, env: Env, rows: seq<AppId>): Store {
    var chosen := Chosen(rows, env);
    CreateBatch(RejectedStore(s, env, rows), profile, chosen, BatchPacking.RequestKeys(|chosen|), env.now)
  }

  /** What a build rejects deterministically. */
  function RejectedStore(s: Store, env: Env, rows: seq<AppId>): Store {
    s.(apps := RejectRows(s.apps, rows, env))
  }

  lemma RejectingKeepsInv(s: Store, profile: ProfileId, env: Env, rows: seq<AppId>)
    requires BatchInv(s) && SelectedRows(s, profile, env, PoolLimit(env), rows)
    ensures var rejected := RejectedStore(s, env, rows);
            BatchInv(rejected) && Progress(s, rejected) && AppsScoredOnce(s, rejected)
  {
    SelectedAreInCatalog(s, profile, env, PoolLimit(env), rows);
    RejectionScoresOnce(s, rows, env);
  }

  lemma ChosenAreUnblocked(s: Store, profile: ProfileId, env: Env, rows: seq<AppId>)
    requires SelectedRows(s, profile, env, PoolLimit(env), rows)
    ensures Distinct(Chosen(rows, env)) && forall a | a in Chosen(rows, env) :: !Blocked(RejectedStore(s, env, rows), a)
  {
    SelectedAreInCatalog(s, profile, env, PoolLimit(env), rows);
    ChosenAreDistinct(rows, env);
    forall a | a in Chosen(rows, env) ensures !Blocked(RejectedStore(s, env, rows), a) {
      assert Selectable(s, profile, env, a) && !Blocked(s, a);
    }
  }

  /** What a build creates, before the provider is asked. */
  lemma BuildCreates(s: Store, profile: ProfileId, env: Env, rows: seq<AppId>)
    requires BatchInv(s) && forall b :: !ActiveFor(s.batches, profile, b)
    requires SelectedRows(s, profile, env, PoolLimit(env), rows)
    ensures var t := CreatedStore(s, profile, env, rows);
            BatchInv(t) && Progress(s, t) && AppsScoredOnce(s, t) && t.batches[s.nextBatch].Active()
  {
    var rejected, chosen := RejectedStore(s, env, rows), Chosen(rows, env);
    var keys := BatchPacking.RequestKeys(|chosen|);
    RejectingKeepsInv(s, profile, env, rows);
    ChosenAreUnblocked(s, profile, env, rows);
    BatchPacking.RequestKeysAreAllDifferent(|chosen|);
    CreateKeepsInv(rejected, profile, chosen, keys, env.now);
    CreateProgresses(rejected, profile, chosen, keys, env.now);
    ProgressIsTransitive(s, rejected, CreateBatch(rejected, profile, chosen, keys, env.now));
  }

  /** The answer of the provider to a submission. */
  lemma SubmissionKeepsInv(s: Store, created: Store, b: BatchId, env: Env)
    requires BatchInv(s) && BatchInv(created) && Progress(s, created)
    requires b in created.batches && created.batches[b].Active()
    ensures env.submit.SubmitRaises? ==>
              var t := FailBatch(created, b, env.submit.error, env.now); BatchInv(t) && Progress(s, t)
    ensures env.submit.Accepted? ==>
              var t := Submit(created, b, env.submit.id, env.settings.pollInterval, env.now);
              BatchInv(t) && Progress(s, t)
  {
    if env.submit.SubmitRaises? {
      FailAfterTouch(s, b, created, env.submit.error, env.now);
    } else if env.submit.Accepted? {
      var t := Submit(created, b, env.submit.id, env.settings.pollInterval, env.now);
      TouchKeepsInv(created, b, t.batches[b]);
      ProgressIsTransitive(s, created, t);
    }
  }

  lemma BuildOutcome(s: Store, profile: ProfileId, env: Env, rows: seq<AppId>)
    requires InCatalog(s, env, rows) && env.profileExists && rows != []
    ensures var t := BuildAndSubmit(s, profile, env, rows).0;
            var rejected := s.(apps := RejectRows(s.apps, rows, env));
            var created := CreatedStore(s, profile, env, rows);
            || t == s
            || t == rejected
            || t == created
            || (env.submit.SubmitRaises? && t == FailBatch(created, s.nextBatch, env.submit.error, env.now))
            || (env.submit.Accepted?
                && t == Submit(created, s.nextBatch, env.submit.id, env.settings.pollInterval, env.now))
  {
  }

  lemma AnyAnswerKeepsInv(s: Store, created: Store, env: Env, t: Store)
    requires BatchInv(s) && BatchInv(created) && Progress(s, created) && AppsScoredOnce(s, created)
    requires s.nextBatch in created.batches && created.batches[s.nextBatch].Active()
    requires || t == created
             || (env.submit.SubmitRaises? && t == FailBatch(created, s.nextBatch, env.submit.error, env.now))
             || (env.submit.Accepted?
                 && t == Submit(created, s.nextBatch, env.submit.id, env.settings.pollInterval, env.now))
    ensures BatchInv(t) && Progress(s, t) && AppsScoredOnce(s, t)
  {
    SubmissionKeepsInv(s, created, s.nextBatch, env);
  }

  lemma UntouchedStore(s: Store)
    ensures Progress(s, s) && AppsScoredOnce(s, s)
  {
  }

  /** Whatever the provider answers: nothing but the rejections and the new batch is there to keep in order. */
  lemma SubmissionOfRows(s: Store, profile: ProfileId, env: Env, rows: seq<AppId>)
    requires BatchInv(s) && InCatalog(s, env, rows) && env.profileExists && rows != []
    requires var rejected := RejectedStore(s, env, rows);
             BatchInv(rejected) && Progress(s, rejected) && AppsScoredOnce(s, rejected)
    requires var created := CreatedStore(s, profile, env, rows);
             && BatchInv(created) && Progress(s, created) && AppsScoredOnce(s, created)
             && created.batches[s.nextBatch].Active()
    ensures var t := BuildAndSubmit(s, profile, env, rows).0;
            BatchInv(t) && Progress(s, t) && AppsScoredOnce(s, t)
  {
    var t := BuildAndSubmit(s, profile, env, rows).0;
    BuildOutcome(s, profile, env, rows);
    if t == s {
      UntouchedStore(s);
    } else if t != RejectedStore(s, env, rows) {
      AnyAnswerKeepsInv(s, CreatedStore(s, profile, env, rows), env, t);
    }
  }

  lemma BuildKeepsInv(s: Store, profile: ProfileId, env: Env, rows: seq<AppId>)
    requires BatchInv(s) && forall b :: !ActiveFor(s.batches, profile, b)
    requires if env.profileExists then SelectedRows(s, profile, env, PoolLimit(env), rows) else rows == []
    ensures InCatalog(s, env, rows)
    ensures var t := BuildAndSubmit(s, profile, env, rows).0;
            BatchInv(t) && Progress(s, t) && AppsScoredOnce(s, t)
  {
    if env.profileExists && rows != [] {
      SelectedAreInCatalog(s, profile, env, PoolLimit(env), rows);
      RejectingKeepsInv(s, profile, env, rows);
      BuildCreates(s, profile, env, rows);
      SubmissionOfRows(s, profile, env, rows);
    }
  }

  /** A build that returns leaves a batch active only when it submitted something. */
  lemma BuildSubmitsOrLeavesNone(s: Store, profile: ProfileId, env: Env, rows: seq<AppId>, b: BatchId)
    requires InCatalog(s, env, rows)
    requires forall c :: !ActiveFor(s.batches, profile, c)
    ensures var (t, outcome) := BuildAndSubmit(s, profile, env, rows);
            outcome.Returned? ==>
              !outcome.result.requeued && (ActiveFor(t.batches, profile, b) ==> outcome.result.submitted > 0)
  {
    assert !ActiveFor(s.batches, profile, b);
  }

  // ----- One tick

  lemma ActiveBatchIsTheOne(s: Store, profile: ProfileId, b: BatchId)
    requires BatchInv(s) && ActiveFor(s.batches, profile, b)
    ensures ActiveBatch(s, profile) == Some(b)
  {
  }

  /** What a tick builds from keeps the invariant and has no active batch for the profile. */
  lemma BuildsFromCleanStore(s: Store, profile: ProfileId, env: Env)
    requires BatchInv(s)
    ensures var from := BuildsFrom(s, profile, env);
            from.Some? ==>
              && BatchInv(from.value) && Progress(s, from.value) && AppsScoredOnce(s, from.value)
              && forall b :: !ActiveFor(from.value.batches, profile, b)
  {
    var active := ActiveBatch(s, profile);
    if active.Some? {
      var b := active.value;
      assert ActiveFor(s.batches, profile, b);
      if s.batches[b].status.Building? {
        FailKeepsInv(s, b, "stale building batch", env.now);
        ClosedBatchLeavesNone(s, profile, b, FailBatch(s, b, "stale building batch", env.now));
      } else {
        PollKeepsInv(s, b, env);
        PollTouchesOneBatch(s, b, env);
        PollSettlesOrRequeues(s, b, env);
        var t := PollAndImport(s, b, env).0;
        if !t.batches[b].Active() {
          ClosedBatchLeavesNone(s, profile, b, t);
        }
      }
    }
  }

  /** A poll changes no other batch. */
  lemma PollTouchesOneBatch(s: Store, b: BatchId, env: Env)
    requires b in s.batches
    ensures forall c | c in PollAndImport(s, b, env).0.batches && c != b ::
              c in s.batches && PollAndImport(s, b, env).0.batches[c] == s.batches[c]
  {
    if Truthy(s.batches[b].providerBatchId) && env.poll.Polled? && env.poll.ready && !env.poll.failed {
      FetchOutcome(s, b, env);
    } else {
      PollOutcome(s, b, env);
    }
  }

  lemma PollKeepsInv(s: Store, b: BatchId, env: Env)
    requires BatchInv(s) && b in s.batches && s.batches[b].Active()
    ensures var t := PollAndImport(s, b, env).0; BatchInv(t) && Progress(s, t) && AppsScoredOnce(s, t)
  {
    if Truthy(s.batches[b].providerBatchId) && env.poll.Polled? && env.poll.ready && !env.poll.failed {
      FetchKeepsInv(s, b, env);
    } else {
      PollOnlyKeepsInv(s, b, env);
    }
  }

  lemma ClosedBatchLeavesNone(s: Store, profile: ProfileId, b: BatchId, t: Store)
    requires BatchInv(s) && ActiveFor(s.batches, profile, b)
    requires b in t.batches && !t.batches[b].Active()
    requires forall c | c in t.batches && c != b :: c in s.batches && t.batches[c] == s.batches[c]
    ensures forall c :: !ActiveFor(t.batches, profile, c)
  {
    forall c ensures !ActiveFor(t.batches, profile, c) {
      assert ActiveFor(t.batches, profile, c) && c != b ==> ActiveFor(s.batches, profile, c);
    }
  }

  lemma AppsScoredOnceTwice(s: Store, t: Store, u: Store)
    requires AppsScoredOnce(s, t) && AppsScoredOnce(t, u)
    ensures AppsScoredOnce(s, u)
  {
    forall a | a in s.apps ensures ScoredOnce(s.apps[a], u.apps[a]) {
      assert ScoredOnce(s.apps[a], t.apps[a]) && ScoredOnce(t.apps[a], u.apps[a]);
    }
  }

  /** Every tick, for every provider behaviour and every crash point, keeps the invariant and makes progress only. */
  lemma TickKeepsInv(s: Store, profile: ProfileId, env: Env, rows: seq<AppId>)
    requires BatchInv(s) && RowsFor(s, profile, env, rows)
    ensures var t := Tick(s, profile, env, rows).0; BatchInv(t) && Progress(s, t) && AppsScoredOnce(s, t)
  {
    var active := ActiveBatch(s, profile);
    var from := BuildsFrom(s, profile, env);
    BuildsFromCleanStore(s, profile, env);
    if from.Some? {
      var mid := from.value;
      BuildKeepsInv(mid, profile, env, rows);
      TickThatBuilds(s, profile, env, rows, mid);
      var t := BuildAndSubmit(mid, profile, env, rows).0;
      ProgressIsTransitive(s, mid, t);
      AppsScoredOnceTwice(s, mid, t);
    } else if !s.batches[active.value].status.Building? {
      PollKeepsInv(s, active.value, env);
    }
  }

  /** A tick that goes on to build ends in the store of the build, and reports what the build submits. */
  lemma TickThatBuilds(s: Store, profile: ProfileId, env: Env, rows: seq<AppId>, from: Store)
    requires RowsFor(s, profile, env, rows) && BuildsFrom(s, profile, env) == Some(from) && InCatalog(from, env, rows)
    ensures var (t, outcome) := Tick(s, profile, env, rows);
            var (built, build) := BuildAndSubmit(from, profile, env, rows);
            && t == built
            && (outcome.Returned? <==> build.Returned?)
            && (outcome.Returned? ==> outcome.result.submitted == build.result.submitted)
  {
  }

  /** A poll that returns and leaves the profile an active batch asks for another tick. */
  lemma PollAsksAgain(s: Store, profile: ProfileId, env: Env, a: BatchId, b: BatchId)
    requires BatchInv(s) && ActiveFor(s.batches, profile, a)
    requires PollAndImport(s, a, env).1.Returned? && ActiveFor(PollAndImport(s, a, env).0.batches, profile, b)
    ensures PollAndImport(s, a, env).1.result.requeued
  {
    PollTouchesOneBatch(s, a, env);
    PollSettlesOrRequeues(s, a, env);
    var t := PollAndImport(s, a, env).0;
    if !t.batches[a].Active() {
      ClosedBatchLeavesNone(s, profile, a, t);
    }
  }

  /** A build that starts from a clean store, returns and leaves an active batch has submitted something. */
  lemma CleanBuildSubmits(from: Store, profile: ProfileId, env: Env, rows: seq<AppId>, b: BatchId)
    requires BatchInv(from) && forall c :: !ActiveFor(from.batches, profile, c)
    requires if env.profileExists then SelectedRows(from, profile, env, PoolLimit(env), rows) else rows == []
    ensures InCatalog(from, env, rows)
    ensures var (t, outcome) := BuildAndSubmit(from, profile, env, rows);
            outcome.Returned? && ActiveFor(t.batches, profile, b) ==> outcome.result.submitted > 0
  {
    BuildKeepsInv(from, profile, env, rows);
    BuildSubmitsOrLeavesNone(from, profile, env, rows, b);
  }

  /**
   The follow-up is never forgotten: when a tick returns normally and the
   profile still has an active batch, the result asks for another tick.
   */
  lemma ActiveBatchMeansFollowUp(s: Store, profile: ProfileId, env: Env, rows: seq<AppId>, b: BatchId)
    requires BatchInv(s) && RowsFor(s, profile, env, rows)
    requires Tick(s, profile, env, rows).1.Returned? && ActiveFor(Tick(s, profile, env, rows).0.batches, profile, b)
    ensures Tick(s, profile, env, rows).1.result.requeued || Tick(s, profile, env, rows).1.result.submitted > 0
  {
    var active := ActiveBatch(s, profile);
    var from := BuildsFrom(s, profile, env);
    BuildsFromCleanStore(s, profile, env);
    if from.Some? {
      CleanBuildSubmits(from.value, profile, env, rows, b);
      TickThatBuilds(s, profile, env, rows, from.value);
    } else if !s.batches[active.value].status.Building? {
      PollAsksAgain(s, profile, env, active.value, b);
    }
  }

  // ----- Runs of ticks

  /** A whole tick, or one whose process died between the commit of its first half and its build. */
  ghost predicate TickStep(s: Store, profile: ProfileId, env: Env, rows: seq<AppId>, t: Store) {
    || (RowsFor(s, profile, env, rows) && t == Tick(s, profile, env, rows).0)
    || BuildsFrom(s, profile, env) == Some(t)
  }

  lemma TickStepKeepsInv(s: Store, profile: ProfileId, env: Env, rows: seq<AppId>, t: Store)
    requires BatchInv(s) && TickStep(s, profile, env, rows, t)
    ensures BatchInv(t) && Progress(s, t) && AppsScoredOnce(s, t)
  {
    BuildsFromCleanStore(s, profile, env);
    if RowsFor(s, profile, env, rows) {
      TickKeepsInv(s, profile, env, rows);
    }
  }

  /** A tick of some profile, or any other writer of the applications table. */
  datatype Move = TickOf(profile: ProfileId, env: Env, rows: seq<AppId>) | OtherWriters(apps: Table)

  ghost predicate StoreStep(s: Store, m: Move, t: Store) {
    match m
    case TickOf(profile, env, rows) => TickStep(s, profile, env, rows, t)
    case OtherWriters(apps) => t == s.(apps := apps)
  }

  ghost predicate StoreRun(ss: seq<Store>, ms: seq<Move>) {
    && |ss| == |ms| + 1
    && ss[0].batches == map[] && ss[0].items == map[]
    && forall k | 0 <= k < |ms| :: StoreStep(ss[k], ms[k], ss[k + 1])
  }

  lemma StoreStepKeepsInv(s: Store, m: Move, t: Store)
    requires BatchInv(s) && StoreStep(s, m, t)
    ensures BatchInv(t) && Progress(s, t)
  {
    if m.TickOf? {
      TickStepKeepsInv(s, m.profile, m.env, m.rows, t);
    }
  }

  /**
   At every moment of every run: at most one active batch per profile, a
   submitted item only in an active batch, at most one submitted item per
   application, one item per request key of a batch.
   */
  lemma {:induction false} StoreRunKeepsInv(ss: seq<Store>, ms: seq<Move>, k: nat)
    requires StoreRun(ss, ms) && k < |ss|
    ensures BatchInv(ss[k])
  {
    if k > 0 {
      StoreRunKeepsInv(ss, ms, k - 1);
      StoreStepKeepsInv(ss[k - 1], ms[k - 1], ss[k]);
    }
  }

  /** Consecutive stores keep the invariant and progress. */
  ghost predicate Chain(ss: seq<Store>) {
    forall k | 0 <= k < |ss| - 1 :: BatchInv(ss[k]) && Progress(ss[k], ss[k + 1])
  }

  lemma {:induction false} ChainProgresses(ss: seq<Store>, i: nat, j: nat)
    requires Chain(ss) && i < j < |ss|
    ensures Progress(ss[i], ss[j])
  {
    assert Progress(ss[j - 1], ss[j]);
    if i < j - 1 {
      ChainProgresses(ss, i, j - 1);
      ProgressIsTransitive(ss[i], ss[j - 1], ss[j]);
    }
  }

  /** From any moment of a run to any later one. */
  lemma StoreRunProgresses(ss: seq<Store>, ms: seq<Move>, i: nat, j: nat)
    requires StoreRun(ss, ms) && i < j < |ss|
    ensures Progress(ss[i], ss[j])
  {
    forall k | 0 <= k < |ss| - 1 ensures BatchInv(ss[k]) && Progress(ss[k], ss[k + 1]) {
      StoreRunKeepsInv(ss, ms, k);
      StoreStepKeepsInv(ss[k], ms[k], ss[k + 1]);
    }
    ChainProgresses(ss, i, j);
  }

  /** Once one of its items failed terminally, an application never enters a later batch, and that item stays failed. */
  lemma TerminalFailureIsForever(ss: seq<Store>, ms: seq<Move>, i: nat, j: nat, failed: ItemId, other: ItemId)
    requires StoreRun(ss, ms) && i < j < |ss|
    requires failed in ss[i].items && ss[i].items[failed].status.TerminalFailed?
    requires other in ss[j].items && ss[j].items[other].app == ss[i].items[failed].app
    ensures other in ss[i].items
    ensures failed in ss[j].items && ss[j].items[failed] == ss[i].items[failed]
  {
    StoreRunProgresses(ss, ms, i, j);
  }
}
