/** The batch-match service: the loops and commits behind one tick. */
module BatchMatchService {
  import opened Prelude
  import opened Applications
  import opened BatchMatch
  import BatchPacking
  import Answers = BatchMatchAnswers
  import Laws = BatchMatchLaws

  // ----- Counting settled items

  function Bump(c: ImportCounters, status: ItemStatus): ImportCounters {
    match status
    case Imported => c.(imported := c.imported + 1)
    case RetryableFailed => c.(retryable := c.retryable + 1)
    case TerminalFailed => c.(terminal := c.terminal + 1)
    case ItemSubmitted => c
  }

  lemma SettlingOneCounts(items: map<ItemId, Item>, ids: set<ItemId>, id: ItemId, item: Item)
    requires id in ids && id in items && items[id].status.ItemSubmitted? && !item.status.ItemSubmitted?
    ensures CountersOf(items[id := item], ids) == Bump(CountersOf(items, ids), item.status)
  {
    SettlingOneMoves(items, ids, id, item, Imported);
    SettlingOneMoves(items, ids, id, item, RetryableFailed);
    SettlingOneMoves(items, ids, id, item, TerminalFailed);
  }

  lemma SettlingOneMoves(items: map<ItemId, Item>, ids: set<ItemId>, id: ItemId, item: Item, status: ItemStatus)
    requires id in ids && id in items && items[id].status.ItemSubmitted? && !status.ItemSubmitted?
    ensures |WithStatus(items[id := item], ids, status)|
            == |WithStatus(items, ids, status)| + (if item.status == status then 1 else 0)
  {
    var before := WithStatus(items, ids, status);
    if item.status == status {
      assert WithStatus(items[id := item], ids, status) == before + {id};
    } else {
      assert WithStatus(items[id := item], ids, status) == before;
    }
  }

  lemma MarkingMoves(items: map<ItemId, Item>, ids: set<ItemId>, mark: ItemStatus, error: string, now: int,
                     status: ItemStatus)
    requires !mark.ItemSubmitted? && !status.ItemSubmitted?
    ensures |WithStatus(Marked(items, ids, mark, error, now), ids, status)|
            == |WithStatus(items, ids, status)|
              + (if mark == status then |WithStatus(items, ids, ItemSubmitted)| else 0)
  {
    var marked := Marked(items, ids, mark, error, now);
    var before, waiting := WithStatus(items, ids, status), WithStatus(items, ids, ItemSubmitted);
    if mark == status {
      assert WithStatus(marked, ids, status) == before + waiting;
    } else {
      assert WithStatus(marked, ids, status) == before;
    }
  }

  lemma MarkingCounts(items: map<ItemId, Item>, ids: set<ItemId>, mark: ItemStatus, error: string, now: int)
    requires mark.RetryableFailed? || mark.TerminalFailed?
    ensures var c := CountersOf(items, ids);
            var n := |WithStatus(items, ids, ItemSubmitted)|;
            CountersOf(Marked(items, ids, mark, error, now), ids)
            == if mark.RetryableFailed? then c.(retryable := c.retryable + n) else c.(terminal := c.terminal + n)
  {
    MarkingMoves(items, ids, mark, error, now, Imported);
    MarkingMoves(items, ids, mark, error, now, RetryableFailed);
    MarkingMoves(items, ids, mark, error, now, TerminalFailed);
  }

  lemma WaitingOneLess(items: map<ItemId, Item>, ids: set<ItemId>, id: ItemId)
    requires id in ids && id in items
    ensures |WithStatus(items, ids, ItemSubmitted)|
            == |WithStatus(items, ids - {id}, ItemSubmitted)| + (if items[id].status.ItemSubmitted? then 1 else 0)
  {
    var rest := WithStatus(items, ids - {id}, ItemSubmitted);
    if items[id].status.ItemSubmitted? {
      assert WithStatus(items, ids, ItemSubmitted) == rest + {id};
    } else {
      assert WithStatus(items, ids, ItemSubmitted) == rest;
    }
  }

  // ----- The import loop

  /** Item id once the first n answers are handled. */
  function ItemAt(s: Store, b: BatchId, output: seq<ProviderRequest>, n: nat, id: ItemId, now: int): Item
    requires id in s.items && n <= |output|
  {
    var answer := AnswerFor(output, n, s.items[id].key);
    if Pending(s.items, b, id) && answer.Some? then
      ItemAfter(s.items[id], RequestVerdict(answer.value), s.items[id].app in s.apps, now)
    else s.items[id]
  }

  ghost predicate ItemsAt(items: map<ItemId, Item>, s: Store, b: BatchId, output: seq<ProviderRequest>, n: nat,
                          now: int)
    requires n <= |output|
  {
    items.Keys == s.items.Keys && forall id | id in s.items :: items[id] == ItemAt(s, b, output, n, id, now)
  }

  /** Each application is what its item in the batch makes of it so far. */
  ghost predicate AppsFollow(apps: Table, items: map<ItemId, Item>, s: Store, b: BatchId, threshold: real, now: int) {
    && apps.Keys == s.apps.Keys && items.Keys == s.items.Keys
    && forall a | a in s.apps ::
         apps[a] == var id := ItemFor(s.items, b, a);
                    if id.Some? then AppAfter(s.apps[a], items[id.value], threshold, now) else s.apps[a]
  }

  ghost predicate DistinctKeys(output: seq<ProviderRequest>) {
    forall i, j | 0 <= i < j < |output| :: output[i].key != output[j].key
  }

  lemma NoKeyRepeats(output: seq<ProviderRequest>)
    requires !HasDuplicateKeys(output)
    ensures DistinctKeys(output)
  {
    forall i, j | 0 <= i < j < |output| ensures output[i].key != output[j].key {
      Laws.NoDuplicates(output, i, j);
    }
  }

  /** One answer handled: its item settles, every other item stays as it was. */
  lemma AnswerHandled(items: map<ItemId, Item>, s: Store, b: BatchId, output: seq<ProviderRequest>, n: nat,
                      id: ItemId, now: int)
    requires BatchInv(s) && n < |output| && DistinctKeys(output)
    requires ItemsAt(items, s, b, output, n, now)
    requires Pending(s.items, b, id) && s.items[id].key == output[n].key
    ensures items[id] == s.items[id]
    ensures ItemsAt(items[id := ItemAfter(s.items[id], RequestVerdict(output[n]), s.items[id].app in s.apps, now)],
                    s, b, output, n + 1, now)
  {
    Laws.NoAnswer(output, n, output[n].key);
    forall other | other in s.items && other != id && Pending(s.items, b, other)
      ensures s.items[other].key != output[n].key {
      assert HasKey(s.items, b, s.items[id].key, id);
      assert HasKey(s.items, b, s.items[other].key, other);
    }
  }

  /** Updating an application through its own item keeps the others as their items say. */
  lemma AppHandled(apps: Table, items: map<ItemId, Item>, s: Store, b: BatchId, id: ItemId, item: Item,
                   threshold: real, now: int)
    requires BatchInv(s) && Pending(s.items, b, id)
    requires AppsFollow(apps, items, s, b, threshold, now)
    requires items[id] == s.items[id]
    ensures var app := s.items[id].app;
            app in apps ==> apps[app] == s.apps[app]
                            && AppsFollow(apps[app := AppAfter(apps[app], item, threshold, now)], items[id := item],
                                          s, b, threshold, now)
    ensures s.items[id].app !in apps || !item.status.Imported?
            ==> AppsFollow(apps, items[id := item], s, b, threshold, now)
  {
    var app := s.items[id].app;
    Laws.ItemForIsTheItem(s, b, id);
    forall a | a in s.apps && ItemFor(s.items, b, a) == Some(id) ensures a == app {
    }
  }

  lemma MarkingKeepsApps(apps: Table, items: map<ItemId, Item>, s: Store, b: BatchId, ids: set<ItemId>,
                         mark: ItemStatus, error: string, threshold: real, now: int)
    requires AppsFollow(apps, items, s, b, threshold, now) && !mark.Imported?
    ensures AppsFollow(apps, Marked(items, ids, mark, error, now), s, b, threshold, now)
  {
  }

  /** The import after n answers: items, applications and counters. */
  ghost predicate Halfway(items: map<ItemId, Item>, apps: Table, counters: ImportCounters,
                          s: Store, b: BatchId, output: seq<ProviderRequest>, n: nat, threshold: real, now: int)
    requires n <= |output|
  {
    && ItemsAt(items, s, b, output, n, now)
    && AppsFollow(apps, items, s, b, threshold, now)
    && counters == CountersOf(items, PendingIds(s.items, b))
  }

  /** The same as values: items, applications and counters after n answers. */
  ghost function ImportedUpTo(s: Store, b: BatchId, output: seq<ProviderRequest>, n: nat, threshold: real, now: int):
    (map<ItemId, Item>, Table, ImportCounters)
    requires n <= |output|
  {
    var items := map id | id in s.items :: ItemAt(s, b, output, n, id, now);
    var apps := map a | a in s.apps ::
                  var id := ItemFor(s.items, b, a);
                  if id.Some? && id.value in items then AppAfter(s.apps[a], items[id.value], threshold, now)
                  else s.apps[a];
    (items, apps, CountersOf(items, PendingIds(s.items, b)))
  }

  lemma HalfwayAsValues(items: map<ItemId, Item>, apps: Table, counters: ImportCounters,
                        s: Store, b: BatchId, output: seq<ProviderRequest>, n: nat, threshold: real, now: int)
    requires n <= |output|
    ensures Halfway(items, apps, counters, s, b, output, n, threshold, now)
            <==> (items, apps, counters) == ImportedUpTo(s, b, output, n, threshold, now)
  {
    var (items', apps', counters') := ImportedUpTo(s, b, output, n, threshold, now);
    assert ItemsAt(items, s, b, output, n, now) <==> items == items';
    if items == items' {
      assert AppsFollow(apps, items, s, b, threshold, now) <==> apps == apps';
    }
  }

  /** Every key of the index leads to the waiting item that carries it. */
  ghost predicate KeyedBy(byKey: map<string, ItemId>, s: Store, b: BatchId) {
    forall key | key in byKey :: Pending(s.items, b, byKey[key]) && s.items[byKey[key]].key == key
  }

  lemma WaitingKeysDiffer(items: map<ItemId, Item>, b: BatchId)
    requires OneItemPerKey(items)
    ensures forall i, j | i in items && j in items && Pending(items, b, i) && Pending(items, b, j)
                          && items[i].key == items[j].key :: i == j
  {
    forall i, j | i in items && j in items && Pending(items, b, i) && Pending(items, b, j)
      && items[i].key == items[j].key
      ensures i == j
    {
      assert HasKey(items, b, items[i].key, i) && HasKey(items, b, items[j].key, j);
    }
  }

  /** An index that leads to every waiting item has their keys and leads to nothing else. */
  lemma IndexIsComplete(byKey: map<string, ItemId>, s: Store, b: BatchId)
    requires KeyedBy(byKey, s, b)
    requires forall id | id in PendingIds(s.items, b) :: s.items[id].key in byKey && byKey[s.items[id].key] == id
    ensures byKey.Keys == KnownKeys(s.items, b)
    ensures byKey.Values == PendingIds(s.items, b)
  {
  }

  lemma NothingAnsweredYet(s: Store, b: BatchId, output: seq<ProviderRequest>, threshold: real, now: int)
    requires BatchInv(s)
    ensures Halfway(s.items, s.apps, ImportCounters(0, 0, 0), s, b, output, 0, threshold, now)
  {
    NothingCountedYet(s.items, PendingIds(s.items, b));
    forall a | a in s.apps && ItemFor(s.items, b, a).Some?
      ensures AppAfter(s.apps[a], s.items[ItemFor(s.items, b, a).value], threshold, now) == s.apps[a]
    {
      assert Pending(s.items, b, ItemFor(s.items, b, a).value);
    }
  }

  lemma OneAnswerFurther(items: map<ItemId, Item>, apps: Table, counters: ImportCounters, s: Store, b: BatchId,
                         output: seq<ProviderRequest>, n: nat, id: ItemId, threshold: real, now: int)
    requires BatchInv(s) && n < |output| && DistinctKeys(output)
    requires Halfway(items, apps, counters, s, b, output, n, threshold, now)
    requires Pending(s.items, b, id) && s.items[id].key == output[n].key
    ensures id in items
    ensures var app := items[id].app;
            var settled := ItemAfter(items[id], RequestVerdict(output[n]), app in apps, now);
            Halfway(items[id := settled],
                    if app in apps then apps[app := AppAfter(apps[app], settled, threshold, now)] else apps,
                    Bump(counters, settled.status), s, b, output, n + 1, threshold, now)
  {
    AnswerHandled(items, s, b, output, n, id, now);
    var settled := ItemAfter(items[id], RequestVerdict(output[n]), items[id].app in apps, now);
    AppHandled(apps, items, s, b, id, settled, threshold, now);
    assert id in PendingIds(s.items, b);
    SettlingOneCounts(items, PendingIds(s.items, b), id, settled);
  }

  // ----- The three ways an import ends

  lemma DuplicateEnding(s: Store, b: BatchId, output: seq<ProviderRequest>, now: int)
    requires HasDuplicateKeys(output)
    ensures Marked(s.items, PendingIds(s.items, b), TerminalFailed, DUPLICATE_KEY, now)
            == ImportedItems(s, b, output, now)
  {
  }

  /** What the import decides about items without an answer among the first n. */
  function RestVerdict(output: seq<ProviderRequest>, n: nat): Verdict {
    if n < |output| then Terminate(UNKNOWN_KEY) else Retry(RESULT_MISSING)
  }

  lemma RestOfItems(s: Store, b: BatchId, output: seq<ProviderRequest>, known: set<string>, n: nat, id: ItemId,
                    now: int)
    requires !HasDuplicateKeys(output) && n == KnownPrefix(output, known) && id in s.items
    ensures ImportedItem(s, b, output, known, id, now)
            == if Pending(s.items, b, id) && AnswerFor(output, n, s.items[id].key).None?
               then ItemAfter(s.items[id], RestVerdict(output, n), s.items[id].app in s.apps, now)
               else ItemAt(s, b, output, n, id, now)
  {
  }

  /** An item without an answer is still submitted; one with an answer is not. */
  lemma AnsweredItemIsSettled(s: Store, b: BatchId, output: seq<ProviderRequest>, n: nat, id: ItemId, now: int)
    requires n <= |output| && Pending(s.items, b, id)
    ensures ItemAt(s, b, output, n, id, now).status.ItemSubmitted? <==> AnswerFor(output, n, s.items[id].key).None?
    ensures AnswerFor(output, n, s.items[id].key).None? ==> ItemAt(s, b, output, n, id, now) == s.items[id]
  {
  }

  /** Marking what is still submitted completes the import of the first n answers, up to the first unknown key. */
  lemma EndingOf(items: map<ItemId, Item>, s: Store, b: BatchId, output: seq<ProviderRequest>, n: nat,
                 mark: ItemStatus, error: string, now: int)
    requires !HasDuplicateKeys(output) && n == KnownPrefix(output, KnownKeys(s.items, b))
    requires ItemsAt(items, s, b, output, n, now)
    requires RestVerdict(output, n) == if mark.TerminalFailed? then Terminate(error) else Retry(error)
    requires mark.TerminalFailed? || mark.RetryableFailed?
    ensures Marked(items, PendingIds(s.items, b), mark, error, now) == ImportedItems(s, b, output, now)
  {
    var marked, imported := Marked(items, PendingIds(s.items, b), mark, error, now), ImportedItems(s, b, output, now);
    forall id | id in s.items ensures marked[id] == imported[id] {
      RestOfItems(s, b, output, KnownKeys(s.items, b), n, id, now);
      if Pending(s.items, b, id) {
        AnsweredItemIsSettled(s, b, output, n, id, now);
      }
    }
  }

  lemma FollowingAppsAreImported(s: Store, b: BatchId, output: seq<ProviderRequest>, apps: Table, threshold: real,
                                 now: int)
    requires AppsFollow(apps, ImportedItems(s, b, output, now), s, b, threshold, now)
    ensures apps == ImportOutput(s, b, output, threshold, now).apps
  {
  }

  // ----- The query order

  lemma {:induction false} LexTransitive(a: string, b: string, c: string)
    requires LexBefore(a, b) && LexBefore(b, c)
    ensures LexBefore(a, c)
  {
    if a != [] && a[0] == b[0] && b[0] == c[0] {
      LexTransitive(a[1..], b[1..], c[1..]);
    }
  }

  lemma {:induction false} LexIrreflexive(a: string)
    ensures !LexBefore(a, a)
  {
    if a != [] {
      LexIrreflexive(a[1..]);
    }
  }

  lemma RowBeforeTransitive(s: Store, env: Env, a: AppId, b: AppId, c: AppId)
    requires a in s.apps && b in s.apps && c in s.apps
    requires s.apps[a].job in env.jobs && s.apps[b].job in env.jobs && s.apps[c].job in env.jobs
    requires RowBefore(s, env, a, b) && RowBefore(s, env, b, c)
    ensures RowBefore(s, env, a, c)
  {
    if LexBefore(a, b) && LexBefore(b, c) {
      LexTransitive(a, b, c);
    }
  }

  /** No row of the set precedes a. */
  predicate FirstOf(s: Store, env: Env, rows: set<AppId>, a: AppId)
    requires forall r | r in rows :: r in s.apps && s.apps[r].job in env.jobs
  {
    a in rows && forall other | other in rows :: !RowBefore(s, env, other, a)
  }

  lemma FirstOrEarlier(s: Store, env: Env, rows: set<AppId>, x: AppId, y: AppId)
    requires forall r | r in rows :: r in s.apps && s.apps[r].job in env.jobs
    requires x in rows && FirstOf(s, env, rows - {x}, y)
    ensures FirstOf(s, env, rows, x) || FirstOf(s, env, rows, y)
  {
    LexIrreflexive(x);
    if RowBefore(s, env, x, y) {
      forall other | other in rows ensures !RowBefore(s, env, other, x) {
        if other != x && RowBefore(s, env, other, x) {
          RowBeforeTransitive(s, env, other, x, y);
          assert false;
        }
      }
    }
  }

  /** A non-empty set of rows has one that no other precedes. */
  lemma {:induction false} FirstRowExists(s: Store, env: Env, rows: set<AppId>)
    requires rows != {}
    requires forall r | r in rows :: r in s.apps && s.apps[r].job in env.jobs
    ensures exists a :: FirstOf(s, env, rows, a)
    decreases |rows|
  {
    var x :| x in rows;
    if rows == {x} {
      LexIrreflexive(x);
      assert FirstOf(s, env, rows, x);
    } else {
      assert rows - {x} != {};
      FirstRowExists(s, env, rows - {x});
      var y :| FirstOf(s, env, rows - {x}, y);
      FirstOrEarlier(s, env, rows, x, y);
    }
  }

  /** The rows picked so far are in query order, and what is left of the selectable rows comes after them. */
  ghost predicate PickedSoFar(s: Store, profile: ProfileId, env: Env, todo: set<AppId>, rows: seq<AppId>) {
    && (forall a :: Selectable(s, profile, env, a) <==> a in todo || a in rows)
    && (forall a | a in todo :: a !in rows)
    && Distinct(rows)
    && (forall i | 0 <= i < |rows| :: Selectable(s, profile, env, rows[i]))
    && (forall i, j | 0 <= i < j < |rows| :: !RowBefore(s, env, rows[j], rows[i]))
    && (forall a | a in todo :: Selectable(s, profile, env, a))
    && (forall a, i | a in todo && 0 <= i < |rows| :: !RowBefore(s, env, a, rows[i]))
  }

  lemma OneMorePicked(s: Store, profile: ProfileId, env: Env, todo: set<AppId>, rows: seq<AppId>, a: AppId)
    requires PickedSoFar(s, profile, env, todo, rows)
    requires FirstOf(s, env, todo, a)
    ensures PickedSoFar(s, profile, env, todo - {a}, rows + [a])
  {
    assert forall b :: b in rows + [a] <==> b in rows || b == a;
  }

  lemma PickedAreSelected(s: Store, profile: ProfileId, env: Env, todo: set<AppId>, rows: seq<AppId>, limit: nat)
    requires PickedSoFar(s, profile, env, todo, rows)
    requires |rows| <= limit && (todo == {} || |rows| == limit)
    ensures SelectedRows(s, profile, env, limit, rows)
  {
    assert forall a | Selectable(s, profile, env, a) && a !in rows :: a in todo;
  }

  class BatchMatcher {
    var batches: map<BatchId, Batch>
    var items: map<ItemId, Item>
    var apps: Table
    var nextBatch: BatchId
    var nextItem: ItemId

    function State(): Store
      reads this
    {
      Store(batches, items, apps, nextBatch, nextItem)
    }

    ghost predicate Valid()
      reads this
    {
      BatchInv(State())
    }

    constructor (apps: Table)
      ensures Valid() && State() == Store(map[], map[], apps, 0, 0)
    {
      batches, items, nextBatch, nextItem := map[], map[], 0, 0;
      this.apps := apps;
    }

    /** Those of ids that are still submitted get the status and the error. */
    method MarkSubmitted(ids: set<ItemId>, status: ItemStatus, error: string, now: int) returns (count: nat)
      requires !status.ItemSubmitted? && ids <= items.Keys
      modifies this`items
      ensures items == Marked(old(items), ids, status, error, now)
      ensures count == |WithStatus(old(items), ids, ItemSubmitted)|
    {
      ghost var before, marked := items, Marked(items, ids, status, error, now);
      var todo := ids;
      count := 0;
      while todo != {}
        invariant todo <= ids && items.Keys == before.Keys
        invariant forall id | id in before :: items[id] == if id in todo then before[id] else marked[id]
        invariant count + |WithStatus(before, todo, ItemSubmitted)| == |WithStatus(before, ids, ItemSubmitted)|
        decreases |todo|
      {
        var id :| id in todo;
        WaitingOneLess(before, todo, id);
        if items[id].status.ItemSubmitted? {
          items := items[id := items[id].(status := status, error := Some(error), updatedAt := now)];
          count := count + 1;
        }
        todo := todo - {id};
      }
      assert WithStatus(before, todo, ItemSubmitted) == {};
    }

    method SubmittedItemsByRequestKey(b: BatchId) returns (byKey: map<string, ItemId>)
      requires Valid()
      ensures byKey.Keys == KnownKeys(items, b) && byKey.Values == PendingIds(items, b)
      ensures KeyedBy(byKey, State(), b)
    {
      WaitingKeysDiffer(items, b);
      byKey := map id | id in items && Pending(items, b, id) :: items[id].key := id;
      IndexIsComplete(byKey, State(), b);
    }

    method ImportResultForItem(id: ItemId, result: ProviderResult, counters: ImportCounters, threshold: real, now: int)
      returns (after: ImportCounters)
      requires id in items
      modifies this`items, this`apps
      ensures items
              == old(items)[id := ItemAfter(old(items)[id], ResultVerdict(result), old(items)[id].app in apps, now)]
      ensures apps == if old(items)[id].app in old(apps)
                      then old(apps)[old(items)[id].app := AppAfter(old(apps)[old(items)[id].app], items[id],
                                                                    threshold, now)]
                      else old(apps)
      ensures after == Bump(counters, items[id].status)
      ensures items[id].status == Imported && old(items)[id].app in old(apps) ==>
                && result.score.Number? && items[id].score == Some(result.score.value)
                && Answers.ReceivesScore(old(apps)[old(items)[id].app], apps[old(items)[id].app], result.score.value,
                                         items[id].feedback, threshold, now)
    {
      var app := items[id].app;
      if Truthy(result.error) {
        items := items[id := items[id].(status := RetryableFailed, error := Some(result.error.value),
                                        updatedAt := now)];
        return counters.(retryable := counters.retryable + 1);
      }
      var error := ResultValidationError(result);
      if error.Some? {
        items := items[id := items[id].(status := RetryableFailed, error := error, updatedAt := now)];
        return counters.(retryable := counters.retryable + 1);
      }
      if app !in apps {
        items := items[id := items[id].(status := TerminalFailed, error := Some("application missing"),
                                        updatedAt := now)];
        return counters.(terminal := counters.terminal + 1);
      }
      var score := result.score.value;
      var feedback := Feedback(result.summary, result.rationale, result.strengths.value, result.gaps.value);
      items := items[id := items[id].(score := Some(score), feedback := feedback, status := Imported, error := None,
                                      updatedAt := now)];
      if apps[app].score.None? {
        var belowThreshold := score < threshold;
        apps := apps[app := apps[app].(score := Some(score), feedback := feedback, updatedAt := now)];
        if belowThreshold && apps[app].status.PendingReview? {
          apps := apps[app := apps[app].(status := AutoRejected)];
        }
      }
      after := counters.(imported := counters.imported + 1);
    }

    /** Handles one answer whose key is known. */
    method HandleAnswer(id: ItemId, request: ProviderRequest, counters: ImportCounters, threshold: real, now: int)
      returns (after: ImportCounters)
      requires id in items
      modifies this`items, this`apps
      ensures items
              == old(items)[id := ItemAfter(old(items)[id], RequestVerdict(request), old(items)[id].app in apps, now)]
      ensures apps == if old(items)[id].app in old(apps)
                      then old(apps)[old(items)[id].app := AppAfter(old(apps)[old(items)[id].app], items[id],
                                                                    threshold, now)]
                      else old(apps)
      ensures after == Bump(counters, items[id].status)
    {
      if Truthy(request.error) {
        items := items[id := items[id].(status := RetryableFailed, error := Some(request.error.value),
                                        updatedAt := now)];
        after := counters.(retryable := counters.retryable + 1);
      } else if |request.results| != 1 {
        items := items[id := items[id].(status := RetryableFailed, error := Some("provider result count mismatch"),
                                        updatedAt := now)];
        after := counters.(retryable := counters.retryable + 1);
      } else {
        after := ImportResultForItem(id, request.results[0], counters, threshold, now);
      }
    }

    /** The loop body of the import: answer n, for the item it belongs to. */
    method HandleNextAnswer(b: BatchId, output: seq<ProviderRequest>, n: nat, byKey: map<string, ItemId>,
                            counters: ImportCounters, threshold: real, now: int, ghost s: Store)
      returns (after: ImportCounters)
      requires BatchInv(s) && n < |output| && DistinctKeys(output)
      requires (items, apps, counters) == ImportedUpTo(s, b, output, n, threshold, now)
      requires KeyedBy(byKey, s, b) && output[n].key in byKey
      modifies this`items, this`apps
      ensures (items, apps, after) == ImportedUpTo(s, b, output, n + 1, threshold, now)
    {
      var id := byKey[output[n].key];
      HalfwayAsValues(items, apps, counters, s, b, output, n, threshold, now);
      OneAnswerFurther(items, apps, counters, s, b, output, n, id, threshold, now);
      after := HandleAnswer(id, output[n], counters, threshold, now);
      HalfwayAsValues(items, apps, after, s, b, output, n + 1, threshold, now);
    }

    /** Marks everything still submitted, adding to the counters. */
    method SettleRest(b: BatchId, ids: set<ItemId>, status: ItemStatus, error: string, counters: ImportCounters,
                      threshold: real, now: int, ghost s: Store) returns (after: ImportCounters)
      requires status.RetryableFailed? || status.TerminalFailed?
      requires ids <= items.Keys && counters == CountersOf(items, ids)
      requires AppsFollow(apps, items, s, b, threshold, now)
      modifies this`items
      ensures items == Marked(old(items), ids, status, error, now)
      ensures after == CountersOf(items, ids) && AppsFollow(apps, items, s, b, threshold, now)
    {
      MarkingKeepsApps(apps, items, s, b, ids, status, error, threshold, now);
      MarkingCounts(items, ids, status, error, now);
      var count := MarkSubmitted(ids, status, error, now);
      after := if status.RetryableFailed? then counters.(retryable := counters.retryable + count)
               else counters.(terminal := counters.terminal + count);
    }

    /** Handles answers in order, up to the first whose key no waiting item has, which is number `stop`. */
    method ImportAnswersUpTo(b: BatchId, output: seq<ProviderRequest>, byKey: map<string, ItemId>, threshold: real,
                             now: int, ghost s: Store, ghost stop: nat) returns (n: nat, counters: ImportCounters)
      requires BatchInv(s) && DistinctKeys(output) && KeyedBy(byKey, s, b) && stop <= |output|
      requires (items, apps, ImportCounters(0, 0, 0)) == ImportedUpTo(s, b, output, 0, threshold, now)
      requires forall i | 0 <= i < stop :: output[i].key in byKey
      requires stop < |output| ==> output[stop].key !in byKey
      modifies this`items, this`apps
      ensures n == stop && (items, apps, counters) == ImportedUpTo(s, b, output, n, threshold, now)
    {
      n, counters := 0, ImportCounters(0, 0, 0);
      while n < |output| && output[n].key in byKey
        invariant n <= stop && (items, apps, counters) == ImportedUpTo(s, b, output, n, threshold, now)
      {
        counters := HandleNextAnswer(b, output, n, byKey, counters, threshold, now, s);
        n := n + 1;
      }
    }

    method ImportAnswers(b: BatchId, output: seq<ProviderRequest>, byKey: map<string, ItemId>, threshold: real,
                         now: int)
      returns (n: nat, counters: ImportCounters)
      requires Valid() && !HasDuplicateKeys(output) && KeyedBy(byKey, State(), b)
      modifies this`items, this`apps
      ensures n == KnownPrefix(output, byKey.Keys)
      ensures Halfway(items, apps, counters, old(State()), b, output, n, threshold, now)
    {
      ghost var s := State();
      NothingAnsweredYet(s, b, output, threshold, now);
      HalfwayAsValues(items, apps, ImportCounters(0, 0, 0), s, b, output, 0, threshold, now);
      NoKeyRepeats(output);
      n, counters := ImportAnswersUpTo(b, output, byKey, threshold, now, s, KnownPrefix(output, byKey.Keys));
      HalfwayAsValues(items, apps, counters, s, b, output, n, threshold, now);
    }

    method ImportProviderOutput(b: BatchId, output: seq<ProviderRequest>, threshold: real, now: int)
      returns (counters: ImportCounters)
      requires Valid() && b in batches
      modifies this`items, this`apps
      ensures State() == ImportOutput(old(State()), b, output, threshold, now)
      ensures counters == CountersOf(items, PendingIds(old(items), b))
    {
      ghost var s := State();
      var byKey := SubmittedItemsByRequestKey(b);
      if HasDuplicateKeys(output) {
        NothingCountedYet(items, byKey.Values);
        DuplicateEnding(s, b, output, now);
        counters := SettleRest(b, byKey.Values, TerminalFailed, DUPLICATE_KEY, ImportCounters(0, 0, 0), threshold,
                               now, s);
      } else {
        var n;
        n, counters := ImportAnswers(b, output, byKey, threshold, now);
        if n < |output| {
          EndingOf(items, s, b, output, n, TerminalFailed, UNKNOWN_KEY, now);
          counters := SettleRest(b, byKey.Values, TerminalFailed, UNKNOWN_KEY, counters, threshold, now, s);
        } else {
          EndingOf(items, s, b, output, n, RetryableFailed, RESULT_MISSING, now);
          counters := SettleRest(b, byKey.Values, RetryableFailed, RESULT_MISSING, counters, threshold, now, s);
        }
      }
      FollowingAppsAreImported(s, b, output, apps, threshold, now);
    }

    method FailBatch(b: BatchId, error: string, requeued: bool, now: int) returns (result: TickResult)
      requires b in batches
      modifies this`items, this`batches
      ensures State() == BatchMatch.FailBatch(old(State()), b, error, now)
      ensures result == ResultFromBatch(State(), b, requeued)
    {
      var _ := MarkSubmitted(PendingIds(items, b), RetryableFailed, error, now);
      batches := batches[b := batches[b].(status := BatchFailed, lastError := Some(error), completedAt := Some(now),
                                          nextPollAt := None, updatedAt := now)];
      var c := CountersOf(items, ItemsOf(items, b));
      result := TickResult(0, 0, 0, c.imported, c.retryable, c.terminal, requeued);
    }

    method FinishBatchIfDrained(b: BatchId, now: int)
      requires b in batches
      modifies this`batches
      ensures State() == FinishIfDrained(old(State()), b, now)
    {
      if PendingIds(items, b) != {} {
        return;
      }
      batches := batches[b := batches[b].(status := BatchDone, completedAt := Some(now), nextPollAt := None,
                                          updatedAt := now)];
    }

    /** Fetches and imports a batch the provider finished. */
    method FetchAndImport(b: BatchId, env: Env) returns (outcome: TickOutcome)
      requires Valid() && b in batches && batches[b].Active()
      requires Truthy(batches[b].providerBatchId) && env.poll.Polled? && env.poll.ready && !env.poll.failed
      modifies this`items, this`batches, this`apps
      ensures (State(), outcome) == BatchMatch.PollAndImport(old(State()), b, env)
    {
      ghost var s := State();
      batches := batches[b := batches[b].(lastPolledAt := Some(env.now), updatedAt := env.now)];
      batches := batches[b := batches[b].(status := Importing, nextPollAt := None)];
      Laws.TouchKeepsInv(s, b, batches[b]);
      assert State() == s.(batches := s.batches[b := batches[b]]);
      match env.fetch
      case FetchCrashes =>
        outcome := Crashed;
      case FetchRaises(error) =>
        var result := FailBatch(b, "provider output fetch failed: " + error, true, env.now);
        outcome := Returned(result);
      case Fetched(output) =>
        var counters := ImportProviderOutput(b, output, env.settings.threshold, env.now);
        FinishBatchIfDrained(b, env.now);
        outcome := Returned(TickResult(0, 0, 0, counters.imported, counters.retryable, counters.terminal, false));
    }

    method PollAndImport(b: BatchId, env: Env) returns (outcome: TickOutcome)
      requires Valid() && b in batches && batches[b].Active()
      modifies this`items, this`batches, this`apps
      ensures Valid() && (State(), outcome) == BatchMatch.PollAndImport(old(State()), b, env)
    {
      Laws.PollKeepsInv(State(), b, env);
      var result := NOTHING;
      if !Truthy(batches[b].providerBatchId) {
        result := FailBatch(b, "missing provider_batch_id", false, env.now);
      } else if env.poll.PollRaises? {
        result := FailBatch(b, "provider poll failed: " + env.poll.error, true, env.now);
      } else if env.poll.ready && !env.poll.failed {
        outcome := FetchAndImport(b, env);
        return;
      } else {
        batches := batches[b := batches[b].(lastPolledAt := Some(env.now), updatedAt := env.now)];
        if env.poll.failed {
          var error := if Truthy(env.poll.failure) then env.poll.failure.value else "provider failed";
          result := FailBatch(b, error, true, env.now);
        } else {
          batches := batches[b := batches[b].(nextPollAt := Some(env.now + env.settings.pollInterval))];
          result := result.(requeued := true);
        }
      }
      outcome := Returned(result);
    }

    /** The selection query: rows in order, up to the limit. */
    method SelectUnscoredApplicationRows(profile: ProfileId, env: Env, limit: nat) returns (rows: seq<AppId>)
      ensures SelectedRows(State(), profile, env, limit, rows)
    {
      var s := State();
      var selectable := set a | a in apps && Selectable(s, profile, env, a);
      var todo := selectable;
      rows := [];
      while todo != {} && |rows| < limit
        invariant |rows| <= limit && PickedSoFar(s, profile, env, todo, rows)
        decreases |todo|
      {
        FirstRowExists(s, env, todo);
        var a :| a in todo && FirstOf(s, env, todo, a);
        OneMorePicked(s, profile, env, todo, rows, a);
        rows := rows + [a];
        todo := todo - {a};
      }
      PickedAreSelected(s, profile, env, todo, rows, limit);
    }

    /** Scores the deterministic rejections and keeps the others. */
    method RejectOrKeep(rows: seq<AppId>, env: Env) returns (survivors: seq<AppId>)
      requires forall a | a in rows :: a in apps
      modifies this`apps
      ensures apps == RejectRows(old(apps), rows, env)
      ensures survivors == Survivors(rows, env.rejections)
    {
      ghost var before := apps;
      survivors := [];
      NothingRejectedYet(apps, rows, env);
      for i := 0 to |rows|
        invariant (apps, survivors) == RejectedUpTo(before, rows, i, env)
      {
        NextRow(before, rows, i, env);
        survivors := RejectOrKeepOne(rows[i], env, survivors);
      }
      assert rows[..|rows|] == rows;
    }

    /** The row is rejected, or added to the survivors. */
    method RejectOrKeepOne(row: AppId, env: Env, survivors: seq<AppId>) returns (kept: seq<AppId>)
      requires row in apps
      modifies this`apps
      ensures (apps, kept) == RejectedNext((old(apps), survivors), row, env)
    {
      kept := survivors;
      if row in env.rejections {
        apps := apps[row := ApplyScoreFields(apps[row], env.rejections[row], env.settings.threshold, env.now)];
      } else {
        kept := kept + [row];
      }
    }

    /** The item of request number i. */
    method InsertItem(b: BatchId, request: BatchPacking.PackedRequest, ghost chosen: seq<AppId>,
                      ghost keys: seq<string>, ghost i: nat, now: int, ghost s: Store)
      requires i < |chosen| == |keys| && request.job.app == chosen[i] && request.key == keys[i] && s.nextBatch == b
      requires nextItem == s.nextItem + i && items == s.items + NewItems(s, chosen[..i], keys[..i], now)
      modifies this`items, this`nextItem
      ensures nextItem == s.nextItem + i + 1 && items == s.items + NewItems(s, chosen[..i + 1], keys[..i + 1], now)
    {
      NextNewItem(s, chosen, keys, i, now);
      items := items[nextItem := Item(b, request.job.app, request.key, ItemSubmitted, None, NO_FEEDBACK, None, now)];
      nextItem := nextItem + 1;
    }

    /** One submitted item per request. */
    method InsertItems(b: BatchId, packed: seq<BatchPacking.PackedRequest>, ghost chosen: seq<AppId>,
                       ghost keys: seq<string>, now: int, ghost s: Store)
      requires |packed| == |chosen| == |keys|
      requires forall i | 0 <= i < |packed| :: packed[i].job.app == chosen[i] && packed[i].key == keys[i]
      requires s.items == items && s.nextItem == nextItem && s.nextBatch == b
      modifies this`items, this`nextItem
      ensures items == s.items + NewItems(s, chosen, keys, now) && nextItem == s.nextItem + |chosen|
    {
      assert items == s.items + NewItems(s, chosen[..0], keys[..0], now);
      for i := 0 to |packed|
        invariant nextItem == s.nextItem + i
        invariant items == s.items + NewItems(s, chosen[..i], keys[..i], now)
      {
        InsertItem(b, packed[i], chosen, keys, i, now, s);
      }
      assert chosen[..|packed|] == chosen && keys[..|packed|] == keys;
    }

    /** Inserts the batch and its items. */
    method CreateBatchWithItems(profile: ProfileId, packed: seq<BatchPacking.PackedRequest>, ghost chosen: seq<AppId>,
                                ghost keys: seq<string>, now: int) returns (b: BatchId)
      requires |packed| == |chosen| == |keys|
      requires forall i | 0 <= i < |packed| :: packed[i].job.app == chosen[i] && packed[i].key == keys[i]
      modifies this`batches, this`items, this`nextBatch, this`nextItem
      ensures b == old(nextBatch) && State() == CreateBatch(old(State()), profile, chosen, keys, now)
    {
      ghost var s := State();
      b := nextBatch;
      batches := batches[b := Batch(profile, Building, None, None, None, None, None, None, now)];
      nextBatch := nextBatch + 1;
      InsertItems(b, packed, chosen, keys, now, s);
    }

    /** Creates the batch, commits, and asks the provider. */
    method SubmitChosen(profile: ProfileId, env: Env, packed: seq<BatchPacking.PackedRequest>, ghost chosen: seq<AppId>,
                        ghost keys: seq<string>, counts: TickResult) returns (outcome: TickOutcome)
      requires |packed| == |chosen| == |keys|
      requires forall i | 0 <= i < |packed| :: packed[i].job.app == chosen[i] && packed[i].key == keys[i]
      modifies this`batches, this`items, this`nextBatch, this`nextItem
      ensures (State(), outcome) == CreateAndSubmit(old(State()), profile, chosen, keys, env, counts)
    {
      var b := CreateBatchWithItems(profile, packed, chosen, keys, env.now);
      match env.submit
      case SubmitCrashes =>
        outcome := Crashed;
      case SubmitRaises(error) =>
        var _ := FailBatch(b, error, false, env.now);
        outcome := Raised(error);
      case Accepted(id) =>
        batches := batches[b := batches[b].(providerBatchId := Some(id), status := Submitted,
                                            submittedAt := Some(env.now),
                                            nextPollAt := Some(env.now + env.settings.pollInterval),
                                            updatedAt := env.now)];
        outcome := Returned(counts.(submitted := |packed|));
    }

    /** Packs and submits what was chosen; when one cannot fit, the uncommitted rejections are rolled back. */
    method PackAndSubmit(profile: ProfileId, env: Env, chosen: seq<AppId>, counts: TickResult, s: Store,
                         ghost rejected: Store)
      returns (outcome: TickOutcome, sent: Option<seq<BatchPacking.PackedRequest>>)
      requires InCatalog(s, env, chosen) && State() == rejected == s.(apps := rejected.apps)
      modifies this
      ensures (State(), outcome) == BatchMatch.PackAndSubmit(s, rejected, profile, env, chosen, counts)
      ensures SentFor(s, env, chosen, sent)
    {
      if chosen == [] {
        return Returned(counts), None;
      }
      sent := BatchPacking.PackProviderRequests(env.profileText, Contexts(s, env, chosen),
                                                env.settings.maxRequestChars);
      if sent.None? {
        apps := s.apps;
        return Raised(DOES_NOT_FIT), None;
      }
      PackedForChosen(s, env, chosen, sent.value);
      outcome := SubmitChosen(profile, env, sent.value, chosen, BatchPacking.RequestKeys(|chosen|), counts);
    }

    /** From the selected rows to the provider's answer. */
    method BuildFromRows(profile: ProfileId, env: Env, rows: seq<AppId>)
      returns (outcome: TickOutcome, sent: Option<seq<BatchPacking.PackedRequest>>)
      requires env.profileExists && InCatalog(State(), env, rows)
      modifies this
      ensures (State(), outcome) == BatchMatch.BuildAndSubmit(old(State()), profile, env, rows)
      ensures SentFor(old(State()), env, Chosen(rows, env), sent)
    {
      if rows == [] {
        return Returned(NOTHING), None;
      }
      var before := State();
      ghost var rejected := before.(apps := RejectRows(before.apps, rows, env));
      var chosen := Chosen(rows, env);
      var survivors := RejectOrKeep(rows, env);
      var counts := NOTHING.(selected := |rows|, deterministicRejected := |rows| - |survivors|);
      outcome, sent := PackAndSubmit(profile, env, chosen, counts, before, rejected);
    }

    method BuildAndSubmit(profile: ProfileId, env: Env) returns (outcome: TickOutcome, ghost rows: seq<AppId>)
      requires Valid() && forall b :: !ActiveFor(batches, profile, b)
      modifies this
      ensures if env.profileExists then SelectedRows(old(State()), profile, env, PoolLimit(env), rows) else rows == []
      ensures InCatalog(old(State()), env, rows)
      ensures (State(), outcome) == BatchMatch.BuildAndSubmit(old(State()), profile, env, rows)
    {
      if !env.profileExists {
        return Returned(NOTHING), [];
      }
      var selected := SelectUnscoredApplicationRows(profile, env, PoolLimit(env));
      rows := selected;
      Laws.SelectedAreInCatalog(State(), profile, env, PoolLimit(env), selected);
      var sent;
      outcome, sent := BuildFromRows(profile, env, selected);
    }

    /** One tick of the state machine. */
    method RunBatchMatchTick(profile: ProfileId, env: Env) returns (outcome: TickOutcome, ghost rows: seq<AppId>)
      requires Valid()
      modifies this
      ensures Valid()
      ensures RowsFor(old(State()), profile, env, rows)
      ensures (State(), outcome) == Tick(old(State()), profile, env, rows)
    {
      ghost var s := State();
      Laws.BuildsFromCleanStore(s, profile, env);
      var active := set b | b in batches && ActiveFor(batches, profile, b);
      if active == {} {
        assert forall b :: ActiveFor(batches, profile, b) ==> b in active;
        outcome, rows := BuildAndSubmit(profile, env);
      } else {
        var b :| b in active;
        Laws.ActiveBatchIsTheOne(s, profile, b);
        outcome, rows := AdvanceActiveBatch(profile, b, env);
      }
      Laws.TickKeepsInv(s, profile, env, rows);
    }

    /** The tick of a profile with an active batch. */
    method AdvanceActiveBatch(profile: ProfileId, b: BatchId, env: Env)
      returns (outcome: TickOutcome, ghost rows: seq<AppId>)
      requires Valid() && ActiveFor(batches, profile, b) && ActiveBatch(State(), profile) == Some(b)
      modifies this
      ensures RowsFor(old(State()), profile, env, rows)
      ensures (State(), outcome) == Tick(old(State()), profile, env, rows)
    {
      Laws.BuildsFromCleanStore(State(), profile, env);
      rows := [];
      if batches[b].status.Building? {
        if !IsStale(batches[b], env) {
          return Returned(NOTHING.(requeued := true)), [];
        }
        var failed := FailBatch(b, "stale building batch", false, env.now);
        outcome, rows := BuildAndSubmit(profile, env);
        outcome := CombineTickResults(failed, outcome);
      } else {
        outcome := PollAndImport(b, env);
        if outcome.Returned? && !outcome.result.requeued && batches[b].status.BatchDone? {
          var imported := outcome.result;
          outcome, rows := BuildAndSubmit(profile, env);
          outcome := CombineTickResults(imported, outcome);
        }
      }
    }
  }

  lemma SurvivorsNext(rows: seq<AppId>, i: nat, rejections: map<AppId, Feedback>)
    requires i < |rows|
    ensures Survivors(rows[..i + 1], rejections)
            == Survivors(rows[..i], rejections) + (if rows[i] in rejections then [] else [rows[i]])
  {
    assert rows[..i + 1][..i] == rows[..i];
  }

  /** The applications and the survivors after the first n rows. */
  ghost function RejectedUpTo(apps: Table, rows: seq<AppId>, n: nat, env: Env): (Table, seq<AppId>)
    requires n <= |rows|
  {
    (RejectRows(apps, rows[..n], env), Survivors(rows[..n], env.rejections))
  }

  /** What one row more does to them. */
  ghost function RejectedNext(done: (Table, seq<AppId>), row: AppId, env: Env): (Table, seq<AppId>)
    requires row in done.0
  {
    if row in env.rejections then
      (done.0[row := ApplyScoreFields(done.0[row], env.rejections[row], env.settings.threshold, env.now)], done.1)
    else (done.0, done.1 + [row])
  }

  lemma NothingRejectedYet(apps: Table, rows: seq<AppId>, env: Env)
    ensures RejectedUpTo(apps, rows, 0, env) == (apps, [])
  {
    assert rows[..0] == [];
    assert RejectRows(apps, [], env) == apps;
  }

  lemma NextRow(apps: Table, rows: seq<AppId>, i: nat, env: Env)
    requires i < |rows| && rows[i] in apps
    ensures rows[i] in RejectedUpTo(apps, rows, i, env).0
    ensures RejectedUpTo(apps, rows, i + 1, env) == RejectedNext(RejectedUpTo(apps, rows, i, env), rows[i], env)
  {
    var more := RejectedUpTo(apps, rows, i + 1, env);
    var next := RejectedNext(RejectedUpTo(apps, rows, i, env), rows[i], env);
    assert more.0 == next.0 by {
      RejectNext(apps, rows, i, env);
    }
    assert more.1 == next.1 by {
      SurvivorsNext(rows, i, env.rejections);
      assert Survivors(rows[..i], env.rejections) + [] == Survivors(rows[..i], env.rejections);
    }
  }

  /** Rejecting a row a second time in the same build would change nothing. */
  lemma RejectNext(apps: Table, rows: seq<AppId>, i: nat, env: Env)
    requires i < |rows| && rows[i] in apps
    ensures RejectRows(apps, rows[..i + 1], env)
            == if rows[i] in env.rejections then
                 var rejected := RejectRows(apps, rows[..i], env);
                 rejected[rows[i] := ApplyScoreFields(rejected[rows[i]], env.rejections[rows[i]],
                                                      env.settings.threshold, env.now)]
               else RejectRows(apps, rows[..i], env)
  {
    assert rows[..i + 1] == rows[..i] + [rows[i]];
  }

  lemma NextNewItem(s: Store, chosen: seq<AppId>, keys: seq<string>, i: nat, now: int)
    requires i < |chosen| == |keys|
    ensures s.items + NewItems(s, chosen[..i + 1], keys[..i + 1], now)
            == (s.items + NewItems(s, chosen[..i], keys[..i], now))
                 [s.nextItem + i := NewItem(s.nextBatch, chosen[i], keys[i], now)]
  {
    var fewer, more := NewItems(s, chosen[..i], keys[..i], now), NewItems(s, chosen[..i + 1], keys[..i + 1], now);
    forall id: ItemId | s.nextItem <= id < s.nextItem + i ensures id in fewer && id in more && fewer[id] == more[id] {
      assert fewer[id] == NewItemAt(s, chosen[..i], keys[..i], now, id);
      assert more[id] == NewItemAt(s, chosen[..i + 1], keys[..i + 1], now, id);
    }
    var last := s.nextItem + i;
    assert last in more && more[last] == NewItemAt(s, chosen[..i + 1], keys[..i + 1], now, last);
    assert more == fewer[last := more[last]];
  }

  /** What is sent, if anything, is the packing of what was chosen. */
  ghost predicate SentFor(s: Store, env: Env, chosen: seq<AppId>, sent: Option<seq<BatchPacking.PackedRequest>>) {
    && InCatalog(s, env, chosen)
    && (sent.Some? ==>
          BatchPacking.PackedFrom(env.profileText, Contexts(s, env, chosen), env.settings.maxRequestChars, sent.value))
  }

  /** The requests carry the chosen applications under consecutive keys. */
  lemma PackedForChosen(s: Store, env: Env, chosen: seq<AppId>, packed: seq<BatchPacking.PackedRequest>)
    requires InCatalog(s, env, chosen)
    requires BatchPacking.PackedFrom(env.profileText, Contexts(s, env, chosen), env.settings.maxRequestChars, packed)
    ensures |packed| == |chosen|
    ensures var keys := BatchPacking.RequestKeys(|chosen|);
            forall i | 0 <= i < |packed| :: packed[i].job.app == chosen[i] && packed[i].key == keys[i]
  {
    var contexts := Contexts(s, env, chosen);
    BatchPacking.PackingContract(env.profileText, contexts, env.settings.maxRequestChars, packed);
    var keys := BatchPacking.RequestKeys(|chosen|);
    forall i | 0 <= i < |packed| ensures packed[i].job.app == chosen[i] && packed[i].key == keys[i]
    {
      assert BatchPacking.PackedAt(env.profileText, contexts[i], env.settings.maxRequestChars, i + 1, packed[i]);
      assert contexts[i] == ContextOf(s, env, chosen[i]);
    }
  }

  lemma NothingCountedYet(items: map<ItemId, Item>, ids: set<ItemId>)
    requires forall id | id in ids && id in items :: items[id].status.ItemSubmitted?
    ensures CountersOf(items, ids) == ImportCounters(0, 0, 0)
  {
    assert WithStatus(items, ids, Imported) == {};
    assert WithStatus(items, ids, RetryableFailed) == {};
    assert WithStatus(items, ids, TerminalFailed) == {};
  }
}
