/**
 The batch-match state machine: batches, their items and the applications they
 score, and what one tick does to them for every behaviour of the provider.
 */
module BatchMatch {
  import opened Prelude
  import opened Applications
  import BatchPacking

  type BatchId = nat
  type ItemId = nat

  datatype BatchStatus = Building | Submitted | Importing | BatchDone | BatchFailed

  datatype Batch = Batch(
    profile: ProfileId,
    status: BatchStatus,
    providerBatchId: Option<string>,
    submittedAt: Option<int>,
    completedAt: Option<int>,
    nextPollAt: Option<int>,
    lastPolledAt: Option<int>,
    lastError: Option<string>,
    updatedAt: int)
  {
    predicate Active() {
      status.Building? || status.Submitted? || status.Importing?
    }
  }

  datatype ItemStatus = ItemSubmitted | Imported | RetryableFailed | TerminalFailed

  datatype Item = Item(
    batch: BatchId,
    app: AppId,
    key: string,
    status: ItemStatus,
    score: Option<real>,
    feedback: Feedback,
    error: Option<string>,
    updatedAt: int)

  datatype Store = Store(
    batches: map<BatchId, Batch>,
    items: map<ItemId, Item>,
    apps: Table,
    nextBatch: BatchId,
    nextItem: ItemId)

  // ----- What the provider may answer

  datatype RawScore = NullScore | NotANumber | Number(value: real)

  /** A missing Option stands for a value of the wrong type. */
  datatype ProviderResult = ProviderResult(
    echoedApp: string,
    score: RawScore,
    summary: Option<string>,
    rationale: Option<string>,
    strengths: Option<seq<string>>,
    gaps: Option<seq<string>>,
    error: Option<string>)

  datatype ProviderRequest = ProviderRequest(key: string, results: seq<ProviderResult>, error: Option<string>)

  datatype PollAnswer = PollRaises(error: string) | Polled(ready: bool, failed: bool, failure: Option<string>)
  datatype FetchAnswer = FetchRaises(error: string) | Fetched(output: seq<ProviderRequest>) | FetchCrashes
  datatype SubmitAnswer = SubmitRaises(error: string) | Accepted(id: string) | SubmitCrashes

  datatype Settings = Settings(
    maxItemsPerBatch: nat,
    poolMultiplier: nat,
    maxRequestChars: int,
    pollInterval: int,
    threshold: real)

  datatype Job = Job(
    title: string,
    company: string,
    location: Option<string>,
    workplaceType: Option<string>,
    description: string,
    active: bool,
    postedAt: Option<int>)

  /** Everything a tick reads besides the store. */
  datatype Env = Env(
    settings: Settings,
    now: int,
    profileExists: bool,
    profileText: string,
    maxItems: Option<nat>,
    jobs: map<JobId, Job>,
    rejections: map<AppId, Feedback>,
    priority: AppId -> real,
    poll: PollAnswer,
    fetch: FetchAnswer,
    submit: SubmitAnswer)

  datatype TickResult = TickResult(
    selected: nat,
    deterministicRejected: nat,
    submitted: nat,
    imported: nat,
    retryableFailed: nat,
    terminalFailed: nat,
    requeued: bool)

  const NOTHING: TickResult := TickResult(0, 0, 0, 0, 0, 0, false)

  /** Crashed: the process died between two commits. */
  datatype TickOutcome = Returned(result: TickResult) | Raised(error: string) | Crashed

  datatype ImportCounters = ImportCounters(imported: nat, retryable: nat, terminal: nat)

  const DAY: int := 86400
  const DISPLAY_JOB_MAX_AGE_DAYS: int := 10
  const DUPLICATE_KEY: string := "provider returned duplicate request_key"
  const UNKNOWN_KEY: string := "provider returned unknown request_key"
  const DOES_NOT_FIT: string := "max_request_chars cannot fit a single job without description"
  const RESULT_MISSING: string := "provider result missing"

  // ----- The invariant

  /** Item id of batch b still waits for its result. */
  predicate Pending(items: map<ItemId, Item>, b: BatchId, id: ItemId) {
    id in items && items[id].batch == b && items[id].status.ItemSubmitted?
  }

  function PendingIds(items: map<ItemId, Item>, b: BatchId): set<ItemId> {
    set id | id in items && Pending(items, b, id)
  }

  predicate ActiveFor(batches: map<BatchId, Batch>, profile: ProfileId, b: BatchId) {
    b in batches && batches[b].profile == profile && batches[b].Active()
  }

  /** Item id waits for a result for this application. */
  predicate SubmittedFor(items: map<ItemId, Item>, app: AppId, id: ItemId) {
    id in items && items[id].app == app && items[id].status.ItemSubmitted?
  }

  predicate HasKey(items: map<ItemId, Item>, b: BatchId, key: string, id: ItemId) {
    id in items && items[id].batch == b && items[id].key == key
  }

  ghost predicate WellNumbered(s: Store) {
    && (forall b | b in s.batches :: b < s.nextBatch)
    && (forall id | id in s.items :: id < s.nextItem && s.items[id].batch in s.batches)
  }

  ghost predicate OneActiveBatchPerProfile(batches: map<BatchId, Batch>) {
    forall profile, b, c | ActiveFor(batches, profile, b) && ActiveFor(batches, profile, c) :: b == c
  }

  ghost predicate SubmittedOnlyInActiveBatch(s: Store) {
    forall id | id in s.items && s.items[id].status.ItemSubmitted? ::
      s.items[id].batch in s.batches && s.batches[s.items[id].batch].Active()
  }

  ghost predicate OneSubmittedItemPerApplication(items: map<ItemId, Item>) {
    forall app, i, j | SubmittedFor(items, app, i) && SubmittedFor(items, app, j) :: i == j
  }

  ghost predicate OneItemPerKey(items: map<ItemId, Item>) {
    forall b, key, i, j | HasKey(items, b, key, i) && HasKey(items, b, key, j) :: i == j
  }

  ghost predicate BatchInv(s: Store) {
    && WellNumbered(s)
    && OneActiveBatchPerProfile(s.batches)
    && SubmittedOnlyInActiveBatch(s)
    && OneSubmittedItemPerApplication(s.items)
    && OneItemPerKey(s.items)
  }

  // ----- Import

  function Truthy(text: Option<string>): bool {
    text.Some? && text.value != ""
  }

  function ScoreValidationError(score: RawScore): Option<string> {
    match score
    case NullScore => Some("provider returned null score")
    case NotANumber => Some("provider returned malformed score")
    case Number(value) => if value < 0.0 || value > 1.0 then Some("provider returned out-of-range score") else None
  }

  function ResultValidationError(r: ProviderResult): (error: Option<string>)
    ensures error.None? <==> r.score.Number? && 0.0 <= r.score.value <= 1.0
                             && r.summary.Some? && r.rationale.Some? && r.strengths.Some? && r.gaps.Some?
    ensures ScoreValidationError(r.score).Some? ==> error == ScoreValidationError(r.score)
    ensures error == Some("provider returned malformed summary") ==> r.summary.None?
    ensures error == Some("provider returned malformed rationale") ==> r.summary.Some? && r.rationale.None?
    ensures error == Some("provider returned malformed strengths") ==> r.rationale.Some? && r.strengths.None?
    ensures error == Some("provider returned malformed gaps") ==> r.strengths.Some? && r.gaps.None?
  {
    var scoreError := ScoreValidationError(r.score);
    if scoreError.Some? then scoreError
    else if r.summary.None? then Some("provider returned malformed summary")
    else if r.rationale.None? then Some("provider returned malformed rationale")
    else if r.strengths.None? then Some("provider returned malformed strengths")
    else if r.gaps.None? then Some("provider returned malformed gaps")
    else None
  }

  /** What the import decides about one item. */
  datatype Verdict = Accept(score: real, feedback: Feedback) | Retry(error: string) | Terminate(error: string)

  function RequestVerdict(r: ProviderRequest): Verdict {
    if Truthy(r.error) then Retry(r.error.value)
    else if |r.results| != 1 then Retry("provider result count mismatch")
    else ResultVerdict(r.results[0])
  }

  function ResultVerdict(result: ProviderResult): Verdict {
    if Truthy(result.error) then Retry(result.error.value)
    else
      var error := ResultValidationError(result);
      if error.Some? then Retry(error.value)
      else Accept(result.score.value,
                  Feedback(result.summary, result.rationale, result.strengths.value, result.gaps.value))
  }

  predicate HasDuplicateKeys(output: seq<ProviderRequest>) {
    |set r | r in output :: r.key| != |output|
  }

  /** The answer filed under a request key, in the first n answers. */
  function AnswerFor(output: seq<ProviderRequest>, n: nat, key: string): Option<ProviderRequest>
    requires n <= |output|
  {
    if n == 0 then None
    else if output[n - 1].key == key then Some(output[n - 1])
    else AnswerFor(output, n - 1, key)
  }

  /** How many answers come before the first unknown key. */
  function KnownPrefix(output: seq<ProviderRequest>, known: set<string>): (n: nat)
    ensures n <= |output|
    ensures forall i | 0 <= i < n :: output[i].key in known
    ensures n < |output| ==> output[n].key !in known
  {
    if output == [] || output[0].key !in known then 0
    else
      assert forall i | 0 < i < |output| :: output[i] == output[1..][i - 1];
      1 + KnownPrefix(output[1..], known)
  }

  /** The verdict on the item with this key, over the whole provider output. */
  function Fate(output: seq<ProviderRequest>, known: set<string>, key: string): Verdict {
    if HasDuplicateKeys(output) then Terminate(DUPLICATE_KEY)
    else
      var n := KnownPrefix(output, known);
      var answer := AnswerFor(output, n, key);
      if answer.Some? then RequestVerdict(answer.value)
      else if n < |output| then Terminate(UNKNOWN_KEY)
      else Retry(RESULT_MISSING)
  }

  function ItemAfter(item: Item, verdict: Verdict, appExists: bool, now: int): Item {
    match verdict
    case Retry(error) => item.(status := RetryableFailed, error := Some(error), updatedAt := now)
    case Terminate(error) => item.(status := TerminalFailed, error := Some(error), updatedAt := now)
    case Accept(score, feedback) =>
      if appExists then
        item.(status := Imported, score := Some(score), feedback := feedback, error := None, updatedAt := now)
      else item.(status := TerminalFailed, error := Some("application missing"), updatedAt := now)
  }

  /** An imported item scores its application unless it already has a score. */
  function AppAfter(app: Application, item: Item, threshold: real, now: int): Application {
    if item.status.Imported? && item.score.Some? && app.score.None? then
      app.(score := item.score, feedback := item.feedback,
           status := if item.score.value < threshold && app.status.PendingReview? then AutoRejected else app.status,
           updatedAt := now)
    else app
  }

  function KnownKeys(items: map<ItemId, Item>, b: BatchId): set<string> {
    set id | id in items && Pending(items, b, id) :: items[id].key
  }

  ghost function ItemFor(items: map<ItemId, Item>, b: BatchId, app: AppId): Option<ItemId> {
    if exists id :: Pending(items, b, id) && items[id].app == app then
      var id :| Pending(items, b, id) && items[id].app == app;
      Some(id)
    else None
  }

  function ImportedItem(s: Store, b: BatchId, output: seq<ProviderRequest>, known: set<string>, id: ItemId,
                        now: int): Item
    requires id in s.items
  {
    if Pending(s.items, b, id) then
      ItemAfter(s.items[id], Fate(output, known, s.items[id].key), s.items[id].app in s.apps, now)
    else s.items[id]
  }

  function ImportedItems(s: Store, b: BatchId, output: seq<ProviderRequest>, now: int): map<ItemId, Item> {
    var known := KnownKeys(s.items, b);
    map id | id in s.items :: ImportedItem(s, b, output, known, id, now)
  }

  /** The store after importing the provider's output for batch b. */
  ghost function ImportOutput(s: Store, b: BatchId, output: seq<ProviderRequest>, threshold: real, now: int): Store {
    var items := ImportedItems(s, b, output, now);
    s.(items := items,
       apps := map a | a in s.apps ::
         var id := ItemFor(s.items, b, a);
         if id.Some? then AppAfter(s.apps[a], items[id.value], threshold, now) else s.apps[a])
  }

  function WithStatus(items: map<ItemId, Item>, ids: set<ItemId>, status: ItemStatus): set<ItemId> {
    set id | id in ids && id in items && items[id].status == status
  }

  function CountersOf(items: map<ItemId, Item>, ids: set<ItemId>): ImportCounters {
    ImportCounters(|WithStatus(items, ids, Imported)|, |WithStatus(items, ids, RetryableFailed)|,
                   |WithStatus(items, ids, TerminalFailed)|)
  }

  // ----- Failing and finishing a batch

  function MarkedItem(item: Item, status: ItemStatus, error: string, now: int): Item {
    if item.status.ItemSubmitted? then item.(status := status, error := Some(error), updatedAt := now) else item
  }

  /** Those of ids that are still submitted get the status and the error. */
  function Marked(items: map<ItemId, Item>, ids: set<ItemId>, status: ItemStatus, error: string,
                  now: int): map<ItemId, Item> {
    map id | id in items :: if id in ids then MarkedItem(items[id], status, error, now) else items[id]
  }

  function FailBatch(s: Store, b: BatchId, error: string, now: int): Store
    requires b in s.batches
  {
    s.(items := Marked(s.items, PendingIds(s.items, b), RetryableFailed, error, now),
       batches := s.batches[b := s.batches[b].(status := BatchFailed, lastError := Some(error),
                                               completedAt := Some(now), nextPollAt := None, updatedAt := now)])
  }

  function FinishIfDrained(s: Store, b: BatchId, now: int): Store
    requires b in s.batches
  {
    if PendingIds(s.items, b) != {} then s
    else s.(batches := s.batches[b := s.batches[b].(status := BatchDone, completedAt := Some(now),
                                                    nextPollAt := None, updatedAt := now)])
  }

  function ItemsOf(items: map<ItemId, Item>, b: BatchId): set<ItemId> {
    set id | id in items && items[id].batch == b
  }

  /** The result of a failed batch counts all its items. */
  function ResultFromBatch(s: Store, b: BatchId, requeued: bool): TickResult {
    var c := CountersOf(s.items, ItemsOf(s.items, b));
    NOTHING.(imported := c.imported, retryableFailed := c.retryable, terminalFailed := c.terminal, requeued := requeued)
  }

  // ----- Poll and import

  ghost function PollAndImport(s: Store, b: BatchId, env: Env): (Store, TickOutcome)
    requires b in s.batches
  {
    if !Truthy(s.batches[b].providerBatchId) then
      var t := FailBatch(s, b, "missing provider_batch_id", env.now);
      (t, Returned(ResultFromBatch(t, b, false)))
    else if env.poll.PollRaises? then
      var t := FailBatch(s, b, "provider poll failed: " + env.poll.error, env.now);
      (t, Returned(ResultFromBatch(t, b, true)))
    else
      var polled := s.(batches := s.batches[b := s.batches[b].(lastPolledAt := Some(env.now), updatedAt := env.now)]);
      if env.poll.failed then
        var error := if Truthy(env.poll.failure) then env.poll.failure.value else "provider failed";
        var t := FailBatch(polled, b, error, env.now);
        (t, Returned(ResultFromBatch(t, b, true)))
      else if !env.poll.ready then
        var nextPollAt := Some(env.now + env.settings.pollInterval);
        (polled.(batches := polled.batches[b := polled.batches[b].(nextPollAt := nextPollAt)]),
         Returned(NOTHING.(requeued := true)))
      else
        var importing := polled.(batches := polled.batches[b := polled.batches[b].(status := Importing,
                                                                                   nextPollAt := None)]);
        match env.fetch
        case FetchCrashes => (importing, Crashed)
        case FetchRaises(error) =>
          var t := FailBatch(importing, b, "provider output fetch failed: " + error, env.now);
          (t, Returned(ResultFromBatch(t, b, true)))
        case Fetched(output) =>
          var imported := ImportOutput(importing, b, output, env.settings.threshold, env.now);
          var c := CountersOf(imported.items, PendingIds(importing.items, b));
          (FinishIfDrained(imported, b, env.now),
           Returned(NOTHING.(imported := c.imported, retryableFailed := c.retryable, terminalFailed := c.terminal)))
  }

  // ----- Select, reject, prioritize, submit

  /** Submitted in an active batch, or terminally failed in any. */
  predicate Blocked(s: Store, app: AppId) {
    exists id | id in s.items ::
      s.items[id].app == app
      && (s.items[id].status.TerminalFailed?
          || (s.items[id].status.ItemSubmitted? && s.items[id].batch in s.batches
              && s.batches[s.items[id].batch].Active()))
  }

  predicate Selectable(s: Store, profile: ProfileId, env: Env, app: AppId) {
    && app in s.apps
    && s.apps[app].profile == profile
    && s.apps[app].score.None?
    && (s.apps[app].status.PendingReview? || s.apps[app].status.AutoRejected?)
    && s.apps[app].job in env.jobs
    && var job := env.jobs[s.apps[app].job];
       && job.active
       && (job.postedAt.None? || job.postedAt.value >= env.now - DISPLAY_JOB_MAX_AGE_DAYS * DAY)
       && !Blocked(s, app)
  }

  predicate LexBefore(a: string, b: string) {
    b != [] && (a == [] || a[0] < b[0] || (a[0] == b[0] && LexBefore(a[1..], b[1..])))
  }

  /** posted_at DESC NULLS LAST, created_at DESC, id ASC. */
  predicate RowBefore(s: Store, env: Env, a: AppId, b: AppId)
    requires a in s.apps && b in s.apps && s.apps[a].job in env.jobs && s.apps[b].job in env.jobs
  {
    var p, q := env.jobs[s.apps[a].job].postedAt, env.jobs[s.apps[b].job].postedAt;
    if p != q then p.Some? && (q.None? || p.value > q.value)
    else if s.apps[a].createdAt != s.apps[b].createdAt then s.apps[a].createdAt > s.apps[b].createdAt
    else LexBefore(a, b)
  }

  /** The query's answer: the first `limit` selectable applications in query order. */
  ghost predicate SelectedRows(s: Store, profile: ProfileId, env: Env, limit: nat, rows: seq<AppId>) {
    && Distinct(rows)
    && (forall i | 0 <= i < |rows| :: Selectable(s, profile, env, rows[i]))
    && (forall i, j | 0 <= i < j < |rows| :: !RowBefore(s, env, rows[j], rows[i]))
    && (|rows| < limit ==> forall a | Selectable(s, profile, env, a) :: a in rows)
    && |rows| <= limit
    && (forall a, i | Selectable(s, profile, env, a) && a !in rows && 0 <= i < |rows| :: !RowBefore(s, env, a, rows[i]))
  }

  function EffectiveMaxItems(env: Env): nat {
    if env.maxItems.Some? && env.maxItems.value != 0 then env.maxItems.value else env.settings.maxItemsPerBatch
  }

  function PoolLimit(env: Env): nat {
    Max(EffectiveMaxItems(env), EffectiveMaxItems(env) * Max(1, env.settings.poolMultiplier))
  }

  function RealMin(a: real, b: real): real {
    if a <= b then a else b
  }

  function RealMax(a: real, b: real): real {
    if a >= b then a else b
  }

  function DeterministicRejectionScore(threshold: real): real {
    RealMax(0.0, RealMin(0.29, threshold - 0.01))
  }

  function ApplyScoreFields(app: Application, fields: Feedback, threshold: real, now: int): Application {
    var score := DeterministicRejectionScore(threshold);
    app.(score := Some(score), feedback := fields,
         status := if score < threshold && app.status.PendingReview? then AutoRejected else app.status,
         updatedAt := now)
  }

  function RejectRows(apps: Table, rows: seq<AppId>, env: Env): Table {
    map a | a in apps ::
      if a in rows && a in env.rejections then
        ApplyScoreFields(apps[a], env.rejections[a], env.settings.threshold, env.now)
      else apps[a]
  }

  function Survivors(rows: seq<AppId>, rejections: map<AppId, Feedback>): (kept: seq<AppId>)
    ensures |kept| <= |rows|
    ensures forall a :: a in kept <==> a in rows && a !in rejections
  {
    if rows == [] then []
    else
      var n, last := |rows| - 1, rows[|rows| - 1];
      assert rows == rows[..n] + [last];
      Survivors(rows[..n], rejections) + (if last in rejections then [] else [last])
  }

  lemma {:induction false} SurvivorsAreDistinct(rows: seq<AppId>, rejections: map<AppId, Feedback>)
    requires Distinct(rows)
    ensures Distinct(Survivors(rows, rejections))
  {
    if rows != [] {
      var n := |rows| - 1;
      SurvivorsAreDistinct(rows[..n], rejections);
      assert rows[n] !in rows[..n];
    }
  }

  /** Stable insertion by descending score: x goes after everything that scores at least as high. */
  function InsertDescending(sorted: seq<AppId>, x: AppId, score: AppId -> real): (r: seq<AppId>)
    ensures multiset(r) == multiset(sorted) + multiset{x}
  {
    if sorted == [] then [x]
    else
      var n, last := |sorted| - 1, sorted[|sorted| - 1];
      assert sorted == sorted[..n] + [last];
      if score(last) >= score(x) then sorted + [x]
      else InsertDescending(sorted[..n], x, score) + [last]
  }

  function SortDescending(s: seq<AppId>, score: AppId -> real): (r: seq<AppId>)
    ensures multiset(r) == multiset(s)
  {
    if s == [] then []
    else
      var n := |s| - 1;
      assert s == s[..n] + [s[n]];
      InsertDescending(SortDescending(s[..n], score), s[n], score)
  }

  function PrioritizeBatchJobs(survivors: seq<AppId>, score: AppId -> real, limit: nat): seq<AppId> {
    if limit < 1 || |survivors| <= limit then survivors
    else
      var sorted := SortDescending(survivors, score);
      assert |sorted| == |multiset(sorted)| == |multiset(survivors)|;
      sorted[..limit]
  }

  function ContextOf(s: Store, env: Env, app: AppId): BatchPacking.JobContext
    requires app in s.apps && s.apps[app].job in env.jobs
  {
    var job := env.jobs[s.apps[app].job];
    BatchPacking.JobContext(app, job.title, job.company, job.location, job.workplaceType, job.description)
  }

  predicate InCatalog(s: Store, env: Env, apps: seq<AppId>) {
    forall a | a in apps :: a in s.apps && s.apps[a].job in env.jobs
  }

  function Contexts(s: Store, env: Env, apps: seq<AppId>): seq<BatchPacking.JobContext>
    requires InCatalog(s, env, apps)
  {
    seq(|apps|, i requires 0 <= i < |apps| => ContextOf(s, env, apps[i]))
  }

  function NewItem(b: BatchId, app: AppId, key: string, now: int): Item {
    Item(b, app, key, ItemSubmitted, None, NO_FEEDBACK, None, now)
  }

  function NewItemAt(s: Store, chosen: seq<AppId>, keys: seq<string>, now: int, id: ItemId): Item
    requires |keys| == |chosen| && s.nextItem <= id < s.nextItem + |chosen|
  {
    NewItem(s.nextBatch, chosen[id - s.nextItem], keys[id - s.nextItem], now)
  }

  /** Item nextItem + i is for the i-th application, under the i-th request key. */
  function NewItems(s: Store, chosen: seq<AppId>, keys: seq<string>, now: int): map<ItemId, Item>
    requires |keys| == |chosen|
  {
    map id: nat | s.nextItem <= id < s.nextItem + |chosen| :: NewItemAt(s, chosen, keys, now, id)
  }

  /** A building batch with one submitted item per chosen application. */
  function CreateBatch(s: Store, profile: ProfileId, chosen: seq<AppId>, keys: seq<string>, now: int): Store
    requires |keys| == |chosen|
  {
    s.(batches := s.batches[s.nextBatch := Batch(profile, Building, None, None, None, None, None, None, now)],
       nextBatch := s.nextBatch + 1,
       items := s.items + NewItems(s, chosen, keys, now),
       nextItem := s.nextItem + |chosen|)
  }

  function Submit(s: Store, b: BatchId, providerBatchId: string, pollInterval: int, now: int): Store
    requires b in s.batches
  {
    s.(batches := s.batches[b := s.batches[b].(providerBatchId := Some(providerBatchId), status := Submitted,
                                               submittedAt := Some(now), nextPollAt := Some(now + pollInterval),
                                               updatedAt := now)])
  }

  /** The applications a build puts into its batch. */
  function Chosen(rows: seq<AppId>, env: Env): (chosen: seq<AppId>)
    ensures forall a | a in chosen :: a in rows && a !in env.rejections
    ensures chosen == [] <==> Survivors(rows, env.rejections) == []
  {
    var survivors := Survivors(rows, env.rejections);
    var chosen := PrioritizeBatchJobs(survivors, env.priority, EffectiveMaxItems(env));
    PrioritizedAreSurvivors(survivors, env.priority, EffectiveMaxItems(env));
    assert survivors != [] ==> survivors[0] in survivors;
    chosen
  }

  lemma PrioritizedAreSurvivors(survivors: seq<AppId>, score: AppId -> real, limit: nat)
    ensures var kept := PrioritizeBatchJobs(survivors, score, limit);
            && (forall a | a in kept :: a in survivors)
            && (kept == [] <==> survivors == [])
  {
    var sorted := SortDescending(survivors, score);
    assert multiset(sorted) == multiset(survivors);
    forall a | a in sorted ensures a in survivors {
      assert a in multiset(sorted);
    }
  }

  /** No application enters a batch twice. */
  lemma ChosenAreDistinct(rows: seq<AppId>, env: Env)
    requires Distinct(rows)
    ensures Distinct(Chosen(rows, env))
  {
    var survivors := Survivors(rows, env.rejections);
    SurvivorsAreDistinct(rows, env.rejections);
    DistinctByMultiset(survivors, SortDescending(survivors, env.priority));
  }

  lemma DistinctByMultiset(s: seq<AppId>, t: seq<AppId>)
    requires Distinct(s) && multiset(s) == multiset(t)
    ensures Distinct(t)
  {
    forall i, j | 0 <= i < j < |t| ensures t[i] != t[j] {
      if t[i] == t[j] {
        var x := t[i];
        assert t == t[..i] + [x] + t[i + 1..j] + [x] + t[j + 1..];
        assert multiset(t)[x] >= 2;
        OncePerElement(s, x);
        assert false;
      }
    }
  }

  lemma {:induction false} OncePerElement(s: seq<AppId>, x: AppId)
    requires Distinct(s)
    ensures multiset(s)[x] <= 1
  {
    if s != [] {
      var n := |s| - 1;
      assert s == s[..n] + [s[n]];
      OncePerElement(s[..n], x);
      if s[n] == x {
        assert x !in s[..n];
        assert x !in multiset(s[..n]);
      }
    }
  }

  /** The batch is committed; then the provider accepts it, refuses it, or the process dies. */
  function CreateAndSubmit(s: Store, profile: ProfileId, chosen: seq<AppId>, keys: seq<string>, env: Env,
                           counts: TickResult):
    (Store, TickOutcome)
    requires |keys| == |chosen|
  {
    var created := CreateBatch(s, profile, chosen, keys, env.now);
    match env.submit
    case SubmitCrashes => (created, Crashed)
    case SubmitRaises(error) => (FailBatch(created, s.nextBatch, error, env.now), Raised(error))
    case Accepted(id) =>
      (Submit(created, s.nextBatch, id, env.settings.pollInterval, env.now), Returned(counts.(submitted := |chosen|)))
  }

  /** Packs and submits what was chosen, if anything; the rejections are rolled back when an application cannot fit. */
  function PackAndSubmit(s: Store, rejected: Store, profile: ProfileId, env: Env, chosen: seq<AppId>,
                         counts: TickResult):
    (Store, TickOutcome)
    requires InCatalog(s, env, chosen)
  {
    if chosen == [] then (rejected, Returned(counts))
    else if !BatchPacking.AllFit(env.profileText, Contexts(s, env, chosen), env.settings.maxRequestChars) then
      (s, Raised(DOES_NOT_FIT))
    else CreateAndSubmit(rejected, profile, chosen, BatchPacking.RequestKeys(|chosen|), env, counts)
  }

  /** Build and submit, given the rows the selection query answered. */
  function BuildAndSubmit(s: Store, profile: ProfileId, env: Env, rows: seq<AppId>): (Store, TickOutcome)
    requires InCatalog(s, env, rows)
  {
    if !env.profileExists || rows == [] then (s, Returned(NOTHING))
    else
      var rejected := s.(apps := RejectRows(s.apps, rows, env));
      var chosen := Chosen(rows, env);
      var counts := NOTHING.(selected := |rows|, deterministicRejected := |rows| - |Survivors(rows, env.rejections)|);
      PackAndSubmit(s, rejected, profile, env, chosen, counts)
  }

  // ----- One tick

  ghost function ActiveBatch(s: Store, profile: ProfileId): Option<BatchId> {
    if exists b :: ActiveFor(s.batches, profile, b) then
      var b :| ActiveFor(s.batches, profile, b);
      Some(b)
    else None
  }

  predicate IsStale(b: Batch, env: Env) {
    b.updatedAt < env.now - Max(env.settings.pollInterval, 60)
  }

  function CombineTickResults(first: TickResult, build: TickOutcome): TickOutcome {
    if build.Returned? then
      Returned(build.result.(imported := first.imported, retryableFailed := first.retryableFailed,
                             terminalFailed := first.terminalFailed))
    else build
  }

  /** The store a tick selects rows from: after its first half, when it goes on to build. None when it does not. */
  ghost function BuildsFrom(s: Store, profile: ProfileId, env: Env): Option<Store> {
    var active := ActiveBatch(s, profile);
    if active.None? then Some(s)
    else if s.batches[active.value].status.Building? then
      if IsStale(s.batches[active.value], env) then Some(FailBatch(s, active.value, "stale building batch", env.now))
      else None
    else
      var (t, outcome) := PollAndImport(s, active.value, env);
      if outcome.Returned? && !outcome.result.requeued
         && active.value in t.batches && t.batches[active.value].status.BatchDone?
      then Some(t) else None
  }

  ghost predicate RowsFor(s: Store, profile: ProfileId, env: Env, rows: seq<AppId>) {
    var from := BuildsFrom(s, profile, env);
    if from.None? || !env.profileExists then rows == []
    else SelectedRows(from.value, profile, env, PoolLimit(env), rows)
  }

  /** One tick of a profile, given what its selection query answers. */
  ghost function Tick(s: Store, profile: ProfileId, env: Env, rows: seq<AppId>): (Store, TickOutcome)
    requires RowsFor(s, profile, env, rows)
  {
    var active := ActiveBatch(s, profile);
    var from := BuildsFrom(s, profile, env);
    if active.None? then BuildAndSubmit(s, profile, env, rows)
    else if s.batches[active.value].status.Building? then
      if from.None? then (s, Returned(NOTHING.(requeued := true)))
      else
        var (t, build) := BuildAndSubmit(from.value, profile, env, rows);
        (t, CombineTickResults(ResultFromBatch(from.value, active.value, false), build))
    else
      var (polled, outcome) := PollAndImport(s, active.value, env);
      if from.None? then (polled, outcome)
      else
        var (t, build) := BuildAndSubmit(polled, profile, env, rows);
        (t, CombineTickResults(outcome.result, build))
  }
}
