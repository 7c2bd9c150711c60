/**
 The cover-letter protocol: `generation_status` and the queue live in separate
 transactions, a worker may crash between any two of them, and a cron job
 repairs the one gap that leaves.
 */
module CoverLetters {
  import opened Prelude
  import opened WorkQueues
  import opened Applications
  import opened EnqueueIntents
  import Worker

  const MAX_HANDLER_ATTEMPTS: nat := 5
  const MAX_GENERATION_ATTEMPTS: nat := 5
  const GRACE: int := 300

  function Key(app: AppId): string {
    CoverLetterFor(app).Key()
  }

  /** Some live generate-cover-letter row works for this application. */
  ghost predicate HasLiveRow(rows: map<RowId, Row>, app: AppId) {
    exists id :: Occupies(rows, id, GenerateCoverLetter, Key(app))
  }

  function CoverLetterEnqueue(app: AppId, now: int): Op {
    Enqueue(GenerateCoverLetter, ForApplication(app), Some(Key(app)), DoNothing, None, now)
  }

  // ----- The handler, cut at its commits

  /** The commit a running task reaches next. */
  datatype Stage = AtStart | AtClaim | AtModel | AtDone | AtHook | AtFailed | AtRelease

  datatype Task = Task(row: RowId, worker: WorkerId, app: AppId, attempts: nat, stage: Stage)

  /** What a running task does next to the applications table, or to itself. */
  datatype Commit =
    | Load
    | ClaimApplication
    | Succeed(content: string)
    | RateLimited
    | ModelFails
    | Raise
    | RunHook
    | SettleFails

  /** How a task gives up its row. */
  datatype Settlement = Finish | FailRow(error: string) | ReleaseRow(seconds: int)

  datatype Effect = Impossible | Effect(stage: Stage, apps: Table)

  /** One commit of the handler, the worker or the terminal hook. */
  function AfterCommit(apps: Table, task: Task, commit: Commit, now: int): Effect {
    var app := task.app;
    match commit
    case Load =>
      if !task.stage.AtStart? then Impossible
      else if task.attempts > MAX_HANDLER_ATTEMPTS then Effect(AtHook, apps)
      else if app !in apps then Effect(AtDone, apps)
      else if apps[app].generation.Ready? && apps[app].coverLetter.Some? then Effect(AtDone, apps)
      else Effect(AtClaim, apps)
    case ClaimApplication =>
      if !task.stage.AtClaim? then Impossible
      else if app in apps && InFlight(apps[app].generation) then
        Effect(AtModel, SetGeneration(apps, app, WhenInFlight, Generating, now))
      else Effect(AtDone, apps)
    case Succeed(content) =>
      if !task.stage.AtModel? || app !in apps then Impossible
      else Effect(AtDone, apps[app := WithLetter(apps[app], content, now)])
    case RateLimited =>
      if !task.stage.AtModel? then Impossible
      else Effect(AtRelease, SetGeneration(apps, app, WhenGenerating, GenPending, now))
    case ModelFails =>
      if !task.stage.AtModel? then Impossible
      else Effect(AtHook, SetGeneration(apps, app, Always, GenFailed, now))
    case Raise =>
      if !(task.stage.AtStart? || task.stage.AtClaim? || task.stage.AtModel?) then Impossible
      else Effect(AtHook, apps)
    case RunHook =>
      if !task.stage.AtHook? then Impossible
      else Effect(AtFailed, SetGeneration(apps, app, WhenInFlight, GenFailed, now))
    case SettleFails =>
      if !(task.stage.AtDone? || task.stage.AtHook? || task.stage.AtFailed?) then Impossible
      else Effect(AtRelease, apps)
  }

  /** A task at this stage has reached the statement that gives up its row. */
  predicate MaySettle(stage: Stage, settlement: Settlement) {
    match settlement
    case Finish => stage.AtDone?
    case FailRow(_) => stage.AtFailed?
    case ReleaseRow(_) => stage.AtRelease?
  }

  function SettleOp(task: Task, settlement: Settlement, now: int): Op {
    match settlement
    case Finish => MarkDone(task.row, task.worker, now)
    case FailRow(error) => MarkFailed(task.row, task.worker, error, now)
    case ReleaseRow(seconds) => Release(task.row, task.worker, seconds, now)
  }

  // ----- The whole system

  datatype System = System(queue: Queue, apps: Table, tasks: map<nat, Task>, nextTask: nat)

  datatype Move =
    | RequestGeneration(app: AppId, now: int)
    | Reenqueue(app: AppId, now: int)
    | ClaimRow(op: Op)
    | Commits(task: nat, commit: Commit, now: int)
    | Settles(task: nat, settlement: Settlement, now: int)
    | Crash(task: nat)
    | OtherQueueWork(op: Op)
    | OtherApplicationWork(apps: Table)

  /** A queue statement about rows of other job types, or pruning. */
  predicate LeavesCoverLetters(rows: map<RowId, Row>, op: Op) {
    match op
    case Enqueue(t, _, _, _, _, _) => !t.GenerateCoverLetter?
    case Claim(_, _, _, _, _, picked) =>
      picked.Some? && picked.value in rows ==> !rows[picked.value].jobType.GenerateCoverLetter?
    case MarkDone(id, _, _) => id in rows ==> !rows[id].jobType.GenerateCoverLetter?
    case MarkFailed(id, _, _, _) => id in rows ==> !rows[id].jobType.GenerateCoverLetter?
    case Release(id, _, _, _) => id in rows ==> !rows[id].jobType.GenerateCoverLetter?
    case Prune(_) => true
  }

  ghost predicate RowClaimed(s: System, op: Op, s': System) {
    && op.Claim? && op.picked.Some? && op.picked.value in s.queue.rows
    && var row := s.queue.rows[op.picked.value];
       && row.jobType.GenerateCoverLetter? && row.payload.ForApplication?
       && Step(s.queue, op, s'.queue)
       && s' == s.(queue := s'.queue, nextTask := s.nextTask + 1,
                   tasks := s.tasks[s.nextTask := Task(op.picked.value, op.worker, row.payload.app,
                                                       row.attempts + 1, AtStart)])
  }

  ghost predicate SystemStep(s: System, m: Move, s': System) {
    match m
    case RequestGeneration(app, now) =>
      && app in s.apps && Requestable(s.apps[app].generation)
      && Step(s.queue, CoverLetterEnqueue(app, now), s'.queue)
      && s' == s.(queue := s'.queue, apps := SetGeneration(s.apps, app, Always, GenPending, now))
    case Reenqueue(app, now) =>
      && app in s.apps
      && Step(s.queue, CoverLetterEnqueue(app, now), s'.queue) && s' == s.(queue := s'.queue)
    case ClaimRow(op) => RowClaimed(s, op, s')
    case Commits(t, commit, now) =>
      && t in s.tasks
      && var effect := AfterCommit(s.apps, s.tasks[t], commit, now);
         effect.Effect?
         && s' == s.(apps := effect.apps, tasks := s.tasks[t := s.tasks[t].(stage := effect.stage)])
    case Settles(t, settlement, now) =>
      && t in s.tasks && MaySettle(s.tasks[t].stage, settlement)
      && Step(s.queue, SettleOp(s.tasks[t], settlement, now), s'.queue)
      && s' == s.(queue := s'.queue, tasks := s.tasks - {t})
    case Crash(t) => s' == s.(tasks := s.tasks - {t})
    case OtherQueueWork(op) =>
      && LeavesCoverLetters(s.queue.rows, op)
      && Step(s.queue, op, s'.queue) && s' == s.(queue := s'.queue)
    case OtherApplicationWork(apps) =>
      && (forall a | a in apps :: apps[a].generation == if a in s.apps then s.apps[a].generation else GenNone)
      && s' == s.(apps := apps)
  }

  ghost predicate SystemRun(ss: seq<System>, ms: seq<Move>) {
    && |ss| == |ms| + 1
    && ss[0].queue == EMPTY_QUEUE && ss[0].tasks == map[]
    && (forall a | a in ss[0].apps :: !ss[0].apps[a].generation.Generating?)
    && forall k | 0 <= k < |ms| :: SystemStep(ss[k], ms[k], ss[k + 1])
  }

  // ----- The repair

  /** Finished for this application within the grace period. */
  predicate RecentlyCompleted(rows: map<RowId, Row>, id: RowId, app: AppId, now: int) {
    && id in rows && rows[id].jobType.GenerateCoverLetter? && rows[id].dedupeKey == Some(Key(app))
    && rows[id].Terminal() && rows[id].completedAt.Some? && rows[id].completedAt.value > now - GRACE
  }

  /** Pending, not worn out, and untouched for the grace period. */
  predicate Overdue(a: Application, now: int) {
    a.generation.GenPending? && a.generationAttempts < MAX_GENERATION_ATTEMPTS && a.updatedAt < now - GRACE
  }

  predicate Orphan(apps: Table, rows: map<RowId, Row>, app: AppId, now: int) {
    && app in apps && Overdue(apps[app], now)
    && !exists id | id in rows ::
         Occupies(rows, id, GenerateCoverLetter, Key(app)) || RecentlyCompleted(rows, id, app, now)
  }

  ghost predicate HasExactlyOneLiveRow(rows: map<RowId, Row>, app: AppId) {
    exists id :: OnlyLiveRow(rows, id, GenerateCoverLetter, Key(app))
  }

  /** Exactly one live row, or one that completed within the grace period. */
  ghost predicate Attended(rows: map<RowId, Row>, app: AppId, now: int) {
    HasExactlyOneLiveRow(rows, app) || exists id :: RecentlyCompleted(rows, id, app, now)
  }

  lemma OneLiveRow(rows: map<RowId, Row>, app: AppId)
    requires OneLiveRowPerKey(rows) && HasLiveRow(rows, app)
    ensures HasExactlyOneLiveRow(rows, app)
  {
    var id :| Occupies(rows, id, GenerateCoverLetter, Key(app));
    assert OnlyLiveRow(rows, id, GenerateCoverLetter, Key(app));
  }

  function Orphans(apps: Table, rows: map<RowId, Row>, now: int): set<AppId> {
    set app | app in apps && Orphan(apps, rows, app, now)
  }

  /** Cover-letter intents for these orphans, each once, except the ones to do. */
  ghost predicate LettersFor(intents: seq<Intent>, orphans: set<AppId>, todo: set<AppId>) {
    && todo <= orphans
    && Distinct(intents) && |intents| == |orphans| - |todo|
    && (forall intent | intent in intents :: intent.CoverLetterFor? && intent.app in orphans && intent.app !in todo)
    && (forall app | app in orphans && app !in todo :: CoverLetterFor(app) in intents)
  }

  lemma LetterAppended(intents: seq<Intent>, orphans: set<AppId>, todo: set<AppId>, app: AppId)
    requires LettersFor(intents, orphans, todo) && app in todo
    ensures LettersFor(intents + [CoverLetterFor(app)], orphans, todo - {app})
  {
    assert CoverLetterFor(app) !in intents;
  }

  /** With one row served to each orphan, everybody overdue is attended. */
  lemma OrphansServed(apps: Table, before: map<RowId, Row>, rows: map<RowId, Row>, intents: seq<Intent>,
                      ids: seq<RowId>, now: int)
    requires OneLiveRowPerKey(rows) && LettersFor(intents, Orphans(apps, before, now), {})
    requires Served(before, rows, intents, ids, now)
    ensures forall app | app in apps && Overdue(apps[app], now) :: Attended(rows, app, now)
  {
    forall app | app in apps && Overdue(apps[app], now) ensures Attended(rows, app, now) {
      if Orphan(apps, before, app, now) {
        assert app in Orphans(apps, before, now);
        OrphanServed(before, rows, intents, ids, app, now);
      } else {
        AttendedStays(before, rows, app, now);
      }
    }
  }

  lemma OrphanServed(before: map<RowId, Row>, rows: map<RowId, Row>, intents: seq<Intent>, ids: seq<RowId>,
                     app: AppId, now: int)
    requires OneLiveRowPerKey(rows) && Served(before, rows, intents, ids, now) && CoverLetterFor(app) in intents
    ensures Attended(rows, app, now)
  {
    ServedHasOneRow(rows, before, intents, ids, CoverLetterFor(app), now);
    var id :| OnlyLiveRow(rows, id, CoverLetterFor(app).Type(), CoverLetterFor(app).Key());
    assert OnlyLiveRow(rows, id, GenerateCoverLetter, Key(app));
  }

  lemma AttendedStays(before: map<RowId, Row>, rows: map<RowId, Row>, app: AppId, now: int)
    requires OneLiveRowPerKey(rows) && KeepsRows(before, rows)
    requires exists id | id in before ::
               Occupies(before, id, GenerateCoverLetter, Key(app)) || RecentlyCompleted(before, id, app, now)
    ensures Attended(rows, app, now)
  {
    var id :| id in before
      && (Occupies(before, id, GenerateCoverLetter, Key(app)) || RecentlyCompleted(before, id, app, now));
    if Occupies(before, id, GenerateCoverLetter, Key(app)) {
      assert Occupies(rows, id, GenerateCoverLetter, Key(app));
      OneLiveRow(rows, app);
    } else {
      assert RecentlyCompleted(rows, id, app, now);
    }
  }

  lemma OrphansWantRows(apps: Table, rows: map<RowId, Row>, intents: seq<Intent>, now: int)
    requires LettersFor(intents, Orphans(apps, rows, now), {})
    ensures forall intent | intent in intents :: Wanting(rows, intent)
  {
    forall intent | intent in intents ensures Wanting(rows, intent) {
      assert Orphan(apps, rows, intent.app, now) && Key(intent.app) == intent.Key();
    }
  }

  datatype ModelResult = Content(text: string) | TooManyRequests(retryAfter: Option<nat>) | ModelError(message: string)

  /** The handler's commit after the model answered. */
  function CommitAfter(model: ModelResult): Commit {
    match model
    case Content(text) => Succeed(text)
    case TooManyRequests(_) => RateLimited
    case ModelError(_) => ModelFails
  }

  /** What the handler leaves when nothing disturbs it. */
  function Handled(apps: Table, app: AppId, model: ModelResult, now: int): Table {
    if app !in apps || !InFlight(apps[app].generation) then apps
    else
      match model
      case Content(text) => apps[app := WithLetter(apps[app], text, now)]
      case TooManyRequests(_) => SetGeneration(apps, app, Always, GenPending, now)
      case ModelError(_) => SetGeneration(apps, app, Always, GenFailed, now)
  }

  /** The commits the system interleaves are the handler's: one after the other they leave what the handler leaves. */
  lemma CommitsMakeTheHandler(apps: Table, task: Task, model: ModelResult, now: int)
    requires task.stage.AtStart? && task.attempts <= MAX_HANDLER_ATTEMPTS
    ensures var loaded := AfterCommit(apps, task, Load, now);
            && loaded.Effect?
            && var claimed := AfterCommit(loaded.apps, task.(stage := AtClaim), ClaimApplication, now);
               && claimed.Effect?
               && if loaded.stage.AtDone? then loaded.apps == Handled(apps, task.app, model, now)
                  else if claimed.stage.AtDone? then claimed.apps == Handled(apps, task.app, model, now)
                  else var settled := AfterCommit(claimed.apps, task.(stage := AtModel), CommitAfter(model), now);
                       settled.Effect? && settled.apps == Handled(apps, task.app, model, now)
  {
    if task.app in apps && InFlight(apps[task.app].generation) {
      var claimed := SetGeneration(apps, task.app, WhenInFlight, Generating, now);
      var settled := AfterCommit(claimed, task.(stage := AtModel), CommitAfter(model), now);
      assert settled.apps[task.app] == Handled(apps, task.app, model, now)[task.app];
      assert settled.apps == Handled(apps, task.app, model, now);
    }
  }

  // ----- The same, column by column

  /** Only the generation status changed, and the time of the last change. */
  predicate Became(before: Application, after: Application, generation: GenerationStatus, now: int) {
    after == before.(generation := generation, updatedAt := now)
  }

  /** The answer is the application's letter, with its time; profile, job, status and score are as before. */
  predicate HoldsLetter(before: Application, after: Application, text: string, now: int) {
    after == before.(generation := Ready, coverLetter := Some(text), generatedAt := Some(now), updatedAt := now)
  }

  /** What became of the application: its letter is stored, it waits for another attempt, or it failed. */
  predicate AnsweredWith(before: Application, after: Application, model: ModelResult, now: int) {
    match model
    case Content(text) => HoldsLetter(before, after, text, now)
    case TooManyRequests(_) => Became(before, after, GenPending, now)
    case ModelError(_) => Became(before, after, GenFailed, now)
  }

  /** All applications but this one are as before. */
  ghost predicate OnlyTouches(before: Table, after: Table, app: AppId) {
    after.Keys == before.Keys && forall other | other in before && other != app :: after[other] == before[other]
  }

  /** A row of this application's own is queued or running, or ended less than 300 seconds ago. */
  predicate LookedAfter(rows: map<RowId, Row>, id: RowId, app: AppId, now: int) {
    && id in rows && rows[id].jobType == GenerateCoverLetter
    && rows[id].dedupeKey == Some("generate-cover-letter:" + app)
    && (rows[id].status == Pending || rows[id].status == InProgress
        || (rows[id].completedAt.Some? && rows[id].completedAt.value + 300 > now))
  }

  /** Pending for more than 300 seconds, and tried fewer than five times. */
  predicate Forgotten(a: Application, now: int) {
    a.generation == GenPending && a.generationAttempts < 5 && a.updatedAt + 300 < now
  }

  /** When everybody overdue is attended, nobody forgotten goes without a row. */
  lemma ForgottenOnesAreLookedAfter(apps: Table, rows: map<RowId, Row>, now: int)
    requires forall app | app in apps && Overdue(apps[app], now) :: Attended(rows, app, now)
    ensures forall app | app in apps && Forgotten(apps[app], now) :: exists id :: LookedAfter(rows, id, app, now)
  {
    forall app | app in apps && Forgotten(apps[app], now) ensures exists id :: LookedAfter(rows, id, app, now) {
      KeySpelledOut(CoverLetterFor(app));
      assert Overdue(apps[app], now);
      if HasExactlyOneLiveRow(rows, app) {
        var id :| OnlyLiveRow(rows, id, GenerateCoverLetter, Key(app));
        assert LookedAfter(rows, id, app, now);
      } else {
        var id :| RecentlyCompleted(rows, id, app, now);
        assert LookedAfter(rows, id, app, now);
      }
    }
  }

  /** The repair adds a row for those forgotten whom no row looks after, and for nobody else. */
  lemma OrphansAreForgotten(apps: Table, rows: map<RowId, Row>, app: AppId, now: int)
    requires app in apps
    requires forall id | id in rows && rows[id].status != Pending && rows[id].status != InProgress ::
               rows[id].completedAt.Some?
    ensures app in Orphans(apps, rows, now) <==>
              Forgotten(apps[app], now) && !exists id :: LookedAfter(rows, id, app, now)
  {
    KeySpelledOut(CoverLetterFor(app));
    forall id ensures LookedAfter(rows, id, app, now) <==>
                        id in rows && (Occupies(rows, id, GenerateCoverLetter, Key(app))
                                       || RecentlyCompleted(rows, id, app, now))
    {
    }
  }

  class GenerationService {
    const queue: WorkQueue
    var apps: Table

    ghost predicate Valid()
      reads this, queue
    {
      queue.Valid()
    }

    constructor (queue: WorkQueue, apps: Table)
      requires queue.Valid()
      ensures Valid() && this.queue == queue && this.apps == apps
    {
      this.queue, this.apps := queue, apps;
    }

    /** The API's request: status and queue row in one transaction. None when the request is illegal. */
    method FlipToPendingAndEnqueue(app: AppId, now: int) returns (row: Option<RowId>)
      requires Valid()
      modifies this, queue
      ensures Valid()
      ensures row.Some? <==>
                app in old(apps)
                  && !(old(apps)[app].generation == GenPending || old(apps)[app].generation == Generating)
      ensures row.Some? ==> OnlyTouches(old(apps), apps, app) && Became(old(apps)[app], apps[app], GenPending, now)
      ensures row.None? ==> apps == old(apps) && queue.State() == old(queue.State())
      ensures row.Some? ==> apps == SetGeneration(old(apps), app, Always, GenPending, now)
      ensures row.Some? ==> Step(old(queue.State()), CoverLetterEnqueue(app, now), queue.State())
      ensures row.Some? ==> Occupies(queue.rows, row.value, GenerateCoverLetter, Key(app))
    {
      if app !in apps || !Requestable(apps[app].generation) {
        return None;
      }
      apps := apps[app := apps[app].(generation := GenPending, updatedAt := now)];
      var id := queue.Enqueue(GenerateCoverLetter, ForApplication(app), Some(Key(app)), DoNothing, None, now);
      row := Some(id);
    }

    /** The handler's guarded claim of the application; false when it lost the claim. */
    method ClaimGeneration(app: AppId, now: int) returns (claimed: bool)
      modifies this
      ensures apps == SetGeneration(old(apps), app, WhenInFlight, Generating, now)
      ensures claimed <==>
                app in old(apps) && (old(apps)[app].generation == GenPending || old(apps)[app].generation == Generating)
      ensures if claimed then Became(old(apps)[app], apps[app], Generating, now) && OnlyTouches(old(apps), apps, app)
              else apps == old(apps)
    {
      claimed := app in apps && InFlight(apps[app].generation);
      if claimed {
        apps := apps[app := apps[app].(generation := Generating, updatedAt := now)];
      }
    }

    method ResetToPending(app: AppId, now: int)
      modifies this
      ensures apps == SetGeneration(old(apps), app, WhenGenerating, GenPending, now)
    {
      if app in apps && apps[app].generation.Generating? {
        apps := apps[app := apps[app].(generation := GenPending, updatedAt := now)];
      }
    }

    /** The unguarded failure write after a model error. */
    method FailGeneration(app: AppId, now: int)
      modifies this
      ensures apps == SetGeneration(old(apps), app, Always, GenFailed, now)
    {
      if app in apps {
        apps := apps[app := apps[app].(generation := GenFailed, updatedAt := now)];
      }
    }

    method OnTerminalFailure(app: AppId, now: int)
      modifies this
      ensures apps == SetGeneration(old(apps), app, WhenInFlight, GenFailed, now)
      ensures if app in apps && (old(apps)[app].generation == GenPending || old(apps)[app].generation == Generating)
              then Became(old(apps)[app], apps[app], GenFailed, now) && OnlyTouches(old(apps), apps, app)
              else apps == old(apps)
    {
      if app in apps && InFlight(apps[app].generation) {
        apps := apps[app := apps[app].(generation := GenFailed, updatedAt := now)];
      }
    }

    method MarkGenerationReady(app: AppId, content: string, now: int)
      requires app in apps
      modifies this
      ensures apps == old(apps)[app := WithLetter(old(apps)[app], content, now)]
      ensures HoldsLetter(old(apps)[app], apps[app], content, now) && OnlyTouches(old(apps), apps, app)
    {
      apps := apps[app := apps[app].(generation := Ready, coverLetter := Some(content), generatedAt := Some(now),
                                     updatedAt := now)];
    }

    /** The handler from loading the application to its last commit, undisturbed. */
    method Handle(app: AppId, model: ModelResult, now: int) returns (outcome: Worker.HandlerOutcome)
      modifies this
      ensures apps == Handled(old(apps), app, model, now)
      ensures if app in apps && (old(apps)[app].generation == GenPending || old(apps)[app].generation == Generating)
              then AnsweredWith(old(apps)[app], apps[app], model, now) && OnlyTouches(old(apps), apps, app)
              else apps == old(apps)
      ensures outcome == if app !in old(apps) || !InFlight(old(apps)[app].generation) then Worker.Returned(None)
                         else match model
                              case Content(_) => Worker.Returned(None)
                              case TooManyRequests(retryAfter) => Worker.Transient(retryAfter)
                              case ModelError(message) => Worker.Raised(message)
    {
      if app !in apps || (apps[app].generation.Ready? && apps[app].coverLetter.Some?) {
        return Worker.Returned(None);
      }
      var claimed := ClaimGeneration(app, now);
      if !claimed {
        return Worker.Returned(None);
      }
      match model
      case TooManyRequests(retryAfter) =>
        ResetToPending(app, now);
        outcome := Worker.Transient(retryAfter);
      case ModelError(message) =>
        FailGeneration(app, now);
        outcome := Worker.Raised(message);
      case Content(text) =>
        MarkGenerationReady(app, text, now);
        outcome := Worker.Returned(None);
    }

    /**
     The cron repair. Afterwards every overdue application has exactly one live
     row or one that completed within the grace period; one row per orphan is
     added, and nothing else changes.
     */
    method GenerationReconcile(now: int) returns (enqueued: seq<RowId>, ghost intents: seq<Intent>)
      requires Valid()
      modifies queue
      ensures Valid()
      ensures LettersFor(intents, Orphans(apps, old(queue.rows), now), {})
      ensures |enqueued| == |Orphans(apps, old(queue.rows), now)| && Distinct(enqueued)
      ensures KeepsRows(old(queue.rows), queue.rows)
      ensures queue.rows.Keys == old(queue.rows).Keys + (set id | id in enqueued)
      ensures forall i | 0 <= i < |enqueued| ::
                enqueued[i] !in old(queue.rows) && queue.rows[enqueued[i]] == intents[i].FreshRow(now)
      ensures forall app | app in apps && Overdue(apps[app], now) :: Attended(queue.rows, app, now)
      ensures forall app | app in apps && Forgotten(apps[app], now) ::
                exists id :: LookedAfter(queue.rows, id, app, now)
    {
      ghost var before := queue.rows;
      var orphans := Orphans(apps, queue.rows, now);
      enqueued, intents := EnqueueLetters(orphans, now);
      OrphansWantRows(apps, before, intents, now);
      ServedRowsAreSingle(queue.rows, before, intents, enqueued, now);
      ServedRowsAreNew(before, queue.rows, intents, enqueued, now);
      OrphansServed(apps, before, queue.rows, intents, enqueued, now);
      ForgottenOnesAreLookedAfter(apps, queue.rows, now);
    }

    /** The loop over the orphans. */
    method EnqueueLetters(orphans: set<AppId>, now: int) returns (enqueued: seq<RowId>, ghost intents: seq<Intent>)
      requires Valid()
      modifies queue
      ensures Valid() && LettersFor(intents, orphans, {})
      ensures Served(old(queue.rows), queue.rows, intents, enqueued, now)
    {
      ghost var before := queue.rows;
      var todo := orphans;
      enqueued, intents := [], [];
      while todo != {}
        invariant queue.Valid() && LettersFor(intents, orphans, todo)
        invariant Served(before, queue.rows, intents, enqueued, now)
        decreases |todo|
      {
        var app :| app in todo;
        LetterAppended(intents, orphans, todo, app);
        enqueued := ServeNext(queue, CoverLetterFor(app), now, before, intents, enqueued);
        intents := intents + [CoverLetterFor(app)];
        todo := todo - {app};
      }
    }
  }
}
