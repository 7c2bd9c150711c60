/**
 When an application in `generating` has a live row: exactly as long as no move
 of two kinds happens, and no proviso about stolen leases is needed to say so.
 */
module CoverLetterSafety {
  import opened Prelude
  import opened WorkQueues
  import opened Applications
  import opened EnqueueIntents
  import opened CoverLetters

  // ----- What always holds

  /** Cover-letter rows are keyed by their application. */
  predicate KeyedRow(row: Row) {
    row.jobType.GenerateCoverLetter? ==> row.payload.ForApplication? && row.dedupeKey == Some(Key(row.payload.app))
  }

  /**
   The row of a task, as long as it is not pruned, is a cover-letter row for its
   application, claimed at least as often.
   */
  predicate WorksOn(rows: map<RowId, Row>, t: Task) {
    t.row in rows ==>
      && rows[t.row].jobType.GenerateCoverLetter?
      && rows[t.row].payload == ForApplication(t.app)
      && t.attempts <= rows[t.row].attempts
  }

  /** Each task stems from its own claim. */
  ghost predicate OneTaskPerClaim(tasks: map<nat, Task>) {
    forall t, u | t in tasks && u in tasks && tasks[t].row == tasks[u].row && tasks[t].attempts == tasks[u].attempts ::
      t == u
  }

  ghost predicate TasksFit(tasks: map<nat, Task>, nextTask: nat, q: Queue) {
    forall t | t in tasks :: t < nextTask && tasks[t].row < q.nextId && WorksOn(q.rows, tasks[t])
  }

  ghost predicate KeyedRows(rows: map<RowId, Row>) {
    forall id | id in rows :: KeyedRow(rows[id])
  }

  ghost predicate Sound(s: System) {
    Inv(s.queue) && KeyedRows(s.queue.rows) && TasksFit(s.tasks, s.nextTask, s.queue) && OneTaskPerClaim(s.tasks)
  }

  // ----- What a statement does to cover-letter rows

  /** A cover-letter row keeps its subject, and its claims only become more. */
  predicate SameWork(before: Row, after: Row) {
    && after.jobType == before.jobType && after.payload == before.payload && after.dedupeKey == before.dedupeKey
    && after.attempts >= before.attempts
  }

  ghost predicate Numbered(q: Queue) {
    forall id | id in q.rows :: id < q.nextId
  }

  ghost predicate CoverRowsPersist(q: Queue, q': Queue) {
    && q.nextId <= q'.nextId
    && (forall id | id in q'.rows && id < q.nextId :: id in q.rows && q'.rows[id].jobType == q.rows[id].jobType)
    && (forall id | id in q'.rows && id < q.nextId && q.rows[id].jobType.GenerateCoverLetter? ::
          SameWork(q.rows[id], q'.rows[id]))
    && (forall id | id in q'.rows && id >= q.nextId :: KeyedRow(q'.rows[id]))
  }

  /** The statements of the system: about other job types, a cover-letter enqueue, a claim, or a settlement. */
  ghost predicate SystemOp(rows: map<RowId, Row>, op: Op) {
    || LeavesCoverLetters(rows, op)
    || op.Claim? || op.MarkDone? || op.MarkFailed? || op.Release?
    || (op.Enqueue? && exists app, now :: op == CoverLetterEnqueue(app, now))
  }

  /** An enqueue adds a row, or rewrites a pending one of its own slot. */
  lemma EnqueueChangesOneRow(q: Queue, op: Op, q': Queue)
    requires op.Enqueue? && Step(q, op, q')
    ensures || q' == q
            || q' == Queue(q.rows[q.nextId := NewRow(op.jobType, op.payload, op.key, op.notBefore, op.now)],
                           q.nextId + 1, q.log)
            || exists id :: id in q.rows && q.rows[id].jobType == op.jobType && op.mode.UpsertResetNotBefore?
                            && q' == q.(rows := q.rows[id := q.rows[id].(notBefore := op.notBefore,
                                                                         payload := op.payload)])
  {
    if SlotTaken(q.rows, op.jobType, op.key) {
      var id :| id in q.rows && Occupies(q.rows, id, op.jobType, op.key.value);
    }
  }

  lemma EnqueuePersists(q: Queue, op: Op, q': Queue)
    requires Numbered(q) && op.Enqueue? && Step(q, op, q') && SystemOp(q.rows, op)
    ensures CoverRowsPersist(q, q')
  {
    EnqueueChangesOneRow(q, op, q');
  }

  lemma SettlementPersists(q: Queue, op: Op, q': Queue)
    requires Numbered(q) && Step(q, op, q') && (op.MarkDone? || op.MarkFailed? || op.Release?)
    ensures CoverRowsPersist(q, q')
  {
  }

  lemma ClaimPersists(q: Queue, op: Op, q': Queue)
    requires Numbered(q) && Step(q, op, q') && op.Claim?
    ensures CoverRowsPersist(q, q')
  {
  }

  lemma PrunePersists(q: Queue, op: Op, q': Queue)
    requires Numbered(q) && Step(q, op, q') && op.Prune?
    ensures CoverRowsPersist(q, q')
  {
  }

  lemma StatementPersists(q: Queue, op: Op, q': Queue)
    requires Numbered(q) && Step(q, op, q') && SystemOp(q.rows, op)
    ensures CoverRowsPersist(q, q')
  {
    match op
    case Enqueue(_, _, _, _, _, _) => EnqueuePersists(q, op, q');
    case Claim(_, _, _, _, _, _) => ClaimPersists(q, op, q');
    case Prune(_) => PrunePersists(q, op, q');
    case _ => SettlementPersists(q, op, q');
  }

  lemma PersistingKeepsFit(tasks: map<nat, Task>, nextTask: nat, q: Queue, q': Queue)
    requires TasksFit(tasks, nextTask, q) && KeyedRows(q.rows) && CoverRowsPersist(q, q')
    requires Numbered(q)
    ensures TasksFit(tasks, nextTask, q') && KeyedRows(q'.rows)
  {
    forall t | t in tasks ensures tasks[t].row < q'.nextId && WorksOn(q'.rows, tasks[t]) {
      assert WorksOn(q.rows, tasks[t]);
    }
    forall id | id in q'.rows ensures KeyedRow(q'.rows[id]) {
      if id < q.nextId {
        assert KeyedRow(q.rows[id]);
      }
    }
  }

  // ----- Every move keeps it

  /** The statement of a move; None when it leaves the queue alone. */
  function QueueOp(s: System, m: Move): Option<Op> {
    match m
    case RequestGeneration(app, now) => Some(CoverLetterEnqueue(app, now))
    case Reenqueue(app, now) => Some(CoverLetterEnqueue(app, now))
    case ClaimRow(op) => Some(op)
    case Settles(t, settlement, now) => if t in s.tasks then Some(SettleOp(s.tasks[t], settlement, now)) else None
    case OtherQueueWork(op) => Some(op)
    case Commits(_, _, _) => None
    case Crash(_) => None
    case OtherApplicationWork(_) => None
  }

  lemma MovesRunStatements(s: System, m: Move, s': System)
    requires SystemStep(s, m, s')
    ensures if QueueOp(s, m).None? then s'.queue == s.queue
            else Step(s.queue, QueueOp(s, m).value, s'.queue) && SystemOp(s.queue.rows, QueueOp(s, m).value)
  {
  }

  lemma QueueStaysSound(s: System, m: Move, s': System)
    requires Sound(s) && SystemStep(s, m, s')
    ensures Inv(s'.queue) && CoverRowsPersist(s.queue, s'.queue)
  {
    MovesRunStatements(s, m, s');
    var op := QueueOp(s, m);
    if op.Some? {
      StepKeepsInv(s.queue, op.value, s'.queue);
      StatementPersists(s.queue, op.value, s'.queue);
    }
  }

  /** A move changes, drops or adds at most one task; only a claim adds one. */
  lemma TasksStayDistinct(s: System, m: Move, s': System)
    requires Sound(s) && SystemStep(s, m, s') && !m.ClaimRow?
    ensures s'.nextTask == s.nextTask
    ensures forall t | t in s'.tasks :: t in s.tasks && s'.tasks[t] == s.tasks[t].(stage := s'.tasks[t].stage)
    ensures OneTaskPerClaim(s'.tasks)
  {
  }

  lemma ClaimedTaskIsNew(s: System, op: Op, s': System)
    requires Sound(s) && RowClaimed(s, op, s')
    ensures OneTaskPerClaim(s'.tasks)
    ensures WorksOn(s'.queue.rows, s'.tasks[s.nextTask]) && s'.tasks[s.nextTask].row < s.queue.nextId
  {
    forall t | t in s.tasks && s.tasks[t].row == op.picked.value
      ensures s.tasks[t].attempts < s'.tasks[s.nextTask].attempts
    {
      assert WorksOn(s.queue.rows, s.tasks[t]);
    }
  }

  lemma SoundnessIsKept(s: System, m: Move, s': System)
    requires Sound(s) && SystemStep(s, m, s')
    ensures Sound(s')
  {
    QueueStaysSound(s, m, s');
    PersistingKeepsFit(s.tasks, s.nextTask, s.queue, s'.queue);
    if m.ClaimRow? {
      ClaimedTaskIsNew(s, m.op, s');
    } else {
      TasksStayDistinct(s, m, s');
    }
  }

  lemma {:induction false} RunStaysSound(ss: seq<System>, ms: seq<Move>, k: nat)
    requires SystemRun(ss, ms) && k < |ss|
    ensures Sound(ss[k])
  {
    if k > 0 {
      RunStaysSound(ss, ms, k - 1);
      SoundnessIsKept(ss[k - 1], ms[k - 1], ss[k]);
    }
  }

  // ----- The property, and the moves that break it

  predicate IsGenerating(apps: Table, app: AppId) {
    app in apps && apps[app].generation.Generating?
  }

  ghost predicate GeneratingAttended(rows: map<RowId, Row>, apps: Table) {
    forall app | IsGenerating(apps, app) :: HasLiveRow(rows, app)
  }

  /** A task's late claim: the application is pending again, and no row works for it any more. */
  ghost predicate ClaimsUnattended(s: System, m: Move) {
    && m.Commits? && m.commit.ClaimApplication? && m.task in s.tasks
    && var app := s.tasks[m.task].app;
       app in s.apps && s.apps[app].generation.GenPending? && !HasLiveRow(s.queue.rows, app)
  }

  /** The row a task finishes or fails is its worker's, and the application is generating. */
  predicate FinishesGenerating(s: System, m: Move) {
    && m.Settles? && !m.settlement.ReleaseRow? && m.task in s.tasks
    && Owns(s.queue.rows, s.tasks[m.task].row, s.tasks[m.task].worker)
    && IsGenerating(s.apps, s.tasks[m.task].app)
  }

  ghost predicate Strands(s: System, m: Move) {
    ClaimsUnattended(s, m) || FinishesGenerating(s, m)
  }

  /** Live rows under cover-letter keys stay live, except one. */
  ghost predicate LiveRowsPersist(rows: map<RowId, Row>, rows': map<RowId, Row>, gone: Option<RowId>) {
    forall id: RowId, key | Occupies(rows, id, GenerateCoverLetter, key) && gone != Some(id) ::
      Occupies(rows', id, GenerateCoverLetter, key)
  }

  lemma AttendedPersists(rows: map<RowId, Row>, apps: Table, rows': map<RowId, Row>, apps': Table)
    requires GeneratingAttended(rows, apps) && LiveRowsPersist(rows, rows', None)
    requires forall app | IsGenerating(apps', app) :: IsGenerating(apps, app) || HasLiveRow(rows', app)
    ensures GeneratingAttended(rows', apps')
  {
    forall app | IsGenerating(apps', app) ensures HasLiveRow(rows', app) {
      if IsGenerating(apps, app) {
        var id :| Occupies(rows, id, GenerateCoverLetter, Key(app));
        assert Occupies(rows', id, GenerateCoverLetter, Key(app));
      }
    }
  }

  // ----- Commits

  /** The claim is the only commit that can make an application generate, and it touches no other application. */
  lemma OnlyClaimsGenerate(apps: Table, task: Task, commit: Commit, now: int, app: AppId)
    requires AfterCommit(apps, task, commit, now).Effect?
    ensures var after := AfterCommit(apps, task, commit, now).apps;
            && after.Keys == apps.Keys
            && (IsGenerating(after, app) ==>
                  IsGenerating(apps, app) || (commit.ClaimApplication? && app == task.app))
            && (app != task.app && app in apps ==> after[app] == apps[app])
    ensures var after := AfterCommit(apps, task, commit, now).apps;
            commit.ClaimApplication? ==>
              (IsGenerating(after, task.app) <==> task.app in apps && InFlight(apps[task.app].generation))
  {
  }

  lemma CommitStrandsWhen(s: System, m: Move, s': System)
    requires SystemStep(s, m, s') && m.Commits? && GeneratingAttended(s.queue.rows, s.apps)
    ensures GeneratingAttended(s'.queue.rows, s'.apps) <==> !Strands(s, m)
  {
    var task := s.tasks[m.task];
    forall app ensures IsGenerating(s'.apps, app) ==>
                         IsGenerating(s.apps, app) || (m.commit.ClaimApplication? && app == task.app)
    {
      OnlyClaimsGenerate(s.apps, task, m.commit, m.now, app);
    }
    OnlyClaimsGenerate(s.apps, task, m.commit, m.now, task.app);
    if !Strands(s, m) {
      AttendedPersists(s.queue.rows, s.apps, s'.queue.rows, s'.apps);
    } else {
      assert IsGenerating(s'.apps, task.app);
    }
  }

  // ----- Settlements

  /** Finishing a row takes its application's only live row away. */
  lemma FinishedRowWasTheOnlyOne(rows: map<RowId, Row>, rows': map<RowId, Row>, id: RowId, app: AppId)
    requires OneLiveRowPerKey(rows) && Occupies(rows, id, GenerateCoverLetter, Key(app))
    requires rows'.Keys == rows.Keys && rows'[id].Terminal()
    requires forall other | other in rows && other != id :: rows'[other] == rows[other]
    ensures !HasLiveRow(rows', app)
    ensures LiveRowsPersist(rows, rows', Some(id))
  {
    forall other ensures !Occupies(rows', other, GenerateCoverLetter, Key(app)) {
      if Occupies(rows', other, GenerateCoverLetter, Key(app)) {
        assert Occupies(rows, other, GenerateCoverLetter, Key(app));
      }
    }
  }

  lemma OthersStayAttended(rows: map<RowId, Row>, rows': map<RowId, Row>, apps: Table, id: RowId, app: AppId)
    requires GeneratingAttended(rows, apps) && LiveRowsPersist(rows, rows', Some(id))
    requires Occupies(rows, id, GenerateCoverLetter, Key(app)) && !IsGenerating(apps, app)
    ensures GeneratingAttended(rows', apps)
  {
    forall other | IsGenerating(apps, other) ensures HasLiveRow(rows', other) {
      var live :| Occupies(rows, live, GenerateCoverLetter, Key(other));
      if live == id {
        IntentsHaveOwnKeys(CoverLetterFor(other), CoverLetterFor(app));
      }
      assert Occupies(rows', live, GenerateCoverLetter, Key(other));
    }
  }

  lemma OwnedRowWorks(s: System, t: nat)
    requires Sound(s) && t in s.tasks && Owns(s.queue.rows, s.tasks[t].row, s.tasks[t].worker)
    ensures Occupies(s.queue.rows, s.tasks[t].row, GenerateCoverLetter, Key(s.tasks[t].app))
  {
    assert WorksOn(s.queue.rows, s.tasks[t]);
    assert KeyedRow(s.queue.rows[s.tasks[t].row]);
  }

  lemma FinishStrandsWhen(s: System, m: Move, s': System)
    requires Sound(s) && SystemStep(s, m, s') && m.Settles? && !m.settlement.ReleaseRow?
    requires Owns(s.queue.rows, s.tasks[m.task].row, s.tasks[m.task].worker)
    requires GeneratingAttended(s.queue.rows, s.apps)
    ensures GeneratingAttended(s'.queue.rows, s'.apps) <==> !Strands(s, m)
  {
    var task := s.tasks[m.task];
    OwnedRowWorks(s, m.task);
    FinishedRowWasTheOnlyOne(s.queue.rows, s'.queue.rows, task.row, task.app);
    if !Strands(s, m) {
      OthersStayAttended(s.queue.rows, s'.queue.rows, s.apps, task.row, task.app);
    }
  }

  lemma SettlementStrandsWhen(s: System, m: Move, s': System)
    requires Sound(s) && SystemStep(s, m, s') && m.Settles? && GeneratingAttended(s.queue.rows, s.apps)
    ensures GeneratingAttended(s'.queue.rows, s'.apps) <==> !Strands(s, m)
  {
    var task := s.tasks[m.task];
    if Owns(s.queue.rows, task.row, task.worker) && !m.settlement.ReleaseRow? {
      FinishStrandsWhen(s, m, s');
    } else {
      AttendedPersists(s.queue.rows, s.apps, s'.queue.rows, s'.apps);
    }
  }

  // ----- All other moves

  lemma EnqueueKeepsLiveRows(q: Queue, op: Op, q': Queue)
    requires Inv(q) && op.Enqueue? && Step(q, op, q')
    ensures LiveRowsPersist(q.rows, q'.rows, None)
  {
    if SlotTaken(q.rows, op.jobType, op.key) {
      var id :| id in q.rows && Occupies(q.rows, id, op.jobType, op.key.value);
    }
  }

  lemma StatementKeepsLiveRows(q: Queue, op: Op, q': Queue)
    requires Inv(q) && Step(q, op, q') && SystemOp(q.rows, op)
    requires op.MarkDone? || op.MarkFailed? ==> LeavesCoverLetters(q.rows, op)
    ensures LiveRowsPersist(q.rows, q'.rows, None)
  {
    if op.Enqueue? {
      EnqueueKeepsLiveRows(q, op, q');
    }
  }

  lemma OtherMovesStrandNobody(s: System, m: Move, s': System)
    requires Sound(s) && SystemStep(s, m, s') && !m.Commits? && !m.Settles?
    requires GeneratingAttended(s.queue.rows, s.apps)
    ensures GeneratingAttended(s'.queue.rows, s'.apps) && !Strands(s, m)
  {
    MovesRunStatements(s, m, s');
    if QueueOp(s, m).Some? {
      StatementKeepsLiveRows(s.queue, QueueOp(s, m).value, s'.queue);
    }
    AttendedPersists(s.queue.rows, s.apps, s'.queue.rows, s'.apps);
  }

  /** One move breaks the property exactly when it claims an unattended application or finishes a generating one. */
  lemma MoveStrandsWhen(s: System, m: Move, s': System)
    requires Sound(s) && SystemStep(s, m, s') && GeneratingAttended(s.queue.rows, s.apps)
    ensures GeneratingAttended(s'.queue.rows, s'.apps) <==> !Strands(s, m)
  {
    if m.Commits? {
      CommitStrandsWhen(s, m, s');
    } else if m.Settles? {
      SettlementStrandsWhen(s, m, s');
    } else {
      OtherMovesStrandNobody(s, m, s');
    }
  }

  ghost predicate AttendedUpTo(ss: seq<System>, n: nat) {
    forall k | 0 <= k < |ss| && k <= n :: GeneratingAttended(ss[k].queue.rows, ss[k].apps)
  }

  ghost predicate StrandFree(ss: seq<System>, ms: seq<Move>, n: nat) {
    forall k | 0 <= k < |ms| && k < n && k < |ss| :: !Strands(ss[k], ms[k])
  }

  /**
   Over every run, whatever leases are stolen and whatever crashes: every
   application in `generating` has a live row at every moment up to the n-th
   exactly when none of the first n moves claims an unattended application or
   finishes the row of a generating one.
   */
  lemma {:induction false} GeneratingHasLiveRowExactly(ss: seq<System>, ms: seq<Move>, n: nat)
    requires SystemRun(ss, ms) && n < |ss|
    ensures AttendedUpTo(ss, n) <==> StrandFree(ss, ms, n)
  {
    if n > 0 {
      GeneratingHasLiveRowExactly(ss, ms, n - 1);
      RunStaysSound(ss, ms, n - 1);
      assert AttendedUpTo(ss, n) <==> AttendedUpTo(ss, n - 1) && GeneratingAttended(ss[n].queue.rows, ss[n].apps);
      assert StrandFree(ss, ms, n) <==> StrandFree(ss, ms, n - 1) && !Strands(ss[n - 1], ms[n - 1]);
      if AttendedUpTo(ss, n - 1) {
        MoveStrandsWhen(ss[n - 1], ms[n - 1], ss[n]);
      }
    }
  }

  // ----- What the repair reaches

  /** In flight, not worn out, and untouched for the grace period. */
  predicate Stalled(a: Application, now: int) {
    InFlight(a.generation) && a.generationAttempts < MAX_GENERATION_ATTEMPTS && a.updatedAt < now - GRACE
  }

  lemma StrandFreeIsAttended(ss: seq<System>, ms: seq<Move>, n: nat)
    requires SystemRun(ss, ms) && n < |ss| && StrandFree(ss, ms, n)
    ensures GeneratingAttended(ss[n].queue.rows, ss[n].apps)
  {
    GeneratingHasLiveRowExactly(ss, ms, n);
  }

  /** A stalled application that nobody works on, now or lately, is pending, and just what the cron job looks for. */
  lemma StrandedApplicationsAreOrphans(ss: seq<System>, ms: seq<Move>, n: nat, app: AppId, now: int)
    requires SystemRun(ss, ms) && n < |ss| && StrandFree(ss, ms, n)
    requires app in ss[n].apps && Stalled(ss[n].apps[app], now)
    ensures Orphan(ss[n].apps, ss[n].queue.rows, app, now)
            <==> !HasLiveRow(ss[n].queue.rows, app) && forall id :: !RecentlyCompleted(ss[n].queue.rows, id, app, now)
    ensures !HasLiveRow(ss[n].queue.rows, app) ==> ss[n].apps[app].generation.GenPending?
  {
    StrandFreeIsAttended(ss, ms, n);
    assert !HasLiveRow(ss[n].queue.rows, app) ==> !IsGenerating(ss[n].apps, app);
  }

  /**
   What the repair is for. At any moment of a run without a stranding move, let
   the cron job do its step: then not only the pending applications it looks
   for but every stalled one, generating or pending, is attended.
   */
  lemma RepairReachesEverybody(ss: seq<System>, ms: seq<Move>, n: nat, rows: map<RowId, Row>, now: int, app: AppId)
    requires SystemRun(ss, ms) && n < |ss| && StrandFree(ss, ms, n)
    requires OneLiveRowPerKey(rows) && KeepsRows(ss[n].queue.rows, rows)
    requires forall a | a in ss[n].apps && Overdue(ss[n].apps[a], now) :: Attended(rows, a, now)
    requires app in ss[n].apps && Stalled(ss[n].apps[app], now)
    ensures Attended(rows, app, now)
  {
    if ss[n].apps[app].generation.Generating? {
      StrandFreeIsAttended(ss, ms, n);
      assert IsGenerating(ss[n].apps, app);
      var id :| Occupies(ss[n].queue.rows, id, GenerateCoverLetter, Key(app));
      assert Occupies(rows, id, GenerateCoverLetter, Key(app));
      OneLiveRow(rows, app);
    }
  }

  // ----- Who may act without looking

  /** The task of the row's latest claim, still holding the lease. */
  predicate Latest(rows: map<RowId, Row>, t: Task) {
    Owns(rows, t.row, t.worker) && rows[t.row].attempts == t.attempts
  }

  /** The next thing such a task does is to end its row. */
  predicate EndsNext(t: Task) {
    t.stage.AtDone? || t.stage.AtFailed?
  }

  /** A lease holder about to end its row leaves no application generating. */
  ghost predicate HoldersEndQuietly(tasks: map<nat, Task>, rows: map<RowId, Row>, apps: Table) {
    forall t | t in tasks && Latest(rows, tasks[t]) && EndsNext(tasks[t]) :: !IsGenerating(apps, tasks[t].app)
  }

  /** The state between any two moves of a run in which nobody is stranded and nobody is about to be. */
  ghost predicate Kept(s: System) {
    && Sound(s)
    && GeneratingAttended(s.queue.rows, s.apps)
    && HoldersEndQuietly(s.tasks, s.queue.rows, s.apps)
  }

  /** The lease holder that is about to end the row under which a claim of its application comes. */
  predicate EndsUnder(s: System, claiming: nat, u: nat) {
    && claiming in s.tasks && u in s.tasks && u != claiming && s.tasks[u].app == s.tasks[claiming].app
    && Latest(s.queue.rows, s.tasks[u]) && EndsNext(s.tasks[u])
  }

  /** A pending application is claimed while the lease holder is about to end its row. */
  ghost predicate ClaimsBeforeTheEnd(s: System, m: Move) {
    && m.Commits? && m.commit.ClaimApplication? && m.task in s.tasks
    && s.tasks[m.task].app in s.apps && s.apps[s.tasks[m.task].app].generation.GenPending?
    && exists u :: EndsUnder(s, m.task, u)
  }

  /** The guard of the two branches that can fail; every other move, a stolen lease included, is safe. */
  ghost predicate Safe(s: System, m: Move) {
    !Strands(s, m) && !ClaimsBeforeTheEnd(s, m)
  }

  lemma EndsAreQuiet(apps: Table, task: Task, commit: Commit, now: int)
    requires AfterCommit(apps, task, commit, now).Effect?
    ensures var after := AfterCommit(apps, task, commit, now);
            EndsNext(task.(stage := after.stage)) ==> !IsGenerating(after.apps, task.app)
  {
  }

  lemma CommitEndsQuietlyWhen(s: System, m: Move, s': System)
    requires SystemStep(s, m, s') && m.Commits? && HoldersEndQuietly(s.tasks, s.queue.rows, s.apps)
    ensures HoldersEndQuietly(s'.tasks, s'.queue.rows, s'.apps) <==> !ClaimsBeforeTheEnd(s, m)
  {
    var task := s.tasks[m.task];
    EndsAreQuiet(s.apps, task, m.commit, m.now);
    OnlyClaimsGenerate(s.apps, task, m.commit, m.now, task.app);
    if ClaimsBeforeTheEnd(s, m) {
      var u :| EndsUnder(s, m.task, u);
      assert s'.tasks[u] == s.tasks[u] && IsGenerating(s'.apps, task.app);
    } else {
      forall u | u in s'.tasks && u != m.task && Latest(s'.queue.rows, s'.tasks[u]) && EndsNext(s'.tasks[u])
        ensures !IsGenerating(s'.apps, s'.tasks[u].app)
      {
        OnlyClaimsGenerate(s.apps, task, m.commit, m.now, s.tasks[u].app);
        assert s.tasks[u].app == task.app ==> EndsUnder(s, m.task, u);
      }
    }
  }

  /** Only a claim makes somebody the holder of a row. */
  lemma HoldersHeldBefore(q: Queue, op: Op, q': Queue, id: RowId, worker: WorkerId)
    requires Inv(q) && Step(q, op, q') && id < q.nextId && Owns(q'.rows, id, worker)
    ensures id in q.rows
    ensures if op.Claim? && op.picked == Some(id) then q'.rows[id].attempts == q.rows[id].attempts + 1
            else Owns(q.rows, id, worker) && q'.rows[id].attempts == q.rows[id].attempts
  {
    if op.Enqueue? && SlotTaken(q.rows, op.jobType, op.key) {
      var other :| other in q.rows && Occupies(q.rows, other, op.jobType, op.key.value);
    }
  }

  /** Whoever is the latest claimant after a statement and was a task before, was it before. */
  lemma LatestWasLatest(q: Queue, op: Op, q': Queue, t: Task)
    requires Inv(q) && Step(q, op, q') && t.row < q.nextId && WorksOn(q.rows, t) && Latest(q'.rows, t)
    ensures Latest(q.rows, t)
  {
    HoldersHeldBefore(q, op, q', t.row, t.worker);
  }

  lemma OtherMovesEndQuietly(s: System, m: Move, s': System)
    requires Sound(s) && SystemStep(s, m, s') && !m.Commits?
    requires HoldersEndQuietly(s.tasks, s.queue.rows, s.apps)
    ensures HoldersEndQuietly(s'.tasks, s'.queue.rows, s'.apps) && !ClaimsBeforeTheEnd(s, m)
  {
    MovesRunStatements(s, m, s');
    forall t | t in s'.tasks && Latest(s'.queue.rows, s'.tasks[t]) && EndsNext(s'.tasks[t])
      ensures !IsGenerating(s'.apps, s'.tasks[t].app)
    {
      assert t in s.tasks && s.tasks[t] == s'.tasks[t] && WorksOn(s.queue.rows, s.tasks[t]);
      if QueueOp(s, m).Some? {
        LatestWasLatest(s.queue, QueueOp(s, m).value, s'.queue, s.tasks[t]);
      }
    }
  }

  /** For every move of every task, whoever holds the leases: the state is kept exactly when the move is safe. */
  lemma KeptExactlyBySafeMoves(s: System, m: Move, s': System)
    requires Kept(s) && SystemStep(s, m, s')
    ensures Kept(s') <==> Safe(s, m)
  {
    SoundnessIsKept(s, m, s');
    MoveStrandsWhen(s, m, s');
    if m.Commits? {
      CommitEndsQuietlyWhen(s, m, s');
    } else {
      OtherMovesEndQuietly(s, m, s');
    }
  }

  ghost predicate SafeUpTo(ss: seq<System>, ms: seq<Move>, n: nat) {
    forall k | 0 <= k < |ms| && k < n && k < |ss| :: Safe(ss[k], ms[k])
  }

  lemma {:induction false} SafeRunsAreKept(ss: seq<System>, ms: seq<Move>, n: nat)
    requires SystemRun(ss, ms) && n < |ss| && SafeUpTo(ss, ms, n)
    ensures Kept(ss[n])
  {
    if n > 0 {
      SafeRunsAreKept(ss, ms, n - 1);
      KeptExactlyBySafeMoves(ss[n - 1], ms[n - 1], ss[n]);
    }
  }

  ghost predicate KeptUpTo(ss: seq<System>, n: nat) {
    forall k | 0 <= k < |ss| && k <= n :: Kept(ss[k])
  }

  /** Over every run: the state is kept at every moment exactly when every move is safe. */
  lemma {:induction false} KeptExactlyOverRuns(ss: seq<System>, ms: seq<Move>, n: nat)
    requires SystemRun(ss, ms) && n < |ss|
    ensures KeptUpTo(ss, n) <==> SafeUpTo(ss, ms, n)
  {
    if n > 0 {
      KeptExactlyOverRuns(ss, ms, n - 1);
      assert KeptUpTo(ss, n) <==> KeptUpTo(ss, n - 1) && Kept(ss[n]);
      assert SafeUpTo(ss, ms, n) <==> SafeUpTo(ss, ms, n - 1) && Safe(ss[n - 1], ms[n - 1]);
      if KeptUpTo(ss, n - 1) {
        assert Kept(ss[n - 1]);
        KeptExactlyBySafeMoves(ss[n - 1], ms[n - 1], ss[n]);
      }
    } else {
      SafeRunsAreKept(ss, ms, 0);
    }
  }

  /** Over every run of safe moves, stolen leases included, a generating application has a live row. */
  lemma GeneratingHasLiveRow(ss: seq<System>, ms: seq<Move>, n: nat, app: AppId)
    requires SystemRun(ss, ms) && n < |ss| && SafeUpTo(ss, ms, n)
    requires IsGenerating(ss[n].apps, app)
    ensures HasLiveRow(ss[n].queue.rows, app)
  {
    SafeRunsAreKept(ss, ms, n);
  }

  // ----- Two simple disciplines that make every move safe

  /** Only the task of a row's latest claim claims the application or ends the row. */
  predicate LatestActs(s: System, m: Move) {
    match m
    case Commits(t, commit, _) => t in s.tasks && commit.ClaimApplication? ==> Latest(s.queue.rows, s.tasks[t])
    case Settles(t, settlement, _) =>
      t in s.tasks && !settlement.ReleaseRow? && Owns(s.queue.rows, s.tasks[t].row, s.tasks[t].worker) ==>
        Latest(s.queue.rows, s.tasks[t])
    case _ => true
  }

  /** Lease holders of one application are one task. */
  lemma OneHolderPerApplication(s: System, t: nat, u: nat)
    requires Sound(s) && t in s.tasks && u in s.tasks && s.tasks[t].app == s.tasks[u].app
    requires Latest(s.queue.rows, s.tasks[t]) && Latest(s.queue.rows, s.tasks[u])
    ensures t == u
  {
    OwnedRowWorks(s, t);
    OwnedRowWorks(s, u);
  }

  lemma LatestActsSafely(s: System, m: Move, s': System)
    requires Kept(s) && SystemStep(s, m, s') && LatestActs(s, m)
    ensures Safe(s, m)
  {
    if m.Commits? && m.commit.ClaimApplication? {
      OwnedRowWorks(s, m.task);
      forall u | EndsUnder(s, m.task, u) ensures false {
        OneHolderPerApplication(s, m.task, u);
      }
    }
  }

  ghost predicate LatestActUpTo(ss: seq<System>, ms: seq<Move>, n: nat) {
    forall k | 0 <= k < |ms| && k < n && k < |ss| :: LatestActs(ss[k], ms[k])
  }

  lemma OneMoreSafe(ss: seq<System>, ms: seq<Move>, n: nat)
    requires 0 < n <= |ms| < |ss| && SafeUpTo(ss, ms, n - 1) && Safe(ss[n - 1], ms[n - 1])
    ensures SafeUpTo(ss, ms, n)
  {
  }

  /** A run in which only latest claimants claim applications and end rows is safe, whatever leases are stolen. */
  lemma {:induction false} LatestClaimantsSuffice(ss: seq<System>, ms: seq<Move>, n: nat)
    requires SystemRun(ss, ms) && n < |ss| && LatestActUpTo(ss, ms, n)
    ensures SafeUpTo(ss, ms, n)
  {
    if n > 0 {
      LatestClaimantsSuffice(ss, ms, n - 1);
      SafeRunsAreKept(ss, ms, n - 1);
      LatestActsSafely(ss[n - 1], ms[n - 1], ss[n]);
      OneMoreSafe(ss, ms, n);
    }
  }

  /** The row being claimed has no task left that still acts on it. */
  ghost predicate OldHolderStopped(s: System, m: Move) {
    m.ClaimRow? && m.op.Claim? && m.op.picked.Some? ==>
      forall t | t in s.tasks :: s.tasks[t].row != m.op.picked.value
  }

  ghost predicate AllLatest(s: System) {
    forall t | t in s.tasks :: Latest(s.queue.rows, s.tasks[t])
  }

  /** A live cover-letter row is only changed by its claim or its settlement. */
  lemma StatementsLeaveOtherRows(q: Queue, op: Op, q': Queue, id: RowId)
    requires Inv(q) && Step(q, op, q') && SystemOp(q.rows, op)
    requires id in q.rows && q.rows[id].status.InProgress? && q.rows[id].jobType.GenerateCoverLetter?
    requires op.Claim? ==> op.picked != Some(id)
    requires op.MarkDone? || op.MarkFailed? || op.Release? ==> op.id != id
    ensures id in q'.rows && q'.rows[id] == q.rows[id]
  {
    if op.Enqueue? && SlotTaken(q.rows, op.jobType, op.key) {
      var other :| other in q.rows && Occupies(q.rows, other, op.jobType, op.key.value);
    }
  }

  lemma LatestHaveOwnRows(s: System, t: nat, u: nat)
    requires Sound(s) && AllLatest(s) && t in s.tasks && u in s.tasks && t != u
    ensures s.tasks[t].row != s.tasks[u].row
  {
    assert Latest(s.queue.rows, s.tasks[t]) && Latest(s.queue.rows, s.tasks[u]);
  }

  /** The statement of a move leaves the row of every other task alone. */
  lemma MovesLeaveOtherTasks(s: System, m: Move, s': System, t: nat)
    requires Sound(s) && AllLatest(s) && SystemStep(s, m, s') && OldHolderStopped(s, m)
    requires t in s.tasks && t in s'.tasks && QueueOp(s, m).Some?
    ensures var row := s.tasks[t].row;
            row in s.queue.rows && row in s'.queue.rows && s'.queue.rows[row] == s.queue.rows[row]
  {
    MovesRunStatements(s, m, s');
    assert Latest(s.queue.rows, s.tasks[t]) && WorksOn(s.queue.rows, s.tasks[t]);
    if m.Settles? {
      LatestHaveOwnRows(s, t, m.task);
    }
    StatementsLeaveOtherRows(s.queue, QueueOp(s, m).value, s'.queue, s.tasks[t].row);
  }

  lemma OldTasksStayLatest(s: System, m: Move, s': System, t: nat)
    requires Sound(s) && AllLatest(s) && SystemStep(s, m, s') && OldHolderStopped(s, m)
    requires t in s.tasks && t in s'.tasks
    ensures Latest(s'.queue.rows, s'.tasks[t])
  {
    assert Latest(s.queue.rows, s.tasks[t]);
    if QueueOp(s, m).Some? {
      MovesLeaveOtherTasks(s, m, s', t);
    }
  }

  lemma NewTasksAreLatest(s: System, m: Move, s': System, t: nat)
    requires SystemStep(s, m, s') && t !in s.tasks && t in s'.tasks
    ensures Latest(s'.queue.rows, s'.tasks[t])
  {
  }

  lemma StoppedHoldersStayLatest(s: System, m: Move, s': System)
    requires Sound(s) && AllLatest(s) && SystemStep(s, m, s') && OldHolderStopped(s, m)
    ensures AllLatest(s')
  {
    forall t: nat | t in s'.tasks ensures Latest(s'.queue.rows, s'.tasks[t]) {
      if t in s.tasks {
        OldTasksStayLatest(s, m, s', t);
      } else {
        NewTasksAreLatest(s, m, s', t);
      }
    }
  }

  ghost predicate StoppedUpTo(ss: seq<System>, ms: seq<Move>, n: nat) {
    forall k | 0 <= k < |ms| && k < n && k < |ss| :: OldHolderStopped(ss[k], ms[k])
  }

  lemma {:induction false} StoppedHoldersAreLatest(ss: seq<System>, ms: seq<Move>, n: nat)
    requires SystemRun(ss, ms) && n < |ss| && StoppedUpTo(ss, ms, n)
    ensures AllLatest(ss[n])
  {
    if n > 0 {
      StoppedHoldersAreLatest(ss, ms, n - 1);
      RunStaysSound(ss, ms, n - 1);
      StoppedHoldersStayLatest(ss[n - 1], ms[n - 1], ss[n]);
    }
  }

  /** A run in which a lease is reclaimed only after its old holder stopped is one of them. */
  lemma StoppedHoldersSuffice(ss: seq<System>, ms: seq<Move>, n: nat)
    requires SystemRun(ss, ms) && n < |ss| && StoppedUpTo(ss, ms, n)
    ensures LatestActUpTo(ss, ms, n)
  {
    forall k | 0 <= k < |ms| && k < n && k < |ss| ensures LatestActs(ss[k], ms[k]) {
      StoppedHoldersAreLatest(ss, ms, k);
    }
  }
}
