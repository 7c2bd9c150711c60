/**
 The worker process: what one dispatched job does to its row, and how often
 handlers start across all workers.
 */
module Worker {
  import opened Prelude
  import opened WorkQueues
  import Decimals

  datatype Settings = Settings(
    backoffBase: nat,
    backoffMax: nat,
    unknownTypeBackoff: nat,
    markDoneRetryBackoff: nat)

  /** max_attempts of the registered handler; None for an unregistered job type. */
  function MaxAttempts(t: JobType): Option<nat> {
    match t
    case Maintenance => Some(2)
    case Other(_) => None
    case _ => Some(5)
  }

  function PowerOfTwo(n: nat): (p: nat)
    ensures p >= 1
  {
    if n == 0 then 1 else 2 * PowerOfTwo(n - 1)
  }

  /** Exponential backoff plus up to half a base of jitter, cut off at the maximum. */
  function ComputeBackoff(attempts: nat, settings: Settings, jitter: real): (seconds: int)
    requires 0.0 <= jitter <= settings.backoffBase as real / 2.0
    ensures var floor := settings.backoffBase * PowerOfTwo(Max(attempts - 1, 0));
            Min(floor, settings.backoffMax) <= seconds <= Min(floor + settings.backoffBase / 2, settings.backoffMax)
  {
    var floor := settings.backoffBase * PowerOfTwo(Max(attempts - 1, 0));
    var raw := floor as real + jitter;
    assert raw.Floor == floor + jitter.Floor by {
      assert jitter.Floor as real <= jitter < jitter.Floor as real + 1.0;
    }
    assert jitter.Floor <= settings.backoffBase / 2 by {
      assert 2.0 * jitter <= settings.backoffBase as real;
      assert 2 * jitter.Floor <= settings.backoffBase;
    }
    Min(raw.Floor, settings.backoffMax)
  }

  datatype EnqueueAfterDone = EnqueueAfterDone(jobType: JobType, payload: Payload, key: Option<string>,
                                               delay: Option<int>)

  /** How the handler body ended. */
  datatype HandlerOutcome =
    | Returned(followUp: Option<EnqueueAfterDone>)
    | Transient(retryAfter: Option<nat>)
    | Raised(error: string)

  /** Transactions that fail although the lease is still held. */
  datatype Faults = Faults(hook: bool, markFailed: bool, markDone: bool, release: bool) {
    /** The hook or the failure that was to follow it did not go through. */
    predicate Terminal() {
      hook || markFailed
    }
  }

  function NotBefore(f: EnqueueAfterDone, now: int): Option<int> {
    if f.delay.Some? then Some(now + f.delay.value) else None
  }

  /** The handler body runs. */
  predicate Starts(job: Row) {
    MaxAttempts(job.jobType).Some? && job.attempts <= MaxAttempts(job.jobType).value
  }

  /** mark_done and the follow-up's upsert in one transaction; nothing at all when the lease is gone. */
  ghost predicate Completed(q: Queue, id: RowId, worker: WorkerId, followUp: Option<EnqueueAfterDone>, now: int,
                            q': Queue) {
    if followUp.None? || !Owns(q.rows, id, worker) then
      Step(q, Op.MarkDone(id, worker, now), q')
    else
      var f := followUp.value;
      exists mid ::
        && Step(q, Op.MarkDone(id, worker, now), mid)
        && Step(mid, Op.Enqueue(f.jobType, f.payload, f.key, UpsertResetNotBefore, NotBefore(f, now), now), q')
  }

  /** A failed transaction sends the row back, unless that fails too. */
  ghost predicate SentBack(q: Queue, id: RowId, worker: WorkerId, seconds: int, faults: Faults, now: int, q': Queue) {
    if faults.release then q' == q else Step(q, Release(id, worker, seconds, now), q')
  }

  method SendBack(queue: WorkQueue, id: RowId, worker: WorkerId, seconds: int, faults: Faults, now: int)
    requires queue.Valid()
    modifies queue
    ensures queue.Valid() && SentBack(old(queue.State()), id, worker, seconds, faults, now, queue.State())
  {
    if !faults.release {
      var _ := queue.ReleaseWithBackoff(id, worker, seconds, now);
    }
  }

  /** How long a transient failure sends the job back for. */
  function RetryDelay(job: Row, settings: Settings, retryAfter: Option<nat>, jitter: real): int
    requires 0.0 <= jitter <= settings.backoffBase as real / 2.0
  {
    if retryAfter.Some? && retryAfter.value != 0 then retryAfter.value
    else ComputeBackoff(job.attempts, settings, jitter)
  }

  function ExhaustedError(limit: nat): string {
    "max_attempts (" + Decimals.Decimal(limit) + ") exceeded"
  }

  /** The terminal hook has its own transaction; mark_failed runs only when it succeeded. */
  ghost predicate FailedTerminally(q: Queue, id: RowId, worker: WorkerId, error: string, settings: Settings,
                                   faults: Faults, now: int, q': Queue) {
    if faults.Terminal() then SentBack(q, id, worker, settings.backoffMax, faults, now, q')
    else Step(q, Op.MarkFailed(id, worker, error, now), q')
  }

  method TerminalFailure(queue: WorkQueue, id: RowId, worker: WorkerId, error: string, settings: Settings,
                         faults: Faults, now: int)
    requires queue.Valid()
    modifies queue
    ensures queue.Valid()
    ensures FailedTerminally(old(queue.State()), id, worker, error, settings, faults, now, queue.State())
  {
    if faults.Terminal() {
      SendBack(queue, id, worker, settings.backoffMax, faults, now);
    } else {
      var result := queue.MarkFailed(id, worker, error, now);
      if result.StaleLease? && !faults.release {
        var _ := queue.ReleaseWithBackoff(id, worker, settings.backoffMax, now);
      }
    }
  }

  /** What one dispatched job leaves when nobody else acts between its transactions. */
  ghost predicate Handled(q: Queue, id: RowId, job: Row, worker: WorkerId, settings: Settings, outcome: HandlerOutcome,
                          faults: Faults, jitter: real, now: int, q': Queue)
    requires 0.0 <= jitter <= settings.backoffBase as real / 2.0
  {
    if MaxAttempts(job.jobType).None? then SentBack(q, id, worker, settings.unknownTypeBackoff, faults, now, q')
    else if !Starts(job) then
      FailedTerminally(q, id, worker, ExhaustedError(MaxAttempts(job.jobType).value), settings, faults, now, q')
    else
      match outcome
      case Transient(retryAfter) =>
        SentBack(q, id, worker, RetryDelay(job, settings, retryAfter, jitter), faults, now, q')
      case Raised(error) => FailedTerminally(q, id, worker, error, settings, faults, now, q')
      case Returned(followUp) =>
        if faults.markDone then SentBack(q, id, worker, settings.markDoneRetryBackoff, faults, now, q')
        else Completed(q, id, worker, followUp, now, q')
  }

  // ----- The same, column by column

  /** Pending again, claimed by nobody, attempts untouched, and not to be claimed before `at`. */
  predicate WaitsUntil(before: Row, after: Row, at: int) {
    after == before.(status := Pending, claimedAt := None, claimedBy := None, notBefore := Some(at))
  }

  /** Failed for good, with the beginning of the error. */
  predicate FailedWith(before: Row, after: Row, error: string, now: int) {
    after == before.(status := Failed, completedAt := Some(now), claimedBy := None,
                     lastError := Some(if |error| <= 8000 then error else error[..8000]))
  }

  predicate FinishedAt(before: Row, after: Row, now: int) {
    after == before.(status := Done, completedAt := Some(now), claimedBy := None, lastError := None)
  }

  /** A row other than id does the follow-up: it runs already, or waits as the follow-up says. */
  ghost predicate FollowedUp(rows: map<RowId, Row>, id: RowId, f: EnqueueAfterDone, now: int) {
    exists other | other in rows && other != id ::
      && rows[other].jobType == f.jobType && rows[other].dedupeKey == f.key
      && (rows[other].status == InProgress
          || (rows[other].status == Pending && rows[other].payload == f.payload
              && rows[other].notBefore == if f.delay.Some? then Some(now + f.delay.value) else None))
  }

  /** At most five attempts, two for maintenance; other kinds of work have no handler. */
  predicate MayStart(job: Row) {
    !job.jobType.Other? && job.attempts <= if job.jobType.Maintenance? then 2 else 5
  }

  /**
   The row of a job whose worker still holds the lease, when giving it back does
   not fail: how long it waits, and why, or how it ended.
   */
  ghost predicate JobLeaves(before: Row, rows: map<RowId, Row>, id: RowId, job: Row, settings: Settings,
                            outcome: HandlerOutcome, faults: Faults, now: int) {
    && id in rows
    && (job.jobType.Other? ==> WaitsUntil(before, rows[id], now + settings.unknownTypeBackoff))
    && (!job.jobType.Other? && (!MayStart(job) || outcome.Raised?) ==>
          if faults.hook || faults.markFailed then WaitsUntil(before, rows[id], now + settings.backoffMax)
          else FailedWith(before, rows[id],
                          if MayStart(job) then outcome.error
                          else if job.jobType.Maintenance? then "max_attempts (2) exceeded"
                          else "max_attempts (5) exceeded", now))
    && (MayStart(job) && outcome.Transient? ==>
          if outcome.retryAfter.Some? && outcome.retryAfter.value > 0 then
            WaitsUntil(before, rows[id], now + outcome.retryAfter.value)
          else BacksOff(before, rows[id], job.attempts, settings, now))
    && (MayStart(job) && outcome.Returned? ==>
          if faults.markDone then WaitsUntil(before, rows[id], now + settings.markDoneRetryBackoff)
          else FinishedAt(before, rows[id], now)
               && (outcome.followUp.Some? ==> FollowedUp(rows, id, outcome.followUp.value, now)))
  }

  /**
   Waits a base, doubled for every attempt after the first, and up to half a base
   more, but never over the maximum.
   */
  predicate BacksOff(before: Row, after: Row, attempts: nat, settings: Settings, now: int) {
    var floor := settings.backoffBase * PowerOfTwo(Max(attempts - 1, 0));
    && after.notBefore.Some? && WaitsUntil(before, after, after.notBefore.value)
    && now + Min(floor, settings.backoffMax) <= after.notBefore.value
    && after.notBefore.value <= now + Min(floor + settings.backoffBase / 2, settings.backoffMax)
  }

  /** Without jitter the first wait is the base, and every further one twice the one before, up to the maximum. */
  lemma BackoffDoubles(attempts: nat, settings: Settings)
    requires attempts >= 1
    ensures ComputeBackoff(1, settings, 0.0) == Min(settings.backoffBase, settings.backoffMax)
    ensures ComputeBackoff(attempts + 1, settings, 0.0)
            == Min(2 * ComputeBackoff(attempts, settings, 0.0), settings.backoffMax)
  {
    var floor := settings.backoffBase * PowerOfTwo(attempts - 1);
    assert settings.backoffBase * PowerOfTwo(attempts) == 2 * floor;
    assert (floor as real).Floor == floor;
    assert ((2 * floor) as real).Floor == 2 * floor;
  }

  lemma LimitsSpelledOut()
    ensures ExhaustedError(2) == "max_attempts (2) exceeded" && ExhaustedError(5) == "max_attempts (5) exceeded"
  {
    assert Decimals.Decimal(2) == "2" && Decimals.Decimal(5) == "5";
  }

  lemma FailureIsRecorded(q: Queue, id: RowId, worker: WorkerId, error: string, now: int, q': Queue)
    requires Owns(q.rows, id, worker) && Step(q, Op.MarkFailed(id, worker, error, now), q')
    ensures id in q'.rows && FailedWith(q.rows[id], q'.rows[id], error, now)
  {
    assert error[..|error|] == error;
  }

  lemma FollowUpStands(q: Queue, id: RowId, worker: WorkerId, f: EnqueueAfterDone, now: int, q': Queue)
    requires Inv(q) && Owns(q.rows, id, worker) && Completed(q, id, worker, Some(f), now, q')
    ensures id in q'.rows && FinishedAt(q.rows[id], q'.rows[id], now) && FollowedUp(q'.rows, id, f, now)
  {
    var op := Op.Enqueue(f.jobType, f.payload, f.key, UpsertResetNotBefore, NotBefore(f, now), now);
    var mid :| Step(q, Op.MarkDone(id, worker, now), mid) && Step(mid, op, q');
    if SlotTaken(mid.rows, f.jobType, f.key) {
      var other :| other in mid.rows && Occupies(mid.rows, other, f.jobType, f.key.value);
      assert other in q'.rows && other != id;
    } else {
      assert mid.nextId in q'.rows && mid.nextId != id;
    }
  }

  /** What a job leaves, whatever its handler did. */
  lemma JobLeavesRow(q: Queue, id: RowId, job: Row, worker: WorkerId, settings: Settings, outcome: HandlerOutcome,
                     faults: Faults, jitter: real, now: int, q': Queue)
    requires 0.0 <= jitter <= settings.backoffBase as real / 2.0
    requires Inv(q) && Handled(q, id, job, worker, settings, outcome, faults, jitter, now, q')
    requires Owns(q.rows, id, worker) && !faults.release
    ensures JobLeaves(q.rows[id], q'.rows, id, job, settings, outcome, faults, now)
  {
    LimitsSpelledOut();
    if !job.jobType.Other? && (!MayStart(job) || outcome.Raised?) && !faults.hook && !faults.markFailed {
      var error := if MayStart(job) then outcome.error else ExhaustedError(MaxAttempts(job.jobType).value);
      FailureIsRecorded(q, id, worker, error, now, q');
    }
    if MayStart(job) && outcome.Returned? && outcome.followUp.Some? && !faults.markDone {
      FollowUpStands(q, id, worker, outcome.followUp.value, now, q');
    }
    if MayStart(job) && outcome.Transient? {
      assert WaitsUntil(q.rows[id], q'.rows[id], now + RetryDelay(job, settings, outcome.retryAfter, jitter));
    }
  }

  /** One dispatched job from its claim snapshot to the settlement of its row. */
  method HandleOne(queue: WorkQueue, id: RowId, job: Row, worker: WorkerId, settings: Settings,
                   outcome: HandlerOutcome, faults: Faults, jitter: real, now: int) returns (started: bool)
    requires queue.Valid()
    requires 0.0 <= jitter <= settings.backoffBase as real / 2.0
    modifies queue
    ensures queue.Valid()
    ensures started <==> MayStart(job)
    ensures !Owns(old(queue.rows), id, worker) ==> queue.State() == old(queue.State())
    ensures Owns(old(queue.rows), id, worker) && !faults.release ==>
              JobLeaves(old(queue.rows)[id], queue.rows, id, job, settings, outcome, faults, now)
    ensures Handled(old(queue.State()), id, job, worker, settings, outcome, faults, jitter, now, queue.State())
  {
    ghost var q := queue.State();
    var limit := MaxAttempts(job.jobType);
    started := limit.Some? && job.attempts <= limit.value;
    if limit.None? {
      SendBack(queue, id, worker, settings.unknownTypeBackoff, faults, now);
    } else if job.attempts > limit.value {
      TerminalFailure(queue, id, worker, ExhaustedError(limit.value), settings, faults, now);
    } else {
      Settle(queue, id, job, worker, settings, outcome, faults, jitter, now);
    }
    if Owns(q.rows, id, worker) && !faults.release {
      JobLeavesRow(q, id, job, worker, settings, outcome, faults, jitter, now, queue.State());
    }
  }

  /** After the handler body: by its outcome. */
  method Settle(queue: WorkQueue, id: RowId, job: Row, worker: WorkerId, settings: Settings, outcome: HandlerOutcome,
                faults: Faults, jitter: real, now: int)
    requires queue.Valid() && Starts(job)
    requires 0.0 <= jitter <= settings.backoffBase as real / 2.0
    modifies queue
    ensures queue.Valid()
    ensures !Owns(old(queue.rows), id, worker) ==> queue.State() == old(queue.State())
    ensures Handled(old(queue.State()), id, job, worker, settings, outcome, faults, jitter, now, queue.State())
  {
    match outcome
    case Transient(retryAfter) =>
      SendBack(queue, id, worker, RetryDelay(job, settings, retryAfter, jitter), faults, now);
    case Raised(error) =>
      TerminalFailure(queue, id, worker, error, settings, faults, now);
    case Returned(followUp) =>
      Complete(queue, id, worker, followUp, settings, faults, now);
  }

  /** mark_done and the follow-up in one transaction; sent back when that fails. */
  method Complete(queue: WorkQueue, id: RowId, worker: WorkerId, followUp: Option<EnqueueAfterDone>, settings: Settings,
                  faults: Faults, now: int)
    requires queue.Valid()
    modifies queue
    ensures queue.Valid()
    ensures if faults.markDone
            then SentBack(old(queue.State()), id, worker, settings.markDoneRetryBackoff, faults, now, queue.State())
            else Completed(old(queue.State()), id, worker, followUp, now, queue.State())
  {
    if faults.markDone {
      SendBack(queue, id, worker, settings.markDoneRetryBackoff, faults, now);
      return;
    }
    var result := queue.MarkDone(id, worker, now);
    if result.Applied? && followUp.Some? {
      ghost var mid := queue.State();
      var f := followUp.value;
      var _ := queue.Enqueue(f.jobType, f.payload, f.key, UpsertResetNotBefore, NotBefore(f, now), now);
    } else if result.StaleLease? && !faults.release {
      var _ := queue.ReleaseWithBackoff(id, worker, settings.markDoneRetryBackoff, now);
    }
  }

  // ----- How often handlers start

  /** A claimed job handed to a worker, with the attempts column of its claim. */
  datatype Task = Task(row: RowId, jobType: JobType, worker: WorkerId, attempt: nat)

  datatype Fleet = Fleet(queue: Queue, dispatched: set<Task>, started: seq<Task>)

  const IDLE_FLEET: Fleet := Fleet(EMPTY_QUEUE, {}, [])

  /** A statement, the start of a dispatched task's handler, or the end of a task that never starts. */
  datatype Move = Statement(op: Op) | Start(task: Task) | Drop(task: Task)

  ghost predicate FleetStep(f: Fleet, m: Move, f': Fleet) {
    match m
    case Statement(op) =>
      && Step(f.queue, op, f'.queue) && f'.started == f.started
      && f'.dispatched == f.dispatched
           + (if op.Claim? && op.picked.Some? && op.picked.value in f'.queue.rows then
                var r := f'.queue.rows[op.picked.value];
                {Task(op.picked.value, r.jobType, op.worker, r.attempts)}
              else {})
    case Start(t) =>
      && t in f.dispatched
      && MaxAttempts(t.jobType).Some? && t.attempt <= MaxAttempts(t.jobType).value
      && f' == f.(dispatched := f.dispatched - {t}, started := f.started + [t])
    case Drop(t) => f' == f.(dispatched := f.dispatched - {t})
  }

  ghost predicate FleetRun(fs: seq<Fleet>, ms: seq<Move>) {
    && |fs| == |ms| + 1
    && fs[0] == IDLE_FLEET
    && forall k | 0 <= k < |ms| :: FleetStep(fs[k], ms[k], fs[k + 1])
  }

  ghost predicate Known(f: Fleet, t: Task) {
    t in f.dispatched || t in f.started
  }

  /** One task per claim: tasks of a row carry different attempt numbers, and none starts twice. */
  ghost predicate FleetInv(f: Fleet) {
    && Inv(f.queue)
    && (forall t | Known(f, t) ::
          && t.row < f.queue.nextId && 1 <= t.attempt <= Claims(f.queue.log, t.row)
          && (t.row in f.queue.rows ==> f.queue.rows[t.row].jobType == t.jobType))
    && (forall t, u | Known(f, t) && Known(f, u) && t.row == u.row ::
          t.jobType == u.jobType && (t.attempt == u.attempt ==> t == u))
    && (forall t | t in f.dispatched :: t !in f.started)
    && Distinct(f.started)
    && (forall t | t in f.started :: MaxAttempts(t.jobType).Some? && t.attempt <= MaxAttempts(t.jobType).value)
  }

  /** A statement neither loses claims nor renames the job type of a row. */
  lemma StatementKeepsHistory(q: Queue, op: Op, q': Queue)
    requires Inv(q) && Step(q, op, q')
    ensures q.nextId <= q'.nextId
    ensures forall id :: Claims(q'.log, id) >= Claims(q.log, id)
    ensures op.Claim? && op.picked.Some? ==> Claims(q'.log, op.picked.value) == Claims(q.log, op.picked.value) + 1
    ensures forall id | id in q'.rows && id < q.nextId :: id in q.rows && q'.rows[id].jobType == q.rows[id].jobType
  {
    if op.Enqueue? && SlotTaken(q.rows, op.jobType, op.key) {
      var other :| other in q.rows && Occupies(q.rows, other, op.jobType, op.key.value);
    }
    if |q'.log| > |q.log| {
      forall id {
        Append(q.log, q'.log[|q.log|], id);
      }
    }
  }

  lemma StatementKeepsFleetInv(f: Fleet, op: Op, f': Fleet)
    requires FleetInv(f) && FleetStep(f, Statement(op), f')
    ensures FleetInv(f')
  {
    StepKeepsInv(f.queue, op, f'.queue);
    StatementKeepsHistory(f.queue, op, f'.queue);
    if op.Claim? && op.picked.Some? {
      var row := op.picked.value;
      var r := f'.queue.rows[row];
      var added := Task(row, r.jobType, op.worker, r.attempts);
      assert r.attempts == Claims(f'.queue.log, row) && r.jobType == f.queue.rows[row].jobType;
      assert forall t :: Known(f', t) <==> Known(f, t) || t == added;
      assert !Known(f, added);
    } else {
      assert forall t :: Known(f', t) <==> Known(f, t);
    }
  }

  lemma FleetStepKeepsInv(f: Fleet, m: Move, f': Fleet)
    requires FleetInv(f) && FleetStep(f, m, f')
    ensures FleetInv(f')
  {
    match m
    case Statement(op) => StatementKeepsFleetInv(f, op, f');
    case Start(t) =>
      assert Known(f, t);
      assert forall u :: Known(f', u) <==> Known(f, u);
    case Drop(t) =>
      assert forall u :: Known(f', u) ==> Known(f, u);
  }

  lemma {:induction false} FleetRunKeepsInv(fs: seq<Fleet>, ms: seq<Move>, k: nat)
    requires FleetRun(fs, ms) && k < |fs|
    ensures FleetInv(fs[k])
  {
    if k > 0 {
      FleetRunKeepsInv(fs, ms, k - 1);
      FleetStepKeepsInv(fs[k - 1], ms[k - 1], fs[k]);
    }
  }

  function StartCount(started: seq<Task>, row: RowId): nat {
    if started == [] then 0
    else StartCount(started[..|started| - 1], row) + (if started[|started| - 1].row == row then 1 else 0)
  }

  lemma {:induction false} DifferentAttempts(started: seq<Task>, row: RowId, limit: nat) returns (attempts: set<nat>)
    requires Distinct(started)
    requires forall t, u | t in started && u in started && t.row == u.row == row && t.attempt == u.attempt :: t == u
    requires forall t | t in started && t.row == row :: 1 <= t.attempt <= limit
    ensures |attempts| == StartCount(started, row)
    ensures forall a :: a in attempts <==> exists t | t in started :: t.row == row && t.attempt == a
  {
    if started == [] {
      attempts := {};
    } else {
      var n := |started| - 1;
      var rest, last := started[..n], started[n];
      assert started == rest + [last];
      attempts := DifferentAttempts(rest, row, limit);
      if last.row == row {
        assert last !in rest;
        attempts := attempts + {last.attempt};
      }
    }
  }

  lemma {:induction false} NumbersUpTo(s: set<nat>, limit: nat)
    requires forall a | a in s :: 1 <= a <= limit
    ensures |s| <= limit
  {
    if limit == 0 {
      assert s == {};
    } else {
      NumbersUpTo(s - {limit}, limit - 1);
    }
  }

  /** Across all workers and all interleavings, a row's handler body starts at most max_attempts times. */
  lemma StartsAreBounded(fs: seq<Fleet>, ms: seq<Move>, k: nat, t: Task)
    requires FleetRun(fs, ms) && k < |fs| && t in fs[k].started
    ensures MaxAttempts(t.jobType).Some?
    ensures StartCount(fs[k].started, t.row) <= MaxAttempts(t.jobType).value
    ensures !t.jobType.Other? && StartCount(fs[k].started, t.row) <= if t.jobType.Maintenance? then 2 else 5
  {
    FleetRunKeepsInv(fs, ms, k);
    var started := fs[k].started;
    var limit := MaxAttempts(t.jobType).value;
    assert Known(fs[k], t);
    forall u | u in started && u.row == t.row ensures 1 <= u.attempt <= limit {
      assert Known(fs[k], u);
    }
    forall u, v | u in started && v in started && u.row == v.row == t.row && u.attempt == v.attempt ensures u == v {
      assert Known(fs[k], u) && Known(fs[k], v);
    }
    var attempts := DifferentAttempts(started, t.row, limit);
    NumbersUpTo(attempts, limit);
  }
}
