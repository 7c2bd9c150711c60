/**
 The transactions of one dispatched job, one by one: between any two of them
 other workers, and other jobs of the same worker, may run any statement.
 */
module JobTransactions {
  import opened Prelude
  import opened WorkQueues
  import opened Worker

  /** The transaction a job runs next, after its handler body ended. */
  datatype Phase =
    | RunHook(error: string)
    | FailRow(error: string)
    | FinishRow(followUp: Option<EnqueueAfterDone>)
    | GiveBack(seconds: int)
    | Ended

  function FirstPhase(job: Row, settings: Settings, outcome: HandlerOutcome, jitter: real): Phase
    requires 0.0 <= jitter <= settings.backoffBase as real / 2.0
  {
    var limit := MaxAttempts(job.jobType);
    if limit.None? then GiveBack(settings.unknownTypeBackoff)
    else if !Starts(job) then RunHook(ExhaustedError(limit.value))
    else
      match outcome
      case Transient(retryAfter) => GiveBack(RetryDelay(job, settings, retryAfter, jitter))
      case Raised(error) => RunHook(error)
      case Returned(followUp) => FinishRow(followUp)
  }

  /**
   The phase after a transaction; `held` says whether the worker still owned the
   row, `fault` that the transaction failed.
   */
  function NextPhase(p: Phase, held: bool, fault: bool, settings: Settings): Phase {
    match p
    case RunHook(error) => if fault then GiveBack(settings.backoffMax) else FailRow(error)
    case FailRow(_) => if fault || !held then GiveBack(settings.backoffMax) else Ended
    case FinishRow(_) => if fault || !held then GiveBack(settings.markDoneRetryBackoff) else Ended
    case GiveBack(_) => Ended
    case Ended => Ended
  }

  /** The table after a transaction. */
  ghost predicate Transacted(q: Queue, p: Phase, id: RowId, worker: WorkerId, fault: bool, now: int, q': Queue) {
    if fault then q' == q
    else
      match p
      case RunHook(_) => q' == q
      case FailRow(error) => Step(q, Op.MarkFailed(id, worker, error, now), q')
      case FinishRow(followUp) => Completed(q, id, worker, followUp, now, q')
      case GiveBack(seconds) => Step(q, Release(id, worker, seconds, now), q')
      case Ended => q' == q
  }

  ghost predicate JobStep(q: Queue, p: Phase, id: RowId, worker: WorkerId, settings: Settings, fault: bool, now: int,
                          q': Queue, p': Phase) {
    && !p.Ended?
    && Transacted(q, p, id, worker, fault, now, q')
    && p' == NextPhase(p, Owns(q.rows, id, worker), fault, settings)
  }

  method RunTransaction(queue: WorkQueue, p: Phase, id: RowId, worker: WorkerId, settings: Settings, fault: bool,
                        now: int)
    returns (next: Phase)
    requires queue.Valid() && !p.Ended?
    modifies queue
    ensures queue.Valid()
    ensures JobStep(old(queue.State()), p, id, worker, settings, fault, now, queue.State(), next)
  {
    next := NextPhase(p, Owns(queue.rows, id, worker), fault, settings);
    if fault || p.RunHook? {
      return;
    }
    match p {
      case FailRow(error) =>
        var _ := queue.MarkFailed(id, worker, error, now);
      case GiveBack(seconds) =>
        var _ := queue.ReleaseWithBackoff(id, worker, seconds, now);
      case FinishRow(followUp) =>
        var result := queue.MarkDone(id, worker, now);
        if result.Applied? && followUp.Some? {
          ghost var mid := queue.State();
          var f := followUp.value;
          var _ := queue.Enqueue(f.jobType, f.payload, f.key, UpsertResetNotBefore, NotBefore(f, now), now);
        }
    }
  }

  // ----- Among others

  /** A transaction of this job, or a statement of anybody else. */
  datatype Act = Own(fault: bool, now: int) | Others(op: Op)

  ghost predicate JobRun(qs: seq<Queue>, ps: seq<Phase>, acts: seq<Act>, id: RowId, worker: WorkerId,
                         settings: Settings) {
    && |qs| == |ps| == |acts| + 1
    && Inv(qs[0])
    && forall k | 0 <= k < |acts| ::
         match acts[k]
         case Own(fault, now) => JobStep(qs[k], ps[k], id, worker, settings, fault, now, qs[k + 1], ps[k + 1])
         case Others(op) => Step(qs[k], op, qs[k + 1]) && ps[k + 1] == ps[k]
  }

  /** The k-th act is a transaction of the job and changes the table. */
  predicate TakesEffect(qs: seq<Queue>, acts: seq<Act>, k: nat) {
    k < |acts| < |qs| && acts[k].Own? && qs[k + 1] != qs[k]
  }

  /** Only the lease holder's transaction changes the table, and it is the job's last. */
  lemma EffectEndsTheJob(q: Queue, p: Phase, id: RowId, worker: WorkerId, settings: Settings, fault: bool, now: int,
                         q': Queue, p': Phase)
    requires JobStep(q, p, id, worker, settings, fault, now, q', p') && q' != q
    ensures Owns(q.rows, id, worker) && p'.Ended?
  {
  }

  lemma {:induction false} EndedStaysEnded(qs: seq<Queue>, ps: seq<Phase>, acts: seq<Act>, id: RowId, worker: WorkerId,
                                           settings: Settings, i: nat, j: nat)
    requires JobRun(qs, ps, acts, id, worker, settings) && i <= j < |ps| && ps[i].Ended?
    ensures ps[j].Ended?
    ensures forall k | i <= k < j :: acts[k].Others?
  {
    if i < j {
      EndedStaysEnded(qs, ps, acts, id, worker, settings, i, j - 1);
    }
  }

  /**
   Whatever anybody does between the hook, the failure, the finish and the
   release of a job: at most one of its transactions takes effect, and only
   while its worker owns the row.
   */
  lemma AtMostOneTakesEffect(qs: seq<Queue>, ps: seq<Phase>, acts: seq<Act>, id: RowId, worker: WorkerId,
                             settings: Settings, i: nat, j: nat)
    requires JobRun(qs, ps, acts, id, worker, settings)
    requires TakesEffect(qs, acts, i) && TakesEffect(qs, acts, j)
    ensures i == j && Owns(qs[i].rows, id, worker)
  {
    EffectEndsTheJob(qs[i], ps[i], id, worker, settings, acts[i].fault, acts[i].now, qs[i + 1], ps[i + 1]);
    EffectEndsTheJob(qs[j], ps[j], id, worker, settings, acts[j].fault, acts[j].now, qs[j + 1], ps[j + 1]);
    if i < j {
      EndedStaysEnded(qs, ps, acts, id, worker, settings, i + 1, j + 1);
      assert false;
    } else if j < i {
      EndedStaysEnded(qs, ps, acts, id, worker, settings, j + 1, i + 1);
      assert false;
    }
  }

  /** The queue invariant survives every transaction. */
  lemma JobStepKeepsInv(q: Queue, p: Phase, id: RowId, worker: WorkerId, settings: Settings, fault: bool, now: int,
                        q': Queue, p': Phase)
    requires Inv(q) && JobStep(q, p, id, worker, settings, fault, now, q', p')
    ensures Inv(q')
  {
    if !fault {
      match p
      case RunHook(_) =>
      case FailRow(error) => StepKeepsInv(q, Op.MarkFailed(id, worker, error, now), q');
      case GiveBack(seconds) => StepKeepsInv(q, Release(id, worker, seconds, now), q');
      case FinishRow(followUp) => CompletionKeepsInv(q, id, worker, followUp, now, q');
    }
  }

  lemma CompletionKeepsInv(q: Queue, id: RowId, worker: WorkerId, followUp: Option<EnqueueAfterDone>, now: int,
                           q': Queue)
    requires Inv(q) && Completed(q, id, worker, followUp, now, q')
    ensures Inv(q')
  {
    if followUp.None? || !Owns(q.rows, id, worker) {
      StepKeepsInv(q, Op.MarkDone(id, worker, now), q');
    } else {
      var f := followUp.value;
      var mid :| Step(q, Op.MarkDone(id, worker, now), mid)
                 && Step(mid, Op.Enqueue(f.jobType, f.payload, f.key, UpsertResetNotBefore, NotBefore(f, now), now),
                         q');
      StepKeepsInv(q, Op.MarkDone(id, worker, now), mid);
      StepKeepsInv(mid, Op.Enqueue(f.jobType, f.payload, f.key, UpsertResetNotBefore, NotBefore(f, now), now), q');
    }
  }

  /** At every moment of the job, whoever else acts. */
  lemma {:induction false} JobRunKeepsInv(qs: seq<Queue>, ps: seq<Phase>, acts: seq<Act>, id: RowId, worker: WorkerId,
                                          settings: Settings, k: nat)
    requires JobRun(qs, ps, acts, id, worker, settings) && k < |qs|
    ensures Inv(qs[k])
  {
    if k > 0 {
      JobRunKeepsInv(qs, ps, acts, id, worker, settings, k - 1);
      match acts[k - 1]
      case Own(fault, now) => JobStepKeepsInv(qs[k - 1], ps[k - 1], id, worker, settings, fault, now, qs[k], ps[k]);
      case Others(op) => StepKeepsInv(qs[k - 1], op, qs[k]);
    }
  }

  // ----- Undisturbed

  function FaultIn(p: Phase, faults: Faults): bool {
    match p
    case RunHook(_) => faults.hook
    case FailRow(_) => faults.markFailed
    case FinishRow(_) => faults.markDone
    case GiveBack(_) => faults.release
    case Ended => false
  }

  function Rank(p: Phase): nat {
    match p
    case RunHook(_) => 3
    case FailRow(_) => 2
    case FinishRow(_) => 2
    case GiveBack(_) => 1
    case Ended => 0
  }

  /** The next transaction, with the fault the job is to meet there. */
  ghost predicate FollowedBy(q: Queue, p: Phase, id: RowId, worker: WorkerId, settings: Settings, faults: Faults,
                             now: int, q': Queue, p': Phase) {
    JobStep(q, p, id, worker, settings, FaultIn(p, faults), now, q', p') && Rank(p') < Rank(p)
  }

  /** The job's transactions one right after the other. */
  ghost predicate Undisturbed(q: Queue, p: Phase, id: RowId, worker: WorkerId, settings: Settings, faults: Faults,
                              now: int, q': Queue)
    decreases Rank(p)
  {
    if p.Ended? then q' == q
    else
      exists mid, next :: FollowedBy(q, p, id, worker, settings, faults, now, mid, next)
                          && Undisturbed(mid, next, id, worker, settings, faults, now, q')
  }

  lemma GiveBackUndisturbed(q: Queue, seconds: int, id: RowId, worker: WorkerId, settings: Settings, faults: Faults,
                            now: int, q': Queue)
    requires Undisturbed(q, GiveBack(seconds), id, worker, settings, faults, now, q')
    ensures SentBack(q, id, worker, seconds, faults, now, q')
  {
    var mid, next :| FollowedBy(q, GiveBack(seconds), id, worker, settings, faults, now, mid, next)
                     && Undisturbed(mid, next, id, worker, settings, faults, now, q');
    assert next == Ended && q' == mid;
  }

  lemma FailureUndisturbed(q: Queue, error: string, id: RowId, worker: WorkerId, settings: Settings, faults: Faults,
                           now: int, q': Queue)
    requires Undisturbed(q, RunHook(error), id, worker, settings, faults, now, q')
    ensures FailedTerminally(q, id, worker, error, settings, faults, now, q')
  {
    var mid, next :| FollowedBy(q, RunHook(error), id, worker, settings, faults, now, mid, next)
                     && Undisturbed(mid, next, id, worker, settings, faults, now, q');
    if next.GiveBack? {
      GiveBackUndisturbed(mid, settings.backoffMax, id, worker, settings, faults, now, q');
    } else {
      var mid', next' :| FollowedBy(mid, next, id, worker, settings, faults, now, mid', next')
                         && Undisturbed(mid', next', id, worker, settings, faults, now, q');
      if next'.GiveBack? {
        GiveBackUndisturbed(mid', settings.backoffMax, id, worker, settings, faults, now, q');
      } else {
        assert next' == Ended && q' == mid';
      }
    }
  }

  lemma FinishUndisturbed(q: Queue, followUp: Option<EnqueueAfterDone>, id: RowId, worker: WorkerId, settings: Settings,
                          faults: Faults, now: int, q': Queue)
    requires Undisturbed(q, FinishRow(followUp), id, worker, settings, faults, now, q')
    ensures if faults.markDone then SentBack(q, id, worker, settings.markDoneRetryBackoff, faults, now, q')
            else Completed(q, id, worker, followUp, now, q')
  {
    var mid, next :| FollowedBy(q, FinishRow(followUp), id, worker, settings, faults, now, mid, next)
                     && Undisturbed(mid, next, id, worker, settings, faults, now, q');
    if next.GiveBack? {
      GiveBackUndisturbed(mid, settings.markDoneRetryBackoff, id, worker, settings, faults, now, q');
    } else {
      assert next == Ended && q' == mid;
    }
  }

  /** Run without interruption, the transactions leave what HandleOne leaves. */
  lemma UndisturbedJobsAreHandled(q: Queue, id: RowId, job: Row, worker: WorkerId, settings: Settings,
                                  outcome: HandlerOutcome, faults: Faults, jitter: real, now: int, q': Queue)
    requires 0.0 <= jitter <= settings.backoffBase as real / 2.0
    requires Undisturbed(q, FirstPhase(job, settings, outcome, jitter), id, worker, settings, faults, now, q')
    ensures Handled(q, id, job, worker, settings, outcome, faults, jitter, now, q')
  {
    match FirstPhase(job, settings, outcome, jitter)
    case RunHook(error) => FailureUndisturbed(q, error, id, worker, settings, faults, now, q');
    case FinishRow(followUp) => FinishUndisturbed(q, followUp, id, worker, settings, faults, now, q');
    case GiveBack(seconds) => GiveBackUndisturbed(q, seconds, id, worker, settings, faults, now, q');
  }
}
