/**
 The lease queue: `work_queue` rows, the statements that change them, and the
 history those statements leave. Every statement is one atomic step; the
 partial unique index on (job_type, dedupe_key) is the guard of Enqueue.

 Times are whole seconds on the database clock.
 */
module WorkQueues {
  import opened Prelude

  type RowId = nat
  type WorkerId = string

  datatype JobType =
    | GenerateCoverLetter
    | FetchSlug
    | Maintenance
    | BatchMatch
    | Match
    | Other(name: string)

  datatype Payload =
    | ForApplication(app: string)
    | ForProfile(profile: string, maxItems: Option<nat>)
    | Opaque(json: string)

  datatype Status = Pending | InProgress | Done | Failed

  datatype Row = Row(
    jobType: JobType,
    payload: Payload,
    status: Status,
    enqueuedAt: int,
    claimedAt: Option<int>,
    claimedBy: Option<WorkerId>,
    notBefore: Option<int>,
    completedAt: Option<int>,
    attempts: nat,
    lastError: Option<string>,
    dedupeKey: Option<string>)
  {
    predicate Live() {
      status.Pending? || status.InProgress?
    }

    predicate Terminal() {
      status.Done? || status.Failed?
    }

    predicate OwnedBy(worker: WorkerId) {
      status.InProgress? && claimedBy == Some(worker)
    }

    /** The WHERE clause of the claim, except the row locks. */
    predicate Claimable(worker: WorkerId, timeout: int, allowed: Option<set<JobType>>, now: int) {
      && (notBefore.None? || notBefore.value <= now)
      && (allowed.None? || jobType in allowed.value)
      && (status.Pending?
          || (status.InProgress?
              && claimedAt.Some? && claimedAt.value < now - timeout
              && (claimedBy.None? || claimedBy.value != worker)))
    }

    predicate Prunable(now: int) {
      && completedAt.Some?
      && ((status.Done? && completedAt.value < now - 7 * DAY)
          || (status.Failed? && completedAt.value < now - 30 * DAY))
    }
  }

  const DAY: int := 86400
  const MAX_ERROR_CHARS: nat := 8000

  function Priority(t: JobType): nat {
    match t
    case GenerateCoverLetter => 0
    case FetchSlug => 1
    case Maintenance => 2
    case BatchMatch => 3
    case Match => 4
    case Other(_) => 5
  }

  /** ORDER BY priority, enqueued_at. */
  predicate Before(a: Row, b: Row) {
    Priority(a.jobType) < Priority(b.jobType)
    || (Priority(a.jobType) == Priority(b.jobType) && a.enqueuedAt < b.enqueuedAt)
  }

  /** What happened to the leases, oldest first. */
  datatype Event =
    | Claimed(id: RowId, worker: WorkerId, at: int, timeout: int)
    | Released(id: RowId, worker: WorkerId)
    | Finished(id: RowId, worker: WorkerId, ok: bool)

  datatype Queue = Queue(rows: map<RowId, Row>, nextId: RowId, log: seq<Event>)

  const EMPTY_QUEUE: Queue := Queue(map[], 0, [])

  datatype ConflictMode = DoNothing | UpsertResetNotBefore

  /** One statement against the table. */
  datatype Op =
    | Enqueue(jobType: JobType, payload: Payload, key: Option<string>, mode: ConflictMode,
              notBefore: Option<int>, now: int)
    | Claim(worker: WorkerId, timeout: int, allowed: Option<set<JobType>>, locked: set<RowId>,
            now: int, picked: Option<RowId>)
    | MarkDone(id: RowId, worker: WorkerId, now: int)
    | MarkFailed(id: RowId, worker: WorkerId, error: string, now: int)
    | Release(id: RowId, worker: WorkerId, seconds: int, now: int)
    | Prune(now: int)

  /** A dedupe key: the kind of work and what it is about. */
  function DedupeKey(kind: string, subject: string): string {
    kind + ":" + subject
  }

  lemma DedupeKeyInjective(kind: string, a: string, b: string)
    requires DedupeKey(kind, a) == DedupeKey(kind, b)
    ensures a == b
  {
    assert a == DedupeKey(kind, a)[|kind| + 1..] && b == DedupeKey(kind, b)[|kind| + 1..];
  }

  /** Row id holds the dedupe slot (t, key). */
  predicate Occupies(rows: map<RowId, Row>, id: RowId, t: JobType, key: string) {
    id in rows && rows[id].jobType == t && rows[id].dedupeKey == Some(key) && rows[id].Live()
  }

  /** Row id is the one live row of the dedupe slot. */
  ghost predicate OnlyLiveRow(rows: map<RowId, Row>, id: RowId, t: JobType, key: string) {
    Occupies(rows, id, t, key) && forall other :: Occupies(rows, other, t, key) ==> other == id
  }

  predicate SlotTaken(rows: map<RowId, Row>, t: JobType, key: Option<string>) {
    key.Some? && exists id | id in rows :: Occupies(rows, id, t, key.value)
  }

  function NewRow(t: JobType, payload: Payload, key: Option<string>, notBefore: Option<int>, now: int): Row {
    Row(t, payload, Pending, now, None, None, notBefore, None, 0, None, key)
  }

  predicate Owns(rows: map<RowId, Row>, id: RowId, worker: WorkerId) {
    id in rows && rows[id].OwnedBy(worker)
  }

  /** The rows a claim may take; other transactions hold `locked`. */
  function Candidates(rows: map<RowId, Row>, worker: WorkerId, timeout: int,
                      allowed: Option<set<JobType>>, locked: set<RowId>, now: int): set<RowId> {
    set id | id in rows && id !in locked && rows[id].Claimable(worker, timeout, allowed, now)
  }

  predicate First(rows: map<RowId, Row>, ids: set<RowId>, id: RowId)
    requires ids <= rows.Keys
  {
    id in ids && forall other | other in ids :: !Before(rows[other], rows[id])
  }

  /** The table after one statement. */
  ghost predicate Step(q: Queue, op: Op, q': Queue) {
    match op
    case Enqueue(t, payload, key, mode, notBefore, now) =>
      if !SlotTaken(q.rows, t, key) then
        q' == Queue(q.rows[q.nextId := NewRow(t, payload, key, notBefore, now)], q.nextId + 1, q.log)
      else
        forall id | Occupies(q.rows, id, t, key.value) ::
          q' == if mode.UpsertResetNotBefore? && q.rows[id].status.Pending?
                then q.(rows := q.rows[id := q.rows[id].(notBefore := notBefore, payload := payload)])
                else q
    case Claim(worker, timeout, allowed, locked, now, picked) =>
      var ids := Candidates(q.rows, worker, timeout, allowed, locked, now);
      if picked.None? then
        ids == {} && q' == q
      else
        && First(q.rows, ids, picked.value)
        && q' == q.(rows := q.rows[picked.value := q.rows[picked.value].(
                                   status := InProgress, claimedAt := Some(now), claimedBy := Some(worker),
                                   attempts := q.rows[picked.value].attempts + 1)],
                    log := q.log + [Claimed(picked.value, worker, now, timeout)])
    case MarkDone(id, worker, now) =>
      if Owns(q.rows, id, worker) then
        q' == q.(rows := q.rows[id := q.rows[id].(status := Done, completedAt := Some(now),
                                                  lastError := None, claimedBy := None)],
                 log := q.log + [Finished(id, worker, true)])
      else q' == q
    case MarkFailed(id, worker, error, now) =>
      if Owns(q.rows, id, worker) then
        q' == q.(rows := q.rows[id := q.rows[id].(status := Failed, completedAt := Some(now),
                                                  lastError := Some(error[..Min(|error|, MAX_ERROR_CHARS)]),
                                                  claimedBy := None)],
                 log := q.log + [Finished(id, worker, false)])
      else q' == q
    case Release(id, worker, seconds, now) =>
      if Owns(q.rows, id, worker) then
        q' == q.(rows := q.rows[id := q.rows[id].(status := Pending, claimedAt := None,
                                                  claimedBy := None, notBefore := Some(now + seconds))],
                 log := q.log + [Released(id, worker)])
      else q' == q
    case Prune(now) =>
      q' == q.(rows := map id | id in q.rows && !q.rows[id].Prunable(now) :: q.rows[id])
  }

  // ----- What the history says about one row

  datatype Lease = Lease(worker: WorkerId, at: int)

  /** How often row id was claimed. */
  function Claims(log: seq<Event>, id: RowId): nat {
    if log == [] then 0
    else Claims(log[..|log| - 1], id)
         + (if log[|log| - 1].Claimed? && log[|log| - 1].id == id then 1 else 0)
  }

  /** The claim of row id that was neither released nor finished yet. */
  function Holder(log: seq<Event>, id: RowId): Option<Lease> {
    if log == [] then None
    else
      var e := log[|log| - 1];
      if e.id != id then Holder(log[..|log| - 1], id)
      else if e.Claimed? then Some(Lease(e.worker, e.at))
      else None
  }

  predicate Finalized(log: seq<Event>, id: RowId) {
    exists i | 0 <= i < |log| :: log[i].id == id && log[i].Finished?
  }

  /** Event e may follow the history `past`. */
  ghost predicate Legal(past: seq<Event>, e: Event) {
    var holder := Holder(past, e.id);
    match e
    case Claimed(id, worker, at, timeout) =>
      !Finalized(past, id) && (holder.Some? ==> holder.value.worker != worker && at - holder.value.at > timeout)
    case Released(id, worker) => holder.Some? && holder.value.worker == worker
    case Finished(id, worker, _) => !Finalized(past, id) && holder.Some? && holder.value.worker == worker
  }

  ghost predicate LegalAt(log: seq<Event>, i: nat)
    requires i < |log|
  {
    Legal(log[..i], log[i])
  }

  ghost predicate LegalLog(log: seq<Event>) {
    forall i: nat | i < |log| :: LegalAt(log, i)
  }

  // ----- The invariant

  /** In progress exactly when claimed; completion and claim times recorded. */
  predicate RowOk(r: Row) {
    && (r.status.InProgress? <==> r.claimedBy.Some?)
    && (r.status.InProgress? ==> r.claimedAt.Some?)
    && (r.Terminal() ==> r.completedAt.Some?)
  }

  /** The row's columns are what its history says. */
  predicate RowMatchesLog(r: Row, log: seq<Event>, id: RowId) {
    && r.attempts == Claims(log, id)
    && Holder(log, id) == (if r.status.InProgress? && r.claimedBy.Some? && r.claimedAt.Some?
                           then Some(Lease(r.claimedBy.value, r.claimedAt.value)) else None)
    && (Finalized(log, id) <==> r.Terminal())
  }

  /** The partial unique index: at most one live row per dedupe slot. */
  ghost predicate OneLiveRowPerKey(rows: map<RowId, Row>) {
    forall a, b, t, key | Occupies(rows, a, t, key) && Occupies(rows, b, t, key) :: a == b
  }

  ghost predicate Inv(q: Queue) {
    && (forall id | id in q.rows :: id < q.nextId && RowOk(q.rows[id]) && RowMatchesLog(q.rows[id], q.log, id))
    && (forall i | 0 <= i < |q.log| :: q.log[i].id < q.nextId)
    && OneLiveRowPerKey(q.rows)
    && LegalLog(q.log)
  }

  // ----- Appending to the history

  lemma Append(log: seq<Event>, e: Event, id: RowId)
    ensures Claims(log + [e], id) == Claims(log, id) + (if e.Claimed? && e.id == id then 1 else 0)
    ensures Holder(log + [e], id) == (if e.id != id then Holder(log, id)
                                      else if e.Claimed? then Some(Lease(e.worker, e.at)) else None)
    ensures Finalized(log + [e], id) <==> Finalized(log, id) || (e.id == id && e.Finished?)
  {
    assert (log + [e])[..|log|] == log;
    forall i | 0 <= i < |log| && log[i].id == id && log[i].Finished? ensures Finalized(log + [e], id) {
      assert (log + [e])[i] == log[i];
    }
    if e.id == id && e.Finished? {
      assert (log + [e])[|log|] == e;
    }
  }

  lemma AppendLegal(log: seq<Event>, e: Event)
    requires LegalLog(log) && Legal(log, e)
    ensures LegalLog(log + [e])
  {
    forall i: nat | i < |log + [e]| ensures LegalAt(log + [e], i) {
      if i < |log| {
        assert LegalAt(log, i);
        assert (log + [e])[..i] == log[..i];
      } else {
        assert (log + [e])[..i] == log;
      }
    }
  }

  lemma {:induction false} NoEventsNoHistory(log: seq<Event>, id: RowId)
    requires forall i | 0 <= i < |log| :: log[i].id != id
    ensures Claims(log, id) == 0 && Holder(log, id) == None && !Finalized(log, id)
  {
    if log != [] {
      NoEventsNoHistory(log[..|log| - 1], id);
    }
  }

  // ----- Every statement keeps the invariant

  /** A statement that rewrites row id and appends event e. */
  lemma RewriteKeepsInv(q: Queue, id: RowId, r: Row, e: Event, q': Queue)
    requires Inv(q) && id in q.rows && e.id == id
    requires q' == q.(rows := q.rows[id := r], log := q.log + [e])
    requires Legal(q.log, e)
    requires r.jobType == q.rows[id].jobType && r.dedupeKey == q.rows[id].dedupeKey
    requires q.rows[id].Live() && RowOk(r)
    requires r.attempts == q.rows[id].attempts + (if e.Claimed? then 1 else 0)
    requires match e
             case Claimed(_, worker, at, _) =>
               r.status.InProgress? && r.claimedBy == Some(worker) && r.claimedAt == Some(at)
             case Released(_, _) => r.status.Pending?
             case Finished(_, _, _) => r.Terminal()
    ensures Inv(q')
  {
    forall other | other in q'.rows
      ensures other < q'.nextId && RowOk(q'.rows[other]) && RowMatchesLog(q'.rows[other], q'.log, other)
    {
      Append(q.log, e, other);
    }
    AppendLegal(q.log, e);
    forall a, b, t, key | Occupies(q'.rows, a, t, key) && Occupies(q'.rows, b, t, key) ensures a == b {
      assert Occupies(q.rows, a, t, key) && Occupies(q.rows, b, t, key);
    }
  }

  lemma EnqueueKeepsInv(q: Queue, op: Op, q': Queue)
    requires Inv(q) && op.Enqueue? && Step(q, op, q')
    ensures Inv(q')
  {
    if !SlotTaken(q.rows, op.jobType, op.key) {
      NoEventsNoHistory(q.log, q.nextId);
      forall a, b, t, key | Occupies(q'.rows, a, t, key) && Occupies(q'.rows, b, t, key) ensures a == b {
        if a != q.nextId && b != q.nextId {
          assert Occupies(q.rows, a, t, key) && Occupies(q.rows, b, t, key);
        } else {
          assert a != q.nextId ==> Occupies(q.rows, a, t, key);
          assert b != q.nextId ==> Occupies(q.rows, b, t, key);
        }
      }
    } else {
      var id :| id in q.rows && Occupies(q.rows, id, op.jobType, op.key.value);
      forall a, b, t, key | Occupies(q'.rows, a, t, key) && Occupies(q'.rows, b, t, key) ensures a == b {
        assert Occupies(q.rows, a, t, key) && Occupies(q.rows, b, t, key);
      }
    }
  }

  lemma PruneKeepsInv(q: Queue, op: Op, q': Queue)
    requires Inv(q) && op.Prune? && Step(q, op, q')
    ensures Inv(q')
  {
    forall a, b, t, key | Occupies(q'.rows, a, t, key) && Occupies(q'.rows, b, t, key) ensures a == b {
      assert Occupies(q.rows, a, t, key) && Occupies(q.rows, b, t, key);
    }
  }

  /** Every statement keeps the invariant, whoever runs it and whenever. */
  lemma StepKeepsInv(q: Queue, op: Op, q': Queue)
    requires Inv(q) && Step(q, op, q')
    ensures Inv(q')
  {
    match op
    case Enqueue(_, _, _, _, _, _) => EnqueueKeepsInv(q, op, q');
    case Prune(_) => PruneKeepsInv(q, op, q');
    case Claim(worker, timeout, _, _, now, picked) =>
      if picked.Some? {
        RewriteKeepsInv(q, picked.value, q'.rows[picked.value], Claimed(picked.value, worker, now, timeout), q');
      }
    case MarkDone(id, worker, _) =>
      if Owns(q.rows, id, worker) {
        RewriteKeepsInv(q, id, q'.rows[id], Finished(id, worker, true), q');
      }
    case MarkFailed(id, worker, _, _) =>
      if Owns(q.rows, id, worker) {
        RewriteKeepsInv(q, id, q'.rows[id], Finished(id, worker, false), q');
      }
    case Release(id, worker, _, _) =>
      if Owns(q.rows, id, worker) {
        RewriteKeepsInv(q, id, q'.rows[id], Released(id, worker), q');
      }
  }

  /** Every row of `before` is still there, unchanged. */
  ghost predicate KeepsRows(before: map<RowId, Row>, rows: map<RowId, Row>) {
    forall id | id in before :: id in rows && rows[id] == before[id]
  }

  /** With ON CONFLICT DO NOTHING an enqueue adds a row to a free slot and changes nothing else. */
  lemma EnqueueAddsOrIgnores(q: Queue, t: JobType, payload: Payload, key: string, notBefore: Option<int>, now: int,
                             q': Queue)
    requires Inv(q) && Step(q, Enqueue(t, payload, Some(key), DoNothing, notBefore, now), q')
    ensures KeepsRows(q.rows, q'.rows)
    ensures q'.rows == if SlotTaken(q.rows, t, Some(key)) then q.rows
                       else q.rows[q.nextId := NewRow(t, payload, Some(key), notBefore, now)]
  {
    if SlotTaken(q.rows, t, Some(key)) {
      var id :| id in q.rows && Occupies(q.rows, id, t, key);
      assert q' == q;
    }
  }

  lemma KeptSlotsStayTaken(before: map<RowId, Row>, rows: map<RowId, Row>, t: JobType, key: string)
    requires KeepsRows(before, rows) && SlotTaken(before, t, Some(key))
    ensures SlotTaken(rows, t, Some(key))
  {
    var id :| id in before && Occupies(before, id, t, key);
    assert Occupies(rows, id, t, key);
  }

  // ----- What an insert, a claim and a pruning do, column by column

  /** A row of this kind and key is pending or in progress. */
  ghost predicate Queued(rows: map<RowId, Row>, id: RowId, t: JobType, key: Option<string>) {
    && id in rows && rows[id].jobType == t && key.Some? && rows[id].dedupeKey == key
    && (rows[id].status == Pending || rows[id].status == InProgress)
  }

  /**
   An insert meets a row that does the same work already, or adds a pending one
   that nobody ever claimed. In the first case it changes nothing, except that
   an upsert gives a pending row its start time and payload.
   */
  lemma EnqueueDeduplicates(q: Queue, op: Op, q': Queue)
    requires Inv(q) && op.Enqueue? && Step(q, op, q')
    ensures (forall id :: !Queued(q.rows, id, op.jobType, op.key)) ==>
              q'.rows == q.rows[q.nextId := Row(op.jobType, op.payload, Pending, op.now, None, None, op.notBefore,
                                                None, 0, None, op.key)]
    ensures forall id | Queued(q.rows, id, op.jobType, op.key) ::
              q'.rows == if op.mode.UpsertResetNotBefore? && q.rows[id].status == Pending then
                           q.rows[id := q.rows[id].(notBefore := op.notBefore, payload := op.payload)]
                         else q.rows
  {
    if SlotTaken(q.rows, op.jobType, op.key) {
      var other :| other in q.rows && Occupies(q.rows, other, op.jobType, op.key.value);
      assert Queued(q.rows, other, op.jobType, op.key);
    }
    forall id | Queued(q.rows, id, op.jobType, op.key)
      ensures q'.rows == if op.mode.UpsertResetNotBefore? && q.rows[id].status == Pending then
                           q.rows[id := q.rows[id].(notBefore := op.notBefore, payload := op.payload)]
                         else q.rows
    {
      assert Occupies(q.rows, id, op.jobType, op.key.value);
    }
  }

  /**
   Row p, claimed now, was due, allowed, unlocked and either pending or left
   behind by another worker; and every other row of which this is true is less
   urgent: the kinds of work come in a fixed order, rows of one kind, and rows
   of unlisted kinds, in the order in which they were enqueued.
   */
  ghost predicate MostUrgent(rows: map<RowId, Row>, p: RowId, worker: WorkerId, timeout: int,
                             allowed: Option<set<JobType>>, locked: set<RowId>, now: int)
    requires p in rows
  {
    && p in Waiting(rows, worker, timeout, allowed, locked, now)
    && forall id | id in Waiting(rows, worker, timeout, allowed, locked, now) ::
         && (rows[id].jobType == rows[p].jobType ==> rows[p].enqueuedAt <= rows[id].enqueuedAt)
         && (rows[id].jobType.Other? && rows[p].jobType.Other? ==> rows[p].enqueuedAt <= rows[id].enqueuedAt)
         && (rows[id].jobType.GenerateCoverLetter? ==> rows[p].jobType.GenerateCoverLetter?)
         && (rows[id].jobType.FetchSlug? ==> rows[p].jobType.GenerateCoverLetter? || rows[p].jobType.FetchSlug?)
         && (rows[id].jobType.Maintenance? ==>
               !rows[p].jobType.BatchMatch? && !rows[p].jobType.Match? && !rows[p].jobType.Other?)
         && (rows[id].jobType.BatchMatch? ==> !rows[p].jobType.Match? && !rows[p].jobType.Other?)
         && (rows[id].jobType.Match? ==> !rows[p].jobType.Other?)
  }

  /** The rows with these columns. */
  function Waiting(rows: map<RowId, Row>, worker: WorkerId, timeout: int,
                   allowed: Option<set<JobType>>, locked: set<RowId>, now: int): set<RowId> {
    set id | id in rows && id !in locked
             && (rows[id].notBefore == None || rows[id].notBefore.value <= now)
             && (allowed == None || rows[id].jobType in allowed.value)
             && (rows[id].status == Pending
                 || (rows[id].status == InProgress
                     && rows[id].claimedAt.Some? && rows[id].claimedAt.value + timeout < now
                     && rows[id].claimedBy != Some(worker)))
  }

  /** A claim takes a most urgent row, and none only when no row waits. */
  lemma ClaimTakesTheMostUrgent(q: Queue, op: Op, q': Queue)
    requires op.Claim? && Step(q, op, q')
    ensures op.picked.None? <==>
              forall id :: id !in Waiting(q.rows, op.worker, op.timeout, op.allowed, op.locked, op.now)
    ensures op.picked.Some? ==>
              && op.picked.value in q.rows
              && MostUrgent(q.rows, op.picked.value, op.worker, op.timeout, op.allowed, op.locked, op.now)
  {
    assert Candidates(q.rows, op.worker, op.timeout, op.allowed, op.locked, op.now)
           == Waiting(q.rows, op.worker, op.timeout, op.allowed, op.locked, op.now);
  }

  /** Pruning deletes exactly what was done more than 604800 seconds ago or failed more than 2592000 seconds ago. */
  lemma PruningDeletesOldRows(q: Queue, now: int, q': Queue, id: RowId)
    requires Step(q, Prune(now), q') && id in q.rows
    ensures id in q'.rows ==> q'.rows[id] == q.rows[id]
    ensures id !in q'.rows <==>
            && q.rows[id].completedAt.Some?
            && ((q.rows[id].status == Done && q.rows[id].completedAt.value + 604800 < now)
                || (q.rows[id].status == Failed && q.rows[id].completedAt.value + 2592000 < now))
  {
  }

  // ----- The table as the service changes it

  datatype Finalization = Applied | StaleLease

  /** A claim always has a first row to take when any row qualifies. */
  lemma {:induction false} FirstExists(rows: map<RowId, Row>, ids: set<RowId>)
    requires ids != {} && ids <= rows.Keys
    ensures exists id | id in ids :: First(rows, ids, id)
    decreases |ids|
  {
    var x :| x in ids;
    var rest := ids - {x};
    if rest == {} {
      assert ids == {x};
      assert First(rows, ids, x);
    } else {
      FirstExists(rows, rest);
      var y :| y in rest && First(rows, rest, y);
      if Before(rows[x], rows[y]) {
        assert First(rows, ids, x);
      } else {
        assert First(rows, ids, y);
      }
    }
  }

  class WorkQueue {
    var rows: map<RowId, Row>
    var nextId: RowId
    ghost var log: seq<Event>

    ghost function State(): Queue
      reads this
    {
      Queue(rows, nextId, log)
    }

    ghost predicate Valid()
      reads this
    {
      Inv(State())
    }

    constructor ()
      ensures Valid() && State() == EMPTY_QUEUE
    {
      rows, nextId, log := map[], 0, [];
    }

    /** Returns the new row, or the live row that blocked the insert. */
    method Enqueue(jobType: JobType, payload: Payload, key: Option<string>, mode: ConflictMode,
                   notBefore: Option<int>, now: int) returns (id: RowId)
      requires Valid()
      modifies this
      ensures Valid() && Step(old(State()), Op.Enqueue(jobType, payload, key, mode, notBefore, now), State())
      ensures id in rows && rows[id].Live() && rows[id].jobType == jobType && rows[id].dedupeKey == key
      ensures SlotTaken(old(rows), jobType, key) <==> id in old(rows)
      ensures rows.Keys == old(rows).Keys + {id}
    {
      ghost var before := State();
      if SlotTaken(rows, jobType, key) {
        id :| id in rows && Occupies(rows, id, jobType, key.value);
        if mode.UpsertResetNotBefore? && rows[id].status.Pending? {
          rows := rows[id := rows[id].(notBefore := notBefore, payload := payload)];
        }
      } else {
        id := nextId;
        rows := rows[id := NewRow(jobType, payload, key, notBefore, now)];
        nextId := nextId + 1;
      }
      StepKeepsInv(before, Op.Enqueue(jobType, payload, key, mode, notBefore, now), State());
    }

    /** Takes the first claimable row nobody else has locked; None when there is none. */
    method ClaimOne(worker: WorkerId, timeout: int, allowed: Option<set<JobType>>, locked: set<RowId>, now: int)
      returns (picked: Option<RowId>)
      requires Valid()
      modifies this
      ensures Valid() && Step(old(State()), Claim(worker, timeout, allowed, locked, now, picked), State())
      ensures picked.Some? ==> Owns(rows, picked.value, worker)
      ensures picked.None? <==> forall id :: id !in Waiting(old(rows), worker, timeout, allowed, locked, now)
      ensures picked.Some? ==> picked.value in old(rows)
                               && MostUrgent(old(rows), picked.value, worker, timeout, allowed, locked, now)
    {
      ghost var before := State();
      var ids := Candidates(rows, worker, timeout, allowed, locked, now);
      if ids == {} {
        picked := None;
      } else {
        FirstExists(rows, ids);
        var id :| id in ids && First(rows, ids, id);
        picked := Some(id);
        rows := rows[id := rows[id].(status := InProgress, claimedAt := Some(now), claimedBy := Some(worker),
                                     attempts := rows[id].attempts + 1)];
        log := log + [Claimed(id, worker, now, timeout)];
      }
      StepKeepsInv(before, Claim(worker, timeout, allowed, locked, now, picked), State());
      ClaimTakesTheMostUrgent(before, Claim(worker, timeout, allowed, locked, now, picked), State());
    }

    method MarkDone(id: RowId, worker: WorkerId, now: int) returns (result: Finalization)
      requires Valid()
      modifies this
      ensures Valid() && Step(old(State()), Op.MarkDone(id, worker, now), State())
      ensures result.Applied? <==> Owns(old(rows), id, worker)
    {
      ghost var before := State();
      if Owns(rows, id, worker) {
        rows := rows[id := rows[id].(status := Done, completedAt := Some(now), lastError := None, claimedBy := None)];
        log := log + [Finished(id, worker, true)];
        result := Applied;
      } else {
        result := StaleLease;
      }
      StepKeepsInv(before, Op.MarkDone(id, worker, now), State());
    }

    method MarkFailed(id: RowId, worker: WorkerId, error: string, now: int) returns (result: Finalization)
      requires Valid()
      modifies this
      ensures Valid() && Step(old(State()), Op.MarkFailed(id, worker, error, now), State())
      ensures result.Applied? <==> Owns(old(rows), id, worker)
    {
      ghost var before := State();
      if Owns(rows, id, worker) {
        rows := rows[id := rows[id].(status := Failed, completedAt := Some(now),
                                     lastError := Some(error[..Min(|error|, MAX_ERROR_CHARS)]), claimedBy := None)];
        log := log + [Finished(id, worker, false)];
        result := Applied;
      } else {
        result := StaleLease;
      }
      StepKeepsInv(before, Op.MarkFailed(id, worker, error, now), State());
    }

    /** Back to pending without touching attempts. */
    method ReleaseWithBackoff(id: RowId, worker: WorkerId, seconds: int, now: int) returns (result: Finalization)
      requires Valid()
      modifies this
      ensures Valid() && Step(old(State()), Release(id, worker, seconds, now), State())
      ensures result.Applied? <==> Owns(old(rows), id, worker)
    {
      ghost var before := State();
      if Owns(rows, id, worker) {
        rows := rows[id := rows[id].(status := Pending, claimedAt := None, claimedBy := None,
                                     notBefore := Some(now + seconds))];
        log := log + [Released(id, worker)];
        result := Applied;
      } else {
        result := StaleLease;
      }
      StepKeepsInv(before, Release(id, worker, seconds, now), State());
    }

    /** Maintenance drops done rows after 7 days and failed rows after 30. */
    method PruneCompleted(now: int) returns (pruned: nat)
      requires Valid()
      modifies this
      ensures Valid() && Step(old(State()), Prune(now), State())
      ensures pruned == |old(rows)| - |rows|
    {
      ghost var before := State();
      var kept := map id | id in rows && !rows[id].Prunable(now) :: rows[id];
      assert kept.Keys <= rows.Keys;
      SubsetSize(kept.Keys, rows.Keys);
      pruned := |rows| - |kept|;
      rows := kept;
      StepKeepsInv(before, Prune(now), State());
    }
  }
}
