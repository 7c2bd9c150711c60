/**
 The batch-match job: one tick per claimed row, the follow-up that keeps an
 active batch moving, and the repair that re-creates lost rows from batch state.
 */
module BatchMatchWorker {
  import opened Prelude
  import opened Applications
  import opened WorkQueues
  import opened EnqueueIntents
  import B = BatchMatch
  import Laws = BatchMatchLaws
  import S = BatchMatchService
  import W = Worker
  import QueueRuns

  function Key(profile: ProfileId): string {
    BatchMatchFor(profile).Key()
  }

  // ----- The handler

  /** What the tick asks to enqueue together with mark_done. */
  function FollowUp(profile: ProfileId, env: B.Env, result: B.TickResult): Option<W.EnqueueAfterDone> {
    if result.requeued || result.submitted > 0 then
      Some(W.EnqueueAfterDone(BatchMatch, ForProfile(profile, env.maxItems), Some(Key(profile)),
                              Some(env.settings.pollInterval)))
    else None
  }

  /** None: the process died inside the tick. */
  function AfterTick(profile: ProfileId, env: B.Env, outcome: B.TickOutcome): Option<W.HandlerOutcome> {
    match outcome
    case Returned(result) => Some(W.Returned(FollowUp(profile, env, result)))
    case Raised(error) => Some(W.Raised(error))
    case Crashed => None
  }

  method HandleBatchMatch(matcher: S.BatchMatcher, profile: ProfileId, env: B.Env)
    returns (outcome: Option<W.HandlerOutcome>, ghost rows: seq<AppId>)
    requires matcher.Valid()
    modifies matcher
    ensures matcher.Valid() && B.RowsFor(old(matcher.State()), profile, env, rows)
    ensures var (t, ticked) := B.Tick(old(matcher.State()), profile, env, rows);
            && matcher.State() == t && outcome == AfterTick(profile, env, ticked)
            && (ticked.Returned? ==>
                  outcome == Some(W.Returned(
                    if ticked.result.requeued || ticked.result.submitted > 0 then
                      Some(W.EnqueueAfterDone(JobType.BatchMatch, ForProfile(profile, env.maxItems),
                                              Some("batch-match:" + profile), Some(env.settings.pollInterval)))
                    else None)))
  {
    var ticked;
    ticked, rows := matcher.RunBatchMatchTick(profile, env);
    outcome := AfterTick(profile, env, ticked);
    KeySpelledOut(BatchMatchFor(profile));
  }

  /**
   A worker that still holds its lease finalizes a batch-match row whose tick
   returned normally while the profile has an active batch: afterwards exactly
   one live row works for the profile, a fresh one that asks for the next poll.
   */
  lemma ActiveBatchKeepsOneRow(s: B.Store, profile: ProfileId, env: B.Env, selected: seq<AppId>, b: B.BatchId,
                               q: Queue, id: RowId, worker: WorkerId, now: int, q': Queue)
    requires B.BatchInv(s) && B.RowsFor(s, profile, env, selected)
    requires B.Tick(s, profile, env, selected).1.Returned?
    requires B.ActiveFor(B.Tick(s, profile, env, selected).0.batches, profile, b)
    requires Inv(q) && Owns(q.rows, id, worker)
    requires q.rows[id].jobType.BatchMatch? && q.rows[id].dedupeKey == Some(Key(profile))
    requires W.Completed(q, id, worker, FollowUp(profile, env, B.Tick(s, profile, env, selected).1.result), now, q')
    ensures Inv(q') && OnlyLiveRow(q'.rows, q.nextId, BatchMatch, Key(profile))
    ensures q'.rows[q.nextId] == NewRow(BatchMatch, ForProfile(profile, env.maxItems), Some(Key(profile)),
                                        Some(now + env.settings.pollInterval), now)
  {
    Laws.ActiveBatchMeansFollowUp(s, profile, env, selected, b);
    FollowUpIsTheOnlyRow(profile, env, q, id, worker, now, q');
  }

  lemma FollowUpIsTheOnlyRow(profile: ProfileId, env: B.Env, q: Queue, id: RowId, worker: WorkerId, now: int, q': Queue)
    requires Inv(q) && Owns(q.rows, id, worker)
    requires q.rows[id].jobType.BatchMatch? && q.rows[id].dedupeKey == Some(Key(profile))
    requires W.Completed(q, id, worker, FollowUp(profile, env, B.NOTHING.(requeued := true)), now, q')
    ensures Inv(q') && OnlyLiveRow(q'.rows, q.nextId, BatchMatch, Key(profile))
    ensures q'.rows[q.nextId] == NewRow(BatchMatch, ForProfile(profile, env.maxItems), Some(Key(profile)),
                                        Some(now + env.settings.pollInterval), now)
  {
    var payload, notBefore := ForProfile(profile, env.maxItems), Some(now + env.settings.pollInterval);
    var mid :| Step(q, MarkDone(id, worker, now), mid)
               && Step(mid, Enqueue(BatchMatch, payload, Some(Key(profile)), UpsertResetNotBefore, notBefore, now), q');
    QueueRuns.FollowUpOwnsTheSlot(q, id, worker, Key(profile), payload, notBefore, now, mid, q');
  }

  // ----- The repair

  /** Batch b of the profile is due for a poll. */
  predicate Due(batches: map<B.BatchId, B.Batch>, only: Option<ProfileId>, now: int, b: B.BatchId) {
    && b in batches && batches[b].Active()
    && batches[b].nextPollAt.Some? && batches[b].nextPollAt.value <= now
    && (only.None? || batches[b].profile == only.value)
  }

  function DueProfiles(batches: map<B.BatchId, B.Batch>, only: Option<ProfileId>, now: int): set<ProfileId> {
    set b | b in batches && Due(batches, only, now, b) :: batches[b].profile
  }

  /** Row id is queued or running for the profile's batches. */
  predicate PollsFor(rows: map<RowId, Row>, id: RowId, profile: ProfileId) {
    && id in rows && rows[id].jobType == JobType.BatchMatch && rows[id].dedupeKey == Some("batch-match:" + profile)
    && (rows[id].status == Pending || rows[id].status == InProgress)
  }

  /** Batch b is not closed, its poll time has come, and it is for the profile asked for. */
  predicate PollHasCome(batches: map<B.BatchId, B.Batch>, only: Option<ProfileId>, now: int, b: B.BatchId) {
    && b in batches && batches[b].status != B.BatchDone && batches[b].status != B.BatchFailed
    && batches[b].nextPollAt != None && batches[b].nextPollAt.value <= now
    && (only == None || only == Some(batches[b].profile))
  }

  /** With exactly one live row for every intent, exactly one row polls for every profile whose time has come. */
  lemma DueProfilesArePolled(batches: map<B.BatchId, B.Batch>, only: Option<ProfileId>, now: int, rows: map<RowId, Row>,
                             intents: seq<Intent>, ids: seq<RowId>)
    requires IntentsFor(intents, DueProfiles(batches, only, now)) && |ids| == |intents|
    requires forall i | 0 <= i < |intents| :: OnlyLiveRow(rows, ids[i], intents[i].Type(), intents[i].Key())
    ensures forall b | PollHasCome(batches, only, now, b) ::
              exists id :: PollsFor(rows, id, batches[b].profile)
                           && forall other | PollsFor(rows, other, batches[b].profile) :: other == id
  {
    forall b | PollHasCome(batches, only, now, b)
      ensures exists id :: PollsFor(rows, id, batches[b].profile)
                           && forall other | PollsFor(rows, other, batches[b].profile) :: other == id
    {
      var profile := batches[b].profile;
      assert Due(batches, only, now, b) && profile in DueProfiles(batches, only, now);
      var i :| 0 <= i < |intents| && intents[i] == BatchMatchFor(profile);
      OneRowPolls(rows, ids[i], profile);
    }
  }

  lemma OneRowPolls(rows: map<RowId, Row>, id: RowId, profile: ProfileId)
    requires OnlyLiveRow(rows, id, JobType.BatchMatch, Key(profile))
    ensures PollsFor(rows, id, profile) && forall other | PollsFor(rows, other, profile) :: other == id
  {
    KeySpelledOut(BatchMatchFor(profile));
    forall other | PollsFor(rows, other, profile) ensures other == id {
      assert Occupies(rows, other, JobType.BatchMatch, Key(profile));
    }
  }

  /** The intents stand for exactly these profiles, each once. */
  ghost predicate IntentsFor(intents: seq<Intent>, profiles: set<ProfileId>) {
    && Distinct(intents)
    && (forall p :: p in profiles <==> BatchMatchFor(p) in intents)
    && (forall intent | intent in intents :: intent.BatchMatchFor?)
  }

  /** Profiles seen are due, and every due batch is still to be looked at or belongs to one of them. */
  ghost predicate SeenSoFar(batches: map<B.BatchId, B.Batch>, only: Option<ProfileId>, now: int,
                            todo: set<B.BatchId>, seen: set<ProfileId>) {
    && (forall b | b in todo :: Due(batches, only, now, b))
    && (forall b | Due(batches, only, now, b) :: b in todo || batches[b].profile in seen)
    && (forall p | p in seen :: p in DueProfiles(batches, only, now))
  }

  lemma SeeNext(batches: map<B.BatchId, B.Batch>, only: Option<ProfileId>, now: int,
                todo: set<B.BatchId>, seen: set<ProfileId>, b: B.BatchId)
    requires SeenSoFar(batches, only, now, todo, seen) && b in todo
    ensures b in batches
    ensures SeenSoFar(batches, only, now, todo - {b}, seen + {batches[b].profile})
  {
    assert Due(batches, only, now, b);
  }

  lemma AllSeen(batches: map<B.BatchId, B.Batch>, only: Option<ProfileId>, now: int, seen: set<ProfileId>)
    requires SeenSoFar(batches, only, now, {}, seen)
    ensures seen == DueProfiles(batches, only, now)
  {
  }

  lemma IntentAppended(intents: seq<Intent>, profiles: set<ProfileId>, profile: ProfileId)
    requires IntentsFor(intents, profiles) && profile !in profiles
    ensures IntentsFor(intents + [BatchMatchFor(profile)], profiles + {profile})
  {
    assert BatchMatchFor(profile) !in intents;
  }

  /** The loop body: a profile seen before is skipped. */
  method PollNext(queue: WorkQueue, profile: ProfileId, seenProfiles: set<ProfileId>, now: int,
                  ghost before: map<RowId, Row>, ghost intents: seq<Intent>, enqueued: seq<RowId>)
    returns (longer: seq<RowId>, ghost more: seq<Intent>)
    requires queue.Valid() && IntentsFor(intents, seenProfiles) && Served(before, queue.rows, intents, enqueued, now)
    modifies queue
    ensures queue.Valid() && IntentsFor(more, seenProfiles + {profile}) && Served(before, queue.rows, more, longer, now)
  {
    longer, more := enqueued, intents;
    if profile !in seenProfiles {
      IntentAppended(intents, seenProfiles, profile);
      longer := ServeNext(queue, BatchMatchFor(profile), now, before, intents, enqueued);
      more := intents + [BatchMatchFor(profile)];
    } else {
      assert seenProfiles + {profile} == seenProfiles;
    }
  }

  /**
   Afterwards every profile with a batch due for a poll has exactly one live
   row; each such profile is reported once, with that row; a row is added
   exactly where there was none, and no row that was there changes.
   */
  method EnqueueDueBatchPolls(queue: WorkQueue, batches: map<B.BatchId, B.Batch>, only: Option<ProfileId>, now: int)
    returns (enqueued: seq<RowId>, ghost intents: seq<Intent>)
    requires queue.Valid()
    modifies queue
    ensures queue.Valid()
    ensures IntentsFor(intents, DueProfiles(batches, only, now))
    ensures Served(old(queue.rows), queue.rows, intents, enqueued, now) && Distinct(enqueued)
    ensures forall i | 0 <= i < |intents| :: OnlyLiveRow(queue.rows, enqueued[i], intents[i].Type(), intents[i].Key())
    ensures forall b | PollHasCome(batches, only, now, b) ::
              exists id :: PollsFor(queue.rows, id, batches[b].profile)
                           && forall other | PollsFor(queue.rows, other, batches[b].profile) :: other == id
  {
    ghost var before := queue.rows;
    var todo := set b | b in batches && Due(batches, only, now, b);
    var seenProfiles: set<ProfileId> := {};
    enqueued, intents := [], [];
    while todo != {}
      invariant queue.Valid() && SeenSoFar(batches, only, now, todo, seenProfiles)
      invariant IntentsFor(intents, seenProfiles) && Served(before, queue.rows, intents, enqueued, now)
      decreases |todo|
    {
      var b :| b in todo;
      SeeNext(batches, only, now, todo, seenProfiles, b);
      enqueued, intents := PollNext(queue, batches[b].profile, seenProfiles, now, before, intents, enqueued);
      seenProfiles := seenProfiles + {batches[b].profile};
      todo := todo - {b};
    }
    AllSeen(batches, only, now, seenProfiles);
    ServedRowsAreSingle(queue.rows, before, intents, enqueued, now);
    DueProfilesArePolled(batches, only, now, queue.rows, intents, enqueued);
  }
}
