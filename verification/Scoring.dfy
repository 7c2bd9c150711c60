/**
 Scores and statuses of applications over time: the match handler, the batch
 path, re-scoring and the user's own decisions.
 */
module Scoring {
  import opened Prelude
  import opened Applications
  import opened WorkQueues
  import opened EnqueueIntents
  import B = BatchMatch
  import Laws = BatchMatchLaws
  import W = Worker

  /** What the scoring agent answers. */
  datatype AgentAnswer =
    | TooManyRequests(retryAfter: Option<nat>)
    | AgentRaises(error: string)
    | Skipped
    | Scored(score: real, feedback: Feedback)

  /** Everything the match handler reads besides the application. */
  datatype MatchInputs = MatchInputs(
    jobExists: bool,
    profileExists: bool,
    rejection: Option<Feedback>,
    agent: AgentAnswer,
    threshold: real)

  predicate Reviewable(a: Application) {
    a.status.PendingReview? || a.status.AutoRejected?
  }

  predicate Decided(a: Application) {
    a.status.Dismissed? || a.status.Applied?
  }

  /** The handler writes score and feedback, and rejects when told to. */
  function WithScore(a: Application, score: real, feedback: Feedback, reject: bool): Application {
    a.(score := Some(score), feedback := feedback,
       status := if reject && a.status.PendingReview? then AutoRejected else a.status)
  }

  /** The application after one match job. */
  function Matched(a: Application, inputs: MatchInputs): Application {
    if a.score.Some? || !inputs.jobExists || !inputs.profileExists then a
    else if inputs.rejection.Some? then
      WithScore(a, B.DeterministicRejectionScore(inputs.threshold), inputs.rejection.value, true)
    else if inputs.agent.Scored? then
      WithScore(a, inputs.agent.score, inputs.agent.feedback, inputs.agent.score < inputs.threshold)
    else a
  }

  function MatchedIn(apps: Table, app: AppId, inputs: MatchInputs): Table {
    if app in apps then apps[app := Matched(apps[app], inputs)] else apps
  }

  /** mark_for_rescore picks these. */
  predicate Rescorable(a: Application, profile: ProfileId) {
    a.profile == profile && Reviewable(a) && a.score.Some?
  }

  function RescorableIn(apps: Table, profile: ProfileId): set<AppId> {
    set a | a in apps && Rescorable(apps[a], profile)
  }

  function Unscored(a: Application, now: int): Application {
    a.(score := None, feedback := NO_FEEDBACK, status := PendingReview, updatedAt := now)
  }

  function RescoredIn(apps: Table, profile: ProfileId, now: int): Table {
    map a | a in apps :: if Rescorable(apps[a], profile) then Unscored(apps[a], now) else apps[a]
  }

  /** The user's decision; None when the requested status is not one a user may set. */
  function DecidedAs(a: Application, status: ApplicationStatus, now: int): Option<Application> {
    if status.AutoRejected? then None
    else Some(a.(status := status, appliedAt := if status.Applied? then Some(now) else None, updatedAt := now))
  }

  // ----- The same, column by column

  /** Score and feedback are written; the status changes only if the job is rejected, and from pending review. */
  predicate ScoredAs(before: Application, after: Application, score: real, feedback: Feedback, reject: bool) {
    after == before.(score := Some(score), feedback := feedback,
                     status := if before.status == PendingReview && reject then AutoRejected else before.status)
  }

  /**
   A match job scores an application that has no score, whose job and profile
   exist: a deterministic mismatch as rejected, under 0.3 and under a positive
   threshold; otherwise as the agent says, rejected below the threshold. Without
   an answer of the agent nothing changes.
   */
  predicate MatchLeaves(before: Application, after: Application, inputs: MatchInputs) {
    if before.score != None || !inputs.jobExists || !inputs.profileExists then after == before
    else if inputs.rejection != None then
      var cap := inputs.threshold - 0.01;
      ScoredAs(before, after, if cap < 0.0 then 0.0 else if cap > 0.29 then 0.29 else cap, inputs.rejection.value, true)
    else match inputs.agent
         case Scored(score, feedback) => ScoredAs(before, after, score, feedback, score < inputs.threshold)
         case _ => after == before
  }

  /** A re-score clears the scores of a profile's applications that the user has not decided on. */
  predicate RescoreLeaves(before: Application, after: Application, profile: ProfileId, now: int) {
    if before.profile == profile && before.score != None
       && (before.status == PendingReview || before.status == AutoRejected) then
      after == before.(score := None, feedback := NO_FEEDBACK, status := PendingReview, updatedAt := now)
    else after == before
  }

  ghost predicate RescoreLeavesAll(before: Table, after: Table, profile: ProfileId, now: int) {
    after.Keys == before.Keys && forall a | a in before :: RescoreLeaves(before[a], after[a], profile, now)
  }

  /** The user's decision, and when the user applied. */
  predicate DecisionLeaves(before: Application, after: Application, status: ApplicationStatus, now: int) {
    if status == AutoRejected then after == before
    else after == before.(status := status, appliedAt := if status.Applied? then Some(now) else None, updatedAt := now)
  }

  class MatchService {
    const queue: WorkQueue
    var apps: Table

    constructor (queue: WorkQueue, apps: Table)
      ensures this.queue == queue && this.apps == apps
    {
      this.queue, this.apps := queue, apps;
    }

    /** Scores one application. */
    method HandleMatch(app: AppId, inputs: MatchInputs) returns (outcome: W.HandlerOutcome)
      modifies this
      ensures apps == MatchedIn(old(apps), app, inputs)
      ensures app in apps ==> app in old(apps) && MatchLeaves(old(apps)[app], apps[app], inputs)
      ensures outcome.Returned? ==> outcome.followUp.None?
      ensures outcome.Returned? && app in apps && inputs.jobExists && inputs.profileExists ==> apps[app].score.Some?
      ensures !outcome.Returned? ==> apps == old(apps)
      ensures outcome.Transient? ==>
                outcome.retryAfter == if inputs.agent.TooManyRequests? then inputs.agent.retryAfter else None
      ensures outcome.Raised? ==> inputs.agent == AgentRaises(outcome.error)
      ensures outcome.Transient?
              <==> app in old(apps) && old(apps)[app].score.None? && inputs.jobExists && inputs.profileExists
                   && inputs.rejection.None? && (inputs.agent.Skipped? || inputs.agent.TooManyRequests?)
    {
      if app !in apps || apps[app].score.Some? || !inputs.jobExists || !inputs.profileExists {
        return W.Returned(None);
      }
      var a := apps[app];
      if inputs.rejection.Some? {
        a := a.(score := Some(B.DeterministicRejectionScore(inputs.threshold)), feedback := inputs.rejection.value);
        if a.status.PendingReview? {
          a := a.(status := AutoRejected);
        }
        apps := apps[app := a];
        return W.Returned(None);
      }
      match inputs.agent
      case TooManyRequests(retryAfter) => outcome := W.Transient(retryAfter);
      case AgentRaises(error) => outcome := W.Raised(error);
      case Skipped => outcome := W.Transient(None);
      case Scored(score, feedback) =>
        a := a.(score := Some(score), feedback := feedback);
        if score < inputs.threshold && a.status.PendingReview? {
          a := a.(status := AutoRejected);
        }
        apps := apps[app := a];
        outcome := W.Returned(None);
    }

    /** False is the illegal transition. */
    method MarkUserDecision(app: AppId, status: ApplicationStatus, now: int) returns (ok: bool)
      requires app in apps
      modifies this
      ensures ok <==> !status.AutoRejected?
      ensures var after := DecidedAs(old(apps)[app], status, now);
              apps == if after.Some? then old(apps)[app := after.value] else old(apps)
      ensures DecisionLeaves(old(apps)[app], apps[app], status, now)
    {
      ok := status.PendingReview? || status.Dismissed? || status.Applied?;
      if ok {
        var a := apps[app].(status := status);
        a := a.(appliedAt := if status.Applied? then Some(now) else None);
        apps := apps[app := a.(updatedAt := now)];
      }
    }

    /**
     Clears every score a user has not decided on, and makes sure that exactly
     one match row works for each application so cleared. A row is added only
     for a cleared application that had none; no other row changes.
     */
    method MarkForRescore(profile: ProfileId, now: int) returns (count: nat)
      requires queue.Valid()
      modifies this, queue
      ensures queue.Valid()
      ensures apps == RescoredIn(old(apps), profile, now)
      ensures RescoreLeavesAll(old(apps), apps, profile, now)
      ensures count == |RescorableIn(old(apps), profile)|
      ensures KeepsRows(old(queue.rows), queue.rows)
      ensures OneMatchEach(queue.rows, RescorableIn(old(apps), profile))
      ensures NewRowsAreMatches(old(queue.rows), queue.rows, RescorableIn(old(apps), profile), now)
    {
      var ids := ClearScores(profile, now);
      count := |ids|;
      EnqueueMatches(ids, now);
    }

    /** The update statement: which scores it cleared. */
    method ClearScores(profile: ProfileId, now: int) returns (ids: set<AppId>)
      modifies this`apps
      ensures ids == RescorableIn(old(apps), profile) && apps == RescoredIn(old(apps), profile, now)
      ensures RescoreLeavesAll(old(apps), apps, profile, now)
    {
      ids := RescorableIn(apps, profile);
      apps := map a | a in apps :: if a in ids then Unscored(apps[a], now) else apps[a];
    }

    /** One match row for each of these applications, new where there was none. */
    method EnqueueMatches(ids: set<AppId>, now: int)
      requires queue.Valid()
      modifies queue
      ensures queue.Valid() && KeepsRows(old(queue.rows), queue.rows)
      ensures OneMatchEach(queue.rows, ids) && NewRowsAreMatches(old(queue.rows), queue.rows, ids, now)
    {
      ghost var before := queue.rows;
      var todo, rows := ids, [];
      ghost var intents := [];
      while todo != {}
        invariant queue.Valid() && MatchesFor(intents, ids, todo)
        invariant Served(before, queue.rows, intents, rows, now)
        decreases |todo|
      {
        var a :| a in todo;
        rows := ServeNext(queue, MatchFor(a), now, before, intents, rows);
        intents := intents + [MatchFor(a)];
        todo := todo - {a};
      }
      MatchesServed(before, queue.rows, intents, rows, ids, now);
    }
  }

  /** Each of these applications has exactly one live match row. */
  ghost predicate OneMatchEach(rows: map<RowId, Row>, ids: set<AppId>) {
    forall a | a in ids :: exists id :: OnlyLiveRow(rows, id, Match, MatchFor(a).Key())
  }

  /** Every new row is a match row for one of these applications, which had no live one. */
  ghost predicate NewRowsAreMatches(before: map<RowId, Row>, rows: map<RowId, Row>, ids: set<AppId>, now: int) {
    forall id | id in rows && id !in before :: exists a :: a in ids && AddedFor(before, rows, id, MatchFor(a), now)
  }

  /** Match intents for these applications, all of them but the ones to do. */
  ghost predicate MatchesFor(intents: seq<Intent>, ids: set<AppId>, todo: set<AppId>) {
    && todo <= ids
    && (forall intent | intent in intents :: intent.MatchFor? && intent.app in ids)
    && (forall a | a in ids && a !in todo :: MatchFor(a) in intents)
  }

  lemma MatchesServed(before: map<RowId, Row>, rows: map<RowId, Row>, intents: seq<Intent>, ids: seq<RowId>,
                      apps: set<AppId>, now: int)
    requires OneLiveRowPerKey(rows) && MatchesFor(intents, apps, {}) && Served(before, rows, intents, ids, now)
    ensures OneMatchEach(rows, apps) && NewRowsAreMatches(before, rows, apps, now)
  {
    forall a | a in apps ensures exists id :: OnlyLiveRow(rows, id, Match, MatchFor(a).Key()) {
      ServedHasOneRow(rows, before, intents, ids, MatchFor(a), now);
    }
    forall id | id in rows && id !in before
      ensures exists a :: a in apps && AddedFor(before, rows, id, MatchFor(a), now)
    {
      var intent :| intent in intents && AddedFor(before, rows, id, intent, now);
      assert AddedFor(before, rows, id, MatchFor(intent.app), now);
    }
  }

  // ----- The two ways to reject deterministically

  /** The rejection score is below the threshold exactly when the threshold is positive. */
  lemma RejectionScoreIsBelowThreshold(threshold: real)
    ensures B.DeterministicRejectionScore(threshold) < threshold <==> threshold > 0.0
    ensures 0.0 <= B.DeterministicRejectionScore(threshold) <= 0.29
  {
  }

  /**
   The match handler rejects a deterministic mismatch outright, the batch path
   only when the rejection score is below the threshold: they give the same
   status exactly when the threshold is positive or the application is not
   pending review, and the same score and feedback always.
   */
  lemma RejectPathsAgree(a: Application, inputs: MatchInputs, now: int)
    requires a.score.None? && inputs.jobExists && inputs.profileExists && inputs.rejection.Some?
    ensures var one := Matched(a, inputs);
            var batch := B.ApplyScoreFields(a, inputs.rejection.value, inputs.threshold, now);
            && one.score == batch.score && one.feedback == batch.feedback
            && (one.status == batch.status <==> inputs.threshold > 0.0 || !a.status.PendingReview?)
  {
    RejectionScoreIsBelowThreshold(inputs.threshold);
  }

  // ----- Every writer of scores and statuses

  datatype Move =
    | MatchJob(app: AppId, inputs: MatchInputs)
    | BatchTick(profile: ProfileId, env: B.Env, rows: seq<AppId>)
    | Rescore(profile: ProfileId, now: int)
    | Decide(app: AppId, status: ApplicationStatus, now: int)

  ghost predicate ScoringStep(s: B.Store, m: Move, t: B.Store) {
    match m
    case MatchJob(app, inputs) => t == s.(apps := MatchedIn(s.apps, app, inputs))
    case BatchTick(profile, env, rows) => Laws.TickStep(s, profile, env, rows, t)
    case Rescore(profile, now) => t == s.(apps := RescoredIn(s.apps, profile, now))
    case Decide(app, status, now) =>
      && app in s.apps
      && DecidedAs(s.apps[app], status, now).Some?
      && t == s.(apps := s.apps[app := DecidedAs(s.apps[app], status, now).value])
  }

  ghost predicate ScoringRun(ss: seq<B.Store>, ms: seq<Move>) {
    && |ss| == |ms| + 1
    && B.BatchInv(ss[0])
    && forall k | 0 <= k < |ms| :: ScoringStep(ss[k], ms[k], ss[k + 1])
  }

  /** Move m decides on application app. */
  predicate Decides(m: Move, app: AppId) {
    m.Decide? && m.app == app
  }

  /** Move m re-scores the profile of a. */
  predicate Rescores(m: Move, a: Application) {
    m.Rescore? && m.profile == a.profile
  }

  /** What one move may do to one application. */
  ghost predicate Lawful(m: Move, app: AppId, a: Application, b: Application) {
    && b.profile == a.profile && b.job == a.job
    && (a.score.Some? && b.score != a.score
        ==> Rescores(m, a) && Reviewable(a) && b.score.None? && b.status.PendingReview?)
    && (b.status != a.status && !Decides(m, app) ==>
          || (a.status.PendingReview? && b.status.AutoRejected? && a.score.None? && b.score.Some?)
          || (Rescores(m, a) && a.status.AutoRejected? && b.status.PendingReview? && a.score.Some?))
    && (Decides(m, app) ==> b.score == a.score && b.feedback == a.feedback && !b.status.AutoRejected?)
  }

  lemma StepIsLawful(s: B.Store, m: Move, t: B.Store, app: AppId)
    requires B.BatchInv(s) && ScoringStep(s, m, t) && app in s.apps
    ensures B.BatchInv(t) && t.apps.Keys == s.apps.Keys
    ensures Lawful(m, app, s.apps[app], t.apps[app])
  {
    if m.BatchTick? {
      Laws.TickStepKeepsInv(s, m.profile, m.env, m.rows, t);
      assert Laws.ScoredOnce(s.apps[app], t.apps[app]);
    }
  }

  lemma {:induction false} ScoringRunKeepsInv(ss: seq<B.Store>, ms: seq<Move>, k: nat, app: AppId)
    requires ScoringRun(ss, ms) && k < |ss| && app in ss[0].apps
    ensures B.BatchInv(ss[k]) && app in ss[k].apps
  {
    if k > 0 {
      ScoringRunKeepsInv(ss, ms, k - 1, app);
      StepIsLawful(ss[k - 1], ms[k - 1], ss[k], app);
    }
  }

  /** Consecutive states of one application obey the law of the move between them. */
  lemma ScoringRunIsLawful(ss: seq<B.Store>, ms: seq<Move>, k: nat, app: AppId)
    requires ScoringRun(ss, ms) && k < |ms| && app in ss[0].apps
    ensures app in ss[k].apps && app in ss[k + 1].apps
    ensures Lawful(ms[k], app, ss[k].apps[app], ss[k + 1].apps[app])
  {
    ScoringRunKeepsInv(ss, ms, k, app);
    StepIsLawful(ss[k], ms[k], ss[k + 1], app);
  }

  /**
   Only the user takes back a decision: until then neither status nor score of a
   decided application changes, except that a missing score may be filled in.
   */
  lemma {:induction false} DecisionsStand(ss: seq<B.Store>, ms: seq<Move>, i: nat, j: nat, app: AppId)
    requires ScoringRun(ss, ms) && i <= j < |ss| && app in ss[0].apps
    requires forall k | i <= k < j :: !Decides(ms[k], app)
    ensures app in ss[i].apps && app in ss[j].apps
    ensures Decided(ss[i].apps[app]) ==>
              && ss[j].apps[app].status == ss[i].apps[app].status
              && (ss[i].apps[app].score.Some? ==> ss[j].apps[app].score == ss[i].apps[app].score)
  {
    if i == j {
      ScoringRunKeepsInv(ss, ms, i, app);
    } else {
      DecisionsStand(ss, ms, i, j - 1, app);
      ScoringRunIsLawful(ss, ms, j - 1, app);
    }
  }

  lemma ScoreStands(m: Move, app: AppId, a: Application, b: Application)
    requires Lawful(m, app, a, b) && a.score.Some? && !Rescores(m, a)
    ensures b.profile == a.profile && b.score == a.score
    ensures !Decides(m, app) ==> b.status == a.status
  {
  }

  ghost predicate NoRescore(ms: seq<Move>, i: nat, j: nat, a: Application) {
    forall k | i <= k < j && k < |ms| :: !Rescores(ms[k], a)
  }

  ghost predicate NoDecision(ms: seq<Move>, i: nat, j: nat, app: AppId) {
    forall k | i <= k < j && k < |ms| :: !Decides(ms[k], app)
  }

  /** A score stays what it is until the profile is re-scored, and with it a status the user has not touched. */
  lemma {:induction false} ScoresStandUntilRescored(ss: seq<B.Store>, ms: seq<Move>, i: nat, j: nat, app: AppId,
                                                    was: Application)
    requires ScoringRun(ss, ms) && i <= j < |ss| && app in ss[0].apps
    requires app in ss[i].apps && ss[i].apps[app] == was && was.score.Some?
    requires NoRescore(ms, i, j, was)
    ensures app in ss[j].apps
    ensures ss[j].apps[app].profile == was.profile && ss[j].apps[app].score == was.score
    ensures NoDecision(ms, i, j, app) ==> ss[j].apps[app].status == was.status
  {
    if i < j {
      ScoresStandUntilRescored(ss, ms, i, j - 1, app, was);
      ScoringRunIsLawful(ss, ms, j - 1, app);
      assert !Rescores(ms[j - 1], was);
      ScoreStands(ms[j - 1], app, ss[j - 1].apps[app], ss[j].apps[app]);
    }
  }
}
