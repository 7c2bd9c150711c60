/**
 The two ways to strand an application, as runs from the empty queue: both end
 with an application in `generating` that no row works for and that no orphan
 query finds.
 */
module StolenLease {
  import opened Prelude
  import opened WorkQueues
  import opened Applications
  import opened CoverLetters
  import opened CoverLetterSafety

  /** A stretch of a run. */
  ghost predicate Stretch(ss: seq<System>, ms: seq<Move>) {
    |ss| == |ms| + 1 && forall k | 0 <= k < |ms| :: SystemStep(ss[k], ms[k], ss[k + 1])
  }

  lemma OneMore(ss: seq<System>, ms: seq<Move>, m: Move, t: System)
    requires Stretch(ss, ms) && SystemStep(ss[|ms|], m, t)
    ensures Stretch(ss + [t], ms + [m])
  {
  }

  /** A stretch that starts where another one ends continues it. */
  lemma StretchesJoin(a: seq<System>, ms: seq<Move>, b: seq<System>, ns: seq<Move>)
    returns (ss: seq<System>, rs: seq<Move>)
    requires Stretch(a, ms) && Stretch(b, ns) && a[|ms|] == b[0]
    ensures Stretch(ss, rs) && |rs| == |ms| + |ns|
    ensures ss[0] == a[0]
    ensures forall k: nat | k < |b| :: ss[|ms| + k] == b[k]
    ensures forall k: nat | k < |ns| :: rs[|ms| + k] == ns[k]
  {
    ss, rs := a + b[1..], ms + ns;
    forall k | 0 <= k < |rs| ensures SystemStep(ss[k], rs[k], ss[k + 1]) {
      if k >= |ms| {
        assert SystemStep(b[k - |ms|], ns[k - |ms|], b[k - |ms| + 1]);
      }
    }
  }

  lemma StretchIsRun(ss: seq<System>, ms: seq<Move>)
    requires Stretch(ss, ms) && ss[0].queue == EMPTY_QUEUE && ss[0].tasks == map[]
    requires forall a | a in ss[0].apps :: !ss[0].apps[a].generation.Generating?
    ensures SystemRun(ss, ms)
  {
  }

  /** A done row works for nobody, and the orphan query looks for pending applications only. */
  lemma NoRowNoOrphan(s: System)
    requires s.queue.rows.Keys == {0} && s.queue.rows[0].status.Done? && IsGenerating(s.apps, "x")
    ensures !HasLiveRow(s.queue.rows, "x") && forall now :: !Orphan(s.apps, s.queue.rows, "x", now)
  {
  }

  // ----- A late claim

  /** Row 0 works for the application and was claimed n times. */
  predicate HeldFor(q: Queue, n: nat) {
    0 in q.rows && q.rows[0].attempts == n && q.rows[0].jobType.GenerateCoverLetter?
      && q.rows[0].payload == ForApplication("x")
  }

  const STALLED_ROW: Row := NewRow(GenerateCoverLetter, ForApplication("x"), Some(Key("x")), None, 0)
  const CLAIM_A: Op := Claim("A", 600, None, {}, 1, Some(0))
  const CLAIM_B: Op := Claim("B", 600, None, {}, 700, Some(0))

  /** One row: claimed by A, stolen by B, asked for again, finished by B. */
  lemma StolenLeaseQueue() returns (q1: Queue, qA: Queue, qB: Queue, qDone: Queue)
    ensures q1 == Queue(map[0 := STALLED_ROW], 1, [])
    ensures Step(EMPTY_QUEUE, CoverLetterEnqueue("x", 0), q1)
    ensures Step(q1, CLAIM_A, qA) && HeldFor(qA, 1)
    ensures Step(qA, CLAIM_B, qB)
    ensures Step(qB, CoverLetterEnqueue("x", 702), qB)
    ensures Step(qB, MarkDone(0, "B", 703), qDone)
    ensures qDone.rows.Keys == {0} && qDone.rows[0].status.Done? && qDone.rows[0].completedAt == Some(703)
  {
    var rowA := STALLED_ROW.(status := InProgress, claimedAt := Some(1), claimedBy := Some("A"), attempts := 1);
    var rowB := rowA.(claimedAt := Some(700), claimedBy := Some("B"), attempts := 2);
    var done := rowB.(status := Done, completedAt := Some(703), claimedBy := None);
    var log := [Claimed(0, "A", 1, 600), Claimed(0, "B", 700, 600)];
    q1 := Queue(map[0 := STALLED_ROW], 1, []);
    qA := Queue(map[0 := rowA], 1, log[..1]);
    qB := Queue(map[0 := rowB], 1, log);
    qDone := Queue(map[0 := done], 1, log + [Finished(0, "B", true)]);
    assert Candidates(q1.rows, "A", 600, None, {}, 1) == {0};
    assert Candidates(qA.rows, "B", 600, None, {}, 700) == {0};
    assert Occupies(qB.rows, 0, GenerateCoverLetter, Key("x"));
  }

  const TASK_A: Task := Task(0, "A", "x", 1, AtStart)
  const TASK_B: Task := Task(0, "B", "x", 2, AtStart)
  const UNASKED: Application := Application("p", "j", PendingReview, GenNone, 0, None, None, None, NO_FEEDBACK, None,
                                            0, 0)
  const ASKED: Application := UNASKED.(generation := GenPending)
  const STALLED_A: map<nat, Task> := map[0 := TASK_A.(stage := AtClaim)]

  /** A's task loads the application and stalls before its claim. */
  lemma FirstWorkerStalls(q1: Queue, qA: Queue) returns (ss: seq<System>, ms: seq<Move>)
    requires Step(EMPTY_QUEUE, CoverLetterEnqueue("x", 0), q1) && Step(q1, CLAIM_A, qA)
    requires q1 == Queue(map[0 := STALLED_ROW], 1, []) && HeldFor(qA, 1)
    ensures Stretch(ss, ms) && |ss| == 4
    ensures ss[0] == System(EMPTY_QUEUE, map["x" := UNASKED], map[], 0)
    ensures ss[3] == System(qA, map["x" := ASKED], STALLED_A, 1)
  {
    var s0, s1 := System(EMPTY_QUEUE, map["x" := UNASKED], map[], 0), System(q1, map["x" := ASKED], map[], 0);
    ms, ss := [RequestGeneration("x", 0)], [s0, s1];
    OneMore(ss, ms, ClaimRow(CLAIM_A), System(qA, map["x" := ASKED], map[0 := TASK_A], 1));
    ms, ss := ms + [ClaimRow(CLAIM_A)], ss + [System(qA, map["x" := ASKED], map[0 := TASK_A], 1)];
    OneMore(ss, ms, Commits(0, Load, 1), System(qA, map["x" := ASKED], STALLED_A, 1));
    ms, ss := ms + [Commits(0, Load, 1)], ss + [System(qA, map["x" := ASKED], STALLED_A, 1)];
  }

  const GENERATED: Application := ASKED.(generation := Generating, updatedAt := 700)
  const ANSWERED: Application := WithLetter(GENERATED, "letter", 701)
  const ASKED_AGAIN: Application := ANSWERED.(generation := GenPending, updatedAt := 702)
  const BOTH_TASKS: map<nat, Task> := STALLED_A[1 := TASK_B.(stage := AtDone)]

  /** B takes the stale lease and claims the application. */
  lemma LeaseIsStolen(qA: Queue, qB: Queue) returns (ss: seq<System>, ms: seq<Move>)
    requires Step(qA, CLAIM_B, qB) && HeldFor(qA, 1)
    ensures Stretch(ss, ms) && |ss| == 4
    ensures ss[0] == System(qA, map["x" := ASKED], STALLED_A, 1)
    ensures ss[3] == System(qB, map["x" := GENERATED], STALLED_A[1 := TASK_B.(stage := AtModel)], 2)
  {
    var s3, s4 := System(qA, map["x" := ASKED], STALLED_A, 1), System(qB, map["x" := ASKED], STALLED_A[1 := TASK_B], 2);
    var s5 := System(qB, map["x" := ASKED], STALLED_A[1 := TASK_B.(stage := AtClaim)], 2);
    var s6 := System(qB, map["x" := GENERATED], STALLED_A[1 := TASK_B.(stage := AtModel)], 2);
    ms, ss := [ClaimRow(CLAIM_B)], [s3, s4];
    OneMore(ss, ms, Commits(1, Load, 700), s5);
    ms, ss := ms + [Commits(1, Load, 700)], ss + [s5];
    OneMore(ss, ms, Commits(1, ClaimApplication, 700), s6);
    ms, ss := ms + [Commits(1, ClaimApplication, 700)], ss + [s6];
  }

  /** B answers, and the user asks again before B finishes the row. */
  lemma SecondWorkerAnswers(qB: Queue) returns (ss: seq<System>, ms: seq<Move>)
    requires Step(qB, CoverLetterEnqueue("x", 702), qB)
    ensures Stretch(ss, ms) && |ss| == 3
    ensures ss[0] == System(qB, map["x" := GENERATED], STALLED_A[1 := TASK_B.(stage := AtModel)], 2)
    ensures ss[2] == System(qB, map["x" := ASKED_AGAIN], BOTH_TASKS, 2)
  {
    var s6 := System(qB, map["x" := GENERATED], STALLED_A[1 := TASK_B.(stage := AtModel)], 2);
    var s7, s8 := System(qB, map["x" := ANSWERED], BOTH_TASKS, 2), System(qB, map["x" := ASKED_AGAIN], BOTH_TASKS, 2);
    ms, ss := [Commits(1, Succeed("letter"), 701)], [s6, s7];
    OneMore(ss, ms, RequestGeneration("x", 702), s8);
    ms, ss := ms + [RequestGeneration("x", 702)], ss + [s8];
  }

  /** B finishes, and A's late claim goes through. */
  lemma LateClaim(qB: Queue, qDone: Queue) returns (ss: seq<System>, ms: seq<Move>)
    requires Step(qB, MarkDone(0, "B", 703), qDone) && qDone.rows.Keys == {0} && qDone.rows[0].status.Done?
    ensures Stretch(ss, ms) && |ss| == 3
    ensures ss[0] == System(qB, map["x" := ASKED_AGAIN], BOTH_TASKS, 2)
    ensures ss[2].queue == qDone && IsGenerating(ss[2].apps, "x") && ClaimsUnattended(ss[1], ms[1])
  {
    var s8 := System(qB, map["x" := ASKED_AGAIN], BOTH_TASKS, 2);
    var s9 := System(qDone, s8.apps, s8.tasks - {1}, 2);
    var s10 := System(qDone, map["x" := ASKED_AGAIN.(generation := Generating, updatedAt := 704)],
                      s9.tasks[0 := TASK_A.(stage := AtModel)], 2);
    ms, ss := [Settles(1, Finish, 703)], [s8, s9];
    OneMore(ss, ms, Commits(0, ClaimApplication, 704), s10);
    ms, ss := ms + [Commits(0, ClaimApplication, 704)], ss + [s10];
  }

  /**
   A late claim. Worker A stalls after loading the application; B takes over the
   stale lease and answers; the user asks again, deduplicated onto the row B is
   about to finish; and A's late claim leaves an application generating that no
   row works for and no orphan query finds.
   */
  lemma StolenLeaseStrandsApplication() returns (ss: seq<System>, ms: seq<Move>)
    ensures SystemRun(ss, ms) && |ss| == 11
    ensures IsGenerating(ss[10].apps, "x") && !HasLiveRow(ss[10].queue.rows, "x")
    ensures forall now :: !Orphan(ss[10].apps, ss[10].queue.rows, "x", now)
    ensures ClaimsUnattended(ss[9], ms[9])
  {
    var q1, qA, qB, qDone := StolenLeaseQueue();
    var a, msA := FirstWorkerStalls(q1, qA);
    var b, msB := LeaseIsStolen(qA, qB);
    var c, msC := SecondWorkerAnswers(qB);
    var d, msD := LateClaim(qB, qDone);
    ss, ms := StretchesJoin(a, msA, b, msB);
    assert ss[6] == b[3];
    ss, ms := StretchesJoin(ss, ms, c, msC);
    assert ss[8] == c[2];
    ss, ms := StretchesJoin(ss, ms, d, msD);
    assert ss[9] == d[1] && ms[9] == msD[1] && ss[10] == d[2];
    StretchIsRun(ss, ms);
    NoRowNoOrphan(ss[10]);
  }

  // ----- A late finish by a worker that claimed the row again

  const CLAIM_A_AGAIN: Op := Claim("A", 600, None, {}, 1400, Some(0))
  const TASK_A_AGAIN: Task := Task(0, "A", "x", 3, AtStart)

  /** One row: claimed by A, stolen by B, stolen back by A, and finished by A's first task. */
  lemma ReclaimedLeaseQueue() returns (q1: Queue, qA: Queue, qB: Queue, qAA: Queue, qDone: Queue)
    ensures q1 == Queue(map[0 := STALLED_ROW], 1, [])
    ensures Step(EMPTY_QUEUE, CoverLetterEnqueue("x", 0), q1)
    ensures Step(q1, CLAIM_A, qA) && HeldFor(qA, 1)
    ensures Step(qA, CLAIM_B, qB) && HeldFor(qB, 2)
    ensures Step(qB, CLAIM_A_AGAIN, qAA) && HeldFor(qAA, 3) && Owns(qAA.rows, 0, "A")
    ensures Step(qAA, CoverLetterEnqueue("x", 1402), qAA)
    ensures Step(qAA, MarkDone(0, "A", 1405), qDone)
    ensures qDone.rows.Keys == {0} && qDone.rows[0].status.Done?
  {
    var rowA := STALLED_ROW.(status := InProgress, claimedAt := Some(1), claimedBy := Some("A"), attempts := 1);
    var rowB := rowA.(claimedAt := Some(700), claimedBy := Some("B"), attempts := 2);
    var rowAA := rowB.(claimedAt := Some(1400), claimedBy := Some("A"), attempts := 3);
    var done := rowAA.(status := Done, completedAt := Some(1405), claimedBy := None);
    var log := [Claimed(0, "A", 1, 600), Claimed(0, "B", 700, 600), Claimed(0, "A", 1400, 600)];
    q1 := Queue(map[0 := STALLED_ROW], 1, []);
    qA := Queue(map[0 := rowA], 1, log[..1]);
    qB := Queue(map[0 := rowB], 1, log[..2]);
    qAA := Queue(map[0 := rowAA], 1, log);
    qDone := Queue(map[0 := done], 1, log + [Finished(0, "A", true)]);
    assert Candidates(q1.rows, "A", 600, None, {}, 1) == {0};
    assert Candidates(qA.rows, "B", 600, None, {}, 700) == {0};
    assert Candidates(qB.rows, "A", 600, None, {}, 1400) == {0};
    assert Occupies(qAA.rows, 0, GenerateCoverLetter, Key("x"));
  }

  const FIRST_GENERATED: Application := ASKED.(generation := Generating, updatedAt := 1)
  const FIRST_ANSWERED: Application := WithLetter(FIRST_GENERATED, "letter", 1401)
  const ASKED_LATER: Application := FIRST_ANSWERED.(generation := GenPending, updatedAt := 1402)
  const WORKING_A: map<nat, Task> := map[0 := TASK_A.(stage := AtModel)]
  const THREE_TASKS: map<nat, Task> := WORKING_A[1 := TASK_B][2 := TASK_A_AGAIN]
  const FIRST_DONE: map<nat, Task> := THREE_TASKS[0 := TASK_A.(stage := AtDone)]
  const SECOND_WORKING: map<nat, Task> := FIRST_DONE[2 := TASK_A_AGAIN.(stage := AtModel)]
  const GENERATING_LATER: Application := ASKED_LATER.(generation := Generating, updatedAt := 1404)

  /** A's first task, past its claim, loses the lease to B, and A gets it back. */
  lemma LeaseIsReclaimed(qA: Queue, qB: Queue, qAA: Queue) returns (ss: seq<System>, ms: seq<Move>)
    requires Step(qA, CLAIM_B, qB) && Step(qB, CLAIM_A_AGAIN, qAA) && HeldFor(qA, 1) && HeldFor(qB, 2)
             && HeldFor(qAA, 3)
    ensures Stretch(ss, ms) && |ss| == 4
    ensures ss[0] == System(qA, map["x" := ASKED], STALLED_A, 1)
    ensures ss[3] == System(qAA, map["x" := FIRST_GENERATED], THREE_TASKS, 3)
  {
    var generating := map["x" := FIRST_GENERATED];
    var s3, s4 := System(qA, map["x" := ASKED], STALLED_A, 1), System(qA, generating, WORKING_A, 1);
    var s5, s6 := System(qB, generating, WORKING_A[1 := TASK_B], 2), System(qAA, generating, THREE_TASKS, 3);
    ms, ss := [Commits(0, ClaimApplication, 1)], [s3, s4];
    OneMore(ss, ms, ClaimRow(CLAIM_B), s5);
    ms, ss := ms + [ClaimRow(CLAIM_B)], ss + [s5];
    OneMore(ss, ms, ClaimRow(CLAIM_A_AGAIN), s6);
    ms, ss := ms + [ClaimRow(CLAIM_A_AGAIN)], ss + [s6];
  }

  /** The first task answers, the user asks again, the second task loads. */
  lemma FirstTaskAnswers(qAA: Queue) returns (ss: seq<System>, ms: seq<Move>)
    requires Step(qAA, CoverLetterEnqueue("x", 1402), qAA)
    ensures Stretch(ss, ms) && |ss| == 4
    ensures ss[0] == System(qAA, map["x" := FIRST_GENERATED], THREE_TASKS, 3)
    ensures ss[3] == System(qAA, map["x" := ASKED_LATER], FIRST_DONE[2 := TASK_A_AGAIN.(stage := AtClaim)], 3)
  {
    var s6 := System(qAA, map["x" := FIRST_GENERATED], THREE_TASKS, 3);
    var s7 := System(qAA, map["x" := FIRST_ANSWERED], FIRST_DONE, 3);
    var s8 := System(qAA, map["x" := ASKED_LATER], FIRST_DONE, 3);
    var s9 := System(qAA, map["x" := ASKED_LATER], FIRST_DONE[2 := TASK_A_AGAIN.(stage := AtClaim)], 3);
    ms, ss := [Commits(0, Succeed("letter"), 1401)], [s6, s7];
    OneMore(ss, ms, RequestGeneration("x", 1402), s8);
    ms, ss := ms + [RequestGeneration("x", 1402)], ss + [s8];
    OneMore(ss, ms, Commits(2, Load, 1403), s9);
    ms, ss := ms + [Commits(2, Load, 1403)], ss + [s9];
  }

  /** The second task claims, the first one finishes the row under it, and the second one dies. */
  lemma LateFinish(qAA: Queue, qDone: Queue) returns (ss: seq<System>, ms: seq<Move>)
    requires Step(qAA, MarkDone(0, "A", 1405), qDone) && Owns(qAA.rows, 0, "A")
    ensures Stretch(ss, ms) && |ss| == 4
    ensures ss[0] == System(qAA, map["x" := ASKED_LATER], FIRST_DONE[2 := TASK_A_AGAIN.(stage := AtClaim)], 3)
    ensures ss[3].queue == qDone && IsGenerating(ss[3].apps, "x") && FinishesGenerating(ss[1], ms[1])
  {
    var again := map["x" := GENERATING_LATER];
    var s9 := System(qAA, map["x" := ASKED_LATER], FIRST_DONE[2 := TASK_A_AGAIN.(stage := AtClaim)], 3);
    var s10, s11 := System(qAA, again, SECOND_WORKING, 3), System(qDone, again, SECOND_WORKING - {0}, 3);
    var s12 := System(qDone, again, s11.tasks - {2}, 3);
    ms, ss := [Commits(2, ClaimApplication, 1404)], [s9, s10];
    OneMore(ss, ms, Settles(0, Finish, 1405), s11);
    ms, ss := ms + [Settles(0, Finish, 1405)], ss + [s11];
    OneMore(ss, ms, Crash(2), s12);
    ms, ss := ms + [Crash(2)], ss + [s12];
  }

  /**
   A late finish: settlement is guarded by the worker's name alone. Worker A
   loses its lease and gets it back while its first task still runs; the first
   task answers, the user asks again, the second task claims the application,
   and the first task finishes the row under it.
   */
  lemma ReclaimedLeaseStrandsApplication() returns (ss: seq<System>, ms: seq<Move>)
    ensures SystemRun(ss, ms) && |ss| == 13
    ensures IsGenerating(ss[12].apps, "x") && !HasLiveRow(ss[12].queue.rows, "x")
    ensures forall now :: !Orphan(ss[12].apps, ss[12].queue.rows, "x", now)
    ensures FinishesGenerating(ss[10], ms[10])
  {
    var q1, qA, qB, qAA, qDone := ReclaimedLeaseQueue();
    var a, msA := FirstWorkerStalls(q1, qA);
    var b, msB := LeaseIsReclaimed(qA, qB, qAA);
    var c, msC := FirstTaskAnswers(qAA);
    var d, msD := LateFinish(qAA, qDone);
    ss, ms := StretchesJoin(a, msA, b, msB);
    assert ss[6] == b[3];
    ss, ms := StretchesJoin(ss, ms, c, msC);
    assert ss[9] == c[3];
    ss, ms := StretchesJoin(ss, ms, d, msD);
    assert ss[10] == d[1] && ms[10] == msD[1] && ss[12] == d[3];
    StretchIsRun(ss, ms);
    NoRowNoOrphan(ss[12]);
  }
}
