/**
 Safety of the lease queue over whole runs: any interleaving of statements by
 any number of workers, starting from the empty table.
 */
module QueueRuns {
  import opened Prelude
  import opened WorkQueues

  /** qs[k] is the table after the first k statements. */
  ghost predicate Run(qs: seq<Queue>, ops: seq<Op>) {
    && |qs| == |ops| + 1
    && qs[0] == EMPTY_QUEUE
    && forall k | 0 <= k < |ops| :: Step(qs[k], ops[k], qs[k + 1])
  }

  /**
   At every moment of every run: one live row per key, in progress exactly when
   claimed, columns as the history says.
   */
  lemma {:induction false} RunKeepsInv(qs: seq<Queue>, ops: seq<Op>, k: nat)
    requires Run(qs, ops) && k < |qs|
    ensures Inv(qs[k])
  {
    if k > 0 {
      RunKeepsInv(qs, ops, k - 1);
      StepKeepsInv(qs[k - 1], ops[k - 1], qs[k]);
    }
  }

  /** At no moment of any run are two rows of one kind and one dedupe key both pending or in progress. */
  lemma LiveRowsOfOneKeyAreOne(qs: seq<Queue>, ops: seq<Op>, k: nat, a: RowId, b: RowId)
    requires Run(qs, ops) && k < |qs| && a in qs[k].rows && b in qs[k].rows
    requires qs[k].rows[a].jobType == qs[k].rows[b].jobType
    requires qs[k].rows[a].dedupeKey.Some? && qs[k].rows[a].dedupeKey == qs[k].rows[b].dedupeKey
    requires qs[k].rows[a].status == Pending || qs[k].rows[a].status == InProgress
    requires qs[k].rows[b].status == Pending || qs[k].rows[b].status == InProgress
    ensures a == b
  {
    RunKeepsInv(qs, ops, k);
    var t, key := qs[k].rows[a].jobType, qs[k].rows[a].dedupeKey.value;
    assert Occupies(qs[k].rows, a, t, key) && Occupies(qs[k].rows, b, t, key);
  }

  /** If the row is terminal or gone in q, q' has it unchanged or has it no more, and its id is not free again. */
  ghost predicate Frozen(q: Queue, q': Queue, id: RowId) {
    id < q.nextId && (id in q.rows ==> q.rows[id].Terminal()) ==>
      && id < q'.nextId
      && (id in q'.rows ==> id in q.rows && q'.rows[id] == q.rows[id])
  }

  lemma StepFreezesTerminalRow(q: Queue, op: Op, q': Queue, id: RowId)
    requires Inv(q) && Step(q, op, q')
    ensures Frozen(q, q', id)
  {
    if op.Enqueue? && SlotTaken(q.rows, op.jobType, op.key) {
      var other :| other in q.rows && Occupies(q.rows, other, op.jobType, op.key.value);
    }
  }

  lemma RunFreezesTerminalRow(qs: seq<Queue>, ops: seq<Op>, k: nat, id: RowId)
    requires Run(qs, ops) && k < |ops|
    ensures Frozen(qs[k], qs[k + 1], id)
  {
    RunKeepsInv(qs, ops, k);
    StepFreezesTerminalRow(qs[k], ops[k], qs[k + 1], id);
  }

  lemma IdsInUse(qs: seq<Queue>, ops: seq<Op>, k: nat, id: RowId)
    requires Run(qs, ops) && k < |qs| && id in qs[k].rows
    ensures id < qs[k].nextId
  {
    RunKeepsInv(qs, ops, k);
  }

  /** done and failed are absorbing: such a row is never rewritten, only pruned, and its id is never used again. */
  lemma {:induction false} TerminalRowsAreFrozen(qs: seq<Queue>, ops: seq<Op>, i: nat, j: nat, id: RowId)
    requires Run(qs, ops) && i <= j < |qs|
    requires id in qs[i].rows && qs[i].rows[id].Terminal()
    ensures id in qs[j].rows ==> qs[j].rows[id] == qs[i].rows[id]
    ensures id < qs[j].nextId
  {
    if i == j {
      IdsInUse(qs, ops, i, id);
    } else {
      TerminalRowsAreFrozen(qs, ops, i, j - 1, id);
      RunFreezesTerminalRow(qs, ops, j - 1, id);
    }
  }

  // ----- Reading the history

  lemma {:induction false} HolderSince(log: seq<Event>, i: nat, j: nat)
    requires i < j <= |log| && log[i].Claimed?
    requires forall k | i < k < j :: log[k].id != log[i].id
    ensures Holder(log[..j], log[i].id) == Some(Lease(log[i].worker, log[i].at))
  {
    assert log[..j][..j - 1] == log[..j - 1];
    if j > i + 1 {
      HolderSince(log, i, j - 1);
    }
  }

  lemma {:induction false} HolderClaimed(log: seq<Event>, id: RowId) returns (i: nat)
    requires Holder(log, id).Some?
    ensures i < |log| && log[i].Claimed? && log[i].id == id
    ensures Holder(log, id) == Some(Lease(log[i].worker, log[i].at))
    ensures forall k | i < k < |log| :: log[k].id != id
  {
    if log[|log| - 1].id == id {
      i := |log| - 1;
    } else {
      i := HolderClaimed(log[..|log| - 1], id);
    }
  }

  lemma FinishedStays(log: seq<Event>, i: nat, j: nat)
    requires i < j <= |log| && log[i].Finished?
    ensures Finalized(log[..j], log[i].id)
  {
    assert log[..j][i] == log[i];
  }

  /**
   Two claims of a row with no release and no claim of it in between are by
   different workers, and further apart than the second claim's visibility
   timeout.
   */
  lemma SuccessiveClaimsAreApart(qs: seq<Queue>, ops: seq<Op>, k: nat, i: nat, j: nat)
    requires Run(qs, ops) && k < |qs|
    requires i < j < |qs[k].log|
    requires qs[k].log[i].Claimed? && qs[k].log[j].Claimed? && qs[k].log[i].id == qs[k].log[j].id
    requires forall m | i < m < j && qs[k].log[m].id == qs[k].log[i].id :: qs[k].log[m].Finished?
    ensures qs[k].log[i].worker != qs[k].log[j].worker
    ensures qs[k].log[j].at - qs[k].log[i].at > qs[k].log[j].timeout
  {
    RunKeepsInv(qs, ops, k);
    var log := qs[k].log;
    assert LegalAt(log, j);
    forall m | i < m < j ensures log[m].id != log[i].id {
      if log[m].id == log[i].id {
        FinishedStays(log, m, j);
      }
    }
    HolderSince(log, i, j);
  }

  /** Whoever finalizes or releases a row made its latest claim, and the row was not released since. */
  lemma FinalizerMadeLatestClaim(qs: seq<Queue>, ops: seq<Op>, k: nat, j: nat) returns (i: nat)
    requires Run(qs, ops) && k < |qs|
    requires j < |qs[k].log| && !qs[k].log[j].Claimed?
    ensures i < j && qs[k].log[i].Claimed? && qs[k].log[i].id == qs[k].log[j].id
    ensures qs[k].log[i].worker == qs[k].log[j].worker
    ensures forall m | i < m < j :: qs[k].log[m].id != qs[k].log[j].id
  {
    RunKeepsInv(qs, ops, k);
    var log := qs[k].log;
    assert LegalAt(log, j);
    i := HolderClaimed(log[..j], log[j].id);
  }

  lemma {:induction false} FinalizedHasNoHolder(log: seq<Event>, i: nat, n: nat)
    requires LegalLog(log) && i < n <= |log| && log[i].Finished?
    ensures Holder(log[..n], log[i].id).None?
  {
    assert log[..n][..n - 1] == log[..n - 1];
    if i < n - 1 {
      FinalizedHasNoHolder(log, i, n - 1);
      FinishedStays(log, i, n - 1);
      assert LegalAt(log, n - 1);
    }
  }

  /** A finalization is the last event of its row: it is never claimed, released or finalized again. */
  lemma FinalizationIsLast(qs: seq<Queue>, ops: seq<Op>, k: nat, i: nat, j: nat)
    requires Run(qs, ops) && k < |qs|
    requires i < |qs[k].log| && j < |qs[k].log|
    requires qs[k].log[i].Finished? && qs[k].log[j].id == qs[k].log[i].id
    ensures j <= i
  {
    RunKeepsInv(qs, ops, k);
    var log := qs[k].log;
    if i < j {
      assert LegalAt(log, j);
      FinishedStays(log, i, j);
      FinalizedHasNoHolder(log, i, j);
      assert false;
    }
  }

  // ----- Mark done and enqueue the follow-up in one transaction

  /**
   mark_done frees the dedupe slot before the same transaction's upsert: the
   follow-up under the finished row's own key is always a fresh pending row,
   and the only live row of that key.
   */
  lemma FollowUpOwnsTheSlot(q: Queue, id: RowId, worker: WorkerId, key: string,
                            payload: Payload, notBefore: Option<int>, now: int, mid: Queue, q': Queue)
    requires Inv(q) && Owns(q.rows, id, worker) && q.rows[id].dedupeKey == Some(key)
    requires Step(q, MarkDone(id, worker, now), mid)
    requires Step(mid, Enqueue(q.rows[id].jobType, payload, Some(key), UpsertResetNotBefore, notBefore, now), q')
    ensures Inv(q')
    ensures q'.rows == q.rows[id := mid.rows[id]]
                             [q.nextId := NewRow(q.rows[id].jobType, payload, Some(key), notBefore, now)]
    ensures forall other :: Occupies(q'.rows, other, q.rows[id].jobType, key) <==> other == q.nextId
  {
    var t := q.rows[id].jobType;
    StepKeepsInv(q, MarkDone(id, worker, now), mid);
    assert Occupies(q.rows, id, t, key);
    forall other | other in mid.rows ensures !Occupies(mid.rows, other, t, key) {
      if Occupies(mid.rows, other, t, key) {
        assert Occupies(q.rows, other, t, key);
      }
    }
    assert !SlotTaken(mid.rows, t, Some(key));
    StepKeepsInv(mid, Enqueue(t, payload, Some(key), UpsertResetNotBefore, notBefore, now), q');
    assert Occupies(q'.rows, q.nextId, t, key);
  }
}
