/** Making sure that one row works for something, and for each of several things. */
module EnqueueIntents {
  import opened Prelude
  import opened WorkQueues

  /** What a caller wants worked on. */
  datatype Intent = CoverLetterFor(app: string) | MatchFor(app: string) | BatchMatchFor(profile: string)
  {
    function Type(): JobType {
      match this
      case CoverLetterFor(_) => GenerateCoverLetter
      case MatchFor(_) => Match
      case BatchMatchFor(_) => BatchMatch
    }

    function Work(): Payload {
      match this
      case CoverLetterFor(app) => ForApplication(app)
      case MatchFor(app) => ForApplication(app)
      case BatchMatchFor(profile) => ForProfile(profile, None)
    }

    function Key(): string {
      match this
      case CoverLetterFor(app) => DedupeKey("generate-cover-letter", app)
      case MatchFor(app) => DedupeKey("match", app)
      case BatchMatchFor(profile) => DedupeKey("batch-match", profile)
    }

    /** The fresh row of this intent. */
    function FreshRow(now: int): Row {
      NewRow(Type(), Work(), Some(Key()), None, now)
    }
  }

  lemma KeySpelledOut(intent: Intent)
    ensures intent.Key() == match intent
                            case CoverLetterFor(app) => "generate-cover-letter:" + app
                            case MatchFor(app) => "match:" + app
                            case BatchMatchFor(profile) => "batch-match:" + profile
  {
    assert "generate-cover-letter" + ":" == "generate-cover-letter:";
    assert "match" + ":" == "match:" && "batch-match" + ":" == "batch-match:";
  }

  /** The row of an intent: what it works on, pending, and never claimed. */
  lemma FreshRowSpelledOut(intent: Intent, now: int)
    ensures match intent
            case CoverLetterFor(app) =>
              intent.FreshRow(now) == Row(GenerateCoverLetter, ForApplication(app), Pending, now, None, None, None,
                                          None, 0, None, Some("generate-cover-letter:" + app))
            case MatchFor(app) =>
              intent.FreshRow(now) == Row(Match, ForApplication(app), Pending, now, None, None, None, None,
                                          0, None, Some("match:" + app))
            case BatchMatchFor(profile) =>
              intent.FreshRow(now) == Row(BatchMatch, ForProfile(profile, None), Pending, now, None, None, None, None,
                                          0, None, Some("batch-match:" + profile))
  {
    KeySpelledOut(intent);
  }

  lemma IntentsHaveOwnKeys(a: Intent, b: Intent)
    requires a.Type() == b.Type() && a.Key() == b.Key()
    ensures a == b
  {
    match a
    case CoverLetterFor(app) => DedupeKeyInjective("generate-cover-letter", app, b.app);
    case MatchFor(app) => DedupeKeyInjective("match", app, b.app);
    case BatchMatchFor(profile) => DedupeKeyInjective("batch-match", profile, b.profile);
  }

  predicate WorksFor(rows: map<RowId, Row>, id: RowId, intent: Intent) {
    Occupies(rows, id, intent.Type(), intent.Key())
  }

  predicate Wanting(rows: map<RowId, Row>, intent: Intent) {
    !SlotTaken(rows, intent.Type(), Some(intent.Key()))
  }

  /** Row id was added because nothing worked for the intent. */
  predicate AddedFor(before: map<RowId, Row>, rows: map<RowId, Row>, id: RowId, intent: Intent, now: int) {
    id in rows && Wanting(before, intent) && rows[id] == intent.FreshRow(now)
  }

  /** Makes sure that a row works for the intent. */
  method EnqueueIntent(queue: WorkQueue, intent: Intent, now: int) returns (id: RowId)
    requires queue.Valid()
    modifies queue
    ensures queue.Valid() && OnlyLiveRow(queue.rows, id, intent.Type(), intent.Key())
    ensures KeepsRows(old(queue.rows), queue.rows) && queue.rows.Keys == old(queue.rows).Keys + {id}
    ensures id !in old(queue.rows) ==> AddedFor(old(queue.rows), queue.rows, id, intent, now)
  {
    ghost var q := queue.State();
    id := queue.Enqueue(intent.Type(), intent.Work(), Some(intent.Key()), DoNothing, None, now);
    EnqueueAddsOrIgnores(q, intent.Type(), intent.Work(), intent.Key(), None, now, queue.State());
    assert Occupies(queue.rows, id, intent.Type(), intent.Key());
  }

  // ----- One after the other

  /** ids[i] works for intents[i], no old row changed, and every new row is one of them. */
  ghost predicate Served(before: map<RowId, Row>, rows: map<RowId, Row>, intents: seq<Intent>, ids: seq<RowId>,
                         now: int) {
    && |intents| == |ids| && KeepsRows(before, rows)
    && (forall i | 0 <= i < |ids| :: WorksFor(rows, ids[i], intents[i]))
    && (forall id | id in rows && id !in before :: AddedForOne(before, rows, id, intents, now))
  }

  ghost predicate AddedForOne(before: map<RowId, Row>, rows: map<RowId, Row>, id: RowId, intents: seq<Intent>,
                              now: int) {
    exists intent :: intent in intents && AddedFor(before, rows, id, intent, now)
  }

  lemma OneMoreServed(before: map<RowId, Row>, mid: map<RowId, Row>, rows: map<RowId, Row>,
                      intents: seq<Intent>, ids: seq<RowId>, intent: Intent, id: RowId, now: int)
    requires Served(before, mid, intents, ids, now)
    requires KeepsRows(mid, rows) && rows.Keys == mid.Keys + {id} && WorksFor(rows, id, intent)
    requires id !in mid ==> AddedFor(mid, rows, id, intent, now)
    ensures Served(before, rows, intents + [intent], ids + [id], now)
  {
    StillServed(mid, rows, intents, ids, intent, id);
    forall r | r in rows && r !in before ensures AddedForOne(before, rows, r, intents + [intent], now) {
      if r in mid {
        StillAdded(before, mid, rows, r, intents, intent, now);
      } else {
        NewlyAdded(before, mid, rows, r, intents, intent, now);
      }
    }
  }

  lemma StillServed(mid: map<RowId, Row>, rows: map<RowId, Row>, intents: seq<Intent>, ids: seq<RowId>,
                    intent: Intent, id: RowId)
    requires |intents| == |ids| && KeepsRows(mid, rows) && WorksFor(rows, id, intent)
    requires forall i | 0 <= i < |ids| :: WorksFor(mid, ids[i], intents[i])
    ensures forall i | 0 <= i <= |ids| :: WorksFor(rows, (ids + [id])[i], (intents + [intent])[i])
  {
    forall i | 0 <= i < |ids| ensures WorksFor(rows, ids[i], intents[i]) {
      assert WorksFor(mid, ids[i], intents[i]);
    }
  }

  lemma NewlyAdded(before: map<RowId, Row>, mid: map<RowId, Row>, rows: map<RowId, Row>, id: RowId,
                   intents: seq<Intent>, intent: Intent, now: int)
    requires KeepsRows(before, mid) && AddedFor(mid, rows, id, intent, now)
    ensures AddedForOne(before, rows, id, intents + [intent], now)
  {
    StillWanting(before, mid, intent);
    assert intent in intents + [intent] && AddedFor(before, rows, id, intent, now);
  }

  lemma StillAdded(before: map<RowId, Row>, mid: map<RowId, Row>, rows: map<RowId, Row>, id: RowId,
                   intents: seq<Intent>, next: Intent, now: int)
    requires AddedForOne(before, mid, id, intents, now) && KeepsRows(mid, rows)
    ensures AddedForOne(before, rows, id, intents + [next], now)
  {
    var intent :| intent in intents && AddedFor(before, mid, id, intent, now);
    assert intent in intents + [next] && AddedFor(before, rows, id, intent, now);
  }

  lemma StillWanting(before: map<RowId, Row>, mid: map<RowId, Row>, intent: Intent)
    requires KeepsRows(before, mid) && Wanting(mid, intent)
    ensures Wanting(before, intent)
  {
    if SlotTaken(before, intent.Type(), Some(intent.Key())) {
      KeptSlotsStayTaken(before, mid, intent.Type(), intent.Key());
    }
  }

  /** The loop step of everybody who enqueues several intents. */
  method ServeNext(queue: WorkQueue, intent: Intent, now: int,
                   ghost before: map<RowId, Row>, ghost intents: seq<Intent>, ids: seq<RowId>)
    returns (longer: seq<RowId>)
    requires queue.Valid() && Served(before, queue.rows, intents, ids, now)
    modifies queue
    ensures queue.Valid() && Served(before, queue.rows, intents + [intent], longer, now)
  {
    ghost var mid := queue.rows;
    var id := EnqueueIntent(queue, intent, now);
    OneMoreServed(before, mid, queue.rows, intents, ids, intent, id, now);
    longer := ids + [id];
  }

  /** Rows of different intents are different, and each is the only one of its slot. */
  lemma ServedRowsAreSingle(rows: map<RowId, Row>, before: map<RowId, Row>, intents: seq<Intent>, ids: seq<RowId>,
                            now: int)
    requires OneLiveRowPerKey(rows) && Distinct(intents) && Served(before, rows, intents, ids, now)
    ensures Distinct(ids)
    ensures forall i | 0 <= i < |ids| :: OnlyLiveRow(rows, ids[i], intents[i].Type(), intents[i].Key())
  {
    forall i, j | 0 <= i < j < |ids| ensures ids[i] != ids[j] {
      assert WorksFor(rows, ids[i], intents[i]) && WorksFor(rows, ids[j], intents[j]);
      if ids[i] == ids[j] {
        IntentsHaveOwnKeys(intents[i], intents[j]);
      }
    }
    forall i | 0 <= i < |ids| ensures OnlyLiveRow(rows, ids[i], intents[i].Type(), intents[i].Key()) {
      assert WorksFor(rows, ids[i], intents[i]);
    }
  }

  lemma ServedHasOneRow(rows: map<RowId, Row>, before: map<RowId, Row>, intents: seq<Intent>, ids: seq<RowId>,
                        intent: Intent, now: int)
    requires OneLiveRowPerKey(rows) && Served(before, rows, intents, ids, now) && intent in intents
    ensures exists id :: OnlyLiveRow(rows, id, intent.Type(), intent.Key())
  {
    var i :| 0 <= i < |intents| && intents[i] == intent;
    assert WorksFor(rows, ids[i], intents[i]);
    assert OnlyLiveRow(rows, ids[i], intent.Type(), intent.Key());
  }

  /** Where nothing worked before, exactly the served rows are new. */
  lemma ServedRowsAreNew(before: map<RowId, Row>, rows: map<RowId, Row>, intents: seq<Intent>, ids: seq<RowId>,
                         now: int)
    requires OneLiveRowPerKey(rows) && Distinct(intents) && Served(before, rows, intents, ids, now)
    requires forall intent | intent in intents :: Wanting(before, intent)
    ensures forall i | 0 <= i < |ids| :: ids[i] !in before && ids[i] in rows && rows[ids[i]] == intents[i].FreshRow(now)
    ensures rows.Keys == before.Keys + (set id | id in ids)
  {
    forall i | 0 <= i < |ids|
      ensures ids[i] !in before && ids[i] in rows && rows[ids[i]] == intents[i].FreshRow(now)
    {
      NewRowOf(before, rows, intents, ids, i, now);
    }
    forall id | id in rows && id !in before ensures id in ids {
      var intent :| intent in intents && AddedFor(before, rows, id, intent, now);
      var i :| 0 <= i < |intents| && intents[i] == intent;
      assert WorksFor(rows, ids[i], intent) && WorksFor(rows, id, intent);
    }
  }

  lemma NewRowOf(before: map<RowId, Row>, rows: map<RowId, Row>, intents: seq<Intent>, ids: seq<RowId>, i: nat,
                 now: int)
    requires Served(before, rows, intents, ids, now) && i < |ids| && Wanting(before, intents[i])
    ensures ids[i] !in before && ids[i] in rows && rows[ids[i]] == intents[i].FreshRow(now)
  {
    assert WorksFor(rows, ids[i], intents[i]);
    var intent :| intent in intents && AddedFor(before, rows, ids[i], intent, now);
    IntentsHaveOwnKeys(intent, intents[i]);
  }
}
