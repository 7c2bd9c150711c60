/** Probing one provider slug: only repeated misses in a row make it removable. */
module CatalogProbing {
  import opened Prelude

  datatype Answer = Found | Missing | Transient(error: string)

  /** Invalid slugs and reachable ones carry no error. */
  datatype Verdict = Reachable | Invalid | Unconfirmed(error: string)

  const NOT_RECONFIRMED: string := "missing board not reconfirmed"
  const UNKNOWN_PROVIDER: string := "unknown provider"

  function Attempts(transientRetries: int, confirmations: nat): nat
    requires confirmations >= 1
  {
    Max(transientRetries + 1, confirmations)
  }

  /** Answers number j - n to j - 1 are misses, and no board was found before. */
  predicate ConfirmedBy(answers: seq<Answer>, n: nat, j: nat) {
    && n <= j <= |answers|
    && (forall k | j - n <= k < j :: answers[k].Missing?)
    && (forall k | 0 <= k < j :: !answers[k].Found?)
  }

  /** The last transient error among the answers, or the standard one. */
  function ErrorOf(answers: seq<Answer>): string {
    if answers == [] then NOT_RECONFIRMED
    else if answers[|answers| - 1].Transient? then answers[|answers| - 1].error
    else ErrorOf(answers[..|answers| - 1])
  }

  /** The error reported is that of the last transient failure, if there was any. */
  lemma {:induction false} ErrorIsTheLastTransient(answers: seq<Answer>, k: nat)
    requires k < |answers| && answers[k].Transient?
    requires forall later | k < later < |answers| :: !answers[later].Transient?
    ensures ErrorOf(answers) == answers[k].error
  {
    if k < |answers| - 1 {
      ErrorIsTheLastTransient(answers[..|answers| - 1], k);
    }
  }

  /** Misses since anything else was answered. */
  function MissesInARow(answers: seq<Answer>): nat {
    if answers == [] || !answers[|answers| - 1].Missing? then 0 else 1 + MissesInARow(answers[..|answers| - 1])
  }

  lemma {:induction false} MissesInARowMeaning(answers: seq<Answer>, n: nat, j: nat)
    requires n <= j <= |answers|
    ensures MissesInARow(answers[..j]) >= n <==> forall k | j - n <= k < j :: answers[k].Missing?
    ensures MissesInARow(answers[..j]) <= j
  {
    if j > 0 {
      assert answers[..j][..j - 1] == answers[..j - 1];
      MissesInARowMeaning(answers, if n == 0 then 0 else n - 1, j - 1);
    }
  }

  lemma NextAnswer(answers: seq<Answer>, m: nat)
    requires m < |answers|
    ensures MissesInARow(answers[..m + 1]) == if answers[m].Missing? then 1 + MissesInARow(answers[..m]) else 0
    ensures ErrorOf(answers[..m + 1]) == if answers[m].Transient? then answers[m].error else ErrorOf(answers[..m])
  {
    assert answers[..m + 1][..m] == answers[..m];
  }

  /** Some attempt confirms that the board is gone. */
  ghost predicate Removable(answers: seq<Answer>, n: nat) {
    exists j :: ConfirmedBy(answers, n, j)
  }

  ghost predicate NotConfirmedUpTo(answers: seq<Answer>, n: nat, m: nat) {
    && m <= |answers|
    && (forall k | 0 <= k < m :: !answers[k].Found?)
    && (forall j | 0 <= j <= m :: !ConfirmedBy(answers, n, j))
  }

  /** One more answer that does not find the board: confirmed exactly when it completes a row of misses. */
  lemma OneMoreAnswer(answers: seq<Answer>, n: nat, m: nat)
    requires NotConfirmedUpTo(answers, n, m) && m < |answers| && !answers[m].Found?
    ensures if MissesInARow(answers[..m + 1]) >= n then Removable(answers, n) else NotConfirmedUpTo(answers, n, m + 1)
  {
    if n <= m + 1 {
      MissesInARowMeaning(answers, n, m + 1);
      assert MissesInARow(answers[..m + 1]) >= n ==> ConfirmedBy(answers, n, m + 1);
    } else {
      MissesInARowMeaning(answers, 0, m + 1);
    }
  }

  /** After a found board, or the last answer, nothing more is confirmed. */
  lemma NothingMore(answers: seq<Answer>, n: nat, m: nat)
    requires NotConfirmedUpTo(answers, n, m) && (m == |answers| || answers[m].Found?)
    ensures !Removable(answers, n)
  {
    forall j: nat ensures !ConfirmedBy(answers, n, j) {
    }
  }

  /**
   answers are what the board would say, attempt by attempt. The slug is
   removable exactly when enough attempts in a row miss it before any finds it;
   a transient error starts the count again.
   */
  method Probe(adapterKnown: bool, answers: seq<Answer>, transientRetries: int, confirmations: nat)
    returns (verdict: Verdict)
    requires confirmations >= 1 && |answers| == Attempts(transientRetries, confirmations)
    ensures verdict.Invalid? <==> adapterKnown && Removable(answers, confirmations)
    ensures verdict.Reachable? <==>
              adapterKnown && !Removable(answers, confirmations) && exists a :: a in answers && a.Found?
    ensures verdict.Unconfirmed? ==> verdict.error == if adapterKnown then ErrorOf(answers) else UNKNOWN_PROVIDER
  {
    if !adapterKnown {
      return Unconfirmed(UNKNOWN_PROVIDER);
    }
    var lastError: Option<string> := None;
    var missingCount := 0;
    for attempt := 0 to |answers|
      invariant missingCount == MissesInARow(answers[..attempt]) < confirmations
      invariant NotConfirmedUpTo(answers, confirmations, attempt)
      invariant (if lastError.Some? then lastError.value else NOT_RECONFIRMED) == ErrorOf(answers[..attempt])
    {
      NextAnswer(answers, attempt);
      match answers[attempt]
      case Found =>
        NothingMore(answers, confirmations, attempt);
        return Reachable;
      case Transient(error) =>
        lastError := Some(error);
        missingCount := 0;
        OneMoreAnswer(answers, confirmations, attempt);
      case Missing =>
        missingCount := missingCount + 1;
        OneMoreAnswer(answers, confirmations, attempt);
        if missingCount >= confirmations {
          return Invalid;
        }
    }
    NothingMore(answers, confirmations, |answers|);
    assert answers[..|answers|] == answers;
    verdict := Unconfirmed(if lastError.Some? then lastError.value else NOT_RECONFIRMED);
  }

  /** There are always enough attempts to confirm a board that is really gone. */
  lemma GoneBoardsAreRemovable(answers: seq<Answer>, transientRetries: int, confirmations: nat)
    requires confirmations >= 1 && |answers| == Attempts(transientRetries, confirmations)
    requires forall a | a in answers :: a.Missing?
    ensures Removable(answers, confirmations)
  {
    forall k | 0 <= k < confirmations ensures answers[k].Missing? {
      assert answers[k] in answers;
    }
    assert ConfirmedBy(answers, confirmations, confirmations);
  }
}
