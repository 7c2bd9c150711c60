/** What a ready application holds: the letter of the last task that answered it. */
module CoverLetterContents {
  import opened Prelude
  import opened WorkQueues
  import opened Applications
  import opened CoverLetters

  /** The move stores a letter for this application. */
  predicate StoresLetter(s: System, m: Move, app: AppId) {
    m.Commits? && m.commit.Succeed? && m.task in s.tasks && s.tasks[m.task].app == app
  }

  /** Other writers of the applications table leave the letters alone; new applications have none. */
  ghost predicate KeepsLetters(s: System, m: Move) {
    m.OtherApplicationWork? ==>
      forall a | a in m.apps :: m.apps[a].coverLetter == if a in s.apps then s.apps[a].coverLetter else None
  }

  ghost predicate KeepsLettersUpTo(ss: seq<System>, ms: seq<Move>, n: nat) {
    forall k | 0 <= k < |ms| && k < n && k < |ss| :: KeepsLetters(ss[k], ms[k])
  }

  /** Storing writes the answer and its time; the rest of the application is as before. */
  lemma StoredLetterIsTheAnswer(s: System, m: Move, s': System, app: AppId)
    requires SystemStep(s, m, s') && StoresLetter(s, m, app)
    ensures app in s.apps && app in s'.apps && HoldsLetter(s.apps[app], s'.apps[app], m.commit.content, m.now)
  {
  }

  /** No other move makes an application ready or changes the letter of one that is. */
  lemma OthersStoreNoLetter(s: System, m: Move, s': System, app: AppId)
    requires SystemStep(s, m, s') && KeepsLetters(s, m) && !StoresLetter(s, m, app)
    requires app in s'.apps && s'.apps[app].generation == Ready
    ensures app in s.apps && s.apps[app].generation == Ready
    ensures s'.apps[app].coverLetter == s.apps[app].coverLetter
  {
  }

  ghost predicate NoneStoredBetween(ss: seq<System>, ms: seq<Move>, i: nat, j: nat, app: AppId) {
    forall k | 0 <= k < |ms| && i <= k < j && k < |ss| :: !StoresLetter(ss[k], ms[k], app)
  }

  /**
   Over every run that starts with no application ready, whatever crashes and
   whatever leases are stolen: a ready application holds a letter, and it is the
   answer its last task stored.
   */
  lemma {:induction false} ReadyApplicationsHoldTheirLetter(ss: seq<System>, ms: seq<Move>, n: nat, app: AppId)
    returns (k: nat)
    requires SystemRun(ss, ms) && n < |ss| && KeepsLettersUpTo(ss, ms, n)
    requires forall a | a in ss[0].apps :: ss[0].apps[a].generation != Ready
    requires app in ss[n].apps && ss[n].apps[app].generation == Ready
    ensures k < n && StoresLetter(ss[k], ms[k], app) && NoneStoredBetween(ss, ms, k + 1, n, app)
    ensures ss[n].apps[app].coverLetter == Some(ms[k].commit.content)
  {
    assert n > 0;
    if StoresLetter(ss[n - 1], ms[n - 1], app) {
      StoredLetterIsTheAnswer(ss[n - 1], ms[n - 1], ss[n], app);
      k := n - 1;
    } else {
      OthersStoreNoLetter(ss[n - 1], ms[n - 1], ss[n], app);
      k := ReadyApplicationsHoldTheirLetter(ss, ms, n - 1, app);
    }
  }
}
