/** The application row and the helpers that move it through its lifecycle. */
module Applications {
  import opened Prelude

  type AppId = string
  type ProfileId = string
  type JobId = string

  datatype ApplicationStatus = PendingReview | AutoRejected | Dismissed | Applied

  datatype GenerationStatus = GenNone | GenPending | Generating | Ready | GenFailed

  datatype Feedback = Feedback(summary: Option<string>, rationale: Option<string>,
                               strengths: seq<string>, gaps: seq<string>)

  const NO_FEEDBACK: Feedback := Feedback(None, None, [], [])

  datatype Application = Application(
    profile: ProfileId,
    job: JobId,
    status: ApplicationStatus,
    generation: GenerationStatus,
    generationAttempts: nat,
    coverLetter: Option<string>,
    generatedAt: Option<int>,
    score: Option<real>,
    feedback: Feedback,
    appliedAt: Option<int>,
    createdAt: int,
    updatedAt: int)

  type Table = map<AppId, Application>

  predicate Requestable(g: GenerationStatus) {
    g.GenNone? || g.Ready? || g.GenFailed?
  }

  predicate InFlight(g: GenerationStatus) {
    g.GenPending? || g.Generating?
  }

  /** The status condition of a guarded update. */
  datatype Guard = Always | WhenInFlight | WhenGenerating {
    predicate Allows(g: GenerationStatus) {
      match this
      case Always => true
      case WhenInFlight => InFlight(g)
      case WhenGenerating => g.Generating?
    }
  }

  /** UPDATE applications SET generation_status = to WHERE id = app AND the guard allows. */
  function SetGeneration(apps: Table, app: AppId, guard: Guard, to: GenerationStatus, now: int): Table {
    if app in apps && guard.Allows(apps[app].generation) then
      apps[app := apps[app].(generation := to, updatedAt := now)]
    else apps
  }

  function WithLetter(a: Application, content: string, now: int): Application {
    a.(generation := Ready, coverLetter := Some(content), generatedAt := Some(now), updatedAt := now)
  }
}
