/** One provider request per job, each within the request's character budget. */
module BatchPacking {
  import opened Prelude
  import Decimals

  const TRUNCATION_SUFFIX: string := "\n\n[Description truncated for batch]"
  const REQUEST_OVERHEAD_CHARS: nat := 1800
  const JOB_OVERHEAD_CHARS: nat := 320

  datatype JobContext = JobContext(
    app: string,
    title: string,
    company: string,
    location: Option<string>,
    workplaceType: Option<string>,
    description: string)

  datatype PackedRequest = PackedRequest(key: string, job: JobContext, estimatedChars: nat)

  /** None and the empty string are both spelled out. */
  function OrUnspecified(text: Option<string>): string {
    if text.Some? && text.value != "" then text.value else "unspecified"
  }

  function JobChars(job: JobContext): nat {
    JOB_OVERHEAD_CHARS + |job.app| + |job.title| + |job.company|
    + |OrUnspecified(job.location)| + |OrUnspecified(job.workplaceType)| + |job.description|
  }

  function TotalJobChars(jobs: seq<JobContext>): nat {
    if jobs == [] then 0 else TotalJobChars(jobs[..|jobs| - 1]) + JobChars(jobs[|jobs| - 1])
  }

  method EstimateRequestChars(profileText: string, jobs: seq<JobContext>) returns (chars: nat)
    ensures chars == REQUEST_OVERHEAD_CHARS + |profileText| + TotalJobChars(jobs)
  {
    var fixed := REQUEST_OVERHEAD_CHARS + |profileText|;
    var perJob := 0;
    for i := 0 to |jobs|
      invariant perJob == TotalJobChars(jobs[..i])
    {
      var job := jobs[i];
      assert jobs[..i + 1][..i] == jobs[..i];
      perJob := perJob + JOB_OVERHEAD_CHARS;
      perJob := perJob + |job.app|;
      perJob := perJob + |job.title|;
      perJob := perJob + |job.company|;
      perJob := perJob + |OrUnspecified(job.location)|;
      perJob := perJob + |OrUnspecified(job.workplaceType)|;
      perJob := perJob + |job.description|;
    }
    assert jobs[..|jobs|] == jobs;
    chars := fixed + perJob;
  }

  /** The size of a request for one job. */
  function RequestChars(profileText: string, job: JobContext): nat {
    REQUEST_OVERHEAD_CHARS + |profileText| + JobChars(job)
  }

  /**
   A request for one job costs 2120 characters besides its texts; a missing or
   empty place or mode is "unspecified".
   */
  lemma RequestSizeSpelledOut(profileText: string, job: JobContext)
    ensures RequestChars(profileText, job)
            == 2120 + |profileText| + |job.app| + |job.title| + |job.company| + |job.description|
               + (if job.location == None || job.location == Some("") then |"unspecified"| else |job.location.value|)
               + (if job.workplaceType == None || job.workplaceType == Some("") then |"unspecified"|
                  else |job.workplaceType.value|)
  {
  }

  /** What a request costs before its description. */
  function NonDescriptionChars(profileText: string, job: JobContext): nat {
    RequestChars(profileText, job.(description := ""))
  }

  /** Slicing s[:n] for n that may exceed the length. */
  function Take(s: string, n: nat): string {
    if n <= |s| then s[..n] else s
  }

  /**
   A description within the budget is kept; any other becomes exactly budget
   characters: a beginning of the original, then a beginning of the marker,
   which is the whole marker whenever it fits.
   */
  function TruncateToBudget(job: JobContext, maxDescriptionChars: int): (r: JobContext)
    ensures r == job.(description := r.description)
    ensures |job.description| <= maxDescriptionChars ==> r.description == job.description
    ensures |job.description| > maxDescriptionChars ==>
              var budget := Max(0, maxDescriptionChars);
              var marker := Min(budget, |TRUNCATION_SUFFIX|);
              && |r.description| == budget
              && r.description[..budget - marker] == job.description[..budget - marker]
              && r.description[budget - marker..] == TRUNCATION_SUFFIX[..marker]
  {
    if |job.description| <= maxDescriptionChars then job
    else
      var availableChars: nat := Max(0, maxDescriptionChars);
      var marker := Take(TRUNCATION_SUFFIX, availableChars);
      var prefixChars := availableChars - |marker|;
      job.(description := Take(job.description, prefixChars) + marker)
  }

  /** None is the ValueError: the job does not fit even without a description. */
  function TruncateJobToRequestBudget(profileText: string, job: JobContext,
                                      maxRequestChars: int): (r: Option<JobContext>)
    ensures r.None? <==> NonDescriptionChars(profileText, job) > maxRequestChars
    ensures r.Some? ==> RequestChars(profileText, r.value) == Min(RequestChars(profileText, job), maxRequestChars)
  {
    var nonDescriptionChars := NonDescriptionChars(profileText, job);
    if nonDescriptionChars > maxRequestChars then None
    else Some(TruncateToBudget(job, maxRequestChars - nonDescriptionChars))
  }

  function RequestKey(index: nat): string {
    "request-" + Decimals.ZeroPadded(index, 4)
  }

  /** However many jobs there are, no two requests share a key. */
  lemma RequestKeysAreDistinct(i: nat, j: nat)
    requires RequestKey(i) == RequestKey(j)
    ensures i == j
  {
    var prefix := "request-";
    assert Decimals.ZeroPadded(i, 4) == RequestKey(i)[|prefix|..];
    assert Decimals.ZeroPadded(j, 4) == RequestKey(j)[|prefix|..];
    Decimals.ZeroPaddedRoundTrip(i, 4);
    Decimals.ZeroPaddedRoundTrip(j, 4);
  }

  /** The keys of n requests. */
  function RequestKeys(n: nat): (keys: seq<string>)
    ensures |keys| == n
  {
    seq(n, i requires 0 <= i < n => RequestKey(i + 1))
  }

  lemma RequestKeysAreAllDifferent(n: nat)
    ensures Distinct(RequestKeys(n))
  {
    forall i, j | 0 <= i < j < n ensures RequestKeys(n)[i] != RequestKeys(n)[j] {
      if RequestKey(i + 1) == RequestKey(j + 1) {
        RequestKeysAreDistinct(i + 1, j + 1);
      }
    }
  }

  predicate AllFit(profileText: string, jobs: seq<JobContext>, maxRequestChars: int) {
    forall i | 0 <= i < |jobs| :: NonDescriptionChars(profileText, jobs[i]) <= maxRequestChars
  }

  /** A request for one job: the same job, cut to the budget, under the key of its position. */
  ghost predicate PackedAt(profileText: string, job: JobContext, maxRequestChars: int, index: nat, r: PackedRequest) {
    && r.key == RequestKey(index)
    && TruncateJobToRequestBudget(profileText, job, maxRequestChars) == Some(r.job)
    && r.estimatedChars == RequestChars(profileText, r.job)
  }

  ghost predicate PackedFrom(profileText: string, jobs: seq<JobContext>, maxRequestChars: int,
                             packed: seq<PackedRequest>) {
    && |packed| == |jobs|
    && forall i | 0 <= i < |jobs| :: PackedAt(profileText, jobs[i], maxRequestChars, i + 1, packed[i])
  }

  method PackProviderRequests(profileText: string, jobs: seq<JobContext>, maxRequestChars: int)
    returns (packed: Option<seq<PackedRequest>>)
    ensures packed.Some? <==> AllFit(profileText, jobs, maxRequestChars)
    ensures packed.Some? ==> PackedFrom(profileText, jobs, maxRequestChars, packed.value)
  {
    var requests := [];
    for index := 0 to |jobs|
      invariant |requests| == index
      invariant forall i | 0 <= i < index :: PackedAt(profileText, jobs[i], maxRequestChars, i + 1, requests[i])
      invariant forall i | 0 <= i < index :: NonDescriptionChars(profileText, jobs[i]) <= maxRequestChars
    {
      var job := TruncateJobToRequestBudget(profileText, jobs[index], maxRequestChars);
      if job.None? {
        return None;
      }
      var request := PackOne(profileText, jobs[index], job.value, maxRequestChars, index + 1);
      requests := requests + [request];
    }
    packed := Some(requests);
  }

  method PackOne(profileText: string, original: JobContext, job: JobContext, maxRequestChars: int, index: nat)
    returns (request: PackedRequest)
    requires TruncateJobToRequestBudget(profileText, original, maxRequestChars) == Some(job)
    ensures PackedAt(profileText, original, maxRequestChars, index, request)
  {
    var chars := EstimateRequestChars(profileText, [job]);
    assert TotalJobChars([job]) == JobChars(job) by {
      assert [job][..0] == [];
    }
    request := PackedRequest(RequestKey(index), job, chars);
  }

  /**
   What packing promises its caller: every request is for its own job and fits
   the budget; only the description may shrink, and only as far as the budget
   forces it to; no two requests share a key.
   */
  lemma PackingContract(profileText: string, jobs: seq<JobContext>, maxRequestChars: int, packed: seq<PackedRequest>)
    requires PackedFrom(profileText, jobs, maxRequestChars, packed)
    ensures forall i | 0 <= i < |jobs| ::
              && packed[i].estimatedChars <= maxRequestChars
              && packed[i].job == jobs[i].(description := packed[i].job.description)
              && (RequestChars(profileText, jobs[i]) <= maxRequestChars ==> packed[i].job == jobs[i])
              && (RequestChars(profileText, jobs[i]) > maxRequestChars ==> packed[i].estimatedChars == maxRequestChars)
    ensures forall i, j | 0 <= i < j < |packed| :: packed[i].key != packed[j].key
  {
    forall i | 0 <= i < |jobs|
      ensures packed[i].job == jobs[i].(description := packed[i].job.description)
      ensures RequestChars(profileText, jobs[i]) <= maxRequestChars ==> packed[i].job == jobs[i]
    {
      assert PackedAt(profileText, jobs[i], maxRequestChars, i + 1, packed[i]);
      var budget := maxRequestChars - NonDescriptionChars(profileText, jobs[i]);
      assert packed[i].job == TruncateToBudget(jobs[i], budget);
      assert RequestChars(profileText, jobs[i]) == NonDescriptionChars(profileText, jobs[i]) + |jobs[i].description|;
    }
    forall i, j | 0 <= i < j < |packed| ensures packed[i].key != packed[j].key {
      assert PackedAt(profileText, jobs[i], maxRequestChars, i + 1, packed[i]);
      assert PackedAt(profileText, jobs[j], maxRequestChars, j + 1, packed[j]);
      if packed[i].key == packed[j].key {
        RequestKeysAreDistinct(i + 1, j + 1);
      }
    }
  }
}
