/**
 Fetched jobs: the content hash saves rewriting a row whose content did not
 change. The hash is any injective function of the content.
 */
module JobStore {
  import opened Prelude

  type CompanyId = string

  /** What a posting says besides its description. */
  datatype Listing = Listing(
    title: string,
    companyName: string,
    location: Option<string>,
    workplaceType: Option<string>,
    salary: Option<string>,
    contractType: Option<string>,
    applyUrl: string,
    postedAt: Option<int>)

  datatype Content = Content(listing: Listing, descriptionRaw: string)

  /** A null hash marks a row written before hashes were kept. */
  datatype Job = Job(
    content: Content,
    description: string,
    contentHash: Option<string>,
    companyId: Option<CompanyId>,
    isActive: bool,
    fetchedAt: int)

  datatype Key = Key(source: string, externalId: string)

  type Jobs = map<Key, Job>

  /** How content is hashed and how a raw description becomes markdown. */
  datatype Codec = Codec(hash: Content -> string, clean: string -> string) {
    ghost predicate Injective() {
      forall a, b :: hash(a) == hash(b) ==> a == b
    }

    /** A row that carries a hash carries the hash of its own content, and that content's description. */
    predicate Consistent(job: Job) {
      job.contentHash.Some? ==>
        job.contentHash.value == hash(job.content) && job.description == clean(job.content.descriptionRaw)
    }
  }

  /** The row if every upsert wrote everything. */
  function Overwritten(codec: Codec, existing: Option<Job>, content: Content, companyId: Option<CompanyId>,
                       now: int): Job {
    Job(content, codec.clean(content.descriptionRaw), Some(codec.hash(content)),
        if companyId.None? && existing.Some? then existing.value.companyId else companyId, true, now)
  }

  /** The update the code sends for an existing row. */
  function ShortCircuited(codec: Codec, existing: Job, content: Content, companyId: Option<CompanyId>, now: int): Job {
    var resolved := if companyId.Some? then companyId else existing.companyId;
    if existing.contentHash != Some(codec.hash(content)) then
      Job(content, codec.clean(content.descriptionRaw), Some(codec.hash(content)), resolved, true, now)
    else existing.(companyId := resolved, isActive := true, fetchedAt := now)
  }

  /** Skipping the write changes nothing exactly when a matching hash goes with matching content. */
  lemma ShortCircuitIsSafeWhen(codec: Codec, existing: Job, content: Content, companyId: Option<CompanyId>, now: int)
    ensures ShortCircuited(codec, existing, content, companyId, now)
            == Overwritten(codec, Some(existing), content, companyId, now)
            <==> (existing.contentHash == Some(codec.hash(content)) ==>
                    existing.content == content && existing.description == codec.clean(content.descriptionRaw))
  {
    var short := ShortCircuited(codec, existing, content, companyId, now);
    var full := Overwritten(codec, Some(existing), content, companyId, now);
    assert existing.contentHash == Some(codec.hash(content))
      ==> short.content == existing.content && short.description == existing.description;
    assert full.content == content && full.description == codec.clean(content.descriptionRaw);
  }

  function Lookup(jobs: Jobs, key: Key): Option<Job> {
    if key in jobs then Some(jobs[key]) else None
  }

  function Upserted(codec: Codec, jobs: Jobs, key: Key, content: Content, companyId: Option<CompanyId>,
                    now: int): Jobs {
    jobs[key := Overwritten(codec, Lookup(jobs, key), content, companyId, now)]
  }

  function StaleMarked(jobs: Jobs, cutoff: int): Jobs {
    map key | key in jobs ::
      if jobs[key].isActive && jobs[key].fetchedAt < cutoff then jobs[key].(isActive := false) else jobs[key]
  }

  ghost predicate AllConsistent(codec: Codec, jobs: Jobs) {
    forall key | key in jobs :: codec.Consistent(jobs[key])
  }

  /** What the caller gets back: both descriptions only when the content was written. */
  datatype Returned = Returned(
    listing: Listing,
    descriptionRaw: Option<string>,
    description: Option<string>,
    companyId: Option<CompanyId>,
    hash: string,
    created: bool)

  class Store {
    const codec: Codec
    var jobs: Jobs

    ghost predicate Valid()
      reads this
    {
      codec.Injective() && AllConsistent(codec, jobs)
    }

    constructor (codec: Codec, jobs: Jobs)
      requires codec.Injective() && AllConsistent(codec, jobs)
      ensures Valid() && this.codec == codec && this.jobs == jobs
    {
      this.codec, this.jobs := codec, jobs;
    }

    /** Writes what an unconditional overwrite would, and returns what is then stored. */
    method UpsertJob(key: Key, content: Content, companyId: Option<CompanyId>, now: int) returns (r: Returned)
      requires Valid()
      modifies this
      ensures Valid() && jobs == Upserted(codec, old(jobs), key, content, companyId, now)
      ensures key in jobs && forall other | other in old(jobs) && other != key :: jobs[other] == old(jobs)[other]
      ensures jobs[key] == Job(content, codec.clean(content.descriptionRaw), Some(codec.hash(content)),
                               jobs[key].companyId, true, now)
      ensures companyId.Some? ==> jobs[key].companyId == companyId
      ensures companyId.None? ==> jobs[key].companyId == if key in old(jobs) then old(jobs)[key].companyId else None
      ensures r.created <==> key !in old(jobs)
      ensures r.listing == jobs[key].content.listing
      ensures r.companyId == jobs[key].companyId && Some(r.hash) == jobs[key].contentHash
      ensures r.descriptionRaw.Some? <==> key !in old(jobs) || old(jobs)[key].contentHash != jobs[key].contentHash
      ensures r.descriptionRaw.Some? ==> r.descriptionRaw.value == jobs[key].content.descriptionRaw
                                         && r.description == Some(jobs[key].description)
      ensures r.descriptionRaw.None? ==> r.description.None? && old(jobs)[key].content == jobs[key].content
                                         && old(jobs)[key].description == jobs[key].description
    {
      var contentHash := codec.hash(content);
      if key in jobs {
        var existing := jobs[key];
        ShortCircuitIsSafeWhen(codec, existing, content, companyId, now);
        var job := existing.(isActive := true, fetchedAt := now);
        if companyId.Some? && existing.companyId != companyId {
          job := job.(companyId := companyId);
        }
        var contentChanged := existing.contentHash != Some(contentHash);
        var cleaned := None;
        if contentChanged {
          cleaned := Some(codec.clean(content.descriptionRaw));
          job := job.(content := content, description := cleaned.value, contentHash := Some(contentHash));
        }
        jobs := jobs[key := job];
        var companyName := if contentChanged then content.listing.companyName else existing.content.listing.companyName;
        var raw := if contentChanged then Some(content.descriptionRaw) else None;
        return Returned(content.listing.(companyName := companyName), raw, cleaned, job.companyId, contentHash, false);
      }
      var cleaned := codec.clean(content.descriptionRaw);
      jobs := jobs[key := Job(content, cleaned, Some(contentHash), companyId, true, now)];
      r := Returned(content.listing, Some(content.descriptionRaw), Some(cleaned), companyId, contentHash, true);
    }

    method MarkStaleJobs(cutoff: int) returns (count: nat)
      requires Valid()
      modifies this
      ensures Valid() && jobs == StaleMarked(old(jobs), cutoff)
      ensures jobs.Keys == old(jobs).Keys
      ensures forall key | key in jobs ::
                jobs[key] == old(jobs)[key].(isActive := old(jobs)[key].isActive && old(jobs)[key].fetchedAt >= cutoff)
      ensures count == |set key | key in old(jobs) && old(jobs)[key].isActive && old(jobs)[key].fetchedAt < cutoff|
    {
      var stale := set key | key in jobs && jobs[key].isActive && jobs[key].fetchedAt < cutoff;
      count := |stale|;
      jobs := map key | key in jobs :: if key in stale then jobs[key].(isActive := false) else jobs[key];
    }
  }

  // ----- Runs

  datatype Move = Upsert(key: Key, content: Content, companyId: Option<CompanyId>, now: int) | MarkStale(cutoff: int)

  /** The table as the code leaves it. */
  function After(codec: Codec, jobs: Jobs, m: Move): Jobs {
    match m
    case MarkStale(cutoff) => StaleMarked(jobs, cutoff)
    case Upsert(key, content, companyId, now) =>
      if key in jobs then jobs[key := ShortCircuited(codec, jobs[key], content, companyId, now)]
      else Upserted(codec, jobs, key, content, companyId, now)
  }

  ghost predicate JobRun(codec: Codec, tables: seq<Jobs>, ms: seq<Move>) {
    && codec.Injective()
    && |tables| == |ms| + 1
    && AllConsistent(codec, tables[0])
    && forall k | 0 <= k < |ms| :: tables[k + 1] == After(codec, tables[k], ms[k])
  }

  lemma {:induction false} JobRunStaysConsistent(codec: Codec, tables: seq<Jobs>, ms: seq<Move>, k: nat)
    requires JobRun(codec, tables, ms) && k < |tables|
    ensures AllConsistent(codec, tables[k])
  {
    if k > 0 {
      JobRunStaysConsistent(codec, tables, ms, k - 1);
      assert tables[k] == After(codec, tables[k - 1], ms[k - 1]);
    }
  }

  predicate Writes(m: Move, key: Key) {
    m.Upsert? && m.key == key
  }

  /** After any run, every job carries the content it was last upserted with, its description and its hash. */
  lemma {:induction false} LastContentIsStored(codec: Codec, tables: seq<Jobs>, ms: seq<Move>, i: nat, j: nat, key: Key)
    requires JobRun(codec, tables, ms) && i < j < |tables|
    requires Writes(ms[i], key) && forall k | i < k < j :: !Writes(ms[k], key)
    ensures key in tables[j]
    ensures tables[j][key].content == ms[i].content
    ensures tables[j][key].description == codec.clean(ms[i].content.descriptionRaw)
    ensures tables[j][key].contentHash == Some(codec.hash(ms[i].content))
  {
    assert tables[j] == After(codec, tables[j - 1], ms[j - 1]);
    if j == i + 1 {
      JobRunStaysConsistent(codec, tables, ms, i);
      if key in tables[i] {
        assert codec.Consistent(tables[i][key]);
        ShortCircuitIsSafeWhen(codec, tables[i][key], ms[i].content, ms[i].companyId, ms[i].now);
      }
    } else {
      LastContentIsStored(codec, tables, ms, i, j - 1, key);
      assert !Writes(ms[j - 1], key);
    }
  }

  /** A stale marking between the two moments reaches a job fetched then. */
  ghost predicate MarkedBetween(ms: seq<Move>, i: nat, j: nat, fetchedAt: int) {
    exists k | 0 <= k < |ms| && i <= k < j :: ms[k].MarkStale? && ms[k].cutoff > fetchedAt
  }

  lemma OneMoreMove(ms: seq<Move>, i: nat, j: nat, fetchedAt: int)
    requires i <= j < |ms|
    ensures MarkedBetween(ms, i, j + 1, fetchedAt)
            <==> MarkedBetween(ms, i, j, fetchedAt) || (ms[j].MarkStale? && ms[j].cutoff > fetchedAt)
  {
  }

  /**
   After any run a job carries the time of its last upsert, and is active
   exactly when no stale marking since then had a later cutoff.
   */
  lemma {:induction false} JobsAreActiveUntilStale(codec: Codec, tables: seq<Jobs>, ms: seq<Move>, i: nat, j: nat,
                                                   key: Key)
    requires JobRun(codec, tables, ms) && i < j < |tables|
    requires Writes(ms[i], key) && forall k | i < k < j :: !Writes(ms[k], key)
    ensures key in tables[j] && tables[j][key].fetchedAt == ms[i].now
    ensures tables[j][key].isActive <==> !MarkedBetween(ms, i + 1, j, ms[i].now)
  {
    assert tables[j] == After(codec, tables[j - 1], ms[j - 1]);
    if j > i + 1 {
      JobsAreActiveUntilStale(codec, tables, ms, i, j - 1, key);
      assert !Writes(ms[j - 1], key);
      OneMoreMove(ms, i + 1, j - 1, ms[i].now);
    }
  }
}
