/** `resolveCanarySourceSnapshot` and `writeCanarySourceSnapshot`: the first successful source job of a
    canary run freezes the source, and every later one restores it. */
module SourceSnapshot {
  import opened Prelude
  import opened CanarySource

  const LIMIT: int := 1024 * 1024

  // ---- Snapshots -------------------------------------------------------------------------------------------

  type Raw = string

  datatype Snapshot = Snapshot(source: Source, version: string, revision: Sha)

  /** JSON, semantic versions, hashes and ZIP archives are whatever these functions say. `decode` yields the
      snapshot of a schema-1 canary document with a well-formed source; `unzip` the text of a bounded
      `source.json` that is the only member. */
  datatype Codec = Codec(
    decode: Raw -> Option<Snapshot>, encode: Snapshot -> Raw, versionOk: (string, Sha) -> bool,
    hash: seq<int> -> int, unzip: seq<int> -> Option<Raw>)

  function ParseSnapshot(codec: Codec, raw: Raw, repository: Repository, revision: Sha): Result<Snapshot> {
    var s := codec.decode(raw);
    if s.Some? && s.value.source.repository == repository && s.value.revision == revision
       && codec.versionOk(s.value.version, s.value.source.sha)
    then Ok(s.value) else Failed
  }

  // ---- What the services answer ----------------------------------------------------------------------------

  datatype Execution = Execution(repository: Repository, runId: int, runAttempt: int, revision: Sha)

  /** Three dispatch inputs: absent, unusable, or a value. */
  datatype Input = Absent | Unusable | Given(value: int)

  datatype Recovery = Recovery(runId: Input, runAttempt: Input, approval: Input)

  /** A canary run record that passed validation. */
  datatype CanaryRun = CanaryRun(number: int, dispatched: bool)

  /** A job with the name of the source job. */
  datatype Job = Job(id: int, runId: int, attempt: int, revision: Sha, succeeded: bool,
                     started: Option<int>, completed: Option<int>)

  /** An artifact; `attempt` is the attempt in its name, or 0 for another name. */
  datatype Artifact = Artifact(attempt: int, id: int, expired: bool, associated: bool, created: Option<int>,
                               size: int, digest: int)

  datatype View = View(
    repositoryId: Option<int>, canaryWorkflow: Option<int>, ciWorkflow: Option<int>,
    canaryRun: int -> Option<CanaryRun>, jobs: seq<Job>, artifacts: seq<Artifact>,
    download: int -> Option<seq<int>>, ciRuns: seq<CiRun>, ciRun: (int, int) -> CiRun)

  predicate OwnRepositories(run: CiRun, repository: Repository, id: int) {
    && run.CiRun? && run.repositoryId == id && run.headRepositoryId == id
    && run.repository == repository && run.headRepository == repository
  }

  // ---- Resolving -------------------------------------------------------------------------------------------

  /** `restored` holds the original attempt and its bytes; `approval` the pinned approval of a recovery. */
  datatype Resolution = Resolution(source: Source, revision: Sha, restored: Option<(int, Raw)>, approval: Option<int>)

  predicate JobOk(job: Job, e: Execution) {
    Positive(job.attempt) && Positive(job.id) && job.runId == e.runId && job.revision == e.revision
  }

  /** The listed source jobs belong to this run, one per attempt, the current attempt among them. */
  predicate JobsOk(jobs: seq<Job>, e: Execution) {
    && (forall i :: 0 <= i < |jobs| ==> JobOk(jobs[i], e))
    && (forall i, j :: 0 <= i < j < |jobs| ==> jobs[i].attempt != jobs[j].attempt)
    && exists i :: 0 <= i < |jobs| && jobs[i].attempt == e.runAttempt
  }

  predicate Earlier(job: Job, attempt: int) { job.attempt < attempt && job.succeeded }

  /** The earliest successful job before this attempt. */
  function Original(jobs: seq<Job>, attempt: int): (r: Option<Job>)
    ensures r.Some? ==> r.value in jobs && Earlier(r.value, attempt)
    ensures forall i :: 0 <= i < |jobs| && Earlier(jobs[i], attempt) ==> r.Some? && r.value.attempt <= jobs[i].attempt
  {
    if jobs == [] then None
    else
      var rest := Original(jobs[1..], attempt);
      if Earlier(jobs[0], attempt) && (rest.None? || jobs[0].attempt <= rest.value.attempt) then Some(jobs[0]) else rest
  }

  function Named(artifacts: seq<Artifact>, attempt: int): seq<Artifact> {
    if artifacts == [] then []
    else if artifacts[0].attempt == attempt then [artifacts[0]] + Named(artifacts[1..], attempt)
    else Named(artifacts[1..], attempt)
  }

  /** The one live artifact of the original job, uploaded while it ran. */
  function OriginalArtifact(artifacts: seq<Artifact>, job: Job): Result<Artifact> {
    var matches := Named(artifacts, job.attempt);
    if |matches| != 1 || matches[0].expired || job.started.None? || job.completed.None? then Failed
    else
      var a := matches[0];
      if || job.completed.value < job.started.value || a.created.None? || !a.associated
         || a.created.value < job.started.value || a.created.value > job.completed.value
         || !Positive(a.id) || !Positive(a.size) || a.size > LIMIT || a.digest < 0
      then Failed
      else Ok(a)
  }

  /** The text in the artifact, if what was downloaded has its size and digest. */
  function Contents(codec: Codec, view: View, a: Artifact): Result<Raw> {
    var body := view.download(a.id);
    if body.None? || |body.value| != a.size || codec.hash(body.value) != a.digest then Failed
    else
      var raw := codec.unzip(body.value);
      if raw.None? then Failed else Ok(raw.value)
  }

  function Restore(codec: Codec, e: Execution, view: View, id: int, number: int, job: Job): Result<Resolution> {
    var past := view.canaryRun(job.attempt);
    var artifact := OriginalArtifact(view.artifacts, job);
    if past.None? || past.value.number != number || artifact.Failed? then Failed
    else
      var raw := Contents(codec, view, artifact.value);
      if raw.Failed? then Failed
      else
        var snapshot := ParseSnapshot(codec, raw.value, e.repository, e.revision);
        if snapshot.Failed? then Failed
        else
          var s := snapshot.value.source;
          var ci := view.ciRun(s.runId, s.runAttempt);
          if OwnRepositories(ci, e.repository, id) && Select([ci], e.repository, s.workflowId) == Ok(s)
          then Ok(Resolution(s, e.revision, Some((job.attempt, raw.value)), None)) else Failed
  }

  function SelectNewest(e: Execution, view: View, id: int): Result<Resolution> {
    if view.ciWorkflow.None? then Failed
    else
      var s := Select(view.ciRuns, e.repository, view.ciWorkflow.value);
      if s.Ok? && Own(view.ciRuns, s.value.runId, e.repository, id)
      then Ok(Resolution(s.value, e.revision, None, None)) else Failed
  }

  /** The first listed run with this ID belongs to this repository. */
  predicate Own(runs: seq<CiRun>, runId: int, repository: Repository, id: int) {
    runs != [] &&
    if runs[0].CiRun? && runs[0].runId == runId then OwnRepositories(runs[0], repository, id)
    else Own(runs[1..], runId, repository, id)
  }

  function Recover(e: Execution, view: View, id: int, run: CanaryRun, r: Recovery): Result<Resolution>
    requires r.runId.Given? && r.runAttempt.Given? && r.approval.Given?
  {
    var ci := view.ciRun(r.runId.value, r.runAttempt.value);
    if !run.dispatched || view.ciWorkflow.None? || !OwnRepositories(ci, e.repository, id) then Failed
    else
      var s := Select([ci], e.repository, view.ciWorkflow.value);
      if s.Ok? && s.value.runId == r.runId.value && s.value.runAttempt == r.runAttempt.value
      then Ok(Resolution(s.value, e.revision, None, Some(r.approval.value))) else Failed
  }

  predicate ExecutionOk(e: Execution) {
    Positive(e.runId) && Positive(e.runAttempt) && RepositoryName(e.repository) && FullSha(e.revision)
  }

  predicate RecoveryWanted(r: Recovery) { !(r.runId.Absent? && r.runAttempt.Absent? && r.approval.Absent?) }

  predicate RecoveryOk(r: Recovery) {
    RecoveryWanted(r) ==>
      r.runId.Given? && Positive(r.runId.value) && r.runAttempt.Given? && Positive(r.runAttempt.value)
          && r.approval.Given?
  }

  function Resolve(codec: Codec, e: Execution, view: View, r: Recovery): Result<Resolution> {
    if !ExecutionOk(e) || !RecoveryOk(r) || view.repositoryId.None? || view.canaryWorkflow.None? then Failed
    else
      var id := view.repositoryId.value;
      var current := view.canaryRun(e.runAttempt);
      if current.None? then Failed
      else if RecoveryWanted(r) then Recover(e, view, id, current.value, r)
      else if !JobsOk(view.jobs, e) then Failed
      else
        match Original(view.jobs, e.runAttempt)
        case None => SelectNewest(e, view, id)
        case Some(job) => Restore(codec, e, view, id, current.value.number, job)
  }

  /** `resolveCanarySourceSnapshot`. */
  method ResolveSource(codec: Codec, e: Execution, view: View, r: Recovery) returns (result: Result<Resolution>)
    ensures result == Resolve(codec, e, view, r)
  {
    if !ExecutionOk(e) || !RecoveryOk(r) || view.repositoryId.None? || view.canaryWorkflow.None? {
      return Failed;
    }
    var current := view.canaryRun(e.runAttempt);
    if current.None? {
      return Failed;
    }
    if RecoveryWanted(r) {
      return Recover(e, view, view.repositoryId.value, current.value, r);
    }
    var fine := CheckJobs(view.jobs, e);
    if !fine {
      return Failed;
    }
    var original := Original(view.jobs, e.runAttempt);
    if original.None? {
      return SelectNewest(e, view, view.repositoryId.value);
    }
    result := Restore(codec, e, view, view.repositoryId.value, current.value.number, original.value);
  }

  /** The loop over the source jobs, which fills the set of attempts. */
  method CheckJobs(jobs: seq<Job>, e: Execution) returns (ok: bool)
    ensures ok == JobsOk(jobs, e)
  {
    var attempts: set<int> := {};
    for k := 0 to |jobs|
      invariant forall i :: 0 <= i < k ==> JobOk(jobs[i], e)
      invariant forall i, j :: 0 <= i < j < k ==> jobs[i].attempt != jobs[j].attempt
      invariant forall a :: a in attempts <==> exists i :: 0 <= i < k && jobs[i].attempt == a
    {
      if !JobOk(jobs[k], e) || jobs[k].attempt in attempts {
        return false;
      }
      attempts := attempts + {jobs[k].attempt};
    }
    ok := e.runAttempt in attempts;
  }

  // ---- Writing ---------------------------------------------------------------------------------------------

  /** What the checkout of the selected commit says. */
  datatype Identity = Identity(sha: Sha, version: string, canary: bool, revision: Sha)

  /** `writeCanarySourceSnapshot` of a resolution with a well-formed source. */
  function Write(codec: Codec, resolution: Resolution, identity: Identity): Result<Raw> {
    var s := resolution.source;
    if || resolution.revision != identity.revision || !FullSha(identity.revision) || s.sha != identity.sha
       || !codec.versionOk(identity.version, s.sha) || !identity.canary
    then Failed
    else
      match resolution.restored
      case None => Ok(codec.encode(Snapshot(s, identity.version, identity.revision)))
      case Some((_, raw)) =>
        var snapshot := ParseSnapshot(codec, raw, s.repository, identity.revision);
        if snapshot.Ok? && snapshot.value.source == s && snapshot.value.version == identity.version
        then Ok(raw) else Failed
  }
}
