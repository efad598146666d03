/** When `resolveCanarySourceSnapshot` answers and what, in each of its three modes. */
module SourceResolution {
  import opened Prelude
  import opened CanarySource
  import opened SourceSnapshot

  /** A successful push run of this repository's own, of this workflow; `s` is what it freezes. */
  predicate Freezes(ci: CiRun, e: Execution, id: int, workflow: int, s: Source) {
    && ci.CiRun? && ci.succeeded && ci.standard && ci.sha >= 0
    && 1 <= ci.runNumber <= MAX_SAFE && 1 <= ci.runId <= MAX_SAFE && 1 <= ci.runAttempt <= MAX_SAFE
    && 1 <= workflow <= MAX_SAFE && ci.workflowId == workflow
    && ci.repository == ci.headRepository == e.repository && ci.repositoryId == ci.headRepositoryId == id
    && s == Source(ci.runId, ci.runAttempt, ci.runNumber, ci.sha, e.repository, workflow)
  }

  /** Everything that every mode asks for. */
  predicate Begins(e: Execution, view: View) {
    && 1 <= e.runId <= MAX_SAFE && 1 <= e.runAttempt <= MAX_SAFE && e.repository >= 0 && e.revision >= 0
    && view.repositoryId.Some? && view.canaryWorkflow.Some? && view.canaryRun(e.runAttempt).Some?
  }

  // ---- Recovery --------------------------------------------------------------------------------------------

  /** A dispatched recovery: the named CI run and attempt, and the named approval. */
  predicate IsRecovered(e: Execution, view: View, r: Recovery, result: Resolution)
    requires Begins(e, view)
  {
    && r.runId.Given? && r.runAttempt.Given? && r.approval.Given?
    && 1 <= r.runId.value <= MAX_SAFE && 1 <= r.runAttempt.value <= MAX_SAFE
    && view.canaryRun(e.runAttempt).value.dispatched && view.ciWorkflow.Some?
    && var ci := view.ciRun(r.runId.value, r.runAttempt.value);
       && Freezes(ci, e, view.repositoryId.value, view.ciWorkflow.value, result.source)
       && result.source.runId == r.runId.value && result.source.runAttempt == r.runAttempt.value
       && result == Resolution(result.source, e.revision, None, Some(r.approval.value))
  }

  lemma SelectsOne(ci: CiRun, repository: Repository, workflow: int)
    ensures Select([ci], repository, workflow) ==
            if RepositoryName(repository) && Positive(workflow) && Candidate(ci) && Positive(ci.runNumber)
            then Describe(ci, repository, workflow) else Failed
  {
    assert multiset([ci])[ci] == 1;
    if Select([ci], repository, workflow).Ok? {
      SelectExactly([ci], repository, workflow, Select([ci], repository, workflow).value);
    } else if Describe(ci, repository, workflow).Ok? {
      SelectExactly([ci], repository, workflow, Describe(ci, repository, workflow).value);
      assert Candidate(ci) ==> Newest(multiset([ci]), ci);
    }
  }

  lemma RecoverIsExact(e: Execution, view: View, r: Recovery, result: Resolution)
    requires Begins(e, view) && RecoveryOk(r) && RecoveryWanted(r)
    ensures Recover(e, view, view.repositoryId.value, view.canaryRun(e.runAttempt).value, r) == Ok(result) <==>
            IsRecovered(e, view, r, result)
  {
    if view.ciWorkflow.Some? {
      SelectsOne(view.ciRun(r.runId.value, r.runAttempt.value), e.repository, view.ciWorkflow.value);
    }
  }

  // ---- A rerun ---------------------------------------------------------------------------------------------

  /** The source jobs are this run's, one per attempt, with this attempt among them. */
  predicate Accounted(jobs: seq<Job>, e: Execution) {
    && (forall i :: 0 <= i < |jobs| ==>
          && 1 <= jobs[i].attempt <= MAX_SAFE && 1 <= jobs[i].id <= MAX_SAFE
          && jobs[i].runId == e.runId && jobs[i].revision == e.revision)
    && (forall i, j :: 0 <= i < j < |jobs| ==> jobs[i].attempt != jobs[j].attempt)
    && exists i :: 0 <= i < |jobs| && jobs[i].attempt == e.runAttempt
  }

  /** This job is the first of an earlier attempt that succeeded. */
  predicate IsOriginal(jobs: seq<Job>, attempt: int, job: Job) {
    && job in jobs && job.succeeded && job.attempt < attempt
    && forall other :: other in jobs && other.succeeded && other.attempt < attempt ==> job.attempt <= other.attempt
  }

  /** The only artifact of the job's attempt, live, and uploaded while the job ran. */
  predicate IsArtifact(artifacts: seq<Artifact>, job: Job, a: Artifact) {
    && a in artifacts && a.attempt == job.attempt && multiset(artifacts)[a] == 1
    && (forall b :: b in artifacts && b.attempt == job.attempt ==> b == a)
    && !a.expired && a.associated && 1 <= a.id <= MAX_SAFE && 1 <= a.size <= 1024 * 1024 && a.digest >= 0
    && job.started.Some? && job.completed.Some? && a.created.Some?
    && job.started.value <= a.created.value <= job.completed.value
  }

  /** What was downloaded has the size and digest of the artifact and holds this text. */
  predicate Holds(codec: Codec, view: View, a: Artifact, raw: Raw) {
    && view.download(a.id).Some? && |view.download(a.id).value| == a.size
    && codec.hash(view.download(a.id).value) == a.digest && codec.unzip(view.download(a.id).value) == Some(raw)
  }

  /** The text is a snapshot of this repository and revision, and its CI run still is what it says. */
  predicate Vouches(codec: Codec, e: Execution, view: View, id: int, raw: Raw, s: Source) {
    && codec.decode(raw).Some? && codec.decode(raw).value.source == s && codec.decode(raw).value.revision == e.revision
    && codec.versionOk(codec.decode(raw).value.version, s.sha)
    && Freezes(view.ciRun(s.runId, s.runAttempt), e, id, s.workflowId, s)
  }

  /** The artifact of the original job holds the source, and that attempt was of the same run. */
  predicate IsRestored(codec: Codec, e: Execution, view: View, job: Job, a: Artifact, raw: Raw, result: Resolution)
    requires Begins(e, view)
  {
    && view.canaryRun(job.attempt).Some?
    && view.canaryRun(job.attempt).value.number == view.canaryRun(e.runAttempt).value.number
    && IsArtifact(view.artifacts, job, a) && Holds(codec, view, a, raw)
    && Vouches(codec, e, view, view.repositoryId.value, raw, result.source)
    && result == Resolution(result.source, e.revision, Some((job.attempt, raw)), None)
  }

  lemma {:induction false} NamedCounts(artifacts: seq<Artifact>, attempt: int, a: Artifact)
    ensures multiset(Named(artifacts, attempt))[a] == if a.attempt == attempt then multiset(artifacts)[a] else 0
  {
    if artifacts != [] {
      NamedCounts(artifacts[1..], attempt, a);
      assert artifacts == [artifacts[0]] + artifacts[1..];
    }
  }

  lemma OnlyOne(s: seq<Artifact>, a: Artifact)
    requires multiset(s)[a] == 1 && forall b :: b in multiset(s) ==> b == a
    ensures s == [a]
  {
    assert forall b :: b != a ==> b !in multiset(s);
    assert multiset(s) == multiset{a};
    assert |s| == |multiset(s)| == 1;
    assert s[0] in multiset(s);
  }

  lemma ArtifactIsExact(artifacts: seq<Artifact>, job: Job, a: Artifact)
    ensures OriginalArtifact(artifacts, job) == Ok(a) <==> IsArtifact(artifacts, job, a)
  {
    var named := Named(artifacts, job.attempt);
    forall b: Artifact ensures multiset(named)[b] == if b.attempt == job.attempt then multiset(artifacts)[b] else 0 {
      NamedCounts(artifacts, job.attempt, b);
    }
    assert forall b :: b in artifacts <==> b in multiset(artifacts);
    if IsArtifact(artifacts, job, a) { OnlyOne(named, a); }
    if OriginalArtifact(artifacts, job) == Ok(a) {
      assert named == [a];
      assert forall b :: b in artifacts && b.attempt == job.attempt ==> b in multiset(named);
    }
  }

  lemma ContentsAreExact(codec: Codec, view: View, a: Artifact, raw: Raw)
    ensures Contents(codec, view, a) == Ok(raw) <==> Holds(codec, view, a, raw)
  {
  }

  lemma VouchesExactly(codec: Codec, e: Execution, view: View, id: int, raw: Raw, s: Source)
    requires RepositoryName(e.repository)
    ensures var snapshot := ParseSnapshot(codec, raw, e.repository, e.revision);
            var ci := view.ciRun(s.runId, s.runAttempt);
            Vouches(codec, e, view, id, raw, s) <==>
            && snapshot.Ok? && snapshot.value.source == s
            && OwnRepositories(ci, e.repository, id) && Select([ci], e.repository, s.workflowId) == Ok(s)
  {
    SelectsOne(view.ciRun(s.runId, s.runAttempt), e.repository, s.workflowId);
  }

  lemma RestoreIsExact(codec: Codec, e: Execution, view: View, job: Job, result: Resolution)
    requires Begins(e, view)
    ensures var number := view.canaryRun(e.runAttempt).value.number;
            Restore(codec, e, view, view.repositoryId.value, number, job) == Ok(result) <==>
            exists a, raw :: IsRestored(codec, e, view, job, a, raw, result)
  {
    var id, number := view.repositoryId.value, view.canaryRun(e.runAttempt).value.number;
    var made := OriginalArtifact(view.artifacts, job);
    if Restore(codec, e, view, id, number, job) == Ok(result) {
      var a, raw := made.value, result.restored.value.1;
      ArtifactIsExact(view.artifacts, job, a);
      ContentsAreExact(codec, view, a, raw);
      VouchesExactly(codec, e, view, id, raw, result.source);
      assert IsRestored(codec, e, view, job, a, raw, result);
    }
    forall a, raw | IsRestored(codec, e, view, job, a, raw, result)
      ensures Restore(codec, e, view, id, number, job) == Ok(result)
    {
      ArtifactIsExact(view.artifacts, job, a);
      ContentsAreExact(codec, view, a, raw);
      VouchesExactly(codec, e, view, id, raw, result.source);
    }
  }

  // ---- A first attempt -------------------------------------------------------------------------------------

  /** The newest successful CI run, which is this repository's own. */
  ghost predicate IsNewest(e: Execution, view: View, ci: CiRun, result: Resolution)
    requires Begins(e, view)
  {
    && view.ciWorkflow.Some? && Readable(multiset(view.ciRuns)) && Newest(multiset(view.ciRuns), ci)
    && ci.CiRun? && ci.repository == ci.headRepository == e.repository && ci.workflowId == view.ciWorkflow.value
    && Positive(ci.workflowId) && ci.standard && FullSha(ci.sha) && Positive(ci.runId) && Positive(ci.runAttempt)
    && Own(view.ciRuns, ci.runId, e.repository, view.repositoryId.value)
    && result == Resolution(Source(ci.runId, ci.runAttempt, ci.runNumber, ci.sha, e.repository, ci.workflowId),
                            e.revision, None, None)
  }

  lemma NewestIsExact(e: Execution, view: View, result: Resolution)
    requires Begins(e, view)
    ensures SelectNewest(e, view, view.repositoryId.value) == Ok(result) <==>
            exists ci :: IsNewest(e, view, ci, result)
  {
    if view.ciWorkflow.Some? {
      SelectExactly(view.ciRuns, e.repository, view.ciWorkflow.value, result.source);
    }
    if SelectNewest(e, view, view.repositoryId.value) == Ok(result) {
      var ci :| Newest(multiset(view.ciRuns), ci)
        && Describe(ci, e.repository, view.ciWorkflow.value) == Ok(result.source);
      assert IsNewest(e, view, ci, result);
    }
  }

  /** The first listed run of this ID is the one whose repositories are compared. */
  lemma {:induction false} OwnIsFirst(runs: seq<CiRun>, runId: int, repository: Repository, id: int)
    ensures Own(runs, runId, repository, id) <==>
            exists k :: && 0 <= k < |runs| && runs[k].CiRun? && runs[k].runId == runId
                        && (forall j :: 0 <= j < k ==> !(runs[j].CiRun? && runs[j].runId == runId))
                        && OwnRepositories(runs[k], repository, id)
  {
    if runs != [] && !(runs[0].CiRun? && runs[0].runId == runId) {
      OwnIsFirst(runs[1..], runId, repository, id);
      assert forall k :: 0 < k < |runs| ==> runs[k] == runs[1..][k - 1];
      assert forall k :: 0 <= k < |runs| - 1 ==> runs[1..][k] == runs[k + 1];
    }
  }

  // ---- All three -------------------------------------------------------------------------------------------

  /** Without recovery inputs: restored from the original job, or the newest if there is none. */
  ghost predicate IsFrozen(codec: Codec, e: Execution, view: View, result: Resolution)
    requires Begins(e, view)
  {
    && Accounted(view.jobs, e)
    && if exists job :: IsOriginal(view.jobs, e.runAttempt, job) then
         exists job, a, raw ::
           IsOriginal(view.jobs, e.runAttempt, job) && IsRestored(codec, e, view, job, a, raw, result)
       else
         exists ci :: IsNewest(e, view, ci, result)
  }

  /** What the source of a run is resolved to. */
  ghost predicate IsResolution(codec: Codec, e: Execution, view: View, r: Recovery, result: Resolution) {
    && Begins(e, view)
    && if r.runId.Absent? && r.runAttempt.Absent? && r.approval.Absent? then IsFrozen(codec, e, view, result)
       else IsRecovered(e, view, r, result)
  }

  lemma OriginalIsExact(jobs: seq<Job>, e: Execution, job: Job)
    requires Accounted(jobs, e)
    ensures Original(jobs, e.runAttempt) == Some(job) <==> IsOriginal(jobs, e.runAttempt, job)
  {
    var found := Original(jobs, e.runAttempt);
    if found.Some? && IsOriginal(jobs, e.runAttempt, job) {
      var i :| 0 <= i < |jobs| && jobs[i] == job;
      var j :| 0 <= j < |jobs| && jobs[j] == found.value;
      assert jobs[i].attempt == jobs[j].attempt;
    }
  }

  function Frozen(codec: Codec, e: Execution, view: View): Result<Resolution>
    requires Begins(e, view)
  {
    match Original(view.jobs, e.runAttempt)
    case None => SelectNewest(e, view, view.repositoryId.value)
    case Some(job) =>
      Restore(codec, e, view, view.repositoryId.value, view.canaryRun(e.runAttempt).value.number, job)
  }

  lemma FrozenIsExact(codec: Codec, e: Execution, view: View, result: Resolution)
    requires Begins(e, view) && Accounted(view.jobs, e)
    ensures Frozen(codec, e, view) == Ok(result) <==> IsFrozen(codec, e, view, result)
  {
    forall job ensures Original(view.jobs, e.runAttempt) == Some(job) <==> IsOriginal(view.jobs, e.runAttempt, job) {
      OriginalIsExact(view.jobs, e, job);
    }
    if Original(view.jobs, e.runAttempt).Some? {
      var job := Original(view.jobs, e.runAttempt).value;
      assert IsOriginal(view.jobs, e.runAttempt, job);
      RestoreIsExact(codec, e, view, job, result);
    } else {
      NewestIsExact(e, view, result);
    }
  }

  lemma ThreeModes(codec: Codec, e: Execution, view: View, r: Recovery)
    ensures Begins(e, view) && RecoveryOk(r) && RecoveryWanted(r) ==>
              Resolve(codec, e, view, r) ==
              Recover(e, view, view.repositoryId.value, view.canaryRun(e.runAttempt).value, r)
    ensures Begins(e, view) && !RecoveryWanted(r) ==>
              Resolve(codec, e, view, r) == if JobsOk(view.jobs, e) then Frozen(codec, e, view) else Failed
    ensures !Begins(e, view) || !RecoveryOk(r) ==> Resolve(codec, e, view, r).Failed?
  {
  }

  lemma JobsAreAccounted(jobs: seq<Job>, e: Execution)
    ensures JobsOk(jobs, e) <==> Accounted(jobs, e)
  {
    assert forall i :: 0 <= i < |jobs| ==>
        (JobOk(jobs[i], e) <==>
         && 1 <= jobs[i].attempt <= MAX_SAFE && 1 <= jobs[i].id <= MAX_SAFE
         && jobs[i].runId == e.runId && jobs[i].revision == e.revision);
  }

  /** A source is resolved in exactly these cases, and to this. */
  lemma ResolveIsExact(codec: Codec, e: Execution, view: View, r: Recovery, result: Resolution)
    ensures Resolve(codec, e, view, r) == Ok(result) <==> IsResolution(codec, e, view, r, result)
  {
    ThreeModes(codec, e, view, r);
    if Begins(e, view) {
      if RecoveryWanted(r) {
        if RecoveryOk(r) { RecoverIsExact(e, view, r, result); }
      } else {
        JobsAreAccounted(view.jobs, e);
        if Accounted(view.jobs, e) { FrozenIsExact(codec, e, view, result); }
      }
    }
  }

  /** What is written: a new snapshot of the selected commit, or the restored bytes if they are that. */
  lemma WriteIsExact(codec: Codec, resolution: Resolution, identity: Identity, raw: Raw)
    ensures var snapshot := Snapshot(resolution.source, identity.version, identity.revision);
            Write(codec, resolution, identity) == Ok(raw) <==>
            && identity.canary && identity.revision >= 0 && identity.revision == resolution.revision
            && identity.sha == resolution.source.sha && codec.versionOk(identity.version, identity.sha)
            && (if resolution.restored.None? then raw == codec.encode(snapshot)
                else raw == resolution.restored.value.1 && codec.decode(raw) == Some(snapshot))
  {
  }
}
