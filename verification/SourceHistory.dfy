/** The source jobs of one canary run over all its reruns. Between attempts the CI history, the listings
    and the artifacts may change; what they say about the past is true. */
module SourceHistory {
  import opened Prelude
  import opened CanarySource
  import opened SourceSnapshot

  /** How a source job ended: it failed, or it wrote these bytes and uploaded them in this ZIP. */
  datatype Outcome = Lost | Wrote(raw: Raw, blob: seq<int>)

  datatype History = Start | Then(before: History, outcome: Outcome)

  function Attempts(h: History): nat { if h.Start? then 0 else Attempts(h.before) + 1 }

  function At(h: History, k: int): Outcome
    requires 1 <= k <= Attempts(h)
  {
    if k == Attempts(h) then h.outcome else At(h.before, k)
  }

  predicate Won(h: History, k: int) { 1 <= k <= Attempts(h) && At(h, k).Wrote? }

  /** The canary run. Its dispatch inputs are the same in every attempt; `ciRecord` is the record of the CI
      attempt they name, and `versionOf` the version in each commit. */
  datatype Canary = Canary(codec: Codec, repository: Repository, runId: int, revision: Sha, recovery: Recovery,
                           ciRecord: CiRun, versionOf: Sha -> string)

  predicate TrueJob(job: Job, h: History) { 1 <= job.attempt <= Attempts(h) ==> job.succeeded == Won(h, job.attempt) }

  predicate Lists(jobs: seq<Job>, k: int) { exists i :: 0 <= i < |jobs| && jobs[i].attempt == k }

  predicate TrueArtifact(c: Canary, a: Artifact, h: History) {
    Won(h, a.attempt) ==> a.digest == c.codec.hash(At(h, a.attempt).blob)
  }

  /** The listings tell the truth about earlier attempts: every successful job is listed as such and no
      other is, and a listed artifact of a successful job has the digest of what that job uploaded. An
      artifact may be expired or gone, and a download may return anything. */
  ghost predicate Truthful(c: Canary, h: History, view: View) {
    && (forall i :: 0 <= i < |view.jobs| ==> TrueJob(view.jobs[i], h))
    && (forall k :: Won(h, k) ==> Lists(view.jobs, k))
    && (forall i :: 0 <= i < |view.artifacts| ==> TrueArtifact(c, view.artifacts[i], h))
    && (c.recovery.runId.Given? && c.recovery.runAttempt.Given? ==>
          view.ciRun(c.recovery.runId.value, c.recovery.runAttempt.value) == c.ciRecord)
  }

  function Now(c: Canary, h: History): Execution {
    Execution(c.repository, c.runId, Attempts(h) + 1, c.revision)
  }

  /** The bytes the next attempt writes. */
  function Bytes(c: Canary, h: History, view: View, identity: Identity): Result<Raw> {
    match Resolve(c.codec, Now(c, h), view, c.recovery)
    case Failed => Failed
    case Ok(resolution) => Write(c.codec, resolution, identity)
  }

  /** The next attempt may end like this. */
  ghost predicate MayEnd(c: Canary, h: History, view: View, identity: Identity, o: Outcome) {
    && Truthful(c, h, view) && identity.version == c.versionOf(identity.sha)
    && (o.Wrote? ==> Bytes(c, h, view, identity) == Ok(o.raw) && c.codec.unzip(o.blob) == Some(o.raw))
  }

  ghost predicate Lawful(c: Canary, h: History) {
    h.Then? ==> Lawful(c, h.before) && exists view, identity :: MayEnd(c, h.before, view, identity, h.outcome)
  }

  /** Different archives have different hashes. */
  ghost predicate NoCollision(codec: Codec) { forall x, y :: codec.hash(x) == codec.hash(y) ==> x == y }

  // ---- The first attempt that succeeded --------------------------------------------------------------------

  /** The number of the first successful attempt, 0 if there is none. */
  function First(h: History): (k: int)
    ensures k == 0 || Won(h, k)
    ensures forall j :: Won(h, j) ==> 0 < k <= j
  {
    if h.Start? then 0
    else
      var k := First(h.before);
      assert forall j :: 1 <= j < Attempts(h) ==> At(h, j) == At(h.before, j);
      assert forall j :: 1 <= j < Attempts(h) ==> Won(h, j) == Won(h.before, j);
      if k == 0 && h.outcome.Wrote? then Attempts(h) else k
  }

  /** Once an attempt succeeded, truthful listings point every later one at the first that did. */
  lemma OriginalIsFirst(c: Canary, h: History, view: View)
    requires Truthful(c, h, view) && First(h) > 0 && JobsOk(view.jobs, Now(c, h))
    ensures Original(view.jobs, Attempts(h) + 1).Some?
    ensures Original(view.jobs, Attempts(h) + 1).value.attempt == First(h)
  {
    var k := First(h);
    assert Lists(view.jobs, k);
    var i :| 0 <= i < |view.jobs| && view.jobs[i].attempt == k;
    assert TrueJob(view.jobs[i], h);
    assert Earlier(view.jobs[i], Attempts(h) + 1);
    var job := Original(view.jobs, Attempts(h) + 1).value;
    var j :| 0 <= j < |view.jobs| && view.jobs[j] == job;
    assert JobOk(view.jobs[j], Now(c, h)) && TrueJob(view.jobs[j], h);
  }

  lemma {:induction false} NamedIn(artifacts: seq<Artifact>, attempt: int, a: Artifact)
    requires a in Named(artifacts, attempt)
    ensures a in artifacts && a.attempt == attempt
  {
    if artifacts[0] != a || a.attempt != attempt { NamedIn(artifacts[1..], attempt, a); }
  }

  /** What is restored are the bytes of the first success. */
  lemma RestoresFirst(c: Canary, h: History, view: View, id: int, number: int, job: Job)
    requires NoCollision(c.codec) && Truthful(c, h, view) && job.attempt == First(h) > 0
    requires c.codec.unzip(At(h, First(h)).blob) == Some(At(h, First(h)).raw)
    requires Restore(c.codec, Now(c, h), view, id, number, job).Ok?
    ensures Restore(c.codec, Now(c, h), view, id, number, job).value.restored == Some((First(h), At(h, First(h)).raw))
  {
    var a := OriginalArtifact(view.artifacts, job).value;
    NamedIn(view.artifacts, job.attempt, a);
    var i :| 0 <= i < |view.artifacts| && view.artifacts[i] == a;
    assert TrueArtifact(c, view.artifacts[i], h);
    var body := view.download(a.id).value;
    assert body == At(h, First(h)).blob;
  }

  /** A rerun after a success writes the bytes of the first success or nothing. */
  lemma RerunRestores(c: Canary, h: History, view: View, identity: Identity)
    requires NoCollision(c.codec) && Truthful(c, h, view) && !RecoveryWanted(c.recovery) && First(h) > 0
    requires c.codec.unzip(At(h, First(h)).blob) == Some(At(h, First(h)).raw)
    requires Bytes(c, h, view, identity).Ok?
    ensures Bytes(c, h, view, identity) == Ok(At(h, First(h)).raw)
  {
    var e := Now(c, h);
    OriginalIsFirst(c, h, view);
    var job := Original(view.jobs, e.runAttempt).value;
    RestoresFirst(c, h, view, view.repositoryId.value, view.canaryRun(e.runAttempt).value.number, job);
  }

  /** A recovery writes what its dispatch inputs determine. */
  function Recovered(c: Canary): Raw
    requires c.ciRecord.CiRun?
  {
    var s := Source(c.ciRecord.runId, c.ciRecord.runAttempt, c.ciRecord.runNumber, c.ciRecord.sha,
                    c.repository, c.ciRecord.workflowId);
    c.codec.encode(Snapshot(s, c.versionOf(c.ciRecord.sha), c.revision))
  }

  lemma SelectOne(run: CiRun, repository: Repository, workflowId: int)
    requires Select([run], repository, workflowId).Ok?
    ensures Select([run], repository, workflowId) == Describe(run, repository, workflowId)
  {
    SelectExactly([run], repository, workflowId, Select([run], repository, workflowId).value);
  }

  lemma RecoveryIsFixed(c: Canary, h: History, view: View, identity: Identity)
    requires Truthful(c, h, view) && RecoveryWanted(c.recovery) && identity.version == c.versionOf(identity.sha)
    requires Bytes(c, h, view, identity).Ok?
    ensures c.ciRecord.CiRun? && Bytes(c, h, view, identity) == Ok(Recovered(c))
  {
    SelectOne(c.ciRecord, c.repository, view.ciWorkflow.value);
  }

  /** The winner at `k` wrote what the first winner wrote, and its archive holds it. */
  lemma {:induction false} WinnersAgree(c: Canary, h: History, k: int)
    requires NoCollision(c.codec) && Lawful(c, h) && Won(h, k)
    ensures At(h, k).raw == At(h, First(h)).raw && c.codec.unzip(At(h, k).blob) == Some(At(h, k).raw)
    ensures RecoveryWanted(c.recovery) ==> c.ciRecord.CiRun? && At(h, k).raw == Recovered(c)
    decreases h
  {
    var view, identity :| MayEnd(c, h.before, view, identity, h.outcome);
    if k < Attempts(h) {
      assert Won(h.before, k);
      WinnersAgree(c, h.before, k);
    } else {
      if RecoveryWanted(c.recovery) { RecoveryIsFixed(c, h.before, view, identity); }
      if First(h.before) > 0 {
        WinnersAgree(c, h.before, First(h.before));
        if !RecoveryWanted(c.recovery) { RerunRestores(c, h.before, view, identity); }
      }
    }
  }

  /** Source freeze: over all reruns of a canary run, every successful source job wrote the same bytes. */
  lemma OneSnapshotForever(c: Canary, h: History, j: int, k: int)
    requires NoCollision(c.codec) && Lawful(c, h) && Won(h, j) && Won(h, k)
    ensures At(h, j).raw == At(h, k).raw
  {
    WinnersAgree(c, h, j);
    WinnersAgree(c, h, k);
  }

  /** Once a source job succeeded, a rerun without its one live artifact fails; it does not select anew. */
  lemma MissingBlocks(c: Canary, h: History, view: View)
    requires Truthful(c, h, view) && !RecoveryWanted(c.recovery) && First(h) > 0
    requires |Named(view.artifacts, First(h))| != 1 || Named(view.artifacts, First(h))[0].expired
    ensures Resolve(c.codec, Now(c, h), view, c.recovery).Failed?
  {
    if JobsOk(view.jobs, Now(c, h)) { OriginalIsFirst(c, h, view); }
  }

  /** A snapshot that was written can be restored: reading it back and writing it again gives its bytes. */
  lemma WrittenIsRestorable(codec: Codec, resolution: Resolution, identity: Identity, attempt: int)
    requires forall s :: codec.decode(codec.encode(s)) == Some(s)
    requires Write(codec, resolution, identity).Ok?
    ensures var raw := Write(codec, resolution, identity).value;
            && ParseSnapshot(codec, raw, resolution.source.repository, identity.revision)
               == Ok(Snapshot(resolution.source, identity.version, identity.revision))
            && Write(codec, resolution.(restored := Some((attempt, raw))), identity) == Ok(raw)
  {
  }
}
