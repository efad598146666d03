/** Loading an approval, and every history of approval jobs of one source and version. */
module ApprovalHistory {
  import opened Prelude
  import opened Approval
  import opened ApprovalTheorems

  /** What `recoverRelease` finds: nothing durable, evidence it rejects, or a verified payload. */
  datatype Evidence = NoEvidence | Rejected | Durable(payload: Payload)

  datatype Origin = FromRelease | FromActions | FromCi

  datatype Loaded = Loaded(origin: Origin, payload: Payload)

  predicate Meets(hash: Payload -> Hash, pin: Option<Hash>, payload: Payload) {
    pin.Some? ==> hash(payload) == pin.value
  }

  /** The meaning of `loadCanaryApproval`: durable evidence, else the Actions history, either of which has to
      meet the pin; else fresh CI bytes unless an approval was pinned. */
  ghost predicate IsLoad(runs: seq<Run>, ev: Evidence, w: World, pin: Option<Hash>, ci: Result<Payload>,
                         r: Result<Loaded>) {
    match ev
    case Rejected => r.Failed?
    case Durable(p) => r == if Meets(w.hash, pin, p) then Ok(Loaded(FromRelease, p)) else Failed
    case NoEvidence => exists v :: IsVerdict(runs, w, v) && FollowsActions(w, pin, ci, v, r)
  }

  /** What a load gives once the Actions history has answered `v`. */
  predicate FollowsActions(w: World, pin: Option<Hash>, ci: Result<Payload>, v: Result<Option<Acquisition>>,
                           r: Result<Loaded>) {
    match v
    case Failed => r.Failed?
    case Ok(Some(found)) =>
      r == if Meets(w.hash, pin, found.payload) then Ok(Loaded(FromActions, found.payload)) else Failed
    case Ok(None) => r == if pin.None? && ci.Ok? then Ok(Loaded(FromCi, ci.value)) else Failed
  }

  /** `pinnedApproval`. */
  method PinnedApproval(hash: Payload -> Hash, pin: Option<Hash>, l: Loaded) returns (r: Result<Loaded>)
    ensures r == if Meets(hash, pin, l.payload) then Ok(l) else Failed
  {
    if pin.Some? && hash(l.payload) != pin.value {
      return Failed;
    }
    r := Ok(l);
  }

  /** `loadCanaryApproval`. `ci` is what building from the current CI distribution would give. */
  method LoadApproval(runs: seq<Run>, ev: Evidence, w: World, pin: Option<Hash>, ci: Result<Payload>)
    returns (r: Result<Loaded>)
    ensures IsLoad(runs, ev, w, pin, ci, r)
    // A pinned approval is met or the load fails, and fresh bytes never stand in for it.
    ensures r.Ok? && pin.Some? ==> w.hash(r.value.payload) == pin.value && r.value.origin != FromCi
    // Durable evidence decides alone.
    ensures ev.Durable? ==> (r.Ok? <==> pin.None? || w.hash(ev.payload) == pin.value)
    ensures ev.Durable? && r.Ok? ==> r.value == Loaded(FromRelease, ev.payload)
    ensures ev.Rejected? ==> r.Failed?
    // Otherwise a recovered copy decides, and fresh CI bytes count exactly when nothing was ever reserved.
    ensures ev.NoEvidence? && r.Ok? && r.value.origin == FromActions ==>
              exists found :: IsVerdict(runs, w, Ok(Some(found))) && found.payload == r.value.payload
    ensures ev.NoEvidence? ==>
              (r.Ok? && r.value.origin == FromCi <==> IsVerdict(runs, w, Ok(None)) && pin.None? && ci.Ok?)
    ensures r.Ok? && r.value.origin == FromCi ==> r.value.payload == ci.value
    ensures ev.NoEvidence? ==>
              forall found :: IsVerdict(runs, w, Ok(Some(found))) ==>
                (r.Ok? <==> pin.None? || w.hash(found.payload) == pin.value)
  {
    if ev.Rejected? {
      return Failed;
    }
    if ev.Durable? {
      r := PinnedApproval(w.hash, pin, Loaded(FromRelease, ev.payload));
      return;
    }
    var v := RecoverActions(runs, w);
    forall u | IsVerdict(runs, w, u) ensures u == v {
      VerdictUnique(runs, w, u, v);
    }
    match v
    case Failed => r := Failed;
    case Ok(Some(found)) => r := PinnedApproval(w.hash, pin, Loaded(FromActions, found.payload));
    case Ok(None) => r := if pin.Some? || ci.Failed? then Failed else Ok(Loaded(FromCi, ci.value));
  }

  /** The first approval of a version, recorded as the workflow records it, loads back: the artifact was
      uploaded while the job ran, its download is what was uploaded and is attested. */
  lemma ApprovalLoads(run: Run, job: Job, artifact: Artifact, w: World, pin: Option<Hash>, ci: Result<Payload>,
                      payload: Payload)
    requires run.jobs == [job] && run.artifacts == [artifact] && run.identityValid && run.id >= 1 && run.number >= 1
    requires job.named && job.success && 1 <= job.attempt <= run.latest && job.id >= 1
    requires job.runId == run.id && job.headSha == run.headSha && job.attempt in run.attemptsValid
    requires artifact.name == Reserves(w.hash(payload), job.attempt) && artifact.id >= 1
    requires 1 <= artifact.size <= 64 * 1024 * 1024
    requires artifact.runId == run.id && artifact.headSha == run.headSha
    requires artifact.repositoryMatches && artifact.onMain
    requires artifact.digest.Some? && artifact.expired == Some(false)
    requires job.started.Some? && job.completed.Some? && artifact.created.Some?
    requires job.started.value <= artifact.created.value <= job.completed.value
    requires w.download(artifact.id) == Zip(artifact.size, artifact.digest.value, Some(payload))
    requires w.authentic(payload, run.headSha) && (pin.Some? ==> pin.value == w.hash(payload))
    ensures IsLoad([run], NoEvidence, w, pin, ci, Ok(Loaded(FromActions, payload)))
  {
    var c := Candidate(Key(run.number, job.attempt), run.id, job.id, artifact.id, w.hash(payload),
                       artifact.digest.value, artifact.size, false, run.headSha);
    assert RunOk(run);
    assert MadeFrom(run, job, artifact, c);
    assert IsCandidate([run], c);
    OnlyCandidate(run, job, artifact, c);
    assert !OriginalLost([run]);
    assert FirstAvailable([run], w, c) && FirstIndexed([run], c);
    var v: Result<Option<Acquisition>> := Ok(Some(Acquisition(payload, c, c)));
    assert v == Reading(w, c, c);
    assert IsVerdict([run], w, v);
    assert FollowsActions(w, pin, ci, v, Ok(Loaded(FromActions, payload)));
  }

  lemma OnlyCandidate(run: Run, job: Job, artifact: Artifact, c: Candidate)
    requires run.jobs == [job] && run.artifacts == [artifact] && MadeFrom(run, job, artifact, c) && Successful(job)
    ensures forall d :: IsCandidate([run], d) ==> d == c
    ensures forall k :: !IsMissing([run], k)
  {
  }

  // ---- Histories ------------------------------------------------------------------------------------

  /** `reserved` lists the payload hash of every approval job that succeeded, in time order. */
  datatype History = History(runs: seq<Run>, evidence: Evidence, reserved: seq<Hash>)

  datatype Step =
    | Approve(i: nat, job: Job, artifact: Artifact, w: World, pin: Option<Hash>, ci: Result<Payload>, loaded: Loaded)
    | Abort(i: nat, job: Job, artifacts: seq<Artifact>)      // the job fails, perhaps after uploading
    | NewRun(run: Run)                                       // a run that has approved nothing yet
    | Decay(runs: seq<Run>)                                  // artifacts expire, disappear, are reordered
    | Evident(evidence: Evidence)                            // release evidence appears or goes

  predicate NewAttempt(r: Run, attempt: int) {
    && (forall j :: j in r.jobs ==> j.attempt != attempt)
    && (forall a :: a in r.artifacts ==> !BoundTo(a, attempt))
  }

  function With(r: Run, j: Job, more: seq<Artifact>): Run {
    r.(jobs := r.jobs + [j], artifacts := r.artifacts + more)
  }

  predicate DecaysTo(r: Run, s: Run) {
    && s == r.(artifacts := s.artifacts)
    && forall a :: a in s.artifacts ==> exists b :: b in r.artifacts && b.name == a.name
  }

  ghost predicate Enabled(hash: Payload -> Hash, h: History, x: Step) {
    match x
    case Approve(i, job, artifact, w, pin, ci, loaded) =>
      && i < |h.runs| && Successful(job) && NewAttempt(h.runs[i], job.attempt) && w.hash == hash
      && IsLoad(h.runs, h.evidence, w, pin, ci, Ok(loaded))
      && artifact.name == Reserves(hash(loaded.payload), job.attempt)
    case Abort(i, job, artifacts) =>
      && i < |h.runs| && !Successful(job) && NewAttempt(h.runs[i], job.attempt)
      && forall a :: a in artifacts && a.name.Reserves? ==> a.name.producer == job.attempt
    case NewRun(run) => forall j :: j in run.jobs ==> !Successful(j)
    case Decay(runs) => |runs| == |h.runs| && forall i :: 0 <= i < |runs| ==> DecaysTo(h.runs[i], runs[i])
    case Evident(e) => e.Durable? ==> hash(e.payload) in h.reserved
  }

  function Next(hash: Payload -> Hash, h: History, x: Step): History
    requires match x
             case Approve(i, _, _, _, _, _, _) => i < |h.runs|
             case Abort(i, _, _) => i < |h.runs|
             case _ => true
  {
    match x
    case Approve(i, job, artifact, _, _, _, loaded) =>
      h.(runs := h.runs[i := With(h.runs[i], job, [artifact])], reserved := h.reserved + [hash(loaded.payload)])
    case Abort(i, job, artifacts) => h.(runs := h.runs[i := With(h.runs[i], job, artifacts)])
    case NewRun(run) => h.(runs := h.runs + [run])
    case Decay(runs) => h.(runs := runs)
    case Evident(e) => h.(evidence := e)
  }

  predicate Approves(r: Run) { exists j :: j in r.jobs && Successful(j) }

  /** Every indexed reservation of this run carries `payload`. */
  predicate Carries(r: Run, payload: Hash) {
    forall j, a :: j in r.jobs && a in r.artifacts && Successful(j) && BoundTo(a, j.attempt) ==>
        a.name.payload == payload
  }

  ghost predicate Inv(hash: Payload -> Hash, h: History) {
    && (forall k :: 0 <= k < |h.reserved| ==> h.reserved[k] == h.reserved[0])
    && (h.reserved == [] ==> forall r :: r in h.runs ==> !Approves(r))
    && (h.reserved != [] ==> exists r :: r in h.runs && Approves(r))
    && (h.reserved != [] ==> forall r :: r in h.runs ==> Carries(r, h.reserved[0]))
    && (h.evidence.Durable? ==> h.reserved != [] && hash(h.evidence.payload) == h.reserved[0])
  }

  /** Once anything was approved, a load gives that payload or fails: fresh bytes are never taken. */
  lemma LoadKeepsPayload(hash: Payload -> Hash, h: History, w: World, pin: Option<Hash>, ci: Result<Payload>, l: Loaded)
    requires Inv(hash, h) && h.reserved != [] && w.hash == hash && IsLoad(h.runs, h.evidence, w, pin, ci, Ok(l))
    ensures hash(l.payload) == h.reserved[0] && l.origin != FromCi
  {
    if h.evidence.NoEvidence? {
      var v :| IsVerdict(h.runs, w, v) && FollowsActions(w, pin, ci, v, Ok(l));
      if v.value.None? {
        ApprovalIsRemembered(h.runs, w);
        assert false;
      }
      CopyCarries(h.runs, w, v.value.value, h.reserved[0]);
    }
  }

  /** With a successful approval on record, recovery never answers "none". */
  lemma ApprovalIsRemembered(runs: seq<Run>, w: World)
    requires exists r :: r in runs && Approves(r)
    ensures !IsVerdict(runs, w, Ok(None))
  {
    var r :| r in runs && Approves(r);
    var j :| j in r.jobs && Successful(j);
    if RunsOk(runs) {
      assert RunOk(r) && ScanOk(r, j);
      if Lacks(r, j) {
        assert IsMissing(runs, Key(r.number, j.attempt));
      } else {
        var a :| a in r.artifacts && BoundTo(a, j.attempt);
        assert BoundOk(r, j, a);
        var c := Candidate(Key(r.number, j.attempt), r.id, j.id, a.id, a.name.payload, a.digest.value, a.size,
                           a.expired.value, r.headSha);
        assert MadeFrom(r, j, a, c);
        assert IsCandidate(runs, c);
      }
    }
  }

  /** A recovered payload has the hash its reservation recorded. */
  lemma CopyCarries(runs: seq<Run>, w: World, found: Acquisition, payload: Hash)
    requires IsVerdict(runs, w, Ok(Some(found))) && forall r :: r in runs ==> Carries(r, payload)
    ensures w.hash(found.payload) == payload
  {
    var c, e :| FirstAvailable(runs, w, c) && FirstIndexed(runs, e) && Ok(Some(found)) == Reading(w, c, e);
    assert IsCandidate(runs, c);
    var r, j, a :| r in runs && j in r.jobs && a in r.artifacts && Successful(j) && MadeFrom(r, j, a, c);
    assert Carries(r, payload);
  }

  lemma ApproveKeeps(hash: Payload -> Hash, h: History, x: Step)
    requires Inv(hash, h) && x.Approve? && Enabled(hash, h, x)
    ensures Inv(hash, Next(hash, h, x))
  {
    var p, h' := hash(x.loaded.payload), Next(hash, h, x);
    if h.reserved != [] {
      LoadKeepsPayload(hash, h, x.w, x.pin, x.ci, x.loaded);
    }
    assert h'.reserved[0] == p;
    var was, now := h.runs[x.i], h'.runs[x.i];
    assert was in h.runs;
    assert x.job in now.jobs && now in h'.runs;
    CarriesMore(was, x.job, [x.artifact], p);
    forall r | r in h'.runs ensures Carries(r, p) {
      if r != now { assert r in h.runs; }
    }
  }

  /** Adding a job and its own artifacts to a run keeps its reservations at one payload. */
  lemma CarriesMore(r: Run, j: Job, more: seq<Artifact>, payload: Hash)
    requires Carries(r, payload) || !Approves(r)
    requires NewAttempt(r, j.attempt)
    requires forall a :: a in more && a.name.Reserves? ==> a.name.producer == j.attempt
    requires forall a :: a in more && a.name.Reserves? && Successful(j) ==> a.name.payload == payload
    ensures Carries(With(r, j, more), payload)
  {
    var s := With(r, j, more);
    forall k, a | k in s.jobs && a in s.artifacts && Successful(k) && BoundTo(a, k.attempt)
      ensures a.name.payload == payload
    {
      assert k in r.jobs || k == j;
      assert a in r.artifacts || a in more;
    }
  }

  lemma AbortKeeps(hash: Payload -> Hash, h: History, x: Step)
    requires Inv(hash, h) && x.Abort? && Enabled(hash, h, x)
    ensures Inv(hash, Next(hash, h, x))
  {
    var h' := Next(hash, h, x);
    var was, now := h.runs[x.i], h'.runs[x.i];
    assert was in h.runs;
    forall j | j in now.jobs ensures j in was.jobs || j == x.job {}
    assert Approves(now) ==> Approves(was);
    if h.reserved != [] {
      CarriesMore(was, x.job, x.artifacts, h.reserved[0]);
      var r :| r in h.runs && Approves(r);
      assert exists s :: s in h'.runs && Approves(s) by {
        if r == was {
          var j :| j in was.jobs && Successful(j);
          assert j in now.jobs && now in h'.runs;
        } else {
          var k :| 0 <= k < |h.runs| && h.runs[k] == r;
          assert h'.runs[k] == r;
        }
      }
    }
    forall r | r in h'.runs ensures r == now || r in h.runs {}
  }

  lemma DecayKeeps(hash: Payload -> Hash, h: History, x: Step)
    requires Inv(hash, h) && x.Decay? && Enabled(hash, h, x)
    ensures Inv(hash, Next(hash, h, x))
  {
    forall s | s in x.runs ensures exists r :: r in h.runs && DecaysTo(r, s) {
      var i :| 0 <= i < |x.runs| && x.runs[i] == s;
      assert h.runs[i] in h.runs && DecaysTo(h.runs[i], s);
    }
    if h.reserved != [] {
      var r :| r in h.runs && Approves(r);
      var i :| 0 <= i < |h.runs| && h.runs[i] == r;
      assert x.runs[i].jobs == r.jobs;
      assert x.runs[i] in x.runs && Approves(x.runs[i]);
      forall s | s in x.runs ensures Carries(s, h.reserved[0]) {
        var q :| q in h.runs && DecaysTo(q, s);
        assert Carries(q, h.reserved[0]);
      }
    } else {
      forall s | s in x.runs ensures !Approves(s) {
        var q :| q in h.runs && DecaysTo(q, s);
        assert !Approves(q);
      }
    }
  }

  lemma StepKeeps(hash: Payload -> Hash, h: History, x: Step)
    requires Inv(hash, h) && Enabled(hash, h, x)
    ensures Inv(hash, Next(hash, h, x))
  {
    match x
    case Approve(_, _, _, _, _, _, _) => ApproveKeeps(hash, h, x);
    case Abort(_, _, _) => AbortKeeps(hash, h, x);
    case Decay(_) => DecayKeeps(hash, h, x);
    case NewRun(run) =>
      assert !Approves(run);
      assert forall r :: r in h.runs + [run] <==> r in h.runs || r == run;
    case Evident(e) =>
  }

  ghost predicate Valid(hash: Payload -> Hash, h: History, steps: seq<Step>)
    decreases |steps|
  {
    steps == [] || (Enabled(hash, h, steps[0]) && Valid(hash, Next(hash, h, steps[0]), steps[1..]))
  }

  ghost function Exec(hash: Payload -> Hash, h: History, steps: seq<Step>): History
    requires Valid(hash, h, steps)
    decreases |steps|
  {
    if steps == [] then h else Exec(hash, Next(hash, h, steps[0]), steps[1..])
  }

  lemma {:induction false} RunKeeps(hash: Payload -> Hash, h: History, steps: seq<Step>)
    requires Inv(hash, h) && Valid(hash, h, steps)
    ensures Inv(hash, Exec(hash, h, steps))
    decreases |steps|
  {
    if steps != [] {
      StepKeeps(hash, h, steps[0]);
      RunKeeps(hash, Next(hash, h, steps[0]), steps[1..]);
    }
  }

  const NOTHING := History([], NoEvidence, [])

  /** Over every history of approval jobs, with artifacts expiring, disappearing and being listed in any
      order and evidence coming and going, every successful reservation carries the first one's payload
      hash, and every load afterwards gives that payload or fails. */
  lemma OnePayloadForever(hash: Payload -> Hash, steps: seq<Step>)
    requires Valid(hash, NOTHING, steps)
    ensures var h := Exec(hash, NOTHING, steps);
            && (forall k :: 0 <= k < |h.reserved| ==> h.reserved[k] == h.reserved[0])
            && (h.reserved != [] ==>
                  forall w: World, pin, ci, l: Loaded ::
                    w.hash == hash && IsLoad(h.runs, h.evidence, w, pin, ci, Ok(l)) ==>
                    hash(l.payload) == h.reserved[0] && l.origin != FromCi)
  {
    RunKeeps(hash, NOTHING, steps);
    var h := Exec(hash, NOTHING, steps);
    if h.reserved != [] {
      forall w: World, pin, ci, l: Loaded | w.hash == hash && IsLoad(h.runs, h.evidence, w, pin, ci, Ok(l))
        ensures hash(l.payload) == h.reserved[0] && l.origin != FromCi
      {
        LoadKeepsPayload(hash, h, w, pin, ci, l);
      }
    }
  }
}
