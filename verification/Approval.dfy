/** Recovering the original approval of a canary version from the Actions history. */
module Approval {
  import opened Prelude

  type Hash = nat          // a SHA-256 value
  type Sha = nat           // a commit
  type Payload = nat       // approval archive bytes

  const LIMIT: int := 64 * 1024 * 1024

  /** A job of a canary run. `named` says its name is this version's approval job. */
  datatype Job = Job(
    named: bool, attempt: int, id: int, runId: int, headSha: Sha, success: bool,
    started: Option<int>, completed: Option<int>)

  /** What an artifact name says: not a string, not this version's prefix, a broken suffix, or the
      payload hash and the attempt that produced it. */
  datatype Name = NotText | Other | Broken | Reserves(payload: Hash, producer: int)

  datatype Artifact = Artifact(
    name: Name, id: int, digest: Option<Hash>, size: int, expired: Option<bool>, created: Option<int>,
    runId: int, headSha: Sha, repositoryMatches: bool, onMain: bool)

  /** A canary run with its jobs and artifacts. `identityValid` is the run's own validation;
      `attemptsValid` are the attempts whose historical record validates. */
  datatype Run = Run(
    identityValid: bool, id: int, number: int, latest: int, headSha: Sha,
    jobs: seq<Job>, artifacts: seq<Artifact>, attemptsValid: set<int>)

  datatype Key = Key(number: int, attempt: int)

  datatype Candidate = Candidate(
    key: Key, runId: int, jobId: int, artifactId: int, payload: Hash, digest: Hash, size: int,
    expired: bool, revision: Sha)

  datatype Download = Gone | HttpError | Zip(size: int, digest: Hash, payload: Option<Payload>)

  /** The outside world during one load: artifact downloads, the hash function, and whether a payload
      is attested for a revision and verifies. */
  datatype World = World(download: int -> Download, hash: Payload -> Hash, authentic: (Payload, Sha) -> bool)

  datatype Acquisition = Acquisition(payload: Payload, copy: Candidate, earliest: Candidate)

  // ---- Specification ------------------------------------------------------------------------------

  predicate Before(a: Key, b: Key) {
    a.number < b.number || (a.number == b.number && a.attempt < b.attempt)
  }

  predicate AtOrBefore(a: Key, b: Key) { a == b || Before(a, b) }

  predicate Successful(j: Job) { j.named && j.success }

  predicate JobOk(r: Run, j: Job) {
    j.named ==> j.attempt >= 1 && j.id >= 1 && j.attempt <= r.latest && j.runId == r.id && j.headSha == r.headSha
  }

  predicate UniqueAttempts(jobs: seq<Job>) {
    forall i, j :: 0 <= i < j < |jobs| && jobs[i].named && jobs[j].named ==> jobs[i].attempt != jobs[j].attempt
  }

  ghost predicate JobsOk(r: Run) {
    (forall j :: j in r.jobs ==> JobOk(r, j)) && UniqueAttempts(r.jobs)
  }

  predicate TimesOk(j: Job) {
    j.started.Some? && j.completed.Some? && j.started.value <= j.completed.value
  }

  predicate BoundTo(a: Artifact, attempt: int) { a.name.Reserves? && a.name.producer == attempt }

  predicate BoundOk(r: Run, j: Job, a: Artifact)
    requires TimesOk(j)
  {
    && a.repositoryMatches && a.created.Some?
    && a.runId == r.id && a.headSha == r.headSha && a.onMain
    && j.started.value <= a.created.value <= j.completed.value
    && a.expired.Some? && j.attempt in r.attemptsValid
    && a.id >= 1 && a.digest.Some? && 1 <= a.size <= LIMIT
  }

  predicate ArtifactOk(r: Run, j: Job, a: Artifact)
    requires TimesOk(j)
  {
    && !a.name.Broken? && (a.name.Reserves? ==> a.name.producer >= 1)
    && (BoundTo(a, j.attempt) ==> BoundOk(r, j, a))
  }

  predicate SoleBound(artifacts: seq<Artifact>, attempt: int) {
    forall i, j :: 0 <= i < j < |artifacts| ==> !(BoundTo(artifacts[i], attempt) && BoundTo(artifacts[j], attempt))
  }

  /** One successful approval job and its run's artifacts. */
  ghost predicate ScanOk(r: Run, j: Job) {
    && TimesOk(j)
    && (forall a :: a in r.artifacts ==> ArtifactOk(r, j, a))
    && SoleBound(r.artifacts, j.attempt)
  }

  predicate Textual(r: Run) { forall a :: a in r.artifacts ==> !a.name.NotText? }

  ghost predicate RunOk(r: Run) {
    && r.identityValid && r.id >= 1 && r.number >= 1 && r.latest >= 1
    && JobsOk(r)
    && (forall j :: j in r.jobs && Successful(j) ==> Textual(r) && ScanOk(r, j))
  }

  predicate UniqueNumbers(runs: seq<Run>) {
    forall i, j :: 0 <= i < j < |runs| ==> runs[i].number != runs[j].number
  }

  ghost predicate RunsOk(runs: seq<Run>) {
    && (forall r :: r in runs ==> RunOk(r))
    && UniqueNumbers(runs)
  }

  predicate MadeFrom(r: Run, j: Job, a: Artifact, c: Candidate) {
    && BoundTo(a, j.attempt) && a.digest.Some? && a.expired.Some?
    && c == Candidate(Key(r.number, j.attempt), r.id, j.id, a.id, a.name.payload, a.digest.value, a.size,
                      a.expired.value, r.headSha)
  }

  /** `c` indexes the artifact of a successful approval attempt. */
  ghost predicate IsCandidate(runs: seq<Run>, c: Candidate) {
    exists r, j, a :: r in runs && j in r.jobs && a in r.artifacts && Successful(j) && MadeFrom(r, j, a, c)
  }

  predicate Lacks(r: Run, j: Job) {
    Successful(j) && forall a :: a in r.artifacts ==> !BoundTo(a, j.attempt)
  }

  /** A successful approval attempt whose artifact is no longer indexed. */
  ghost predicate IsMissing(runs: seq<Run>, k: Key) {
    exists r, j :: r in runs && j in r.jobs && Lacks(r, j) && k == Key(r.number, j.attempt)
  }

  /** Some reservation at or before every indexed one has lost its artifact. */
  ghost predicate OriginalLost(runs: seq<Run>) {
    exists k :: IsMissing(runs, k) && forall c :: IsCandidate(runs, c) ==> AtOrBefore(k, c.key)
  }

  ghost predicate Mixed(runs: seq<Run>) {
    exists c, d :: IsCandidate(runs, c) && IsCandidate(runs, d) && c.payload != d.payload
  }

  ghost predicate Available(runs: seq<Run>, w: World, c: Candidate) {
    IsCandidate(runs, c) && !c.expired && w.download(c.artifactId) != Gone
  }

  /** The download is the exact indexed artifact, and its payload is the exact reserved one. */
  predicate Intact(w: World, c: Candidate) {
    var d := w.download(c.artifactId);
    && d.Zip? && d.size == c.size && d.digest == c.digest && d.payload.Some?
    && w.hash(d.payload.value) == c.payload && w.authentic(d.payload.value, c.revision)
  }

  /** The order-free meaning of `recoverActions`. */
  ghost predicate IsVerdict(runs: seq<Run>, w: World, r: Result<Option<Acquisition>>) {
    if !RunsOk(runs) || OriginalLost(runs) then r.Failed?
    else if forall c :: !IsCandidate(runs, c) then r == Ok(None)
    else IsCopyVerdict(runs, w, r)
  }

  /** The earliest copy that can still be read decides, provided all copies reserve one payload. */
  ghost predicate IsCopyVerdict(runs: seq<Run>, w: World, r: Result<Option<Acquisition>>) {
    if Mixed(runs) || forall c :: !Available(runs, w, c) then r.Failed?
    else
      exists c, e :: FirstAvailable(runs, w, c) && FirstIndexed(runs, e) && r == Reading(w, c, e)
  }

  ghost predicate FirstAvailable(runs: seq<Run>, w: World, c: Candidate) {
    Available(runs, w, c) && forall d :: Available(runs, w, d) ==> AtOrBefore(c.key, d.key)
  }

  ghost predicate FirstIndexed(runs: seq<Run>, e: Candidate) {
    IsCandidate(runs, e) && forall d :: IsCandidate(runs, d) ==> AtOrBefore(e.key, d.key)
  }

  /** What reading copy `c` yields: its payload if intact, otherwise an error; never another copy. */
  function Reading(w: World, c: Candidate, e: Candidate): Result<Option<Acquisition>> {
    if Intact(w, c) then Ok(Some(Acquisition(w.download(c.artifactId).payload.value, c, e))) else Failed
  }

  // ---- The code -----------------------------------------------------------------------------------

  /** The attempts loop of `recoverActions`. */
  method CheckJobs(r: Run) returns (ok: bool)
    ensures ok <==> JobsOk(r)
  {
    var attempts: set<int> := {};
    for i := 0 to |r.jobs|
      invariant forall k :: 0 <= k < i ==> JobOk(r, r.jobs[k])
      invariant UniqueAttempts(r.jobs[..i])
      invariant forall t :: t in attempts <==> exists k :: 0 <= k < i && r.jobs[k].named && r.jobs[k].attempt == t
    {
      var j := r.jobs[i];
      if j.named {
        if !JobOk(r, j) {
          assert j in r.jobs;
          return false;
        }
        if j.attempt in attempts {
          return false;
        }
        attempts := attempts + {j.attempt};
      }
      assert r.jobs[..i + 1] == r.jobs[..i] + [j];
    }
    assert r.jobs[..|r.jobs|] == r.jobs;
    ok := true;
  }

  /** The artifact loop for one successful job: its candidate, or nothing if no artifact is bound to it. */
  method ScanJob(r: Run, j: Job) returns (found: Result<Option<Candidate>>)
    ensures found.Ok? <==> ScanOk(r, j)
    ensures found.Ok? && found.value.Some? ==> exists a :: a in r.artifacts && MadeFrom(r, j, a, found.value.value)
    ensures found.Ok? && found.value.None? ==> forall a :: a in r.artifacts ==> !BoundTo(a, j.attempt)
  {
    if !TimesOk(j) {
      return Failed;
    }
    var bound: Option<Candidate> := None;
    for i := 0 to |r.artifacts|
      invariant forall k :: 0 <= k < i ==> ArtifactOk(r, j, r.artifacts[k])
      invariant SoleBound(r.artifacts[..i], j.attempt)
      invariant bound.Some? ==> exists k :: 0 <= k < i && MadeFrom(r, j, r.artifacts[k], bound.value)
      invariant bound.None? ==> forall k :: 0 <= k < i ==> !BoundTo(r.artifacts[k], j.attempt)
    {
      var a := r.artifacts[i];
      if !ArtifactOk(r, j, a) {
        assert a in r.artifacts;
        return Failed;
      }
      if BoundTo(a, j.attempt) {
        if bound.Some? {
          return Failed;
        }
        bound := Some(Candidate(Key(r.number, j.attempt), r.id, j.id, a.id, a.name.payload, a.digest.value, a.size,
                                a.expired.value, r.headSha));
        assert MadeFrom(r, j, a, bound.value);
      }
      assert r.artifacts[..i + 1] == r.artifacts[..i] + [a];
    }
    assert r.artifacts[..|r.artifacts|] == r.artifacts;
    found := Ok(bound);
  }

  /** What one run contributes: indexed reservations and lost ones. */
  ghost predicate Contributes(r: Run, jobs: seq<Job>, candidates: seq<Candidate>, missing: seq<Key>) {
    && (forall c :: c in candidates <==>
                    exists j, a :: j in jobs && a in r.artifacts && Successful(j) && MadeFrom(r, j, a, c))
    && (forall k :: k in missing <==> exists j :: j in jobs && Lacks(r, j) && k == Key(r.number, j.attempt))
  }

  lemma SoleCandidate(r: Run, j: Job, a: Artifact, c: Candidate, b: Artifact, d: Candidate)
    requires ScanOk(r, j) && a in r.artifacts && b in r.artifacts && MadeFrom(r, j, a, c) && MadeFrom(r, j, b, d)
    ensures c == d
  {
    var i :| 0 <= i < |r.artifacts| && r.artifacts[i] == a;
    var k :| 0 <= k < |r.artifacts| && r.artifacts[k] == b;
    assert i == k;
  }

  lemma ContributesMore(r: Run, jobs: seq<Job>, j: Job, candidates: seq<Candidate>, missing: seq<Key>,
                        found: Option<Candidate>)
    requires Contributes(r, jobs, candidates, missing)
    requires Successful(j) ==> ScanOk(r, j)
    requires Successful(j) && found.Some? ==> exists a :: a in r.artifacts && MadeFrom(r, j, a, found.value)
    requires Successful(j) && found.None? ==> forall a :: a in r.artifacts ==> !BoundTo(a, j.attempt)
    ensures Successful(j) && found.Some? ==> Contributes(r, jobs + [j], candidates + [found.value], missing)
    ensures Successful(j) && found.None? ==>
              Contributes(r, jobs + [j], candidates, missing + [Key(r.number, j.attempt)])
    ensures !Successful(j) ==> Contributes(r, jobs + [j], candidates, missing)
  {
    var all := jobs + [j];
    assert forall i :: i in all <==> i in jobs || i == j;
    if Successful(j) && found.Some? {
      var a :| a in r.artifacts && MadeFrom(r, j, a, found.value);
      forall b, d | b in r.artifacts && MadeFrom(r, j, b, d) ensures d == found.value {
        SoleCandidate(r, j, a, found.value, b, d);
      }
      assert !Lacks(r, j);
    }
  }

  /** The body of the run loop. */
  method ScanRun(r: Run) returns (ok: bool, candidates: seq<Candidate>, missing: seq<Key>)
    ensures ok <==> RunOk(r)
    ensures ok ==> Contributes(r, r.jobs, candidates, missing)
  {
    candidates, missing := [], [];
    if !r.identityValid || r.id < 1 || r.number < 1 || r.latest < 1 {
      return false, [], [];
    }
    var jobsOk := CheckJobs(r);
    if !jobsOk {
      return false, [], [];
    }
    for i := 0 to |r.jobs|
      invariant forall k :: 0 <= k < i && Successful(r.jobs[k]) ==> Textual(r) && ScanOk(r, r.jobs[k])
      invariant Contributes(r, r.jobs[..i], candidates, missing)
    {
      var j := r.jobs[i];
      assert j in r.jobs;
      assert r.jobs[..i + 1] == r.jobs[..i] + [j];
      if Successful(j) {
        if !Textual(r) {
          return false, [], [];
        }
        var found := ScanJob(r, j);
        if found.Failed? {
          return false, [], [];
        }
        ContributesMore(r, r.jobs[..i], j, candidates, missing, found.value);
        if found.value.Some? {
          candidates := candidates + [found.value.value];
        } else {
          missing := missing + [Key(r.number, j.attempt)];
        }
      } else {
        ContributesMore(r, r.jobs[..i], j, candidates, missing, None);
      }
    }
    assert r.jobs[..|r.jobs|] == r.jobs;
    ok := true;
  }

  /** The run loop: every indexed and every lost reservation, or an error. */
  method Collect(runs: seq<Run>) returns (ok: bool, candidates: seq<Candidate>, missing: seq<Key>)
    ensures ok <==> RunsOk(runs)
    ensures ok ==> forall c :: c in candidates <==> IsCandidate(runs, c)
    ensures ok ==> forall k :: k in missing <==> IsMissing(runs, k)
  {
    candidates, missing := [], [];
    var numbers: set<int> := {};
    for i := 0 to |runs|
      invariant forall k :: 0 <= k < i ==> RunOk(runs[k])
      invariant UniqueNumbers(runs[..i])
      invariant forall n :: n in numbers <==> exists k :: 0 <= k < i && runs[k].number == n
      invariant forall c :: c in candidates <==> IsCandidate(runs[..i], c)
      invariant forall k :: k in missing <==> IsMissing(runs[..i], k)
    {
      var r := runs[i];
      assert r in runs;
      var valid, more, lost := ScanRun(r);
      if !valid || r.number in numbers {
        return false, [], [];
      }
      CollectMore(runs[..i], r, candidates, missing, more, lost);
      assert runs[..i + 1] == runs[..i] + [r];
      numbers := numbers + {r.number};
      candidates, missing := candidates + more, missing + lost;
    }
    assert runs[..|runs|] == runs;
    ok := true;
  }

  lemma CollectMore(runs: seq<Run>, r: Run, candidates: seq<Candidate>, missing: seq<Key>,
                    more: seq<Candidate>, lost: seq<Key>)
    requires forall c :: c in candidates <==> IsCandidate(runs, c)
    requires forall k :: k in missing <==> IsMissing(runs, k)
    requires Contributes(r, r.jobs, more, lost)
    ensures forall c :: c in candidates + more <==> IsCandidate(runs + [r], c)
    ensures forall k :: k in missing + lost <==> IsMissing(runs + [r], k)
  {
    var all := runs + [r];
    assert forall x :: x in all <==> x in runs || x == r;
    forall c ensures c in candidates + more <==> IsCandidate(all, c) {
      if IsCandidate(all, c) {
        var x, j, a :| x in all && j in x.jobs && a in x.artifacts && Successful(j) && MadeFrom(x, j, a, c);
        assert x in runs ==> IsCandidate(runs, c);
      }
    }
    forall k ensures k in missing + lost <==> IsMissing(all, k) {
      if IsMissing(all, k) {
        var x, j :| x in all && j in x.jobs && Lacks(x, j) && k == Key(x.number, j.attempt);
        assert x in runs ==> IsMissing(runs, k);
      }
    }
  }

  predicate Ascending<T>(s: seq<T>, key: T -> Key) {
    forall i, j :: 0 <= i < j < |s| ==> AtOrBefore(key(s[i]), key(s[j]))
  }

  /** `Array.prototype.sort` with the key comparison. */
  method SortByKey<T(==)>(xs: seq<T>, key: T -> Key) returns (s: seq<T>)
    ensures Ascending(s, key) && |s| == |xs|
    ensures forall x :: x in s <==> x in xs
  {
    s := [];
    for i := 0 to |xs|
      invariant Ascending(s, key) && |s| == i
      invariant forall x :: x in s <==> x in xs[..i]
    {
      var p := |s|;
      while p > 0 && Before(key(xs[i]), key(s[p - 1]))
        invariant 0 <= p <= |s|
        invariant forall k :: p <= k < |s| ==> Before(key(xs[i]), key(s[k]))
      {
        p := p - 1;
      }
      ghost var before := s;
      s := s[..p] + [xs[i]] + s[p..];
      assert forall x :: x in s <==> x in before || x == xs[i] by {
        assert before == before[..p] + before[p..];
      }
      assert xs[..i + 1] == xs[..i] + [xs[i]];
    }
    assert xs[..|xs|] == xs;
  }

  /** Reads the copies in order and stops at the first that still exists. */
  method ReadFirstCopy(sorted: seq<Candidate>, w: World) returns (r: Result<Acquisition>, ghost read: Option<Candidate>)
    requires sorted != []
    ensures read.None? ==> r.Failed? && forall c :: c in sorted && !c.expired ==> w.download(c.artifactId) == Gone
    ensures read.Some? ==>
              && read.value in sorted && !read.value.expired && w.download(read.value.artifactId) != Gone
              && r == (if Intact(w, read.value)
                       then Ok(Acquisition(w.download(read.value.artifactId).payload.value, read.value, sorted[0]))
                       else Failed)
    ensures read.Some? && Ascending(sorted, (c: Candidate) => c.key) ==>
              forall c :: c in sorted && !c.expired && w.download(c.artifactId) != Gone ==>
                  AtOrBefore(read.value.key, c.key)
  {
    for i := 0 to |sorted|
      invariant forall k :: 0 <= k < i && !sorted[k].expired ==> w.download(sorted[k].artifactId) == Gone
    {
      var c := sorted[i];
      if !c.expired {
        var d := w.download(c.artifactId);
        if !d.Gone? {
          read := Some(c);
          if Intact(w, c) {
            r := Ok(Acquisition(d.payload.value, c, sorted[0]));
          } else {
            r := Failed;
          }
          return;
        }
      }
    }
    r, read := Failed, None;
  }

  /** `recoverActions`. */
  method RecoverActions(runs: seq<Run>, w: World) returns (r: Result<Option<Acquisition>>)
    ensures IsVerdict(runs, w, r)
  {
    var ok, candidates, missing := Collect(runs);
    if !ok {
      return Failed;
    }
    var byKey := (c: Candidate) => c.key;
    var sorted := SortByKey(candidates, byKey);
    var lost := SortByKey(missing, (k: Key) => k);
    if lost != [] && (sorted == [] || AtOrBefore(lost[0], sorted[0].key)) {
      assert IsMissing(runs, lost[0]);
      assert forall c :: IsCandidate(runs, c) ==> AtOrBefore(lost[0], c.key);
      return Failed;
    }
    NotLost(runs, sorted, lost);
    if sorted == [] {
      return Ok(None);
    }
    assert sorted[0] in sorted;
    assert IsCandidate(runs, sorted[0]);
    r := Decide(runs, sorted, w);
  }

  /** The tail of `recoverActions`, once there is an indexed reservation. */
  method Decide(ghost runs: seq<Run>, sorted: seq<Candidate>, w: World) returns (r: Result<Option<Acquisition>>)
    requires sorted != [] && Ascending(sorted, (c: Candidate) => c.key)
    requires forall c :: c in sorted <==> IsCandidate(runs, c)
    ensures IsCopyVerdict(runs, w, r)
  {
    assert sorted[0] in sorted;
    for i := 0 to |sorted|
      invariant forall k :: 0 <= k < i ==> sorted[k].payload == sorted[0].payload
    {
      if sorted[i].payload != sorted[0].payload {
        assert sorted[i] in sorted;
        assert IsCandidate(runs, sorted[i]) && IsCandidate(runs, sorted[0]);
        return Failed;
      }
    }
    assert !Mixed(runs);
    var copy, read := ReadFirstCopy(sorted, w);
    if read.Some? {
      assert FirstAvailable(runs, w, read.value) by {
        assert Available(runs, w, read.value);
      }
      assert FirstIndexed(runs, sorted[0]) by {
        assert IsCandidate(runs, sorted[0]);
      }
    }
    r := if copy.Ok? then Ok(Some(copy.value)) else Failed;
  }

  lemma NotLost(runs: seq<Run>, sorted: seq<Candidate>, lost: seq<Key>)
    requires forall c :: c in sorted <==> IsCandidate(runs, c)
    requires forall k :: k in lost <==> IsMissing(runs, k)
    requires Ascending(lost, (k: Key) => k)
    requires lost == [] || (sorted != [] && !AtOrBefore(lost[0], sorted[0].key))
    ensures !OriginalLost(runs)
  {
    if sorted != [] {
      assert sorted[0] in sorted;
    }
  }
}
