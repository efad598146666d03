/** `recoverActions` does not depend on the order of any listing. */
module ApprovalTheorems {
  import opened Prelude
  import opened Approval

  // ---- One answer, whatever the order --------------------------------------------------------------

  /** A key names one indexed reservation. */
  lemma KeyDetermines(runs: seq<Run>, c: Candidate, d: Candidate)
    requires RunsOk(runs) && IsCandidate(runs, c) && IsCandidate(runs, d) && c.key == d.key
    ensures c == d
  {
    var r, j, a :| r in runs && j in r.jobs && a in r.artifacts && Successful(j) && MadeFrom(r, j, a, c);
    var s, k, b :| s in runs && k in s.jobs && b in s.artifacts && Successful(k) && MadeFrom(s, k, b, d);
    SameRun(runs, r, s);
    SameJob(r.jobs, j, k);
    assert RunOk(r);
    SoleCandidate(r, j, a, c, b, d);
  }

  lemma SameRun(runs: seq<Run>, r: Run, s: Run)
    requires UniqueNumbers(runs) && r in runs && s in runs && r.number == s.number
    ensures r == s
  {
    var x :| 0 <= x < |runs| && runs[x] == r;
    var y :| 0 <= y < |runs| && runs[y] == s;
    assert x == y;
  }

  lemma SameJob(jobs: seq<Job>, j: Job, k: Job)
    requires UniqueAttempts(jobs) && j in jobs && k in jobs && j.named && k.named && j.attempt == k.attempt
    ensures j == k
  {
    var p :| 0 <= p < |jobs| && jobs[p] == j;
    var q :| 0 <= q < |jobs| && jobs[q] == k;
    assert p == q;
  }

  lemma VerdictUnique(runs: seq<Run>, w: World, r: Result<Option<Acquisition>>, s: Result<Option<Acquisition>>)
    requires IsVerdict(runs, w, r) && IsVerdict(runs, w, s)
    ensures r == s
  {
    if RunsOk(runs) {
      forall c, d | FirstAvailable(runs, w, c) && FirstAvailable(runs, w, d) ensures c == d {
        KeyDetermines(runs, c, d);
      }
      forall c, d | FirstIndexed(runs, c) && FirstIndexed(runs, d) ensures c == d {
        KeyDetermines(runs, c, d);
      }
    }
  }

  /** Two elements in different positions of `s`, or one that `s` holds twice. */
  lemma {:induction false} TwicePresent<T>(s: seq<T>, x: T)
    requires multiset(s)[x] >= 2
    ensures exists i, j :: 0 <= i < j < |s| && s[i] == x && s[j] == x
  {
    var rest, last := s[..|s| - 1], s[|s| - 1];
    assert s == rest + [last];
    if last == x {
      assert x in multiset(rest);
      var i :| 0 <= i < |rest| && rest[i] == x;
      assert s[i] == x && s[|s| - 1] == x;
    } else {
      TwicePresent(rest, x);
      var i, j :| 0 <= i < j < |rest| && rest[i] == x && rest[j] == x;
      assert s[i] == x && s[j] == x;
    }
  }

  lemma HeldTwice<T>(s: seq<T>, i: nat, j: nat)
    requires i < j < |s| && s[i] == s[j]
    ensures multiset(s)[s[i]] >= 2
  {
    assert s == s[..i] + [s[i]] + s[i + 1..j] + [s[j]] + s[j + 1..];
  }

  /** A clash between two positions survives every reordering. */
  lemma ClashSurvives<T(!new)>(s: seq<T>, t: seq<T>, clash: (T, T) -> bool)
    requires multiset(s) == multiset(t)
    requires forall x, y :: clash(x, y) == clash(y, x)
    requires exists i, j :: 0 <= i < j < |t| && clash(t[i], t[j])
    ensures exists i, j :: 0 <= i < j < |s| && clash(s[i], s[j])
  {
    var i, j :| 0 <= i < j < |t| && clash(t[i], t[j]);
    if t[i] == t[j] {
      HeldTwice(t, i, j);
      TwicePresent(s, t[i]);
      var a, b :| 0 <= a < b < |s| && s[a] == t[i] && s[b] == t[i];
      assert clash(s[a], s[b]);
    } else {
      assert t[i] in multiset(s) && t[j] in multiset(s);
      var a :| 0 <= a < |s| && s[a] == t[i];
      var b :| 0 <= b < |s| && s[b] == t[j];
      if a < b {
        assert clash(s[a], s[b]);
      } else {
        assert clash(s[b], s[a]);
      }
    }
  }

  /** A run without the order of its jobs and artifacts. */
  datatype Unordered = Unordered(
    identityValid: bool, id: int, number: int, latest: int, headSha: Sha,
    jobs: multiset<Job>, artifacts: multiset<Artifact>, attemptsValid: set<int>)

  function Forget(r: Run): Unordered {
    Unordered(r.identityValid, r.id, r.number, r.latest, r.headSha, multiset(r.jobs), multiset(r.artifacts),
              r.attemptsValid)
  }

  function ForgetAll(runs: seq<Run>): (u: seq<Unordered>)
    ensures |u| == |runs| && forall i :: 0 <= i < |u| ==> u[i] == Forget(runs[i])
  {
    if runs == [] then [] else [Forget(runs[0])] + ForgetAll(runs[1..])
  }

  /** The same runs, with runs, jobs and artifacts listed in any order. */
  predicate SameListing(runs: seq<Run>, others: seq<Run>) {
    multiset(ForgetAll(runs)) == multiset(ForgetAll(others))
  }

  lemma SameMembers<T>(s: seq<T>, t: seq<T>)
    requires multiset(s) == multiset(t)
    ensures forall x :: x in s <==> x in t
  {
    forall x ensures x in s <==> x in t {
      assert x in s <==> x in multiset(s);
      assert x in t <==> x in multiset(t);
    }
  }

  lemma JobsReordered(r: Run, s: Run)
    requires Forget(r) == Forget(s) && UniqueAttempts(r.jobs)
    ensures UniqueAttempts(s.jobs)
  {
    var clash := (a: Job, b: Job) => a.named && b.named && a.attempt == b.attempt;
    if !UniqueAttempts(s.jobs) {
      var i, j :| 0 <= i < j < |s.jobs| && s.jobs[i].named && s.jobs[j].named && s.jobs[i].attempt == s.jobs[j].attempt;
      assert clash(s.jobs[i], s.jobs[j]);
      ClashSurvives(r.jobs, s.jobs, clash);
      assert false;
    }
  }

  lemma ArtifactsReordered(r: Run, s: Run, attempt: int)
    requires Forget(r) == Forget(s) && SoleBound(r.artifacts, attempt)
    ensures SoleBound(s.artifacts, attempt)
  {
    var clash := (a: Artifact, b: Artifact) => BoundTo(a, attempt) && BoundTo(b, attempt);
    if !SoleBound(s.artifacts, attempt) {
      var i, j :| 0 <= i < j < |s.artifacts| && BoundTo(s.artifacts[i], attempt) && BoundTo(s.artifacts[j], attempt);
      assert clash(s.artifacts[i], s.artifacts[j]);
      ClashSurvives(r.artifacts, s.artifacts, clash);
      assert false;
    }
  }

  lemma RunReordered(r: Run, s: Run)
    requires Forget(r) == Forget(s) && RunOk(r)
    ensures RunOk(s)
  {
    SameMembers(r.jobs, s.jobs);
    SameMembers(r.artifacts, s.artifacts);
    JobsReordered(r, s);
    forall j | j in s.jobs && Successful(j) ensures Textual(s) && ScanOk(s, j) {
      assert j in r.jobs;
      ArtifactsReordered(r, s, j.attempt);
      forall a | a in s.artifacts ensures ArtifactOk(s, j, a) {
        assert ArtifactOk(r, j, a);
      }
    }
  }

  lemma Counterpart(runs: seq<Run>, others: seq<Run>, r: Run) returns (s: Run)
    requires SameListing(runs, others) && r in runs
    ensures s in others && Forget(s) == Forget(r)
  {
    var i :| 0 <= i < |runs| && runs[i] == r;
    assert ForgetAll(runs)[i] in multiset(ForgetAll(others));
    var k :| 0 <= k < |others| && ForgetAll(others)[k] == Forget(r);
    s := others[k];
  }

  predicate SameNumber(a: Unordered, b: Unordered) { a.number == b.number }

  lemma NumberClashSurvives(us: seq<Unordered>, vs: seq<Unordered>, i: nat, j: nat)
    requires multiset(us) == multiset(vs) && i < j < |vs| && SameNumber(vs[i], vs[j])
    ensures exists a, b :: 0 <= a < b < |us| && SameNumber(us[a], us[b])
  {
    ClashSurvives(us, vs, SameNumber);
  }

  lemma NumbersReordered(runs: seq<Run>, others: seq<Run>)
    requires SameListing(runs, others) && UniqueNumbers(runs)
    ensures UniqueNumbers(others)
  {
    forall i, j | 0 <= i < j < |others| ensures others[i].number != others[j].number {
      if others[i].number == others[j].number {
        NumberClashSurvives(ForgetAll(runs), ForgetAll(others), i, j);
        assert false;
      }
    }
  }

  lemma RunsReordered(runs: seq<Run>, others: seq<Run>)
    requires SameListing(runs, others) && RunsOk(runs)
    ensures RunsOk(others)
  {
    NumbersReordered(runs, others);
    forall s | s in others ensures RunOk(s) {
      var r := Counterpart(others, runs, s);
      assert RunOk(r);
      RunReordered(r, s);
    }
  }

  lemma CandidateReordered(runs: seq<Run>, others: seq<Run>, c: Candidate)
    requires SameListing(runs, others) && IsCandidate(runs, c)
    ensures IsCandidate(others, c)
  {
    var r, j, a :| r in runs && j in r.jobs && a in r.artifacts && Successful(j) && MadeFrom(r, j, a, c);
    var s := Counterpart(runs, others, r);
    SameMembers(r.jobs, s.jobs);
    SameMembers(r.artifacts, s.artifacts);
    assert MadeFrom(s, j, a, c);
  }

  lemma MissingReordered(runs: seq<Run>, others: seq<Run>, k: Key)
    requires SameListing(runs, others) && IsMissing(runs, k)
    ensures IsMissing(others, k)
  {
    var r, j :| r in runs && j in r.jobs && Lacks(r, j) && k == Key(r.number, j.attempt);
    var s := Counterpart(runs, others, r);
    SameMembers(r.jobs, s.jobs);
    SameMembers(r.artifacts, s.artifacts);
    assert Lacks(s, j);
  }

  lemma SameFacts(runs: seq<Run>, others: seq<Run>)
    requires SameListing(runs, others)
    ensures RunsOk(runs) <==> RunsOk(others)
    ensures forall c :: IsCandidate(runs, c) <==> IsCandidate(others, c)
    ensures forall k :: IsMissing(runs, k) <==> IsMissing(others, k)
  {
    if RunsOk(runs) { RunsReordered(runs, others); }
    if RunsOk(others) { RunsReordered(others, runs); }
    forall c ensures IsCandidate(runs, c) <==> IsCandidate(others, c) {
      if IsCandidate(runs, c) { CandidateReordered(runs, others, c); }
      if IsCandidate(others, c) { CandidateReordered(others, runs, c); }
    }
    forall k ensures IsMissing(runs, k) <==> IsMissing(others, k) {
      if IsMissing(runs, k) { MissingReordered(runs, others, k); }
      if IsMissing(others, k) { MissingReordered(others, runs, k); }
    }
  }

  /** Whatever order the API lists runs, jobs and artifacts in, the answer is the same. */
  lemma OrderFree(runs: seq<Run>, others: seq<Run>, w: World,
                  r: Result<Option<Acquisition>>, s: Result<Option<Acquisition>>)
    requires SameListing(runs, others) && IsVerdict(runs, w, r) && IsVerdict(others, w, s)
    ensures r == s
  {
    SameFacts(runs, others);
    VerdictTransfers(runs, others, w, s);
    VerdictUnique(runs, w, r, s);
  }

  lemma VerdictTransfers(runs: seq<Run>, others: seq<Run>, w: World, s: Result<Option<Acquisition>>)
    requires RunsOk(runs) <==> RunsOk(others)
    requires forall c :: IsCandidate(runs, c) <==> IsCandidate(others, c)
    requires forall k :: IsMissing(runs, k) <==> IsMissing(others, k)
    requires IsVerdict(others, w, s)
    ensures IsVerdict(runs, w, s)
  {
    assert OriginalLost(runs) <==> OriginalLost(others);
    if RunsOk(runs) && !OriginalLost(runs) && exists c :: IsCandidate(runs, c) {
      CopyVerdictTransfers(runs, others, w, s);
    }
  }

  lemma CopyVerdictTransfers(runs: seq<Run>, others: seq<Run>, w: World, s: Result<Option<Acquisition>>)
    requires forall c :: IsCandidate(runs, c) <==> IsCandidate(others, c)
    requires IsCopyVerdict(others, w, s)
    ensures IsCopyVerdict(runs, w, s)
  {
    assert Mixed(runs) <==> Mixed(others);
    assert forall c :: Available(runs, w, c) <==> Available(others, w, c);
    assert forall c :: FirstAvailable(runs, w, c) <==> FirstAvailable(others, w, c);
    assert forall c :: FirstIndexed(runs, c) <==> FirstIndexed(others, c);
  }

  /** What is recovered was uploaded by a successful approval job of this repository's main branch while it ran,
      is what it was, and is attested; no other approval reserves anything else. */
  lemma RecoveredIsBound(runs: seq<Run>, w: World, found: Acquisition) returns (r: Run, j: Job, a: Artifact)
    requires IsVerdict(runs, w, Ok(Some(found)))
    ensures r in runs && j in r.jobs && a in r.artifacts
    ensures r.identityValid && r.id >= 1 && r.number >= 1 && j.attempt in r.attemptsValid
    ensures j.named && j.success && 1 <= j.attempt <= r.latest && j.id >= 1 && j.runId == r.id && j.headSha == r.headSha
    ensures a.repositoryMatches && a.onMain && a.runId == r.id && a.headSha == r.headSha && a.id >= 1
    ensures j.started.Some? && j.completed.Some? && a.created.Some?
    ensures j.started.value <= a.created.value <= j.completed.value
    ensures a.name == Reserves(w.hash(found.payload), j.attempt) && a.expired == Some(false)
    ensures 1 <= a.size <= 64 * 1024 * 1024
    ensures a.digest.Some? && w.download(a.id) == Zip(a.size, a.digest.value, Some(found.payload))
    ensures w.authentic(found.payload, r.headSha)
    ensures forall c :: IsCandidate(runs, c) ==> c.payload == w.hash(found.payload)
  {
    var c, e :| FirstAvailable(runs, w, c) && FirstIndexed(runs, e) && Ok(Some(found)) == Reading(w, c, e);
    r, j, a :| r in runs && j in r.jobs && a in r.artifacts && Successful(j) && MadeFrom(r, j, a, c);
    assert RunOk(r) && ScanOk(r, j) && JobOk(r, j) && ArtifactOk(r, j, a);
  }
}
