/** `selectCanarySource`: the newest successful push run decides, or nobody does. */
module CanarySource {
  import opened Prelude

  const MAX_SAFE: int := 0x1f_ffff_ffff_ffff

  predicate Positive(n: int) { 1 <= n <= MAX_SAFE }

  /** A commit; a negative number stands for anything that is not a full lower-case hash. */
  type Sha = int

  predicate FullSha(sha: Sha) { sha >= 0 }

  /** A repository name; a negative number stands for anything not of the form owner/repository. */
  type Repository = int

  predicate RepositoryName(name: Repository) { name >= 0 }

  /** The frozen run. Its workflow path and URL follow from these. */
  datatype Source = Source(
    runId: int, runAttempt: int, runNumber: int, sha: Sha, repository: Repository, workflowId: int)

  /** A listed CI run. `standard` says that path, event, branch and URL are those of a push to main. */
  datatype CiRun =
    | Malformed
    | CiRun(succeeded: bool, runNumber: int, runId: int, runAttempt: int, sha: Sha, workflowId: int,
            repository: Repository, headRepository: Repository,
            repositoryId: int, headRepositoryId: int, standard: bool)

  predicate Candidate(run: CiRun) { run.CiRun? && run.succeeded }

  function Candidates(runs: seq<CiRun>): (r: seq<CiRun>)
    ensures forall i :: 0 <= i < |r| ==> Candidate(r[i])
  {
    if runs == [] then []
    else if Candidate(runs[0]) then [runs[0]] + Candidates(runs[1..]) else Candidates(runs[1..])
  }

  predicate Numbered(runs: seq<CiRun>) {
    forall i :: 0 <= i < |runs| ==> runs[i].CiRun? && Positive(runs[i].runNumber)
  }

  predicate Falling(runs: seq<CiRun>) {
    && (forall i :: 0 <= i < |runs| ==> Candidate(runs[i]))
    && forall i, j :: 0 <= i < j < |runs| ==> runs[i].runNumber >= runs[j].runNumber
  }

  function Insert(run: CiRun, ranked: seq<CiRun>): (r: seq<CiRun>)
    requires Candidate(run) && Falling(ranked)
    ensures Falling(r) && multiset(r) == multiset(ranked) + multiset{run}
    ensures |r| > 0 && (r[0] == run || (ranked != [] && r[0] == ranked[0]))
  {
    if ranked == [] || ranked[0].runNumber <= run.runNumber then [run] + ranked
    else
      assert ranked == [ranked[0]] + ranked[1..];
      var rest := Insert(run, ranked[1..]);
      assert rest[0].runNumber <= ranked[0].runNumber;
      [ranked[0]] + rest
  }

  /** Newest first. */
  function Ranked(runs: seq<CiRun>): (r: seq<CiRun>)
    requires forall i :: 0 <= i < |runs| ==> Candidate(runs[i])
    ensures Falling(r) && multiset(r) == multiset(runs)
  {
    if runs == [] then []
    else
      assert runs == [runs[0]] + runs[1..];
      Insert(runs[0], Ranked(runs[1..]))
  }

  /** The identity of the winner. */
  function Describe(run: CiRun, repository: Repository, workflowId: int): Result<Source> {
    if && run.CiRun? && Positive(run.runId)
       && run.repository == repository && run.headRepository == repository
       && run.workflowId == workflowId && run.standard && FullSha(run.sha) && Positive(run.runAttempt)
    then Ok(Source(run.runId, run.runAttempt, run.runNumber, run.sha, repository, workflowId))
    else Failed
  }

  function Select(runs: seq<CiRun>, repository: Repository, workflowId: int): Result<Source> {
    var candidates := Candidates(runs);
    if !RepositoryName(repository) || !Positive(workflowId) || Malformed in runs || candidates == [] then Failed
    else if !Numbered(candidates) then Failed
    else
      var ranked := Ranked(candidates);
      if |ranked| == 0 || (|ranked| > 1 && ranked[0].runNumber == ranked[1].runNumber) then Failed
      else Describe(ranked[0], repository, workflowId)
  }

  // ---- The newest run decides ------------------------------------------------------------------------------

  type Runs = multiset<CiRun>

  /** Every entry is a run and every successful one has a number. */
  predicate Readable(runs: Runs) {
    forall run :: run in runs ==> run.CiRun? && (Candidate(run) ==> Positive(run.runNumber))
  }

  /** This run succeeded, is listed once, and every other successful run is older. */
  predicate Newest(runs: Runs, run: CiRun) {
    && runs[run] == 1 && Candidate(run)
    && forall other :: other in runs && Candidate(other) && other != run ==> other.runNumber < run.runNumber
  }

  lemma {:induction false} CandidateCount(runs: seq<CiRun>, run: CiRun)
    ensures multiset(Candidates(runs))[run] == if Candidate(run) then multiset(runs)[run] else 0
  {
    if runs != [] {
      CandidateCount(runs[1..], run);
      assert runs == [runs[0]] + runs[1..];
    }
  }

  lemma RankedCount(runs: seq<CiRun>, run: CiRun)
    ensures multiset(Ranked(Candidates(runs)))[run] == if Candidate(run) then multiset(runs)[run] else 0
  {
    CandidateCount(runs, run);
  }

  lemma TwiceAt(s: seq<CiRun>, k: nat)
    requires 0 < k < |s| && s[k] == s[0]
    ensures multiset(s)[s[0]] >= 2
  {
    assert s == [s[0]] + s[1..k] + [s[k]] + s[k + 1..];
  }

  /** The newest run, if there is one, ranks first and untied. */
  lemma NewestIsFirst(runs: seq<CiRun>, run: CiRun)
    requires Newest(multiset(runs), run)
    ensures var ranked := Ranked(Candidates(runs));
            |ranked| > 0 && ranked[0] == run && (|ranked| > 1 ==> ranked[0].runNumber != ranked[1].runNumber)
  {
    var ranked := Ranked(Candidates(runs));
    RankedCount(runs, run);
    assert run in ranked;
    RankedCount(runs, ranked[0]);
    assert ranked[0] in multiset(ranked);
    assert ranked[0] == run;
    if |ranked| > 1 {
      assert ranked[1] in multiset(ranked);
      RankedCount(runs, ranked[1]);
      if ranked[1] == run { TwiceAt(ranked, 1); }
    }
  }

  lemma OnceFirst(ranked: seq<CiRun>)
    requires Falling(ranked) && |ranked| > 0 && (|ranked| > 1 ==> ranked[0].runNumber != ranked[1].runNumber)
    ensures multiset(ranked)[ranked[0]] == 1
    ensures forall run :: run in multiset(ranked) && run != ranked[0] ==> run.runNumber < ranked[0].runNumber
  {
    var rest := ranked[1..];
    assert ranked == [ranked[0]] + rest;
    assert forall i :: 0 <= i < |rest| ==> rest[i].runNumber < ranked[0].runNumber;
    assert ranked[0] !in multiset(rest);
  }

  /** A run that ranks first and untied is the newest. */
  lemma FirstIsNewest(runs: seq<CiRun>)
    requires var ranked := Ranked(Candidates(runs));
             |ranked| > 0 && (|ranked| > 1 ==> ranked[0].runNumber != ranked[1].runNumber)
    ensures Newest(multiset(runs), Ranked(Candidates(runs))[0])
  {
    var ranked := Ranked(Candidates(runs));
    OnceFirst(ranked);
    RankedCount(runs, ranked[0]);
    forall other | other in multiset(runs) && Candidate(other) && other != ranked[0]
      ensures other.runNumber < ranked[0].runNumber
    {
      RankedCount(runs, other);
    }
  }

  lemma ReadableCandidates(runs: seq<CiRun>)
    ensures Readable(multiset(runs)) <==> Malformed !in runs && Numbered(Candidates(runs))
  {
    var cs := Candidates(runs);
    assert Malformed in runs <==> Malformed in multiset(runs);
    forall i | 0 <= i < |cs|
      ensures cs[i] in multiset(runs)
    {
      assert cs[i] in multiset(cs);
      CandidateCount(runs, cs[i]);
    }
    if Numbered(cs) {
      forall run | run in multiset(runs) && Candidate(run)
        ensures Positive(run.runNumber)
      {
        CandidateCount(runs, run);
        assert run in multiset(cs);
      }
    }
  }

  /** A source is selected exactly when every listed run can be read, one successful run is newer than all
      others, and that run describes the source. An older run never stands in for it. */
  lemma SelectExactly(runs: seq<CiRun>, repository: Repository, workflowId: int, s: Source)
    ensures Select(runs, repository, workflowId) == Ok(s) <==>
            && RepositoryName(repository) && Positive(workflowId) && Readable(multiset(runs))
            && exists run :: Newest(multiset(runs), run) && Describe(run, repository, workflowId) == Ok(s)
  {
    ReadableCandidates(runs);
    var cs := Candidates(runs);
    if Select(runs, repository, workflowId) == Ok(s) { FirstIsNewest(runs); }
    if run :| Newest(multiset(runs), run) && Describe(run, repository, workflowId) == Ok(s) {
      NewestIsFirst(runs, run);
      CandidateCount(runs, run);
    }
  }

  /** The order of the listing does not matter. */
  lemma SelectForgetsOrder(a: seq<CiRun>, b: seq<CiRun>, repository: Repository, workflowId: int)
    requires multiset(a) == multiset(b)
    ensures Select(a, repository, workflowId) == Select(b, repository, workflowId)
  {
    var x, y := Select(a, repository, workflowId), Select(b, repository, workflowId);
    if x.Ok? {
      SelectExactly(a, repository, workflowId, x.value);
      SelectExactly(b, repository, workflowId, x.value);
    } else if y.Ok? {
      SelectExactly(a, repository, workflowId, y.value);
      SelectExactly(b, repository, workflowId, y.value);
    }
  }

  /** A newer successful run replaces the selection, even when it can only fail. */
  lemma NewerDecides(runs: seq<CiRun>, newer: CiRun, repository: Repository, workflowId: int)
    requires RepositoryName(repository) && Positive(workflowId) && Readable(multiset(runs))
    requires Candidate(newer) && Positive(newer.runNumber)
    requires forall run :: run in multiset(runs) && Candidate(run) ==> run.runNumber < newer.runNumber
    ensures Select(runs + [newer], repository, workflowId) == Describe(newer, repository, workflowId)
  {
    var more := runs + [newer];
    assert multiset(more) == multiset(runs) + multiset{newer};
    assert Newest(multiset(more), newer);
    ReadableCandidates(more);
    NewestIsFirst(more, newer);
    CandidateCount(more, newer);
  }
}
