/** `auditCanaryPublication`, `inspectPublishedCanaries` and `planCanaryTagUpdates`: what is published, who
    owns the canary channel, and whether the selected source may be published over it. */
module PublicationAudit {
  import opened Prelude
  import opened CanarySource

  type Version = int

  /** The six platform packages and the wrapper. */
  const NAMES: seq<nat> := [0, 1, 2, 3, 4, 5, 6]

  /** `compare(base, head)`: how head stands to base. */
  datatype Relation = Ahead | Behind | Diverged | Identical | Unknown

  datatype TagAnswer = NotFound | Found(sha: Sha) | Broken

  /** Ancestry, tag lookups, and the form of canary versions: `prefix` is the source prefix a canonical
      canary version ends with, `None` for any other text. */
  datatype Services = Services(
    compare: (Sha, Sha) -> Relation, commit: int -> Sha, tag: Version -> TagAnswer,
    prefix: Version -> Option<int>, startsWith: (Sha, int) -> bool)

  // ---- Published releases ----------------------------------------------------------------------------------

  /** A listed release. `watched`: not a draft and tagged as a canary. `proper`: an immutable pre-release at
      its own URLs. The tag is `v` and the version. */
  datatype Listed = Unreadable | Listed(watched: bool, id: int, version: Version, proper: bool)

  datatype Standing = Selected | Ancestor | Descendant | Across

  datatype Published = Published(id: int, version: Version, sha: Sha, standing: Standing)

  /** The source of a canary tag; `Ok(None)` for a missing tag where that is allowed. */
  function TagSource(x: Services, version: Version, allowAbsent: bool): Result<Option<Sha>> {
    var prefix := x.prefix(version);
    if prefix.None? then Failed
    else
      match x.tag(version)
      case NotFound => if allowAbsent then Ok(None) else Failed
      case Found(sha) => if FullSha(sha) && x.startsWith(sha, prefix.value) then Ok(Some(sha)) else Failed
      case Broken => Failed
  }

  function StandingOf(x: Services, sha: Sha, selected: Sha): Result<Standing> {
    if sha == selected then Ok(Selected)
    else
      match x.compare(sha, selected)
      case Ahead => Ok(Ancestor)
      case Behind => Ok(Descendant)
      case Diverged => Ok(Across)
      case _ => Failed
  }

  /** One watched release. */
  function Inspect(x: Services, sha: Sha, version: Version, release: Listed): Result<Published>
    requires release.Listed?
  {
    var source := TagSource(x, release.version, false);
    if !Positive(release.id) || !release.proper || source.Failed? || source.value.None? then Failed
    else
      var s := source.value.value;
      var standing := StandingOf(x, s, sha);
      if (s == sha && release.version != version) || standing.Failed? then Failed
      else Ok(Published(release.id, release.version, s, standing.value))
  }

  function Ids(seen: seq<Published>): set<int> {
    if seen == [] then {} else Ids(seen[..|seen| - 1]) + {seen[|seen| - 1].id}
  }

  function Tags(seen: seq<Published>): set<Version> {
    if seen == [] then {} else Tags(seen[..|seen| - 1]) + {seen[|seen| - 1].version}
  }

  lemma SeenGrows(seen: seq<Published>, p: Published)
    ensures Ids(seen + [p]) == Ids(seen) + {p.id} && Tags(seen + [p]) == Tags(seen) + {p.version}
  {
    assert (seen + [p])[..|seen|] == seen;
  }

  /** The published canaries, after those already seen. */
  function InspectFrom(x: Services, sha: Sha, version: Version, releases: seq<Listed>, seen: seq<Published>):
    Result<seq<Published>>
  {
    if releases == [] then Ok(seen)
    else if releases[0].Unreadable? then Failed
    else if !releases[0].watched then InspectFrom(x, sha, version, releases[1..], seen)
    else
      var entry := Inspect(x, sha, version, releases[0]);
      if entry.Failed? || releases[0].id in Ids(seen) || releases[0].version in Tags(seen) then Failed
      else InspectFrom(x, sha, version, releases[1..], seen + [entry.value])
  }

  /** `inspectPublishedCanaries`. */
  method InspectPublished(x: Services, sha: Sha, version: Version, releases: seq<Listed>)
    returns (r: Result<seq<Published>>)
    ensures r == InspectFrom(x, sha, version, releases, [])
  {
    var seenIds: set<int> := {};
    var seenTags: set<Version> := {};
    var result: seq<Published> := [];
    assert releases[0..] == releases;
    for k := 0 to |releases|
      invariant seenIds == Ids(result) && seenTags == Tags(result)
      invariant InspectFrom(x, sha, version, releases[k..], result) == InspectFrom(x, sha, version, releases, [])
    {
      var release := releases[k];
      assert releases[k..][0] == release && releases[k..][1..] == releases[k + 1..];
      if release.Unreadable? {
        return Failed;
      }
      if release.watched {
        var entry := Inspect(x, sha, version, release);
        if entry.Failed? || release.id in seenIds || release.version in seenTags {
          return Failed;
        }
        SeenGrows(result, entry.value);
        result := result + [entry.value];
        seenIds := seenIds + {release.id};
        seenTags := seenTags + {release.version};
      }
    }
    r := Ok(result);
  }

  /** The inspection reports this release, with the source of its tag and how that stands. */
  predicate Reports(x: Services, sha: Sha, published: seq<Published>, release: Listed)
    requires release.Listed?
  {
    exists p :: && p in published && p.id == release.id && p.version == release.version
                && TagSource(x, p.version, false) == Ok(Some(p.sha)) && StandingOf(x, p.sha, sha) == Ok(p.standing)
  }

  predicate DistinctEntries(ps: seq<Published>) {
    forall i, j :: 0 <= i < j < |ps| ==> ps[i].id != ps[j].id && ps[i].version != ps[j].version
  }

  lemma {:induction false} Member(seen: seq<Published>, i: nat)
    requires i < |seen|
    ensures seen[i].id in Ids(seen) && seen[i].version in Tags(seen)
  {
    if i < |seen| - 1 { Member(seen[..|seen| - 1], i); }
  }

  lemma StayDistinct(seen: seq<Published>, p: Published)
    requires DistinctEntries(seen) && p.id !in Ids(seen) && p.version !in Tags(seen)
    ensures DistinctEntries(seen + [p])
  {
    forall i | 0 <= i < |seen|
      ensures seen[i].id != p.id && seen[i].version != p.version
    {
      Member(seen, i);
    }
  }

  lemma {:induction false} InspectKeeps(x: Services, sha: Sha, version: Version, releases: seq<Listed>,
                                        seen: seq<Published>)
    requires DistinctEntries(seen) && InspectFrom(x, sha, version, releases, seen).Ok?
    ensures seen <= InspectFrom(x, sha, version, releases, seen).value
    ensures DistinctEntries(InspectFrom(x, sha, version, releases, seen).value)
    decreases |releases|
  {
    if releases != [] {
      var more := if releases[0].watched then seen + [Inspect(x, sha, version, releases[0]).value] else seen;
      if releases[0].watched { StayDistinct(seen, Inspect(x, sha, version, releases[0]).value); }
      InspectKeeps(x, sha, version, releases[1..], more);
    }
  }

  /** Every watched release is reported, and nothing is reported twice. */
  lemma {:induction false} InspectReports(x: Services, sha: Sha, version: Version, releases: seq<Listed>,
                                          seen: seq<Published>, k: nat)
    requires DistinctEntries(seen) && InspectFrom(x, sha, version, releases, seen).Ok?
    requires k < |releases|
    ensures releases[k].Listed?
    ensures releases[k].watched ==> Reports(x, sha, InspectFrom(x, sha, version, releases, seen).value, releases[k])
    decreases |releases|
  {
    var more := if releases[0].watched then seen + [Inspect(x, sha, version, releases[0]).value] else seen;
    if releases[0].watched { StayDistinct(seen, Inspect(x, sha, version, releases[0]).value); }
    InspectKeeps(x, sha, version, releases[1..], more);
    if k == 0 {
      if releases[0].watched {
        var p := Inspect(x, sha, version, releases[0]).value;
        assert more[|seen|] == p;
        assert p in InspectFrom(x, sha, version, releases, seen).value;
      }
    } else {
      InspectReports(x, sha, version, releases[1..], more, k - 1);
    }
  }

  // ---- Channel owners --------------------------------------------------------------------------------------

  datatype Owner = NoTag | Tag(version: Version) | Garbage

  type Owners = map<nat, Owner>

  datatype Manifest = Manifest(sha: Sha, version: Version, clean: bool)

  datatype Plan = Plan(updates: seq<nat>, kept: seq<nat>)

  predicate OwnerReadable(x: Services, owner: Owner) {
    owner.NoTag? || (owner.Tag? && x.prefix(owner.version).Some?)
  }

  predicate OwnersReadable(x: Services, owners: Owners) {
    && owners.Keys == (set name | name in NAMES)
    && forall name :: name in owners ==> OwnerReadable(x, owners[name])
  }

  /** Whether a readable owner has to move to the selected version; fails where it must not. */
  function Moves(x: Services, m: Manifest, owner: Owner): Result<bool>
    requires OwnerReadable(x, owner)
  {
    if owner.NoTag? then Ok(true)
    else
      var prefix := x.prefix(owner.version).value;
      var source := x.commit(prefix);
      if !FullSha(source) || !x.startsWith(source, prefix) then Failed
      else if (owner.version == m.version) != (source == m.sha) then Failed
      else if source != m.sha && x.compare(source, m.sha) != Ahead then Failed
      else Ok(owner.version != m.version)
  }

  /** The plan for these packages, after what is planned already. */
  function PlanFrom(x: Services, m: Manifest, owners: Owners, names: seq<nat>, plan: Plan): Result<Plan>
    requires forall i :: 0 <= i < |names| ==> names[i] in owners && OwnerReadable(x, owners[names[i]])
  {
    if names == [] then Ok(plan)
    else
      var moves := Moves(x, m, owners[names[0]]);
      if moves.Failed? then Failed
      else
        PlanFrom(x, m, owners, names[1..],
                 if moves.value then plan.(updates := plan.updates + [names[0]])
                 else plan.(kept := plan.kept + [names[0]]))
  }

  function PlanTags(x: Services, m: Manifest, owners: Owners): Result<Plan> {
    if !FullSha(m.sha) || !m.clean || !OwnersReadable(x, owners) then Failed
    else PlanFrom(x, m, owners, NAMES, Plan([], []))
  }

  /** `planCanaryTagUpdates`. */
  method PlanCanaryTagUpdates(x: Services, m: Manifest, owners: Owners) returns (r: Result<Plan>)
    ensures r == PlanTags(x, m, owners)
  {
    if !FullSha(m.sha) || !m.clean || !OwnersReadable(x, owners) {
      return Failed;
    }
    r := PlanPackages(x, m, owners, NAMES);
  }

  /** The loop over the packages, with its cache of resolved prefixes. */
  method PlanPackages(x: Services, m: Manifest, owners: Owners, names: seq<nat>) returns (r: Result<Plan>)
    requires forall i :: 0 <= i < |names| ==> names[i] in owners && OwnerReadable(x, owners[names[i]])
    ensures r == PlanFrom(x, m, owners, names, Plan([], []))
  {
    var plan := Plan([], []);
    var resolved: map<int, Sha> := map[];
    assert names[0..] == names;
    for k := 0 to |names|
      invariant forall prefix :: prefix in resolved ==> resolved[prefix] == x.commit(prefix)
      invariant forall prefix :: prefix in resolved ==>
                  FullSha(resolved[prefix]) && x.startsWith(resolved[prefix], prefix)
      invariant PlanFrom(x, m, owners, names[k..], plan) == PlanFrom(x, m, owners, names, Plan([], []))
    {
      var name := names[k];
      assert names[k..][0] == name && names[k..][1..] == names[k + 1..];
      if owners[name].NoTag? {
        plan := plan.(updates := plan.updates + [name]);
      } else {
        var version := owners[name].version;
        var prefix := x.prefix(version).value;
        if prefix !in resolved {
          var commit := x.commit(prefix);
          if !FullSha(commit) || !x.startsWith(commit, prefix) {
            return Failed;
          }
          resolved := resolved[prefix := commit];
        }
        var source := resolved[prefix];
        if || (version == m.version && source != m.sha) || (source == m.sha && version != m.version)
           || (source != m.sha && x.compare(source, m.sha) != Ahead) {
          return Failed;
        }
        if version == m.version {
          plan := plan.(kept := plan.kept + [name]);
        } else {
          plan := plan.(updates := plan.updates + [name]);
        }
      }
    }
    r := Ok(plan);
  }

  /** The selected source is or descends from the owner of the channel of this package. */
  predicate Above(x: Services, m: Manifest, owner: Owner) {
    || owner.NoTag?
    || (owner.Tag? && x.prefix(owner.version).Some? &&
        var source := x.commit(x.prefix(owner.version).value);
        (owner.version == m.version && source == m.sha) || x.compare(source, m.sha) == Ahead)
  }

  lemma {:induction false} PlanIsForward(x: Services, m: Manifest, owners: Owners, names: seq<nat>, plan: Plan, k: nat)
    requires forall i :: 0 <= i < |names| ==> names[i] in owners && OwnerReadable(x, owners[names[i]])
    requires PlanFrom(x, m, owners, names, plan).Ok? && k < |names|
    ensures Above(x, m, owners[names[k]])
    decreases |names|
  {
    if k > 0 {
      var moves := Moves(x, m, owners[names[0]]);
      PlanIsForward(x, m, owners, names[1..],
                    if moves.value then plan.(updates := plan.updates + [names[0]])
                    else plan.(kept := plan.kept + [names[0]]), k - 1);
    }
  }

  // ---- The audit -------------------------------------------------------------------------------------------

  /** The verified npm state: packages found, packages missing, channel owners. */
  datatype Npm = Npm(present: seq<nat>, missing: seq<nat>, owners: Owners)

  datatype Stage = Absent | Draft | Complete

  datatype Origin = Ci | Recovered | Unstated | Invalid

  datatype Answers = Answers(npm: Result<Npm>, github: Result<Stage>, releases: seq<Listed>, origin: Origin)

  datatype Reason = AlreadyComplete | Superseded(owner: Version) | TagRecovery | PartialPublication | NewPublication

  /** No-op, or publish what is needed. */
  datatype Audit =
    | Noop(reason: Reason)
    | Publish(reason: Reason, packages: seq<nat>, tags: seq<nat>, github: bool)

  predicate ReceiptOk(npm: Npm) {
    var all := npm.present + npm.missing;
    && |all| == |NAMES| && (forall i, j :: 0 <= i < j < |all| ==> all[i] != all[j])
    && forall i :: 0 <= i < |all| ==> all[i] in NAMES
  }

  /** Fresh CI approval is for a version nothing of which is published. */
  predicate FreshOk(x: Services, m: Manifest, npm: Npm, stage: Stage) {
    x.tag(m.version).NotFound? && npm.present == [] && stage.Absent?
  }

  predicate AllComplete(npm: Npm, stage: Stage) {
    |npm.present| == |NAMES| && npm.missing == [] && stage.Complete?
  }

  predicate OwnedBy(owners: Owners, version: Version) {
    forall i :: 0 <= i < |NAMES| ==> NAMES[i] in owners && owners[NAMES[i]] == Tag(version)
  }

  /** A complete version whose channel another version owns unanimously: superseded, to be recovered
      forward (`Ok(false)`), or unproven. */
  function Overtaken(x: Services, m: Manifest, owner: Version): Result<bool> {
    var source := TagSource(x, owner, true);
    if source.Failed? then Failed
    else if source.value.None? then Ok(false)
    else if source.value.value == m.sha then Failed
    else
      match x.compare(m.sha, source.value.value)
      case Ahead => Ok(true)
      case Behind => Ok(false)
      case _ => Failed
  }

  predicate NoneAhead(published: seq<Published>) {
    forall i :: 0 <= i < |published| ==> published[i].standing.Selected? || published[i].standing.Ancestor?
  }

  /** Publishing, if neither channel would move backwards or across. */
  function Forward(x: Services, m: Manifest, npm: Npm, stage: Stage, published: seq<Published>): Result<Audit> {
    var plan := PlanTags(x, m, npm.owners);
    if plan.Failed? || !NoneAhead(published) then Failed
    else
      var reason :=
        if npm.missing == [] && stage.Complete? then TagRecovery
        else if npm.present != [] || !stage.Absent? then PartialPublication else NewPublication;
      Ok(Publish(reason, npm.missing, plan.value.updates, !stage.Complete?))
  }

  function Decide(x: Services, m: Manifest, npm: Npm, stage: Stage, published: seq<Published>): Result<Audit> {
    var first := if NAMES[0] in npm.owners then npm.owners[NAMES[0]] else NoTag;
    if AllComplete(npm, stage) && first.Tag? && OwnedBy(npm.owners, first.version) then
      if first.version == m.version then Ok(Noop(AlreadyComplete))
      else
        match Overtaken(x, m, first.version)
        case Failed => Failed
        case Ok(true) => Ok(Noop(Superseded(first.version)))
        case Ok(false) => Forward(x, m, npm, stage, published)
    else Forward(x, m, npm, stage, published)
  }

  function AuditOf(x: Services, m: Manifest, expected: (Sha, Version), a: Answers): Result<Audit> {
    if a.origin.Invalid? || expected != (m.sha, m.version) || a.npm.Failed? || a.github.Failed? then Failed
    else if !ReceiptOk(a.npm.value) then Failed
    else if a.origin.Ci? && !FreshOk(x, m, a.npm.value, a.github.value) then Failed
    else
      match InspectFrom(x, m.sha, m.version, a.releases, [])
      case Failed => Failed
      case Ok(published) => Decide(x, m, a.npm.value, a.github.value, published)
  }
}
