/** When `auditCanaryPublication` answers and what: over the owners of the channel and the listed releases,
    independent of the order in which the audit looks at them. */
module PublicationDecision {
  import opened Prelude
  import opened CanarySource
  import opened PublicationAudit

  // ---- Published releases ----------------------------------------------------------------------------------

  /** The tag of this canary version names this commit, which the version ends with. */
  predicate Tagged(x: Services, version: Version, sha: Sha) {
    && x.prefix(version).Some? && x.tag(version) == Found(sha)
    && FullSha(sha) && x.startsWith(sha, x.prefix(version).value)
  }

  /** A release that can be trusted: proper, its tag readable, its source of known standing, and not a second
      version of the selected source. */
  ghost predicate Trusted(x: Services, sha: Sha, version: Version, release: Listed)
    requires release.Listed?
  {
    && Positive(release.id) && release.proper
    && exists s :: && Tagged(x, release.version, s) && (s == sha ==> release.version == version)
                   && (s == sha || x.compare(s, sha) in {Ahead, Behind, Diverged})
  }

  predicate Watched(releases: seq<Listed>, k: int) {
    0 <= k < |releases| && releases[k].Listed? && releases[k].watched
  }

  /** Everything is readable, every watched release is trusted and none shares its id or version. */
  ghost predicate Sound(x: Services, sha: Sha, version: Version, releases: seq<Listed>) {
    && (forall k :: 0 <= k < |releases| ==> releases[k].Listed?)
    && (forall k :: Watched(releases, k) ==> Trusted(x, sha, version, releases[k]))
    && (forall j, k :: Watched(releases, j) && Watched(releases, k) && j != k ==>
          releases[j].id != releases[k].id && releases[j].version != releases[k].version)
  }

  /** The selected source is or descends from the source of every watched release. */
  ghost predicate AboveReleases(x: Services, sha: Sha, releases: seq<Listed>) {
    forall k, s :: Watched(releases, k) && Tagged(x, releases[k].version, s) ==> s == sha || x.compare(s, sha) == Ahead
  }

  lemma InspectTrusts(x: Services, sha: Sha, version: Version, release: Listed)
    requires release.Listed?
    ensures Inspect(x, sha, version, release).Ok? <==> Trusted(x, sha, version, release)
  {
    if Trusted(x, sha, version, release) {
      var s :| && Tagged(x, release.version, s) && (s == sha ==> release.version == version)
               && (s == sha || x.compare(s, sha) in {Ahead, Behind, Diverged});
      assert TagSource(x, release.version, false) == Ok(Some(s));
    } else if Inspect(x, sha, version, release).Ok? {
      assert Tagged(x, release.version, Inspect(x, sha, version, release).value.sha);
    }
  }

  /** No watched release of the list has been seen. */
  ghost predicate Unseen(releases: seq<Listed>, seen: seq<Published>) {
    forall k :: Watched(releases, k) ==> releases[k].id !in Ids(seen) && releases[k].version !in Tags(seen)
  }

  lemma SoundTail(x: Services, sha: Sha, version: Version, releases: seq<Listed>, seen: seq<Published>,
                  more: seq<Published>)
    requires releases != [] && releases[0].Listed?
    requires releases[0].watched ==> Trusted(x, sha, version, releases[0])
    requires releases[0].watched ==>
               && releases[0].id !in Ids(seen) && releases[0].version !in Tags(seen)
               && Ids(more) == Ids(seen) + {releases[0].id} && Tags(more) == Tags(seen) + {releases[0].version}
    requires !releases[0].watched ==> more == seen
    ensures Sound(x, sha, version, releases) && Unseen(releases, seen) <==>
            Sound(x, sha, version, releases[1..]) && Unseen(releases[1..], more)
  {
    var rest := releases[1..];
    assert forall k :: Watched(rest, k) ==> Watched(releases, k + 1);
    assert forall k :: Watched(releases, k) && k > 0 ==> Watched(rest, k - 1) && releases[k] == rest[k - 1];
    assert forall k :: 0 < k < |releases| ==> releases[k] == rest[k - 1];
  }

  /** The listing is accepted exactly when it is sound. */
  lemma {:induction false} InspectIsExact(x: Services, sha: Sha, version: Version, releases: seq<Listed>,
                                          seen: seq<Published>)
    ensures InspectFrom(x, sha, version, releases, seen).Ok? <==>
            Sound(x, sha, version, releases) && Unseen(releases, seen)
    decreases |releases|
  {
    if releases != [] && releases[0].Listed? {
      var first := releases[0];
      assert Watched(releases, 0) <==> first.watched;
      InspectTrusts(x, sha, version, first);
      if !first.watched {
        SoundTail(x, sha, version, releases, seen, seen);
        InspectIsExact(x, sha, version, releases[1..], seen);
      } else if Inspect(x, sha, version, first).Ok? && first.id !in Ids(seen) && first.version !in Tags(seen) {
        var more := seen + [Inspect(x, sha, version, first).value];
        SeenGrows(seen, Inspect(x, sha, version, first).value);
        SoundTail(x, sha, version, releases, seen, more);
        InspectIsExact(x, sha, version, releases[1..], more);
      }
    }
  }

  lemma NoneAheadGrows(seen: seq<Published>, p: Published)
    ensures NoneAhead(seen + [p]) <==> NoneAhead(seen) && (p.standing.Selected? || p.standing.Ancestor?)
  {
    var more := seen + [p];
    assert more[|seen|] == p;
    assert forall i :: 0 <= i < |seen| ==> seen[i] == more[i];
  }

  lemma {:induction false} InspectOrders(x: Services, sha: Sha, version: Version, releases: seq<Listed>,
                                         seen: seq<Published>)
    requires InspectFrom(x, sha, version, releases, seen).Ok?
    ensures NoneAhead(InspectFrom(x, sha, version, releases, seen).value) <==>
            NoneAhead(seen) && AboveReleases(x, sha, releases)
    decreases |releases|
  {
    if releases != [] {
      var first, rest := releases[0], releases[1..];
      assert Watched(releases, 0) <==> first.watched;
      assert forall k :: Watched(rest, k) ==> Watched(releases, k + 1) && releases[k + 1] == rest[k];
      assert forall k :: Watched(releases, k) && k > 0 ==> Watched(rest, k - 1) && releases[k] == rest[k - 1];
      if first.watched {
        var p := Inspect(x, sha, version, first).value;
        assert Tagged(x, first.version, p.sha);
        NoneAheadGrows(seen, p);
        InspectOrders(x, sha, version, rest, seen + [p]);
      } else {
        InspectOrders(x, sha, version, rest, seen);
      }
    }
  }

  // ---- Channel owners --------------------------------------------------------------------------------------

  /** The tag of a package may move to, or stay at, the selected version. */
  predicate MayMove(x: Services, m: Manifest, owner: Owner) {
    || owner.NoTag?
    || (&& owner.Tag? && x.prefix(owner.version).Some?
        && var source := x.commit(x.prefix(owner.version).value);
           && FullSha(source) && x.startsWith(source, x.prefix(owner.version).value)
           && (if owner.version == m.version then source == m.sha
               else source != m.sha && x.compare(source, m.sha) == Ahead))
  }

  predicate AboveOwners(x: Services, m: Manifest, owners: Owners) {
    && FullSha(m.sha) && m.clean && owners.Keys == (set name | name in NAMES)
    && forall name :: name in owners ==> MayMove(x, m, owners[name])
  }

  predicate Ascending(s: seq<nat>) { forall i, j :: 0 <= i < j < |s| ==> s[i] < s[j] }

  lemma {:induction false} PlanIsExact(x: Services, m: Manifest, owners: Owners, names: seq<nat>, plan: Plan)
    requires forall i :: 0 <= i < |names| ==> names[i] in owners && OwnerReadable(x, owners[names[i]])
    ensures PlanFrom(x, m, owners, names, plan).Ok? <==>
            forall i :: 0 <= i < |names| ==> MayMove(x, m, owners[names[i]])
    decreases |names|
  {
    if names != [] && Moves(x, m, owners[names[0]]).Ok? {
      var rest := names[1..];
      assert forall i :: 0 < i < |names| ==> names[i] == rest[i - 1];
      PlanIsExact(x, m, owners, rest,
                  if Moves(x, m, owners[names[0]]).value then plan.(updates := plan.updates + [names[0]])
                  else plan.(kept := plan.kept + [names[0]]));
    }
  }

  /** The updates: the packages whose tag the selected version does not own, each once and in order. */
  lemma {:induction false} PlanLists(x: Services, m: Manifest, owners: Owners, names: seq<nat>, plan: Plan)
    requires forall i :: 0 <= i < |names| ==> names[i] in owners && OwnerReadable(x, owners[names[i]])
    requires PlanFrom(x, m, owners, names, plan).Ok? && Ascending(plan.updates + names)
    ensures Ascending(PlanFrom(x, m, owners, names, plan).value.updates)
    ensures forall name :: name in PlanFrom(x, m, owners, names, plan).value.updates <==>
              name in plan.updates || (name in names && owners[name] != Tag(m.version))
    decreases |names|
  {
    if names == [] {
      assert plan.updates + names == plan.updates;
    } else {
      var rest, next := names[1..], plan.updates + [names[0]];
      var all := plan.updates + names;
      assert names == [names[0]] + rest && all == next + rest;
      if Moves(x, m, owners[names[0]]).value {
        PlanLists(x, m, owners, rest, plan.(updates := next));
      } else {
        DropMiddle(plan.updates, names[0], rest);
        PlanLists(x, m, owners, rest, plan.(kept := plan.kept + [names[0]]));
      }
    }
  }

  lemma DropMiddle(s: seq<nat>, x: nat, t: seq<nat>)
    requires Ascending(s + [x] + t)
    ensures Ascending(s + t)
  {
    var all := s + [x] + t;
    forall i, j | 0 <= i < j < |s + t| ensures (s + t)[i] < (s + t)[j] {
      var i', j' := if i < |s| then i else i + 1, if j < |s| then j else j + 1;
      assert (s + t)[i] == all[i'] && (s + t)[j] == all[j'];
    }
  }

  lemma TagsMayMove(x: Services, m: Manifest, owners: Owners)
    ensures PlanTags(x, m, owners).Ok? <==> AboveOwners(x, m, owners)
  {
    if FullSha(m.sha) && m.clean && OwnersReadable(x, owners) {
      PlanIsExact(x, m, owners, NAMES, Plan([], []));
      assert forall name :: name in owners ==> name in NAMES;
    }
  }

  // ---- The npm receipt -------------------------------------------------------------------------------------

  function Elements(s: seq<nat>): set<nat> { set x | x in s }

  predicate Distinct(s: seq<nat>) { forall i, j :: 0 <= i < j < |s| ==> s[i] != s[j] }

  lemma {:induction false} SetOfDistinct(s: seq<nat>)
    requires Distinct(s)
    ensures |Elements(s)| == |s|
  {
    if s == [] {
      assert Elements(s) == {};
    } else {
      var rest := s[1..];
      SetOfDistinct(rest);
      assert s == [s[0]] + rest && s[0] !in rest;
      assert Elements(s) == {s[0]} + Elements(rest);
    }
  }

  lemma SameSet(a: set<nat>, b: set<nat>)
    requires a <= b
    ensures a == b <==> |a| == |b|
  {
    assert |b - a| == |b| - |a|;
  }

  /** As many, all different and all known: that is each of the known ones once. */
  lemma CountIsCover(all: seq<nat>, names: seq<nat>)
    requires Distinct(all) && Distinct(names) && forall v :: v in all ==> v in names
    ensures |all| == |names| <==> forall v :: v in names ==> v in all
  {
    SetOfDistinct(all);
    SetOfDistinct(names);
    SameSet(Elements(all), Elements(names));
    assert forall v :: v in Elements(all) <==> v in all;
    assert forall v :: v in Elements(names) <==> v in names;
  }

  /** Each of the seven packages is present or missing, once and not both, and nothing else is. */
  ghost predicate Accounts(npm: Npm) {
    var all := npm.present + npm.missing;
    Distinct(all) && forall v :: v in all <==> v in NAMES
  }

  lemma ReceiptIsExact(npm: Npm)
    ensures ReceiptOk(npm) <==> Accounts(npm)
  {
    var all := npm.present + npm.missing;
    if Distinct(all) && forall v :: v in all ==> v in NAMES {
      CountIsCover(all, NAMES);
    }
  }

  // ---- The decision ----------------------------------------------------------------------------------------

  /** The audit may decide at all. */
  ghost predicate Admissible(x: Services, m: Manifest, expected: (Sha, Version), a: Answers) {
    && !a.origin.Invalid? && expected == (m.sha, m.version) && a.npm.Ok? && a.github.Ok?
    && Accounts(a.npm.value)
    && (a.origin.Ci? ==> x.tag(m.version) == NotFound && a.npm.value.present == [] && a.github.value.Absent?)
    && Sound(x, m.sha, m.version, a.releases)
  }

  /** Every package and the release of the version are out. */
  predicate Finished(a: Answers)
    requires a.npm.Ok? && a.github.Ok?
  {
    a.npm.value.missing == [] && a.github.value.Complete?
  }

  /** The source of this version is a strict descendant of the selected one. */
  ghost predicate Newer(x: Services, m: Manifest, version: Version) {
    exists s :: Tagged(x, version, s) && s != m.sha && x.compare(m.sha, s) == Ahead
  }

  /** This version has no tag yet, or its source is a strict ancestor of the selected one. */
  ghost predicate Older(x: Services, m: Manifest, version: Version) {
    || (x.prefix(version).Some? && x.tag(version) == NotFound)
    || exists s :: Tagged(x, version, s) && s != m.sha && x.compare(m.sha, s) == Behind
  }

  /** Publish, and exactly what is missing, if that moves no owner and no release backwards or across. */
  ghost predicate Publishes(x: Services, m: Manifest, a: Answers, r: Result<Audit>)
    requires a.npm.Ok? && a.github.Ok?
  {
    if !AboveOwners(x, m, a.npm.value.owners) || !AboveReleases(x, m.sha, a.releases) then r.Failed?
    else
      && r.Ok? && r.value.Publish? && r.value.packages == a.npm.value.missing
      && Ascending(r.value.tags)
      && (forall name :: name in r.value.tags <==> name in NAMES && a.npm.value.owners[name] != Tag(m.version))
      && r.value.github == !a.github.value.Complete?
      && (r.value.reason == TagRecovery <==> Finished(a))
      && (r.value.reason == NewPublication <==> a.npm.value.present == [] && a.github.value.Absent?)
      && r.value.reason in {TagRecovery, NewPublication, PartialPublication}
  }

  /** The one decision for each case: nothing to do, superseded, or what is to be published. */
  ghost predicate Decided(x: Services, m: Manifest, a: Answers, r: Result<Audit>)
    requires a.npm.Ok? && a.github.Ok?
  {
    var owners := a.npm.value.owners;
    && (Finished(a) && OwnedBy(owners, m.version) ==> r == Ok(Noop(AlreadyComplete)))
    && (forall v :: Finished(a) && v != m.version && OwnedBy(owners, v) ==>
          if Newer(x, m, v) then r == Ok(Noop(Superseded(v)))
          else if Older(x, m, v) then Publishes(x, m, a, r) else r.Failed?)
    && (!Finished(a) || (forall v :: !OwnedBy(owners, v)) ==> Publishes(x, m, a, r))
  }

  ghost predicate IsDecision(x: Services, m: Manifest, expected: (Sha, Version), a: Answers, r: Result<Audit>) {
    if Admissible(x, m, expected, a) then Decided(x, m, a, r) else r.Failed?
  }

  lemma OvertakenIsExact(x: Services, m: Manifest, owner: Version)
    ensures Overtaken(x, m, owner) == Ok(true) <==> Newer(x, m, owner)
    ensures Overtaken(x, m, owner) == Ok(false) <==> Older(x, m, owner)
  {
    var source := TagSource(x, owner, true);
    if source.Ok? && source.value.Some? {
      assert Tagged(x, owner, source.value.value);
    }
  }

  lemma NamesAscend()
    ensures Ascending([] + NAMES)
  {
    var all := [] + NAMES;
    assert forall i :: 0 <= i < |all| ==> all[i] == i;
  }

  lemma TagsListed(x: Services, m: Manifest, owners: Owners)
    requires PlanTags(x, m, owners).Ok?
    ensures Ascending(PlanTags(x, m, owners).value.updates)
    ensures forall name :: name in PlanTags(x, m, owners).value.updates <==>
              name in NAMES && name in owners && owners[name] != Tag(m.version)
  {
    NamesAscend();
    PlanLists(x, m, owners, NAMES, Plan([], []));
  }

  lemma ForwardPublishes(x: Services, m: Manifest, a: Answers, published: seq<Published>)
    requires a.npm.Ok? && a.github.Ok?
    requires NoneAhead(published) <==> AboveReleases(x, m.sha, a.releases)
    ensures Publishes(x, m, a, Forward(x, m, a.npm.value, a.github.value, published))
  {
    var owners := a.npm.value.owners;
    TagsMayMove(x, m, owners);
    if PlanTags(x, m, owners).Ok? {
      TagsListed(x, m, owners);
    }
  }

  lemma FirstOwner(owners: Owners, v: Version)
    requires OwnedBy(owners, v)
    ensures NAMES[0] in owners && owners[NAMES[0]] == Tag(v)
  {
    var i := 0;
    assert NAMES[i] in owners;
  }

  lemma DecideIsExact(x: Services, m: Manifest, a: Answers, published: seq<Published>, r: Result<Audit>)
    requires a.npm.Ok? && a.github.Ok? && r == Decide(x, m, a.npm.value, a.github.value, published)
    requires a.npm.value.missing == [] ==> |a.npm.value.present| == |NAMES|
    requires NoneAhead(published) <==> AboveReleases(x, m.sha, a.releases)
    ensures Decided(x, m, a, r)
  {
    var npm := a.npm.value;
    ForwardPublishes(x, m, a, published);
    if NAMES[0] in npm.owners && npm.owners[NAMES[0]].Tag? {
      OvertakenIsExact(x, m, npm.owners[NAMES[0]].version);
    }
    forall v | OwnedBy(npm.owners, v) ensures NAMES[0] in npm.owners && npm.owners[NAMES[0]] == Tag(v) {
      FirstOwner(npm.owners, v);
    }
  }

  lemma FullReceipt(npm: Npm)
    requires ReceiptOk(npm) && npm.missing == []
    ensures |npm.present| == |NAMES|
  {
    assert npm.present + npm.missing == npm.present;
  }

  /** The audit answers in exactly the admissible cases, each with its one decision. */
  lemma AuditDecides(x: Services, m: Manifest, expected: (Sha, Version), a: Answers)
    ensures IsDecision(x, m, expected, a, AuditOf(x, m, expected, a))
  {
    if !a.origin.Invalid? && expected == (m.sha, m.version) && a.npm.Ok? && a.github.Ok? {
      ReceiptIsExact(a.npm.value);
      InspectIsExact(x, m.sha, m.version, a.releases, []);
      assert Unseen(a.releases, []);
      if Admissible(x, m, expected, a) {
        var published := InspectFrom(x, m.sha, m.version, a.releases, []).value;
        InspectOrders(x, m.sha, m.version, a.releases, []);
        if a.npm.value.missing == [] { FullReceipt(a.npm.value); }
        DecideIsExact(x, m, a, published, Decide(x, m, a.npm.value, a.github.value, published));
      }
    }
  }

  /** `auditCanaryPublication`. */
  method AuditCanaryPublication(x: Services, m: Manifest, expected: (Sha, Version), a: Answers)
    returns (r: Result<Audit>)
    ensures r == AuditOf(x, m, expected, a) && IsDecision(x, m, expected, a, r)
  {
    AuditDecides(x, m, expected, a);
    if a.origin.Invalid? || expected != (m.sha, m.version) || a.npm.Failed? || a.github.Failed? {
      return Failed;
    }
    if !ReceiptOk(a.npm.value) || (a.origin.Ci? && !FreshOk(x, m, a.npm.value, a.github.value)) {
      return Failed;
    }
    var published := InspectPublished(x, m.sha, m.version, a.releases);
    if published.Failed? {
      return Failed;
    }
    r := Decide(x, m, a.npm.value, a.github.value, published.value);
  }
}
