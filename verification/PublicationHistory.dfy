/** The canary channel over all audits and publications. An audit and the writes it allows are one step;
    the writes may stop anywhere. */
module PublicationHistory {
  import opened Prelude
  import opened CanarySource
  import opened PublicationAudit
  import opened PublicationDecision

  // ---- What a no-op means ----------------------------------------------------------------------------------

  lemma AllPresent(npm: Npm, name: nat)
    requires ReceiptOk(npm) && |npm.present| == |NAMES| && name in NAMES
    ensures name in npm.present
  {
    ReceiptIsExact(npm);
    assert npm.present + npm.missing == npm.present;
  }

  /** A no-op means that every package of the version is there, its release is complete, and one version
      owns the channel of every package: this one, or one whose source is strictly newer. */
  lemma NoopMeansComplete(x: Services, m: Manifest, expected: (Sha, Version), a: Answers, reason: Reason)
    requires AuditOf(x, m, expected, a) == Ok(Noop(reason))
    ensures a.github == Ok(Complete) && a.npm.value.missing == []
    ensures forall name :: name in NAMES ==> name in a.npm.value.present
    ensures reason.AlreadyComplete? || reason.Superseded?
    ensures OwnedBy(a.npm.value.owners, if reason.AlreadyComplete? then m.version else reason.owner)
    ensures reason.Superseded? ==>
              exists sha :: TagSource(x, reason.owner, true) == Ok(Some(sha)) && x.compare(m.sha, sha) == Ahead
  {
    forall name | name in NAMES
      ensures name in a.npm.value.present
    {
      AllPresent(a.npm.value, name);
    }
    if reason.Superseded? {
      var sha := TagSource(x, reason.owner, true).value.value;
      assert TagSource(x, reason.owner, true) == Ok(Some(sha));
    }
  }

  /** What the plan says of each package: it is to be updated unless the selected version owns its tag. */
  lemma {:induction false} PlanSorts(x: Services, m: Manifest, owners: Owners, names: seq<nat>, plan: Plan, name: nat)
    requires forall i :: 0 <= i < |names| ==> names[i] in owners && OwnerReadable(x, owners[names[i]])
    requires PlanFrom(x, m, owners, names, plan).Ok?
    ensures var r := PlanFrom(x, m, owners, names, plan).value;
            && (name in r.updates <==> name in plan.updates || (name in names && owners[name] != Tag(m.version)))
            && (name in r.kept <==> name in plan.kept || (name in names && owners[name] == Tag(m.version)))
    decreases |names|
  {
    if names != [] {
      var moves := Moves(x, m, owners[names[0]]).value;
      assert names == [names[0]] + names[1..];
      PlanSorts(x, m, owners, names[1..],
                if moves then plan.(updates := plan.updates + [names[0]])
                else plan.(kept := plan.kept + [names[0]]), name);
    }
  }

  lemma OwnedWhenNoUpdates(x: Services, m: Manifest, owners: Owners)
    requires PlanTags(x, m, owners).Ok? && PlanTags(x, m, owners).value.updates == []
    ensures OwnedBy(owners, m.version)
  {
    forall i | 0 <= i < |NAMES|
      ensures NAMES[i] in owners && owners[NAMES[i]] == Tag(m.version)
    {
      PlanSorts(x, m, owners, NAMES, Plan([], []), NAMES[i]);
    }
  }

  /** A decision to publish says exactly what is missing, which is something: the packages not found, the
      tags this version does not own, the release if it is not complete. */
  lemma PublishIsNeeded(x: Services, m: Manifest, expected: (Sha, Version), a: Answers, name: nat)
    requires AuditOf(x, m, expected, a).Ok? && AuditOf(x, m, expected, a).value.Publish? && name in NAMES
    ensures var r := AuditOf(x, m, expected, a).value;
            && r.packages == a.npm.value.missing && (r.github <==> a.github != Ok(Complete))
            && name in a.npm.value.owners && (name in r.tags <==> a.npm.value.owners[name] != Tag(m.version))
            && (r.packages != [] || r.tags != [] || r.github)
            && (r.reason.TagRecovery? <==> r.packages == [] && !r.github)
            && (r.reason.NewPublication? <==> a.npm.value.present == [] && a.github == Ok(Absent))
  {
    var npm := a.npm.value;
    var plan := PlanTags(x, m, npm.owners).value;
    PlanSorts(x, m, npm.owners, NAMES, Plan([], []), name);
    if npm.missing == [] && a.github.value.Complete? && plan.updates == [] {
      OwnedWhenNoUpdates(x, m, npm.owners);
    }
  }

  /** Fresh CI approval never continues a version of which anything is published. */
  lemma FreshApprovalStartsClean(x: Services, m: Manifest, expected: (Sha, Version), a: Answers)
    requires AuditOf(x, m, expected, a).Ok? && a.origin.Ci?
    ensures a.npm.value.present == [] && a.github == Ok(Absent) && x.tag(m.version).NotFound?
    ensures AuditOf(x, m, expected, a).value.Publish?
    ensures AuditOf(x, m, expected, a).value.reason.NewPublication?
  {
  }

  // ---- The channel -----------------------------------------------------------------------------------------

  /** The released versions, the owners of the canary tags, every source ever published and the last one. */
  datatype World = World(releases: set<Version>, owners: Owners, ever: set<Sha>, latest: Sha)

  /** Which source each version is of, and the strict ancestry order. */
  datatype Facts = Facts(sourceOf: Version -> Sha, below: (Sha, Sha) -> bool)

  predicate AtMost(f: Facts, a: Sha, b: Sha) { a == b || f.below(a, b) }

  ghost predicate IsOrder(f: Facts) {
    forall a, b, c :: f.below(a, b) && f.below(b, c) ==> f.below(a, c)
  }

  ghost predicate TrueServices(f: Facts, x: Services, w: World) {
    && (forall a, b :: x.compare(a, b) == Ahead ==> f.below(a, b))
    && (forall v :: v in w.releases ==> x.tag(v) == Found(f.sourceOf(v)))
    && (forall v :: x.prefix(v).Some? ==> x.commit(x.prefix(v).value) == f.sourceOf(v))
  }

  predicate Shown(releases: seq<Listed>, v: Version) {
    exists i :: 0 <= i < |releases| && releases[i].Listed? && releases[i].watched && releases[i].version == v
  }

  /** The answers show every release and the owners as they are. */
  ghost predicate TrueAnswers(w: World, a: Answers) {
    && (a.npm.Ok? ==> a.npm.value.owners == w.owners)
    && forall v :: v in w.releases ==> Shown(a.releases, v)
  }

  /** One publication run: the audit of a source, and how far its writes got. */
  datatype Attempt = Attempt(x: Services, m: Manifest, expected: (Sha, Version), a: Answers,
                             moved: set<nat>, released: bool)

  ghost predicate Legal(f: Facts, w: World, t: Attempt) {
    && TrueServices(f, t.x, w) && TrueAnswers(w, t.a) && f.sourceOf(t.m.version) == t.m.sha
    && (forall name :: name in t.moved ==> name in NAMES)
    && (t.moved != {} || t.released ==> AuditOf(t.x, t.m, t.expected, t.a).Ok?
                                        && AuditOf(t.x, t.m, t.expected, t.a).value.Publish?)
  }

  function Moved(owners: Owners, moved: set<nat>, v: Version): Owners {
    map name | name in owners :: if name in moved then Tag(v) else owners[name]
  }

  function After(w: World, t: Attempt): World {
    if t.moved == {} && !t.released then w
    else World(if t.released then w.releases + {t.m.version} else w.releases, Moved(w.owners, t.moved, t.m.version),
               w.ever + {t.m.sha}, t.m.sha)
  }

  // ---- The invariant ---------------------------------------------------------------------------------------

  predicate Owns(f: Facts, w: World, name: nat, s: Sha) {
    name in w.owners && w.owners[name].Tag? && AtMost(f, s, f.sourceOf(w.owners[name].version))
  }

  /** A current release or channel owner is or descends from this source. */
  predicate Covered(f: Facts, w: World, s: Sha) {
    || (exists v :: v in w.releases && AtMost(f, s, f.sourceOf(v)))
    || (exists name :: name in w.owners && Owns(f, w, name, s))
  }

  /** Published sources are one line of descent that ends in the latest; everything published is covered. */
  ghost predicate Inv(f: Facts, w: World) {
    && (forall s :: s in w.ever ==> AtMost(f, s, w.latest) && Covered(f, w, s))
    && (forall s, t :: s in w.ever && t in w.ever ==> AtMost(f, s, t) || AtMost(f, t, s))
    && w.owners.Keys == (set name | name in NAMES)
  }

  lemma ReleasesBelow(f: Facts, w: World, t: Attempt, v: Version)
    requires Legal(f, w, t) && v in w.releases
    requires InspectFrom(t.x, t.m.sha, t.m.version, t.a.releases, []).Ok?
    requires NoneAhead(InspectFrom(t.x, t.m.sha, t.m.version, t.a.releases, []).value)
    ensures AtMost(f, f.sourceOf(v), t.m.sha)
  {
    var rs := t.a.releases;
    assert Shown(rs, v);
    var i :| 0 <= i < |rs| && rs[i].Listed? && rs[i].watched && rs[i].version == v;
    InspectReports(t.x, t.m.sha, t.m.version, rs, [], i);
    var ps := InspectFrom(t.x, t.m.sha, t.m.version, rs, []).value;
    assert Reports(t.x, t.m.sha, ps, rs[i]);
    var p :| p in ps && p.id == rs[i].id && p.version == v
      && TagSource(t.x, v, false) == Ok(Some(p.sha)) && StandingOf(t.x, p.sha, t.m.sha) == Ok(p.standing);
    assert p.sha == f.sourceOf(v);
  }

  lemma OwnersBelow(f: Facts, w: World, t: Attempt, name: nat)
    requires Legal(f, w, t) && t.a.npm.Ok? && PlanTags(t.x, t.m, w.owners).Ok?
    requires name in w.owners && w.owners[name].Tag?
    ensures AtMost(f, f.sourceOf(w.owners[name].version), t.m.sha)
  {
    assert name in NAMES;
    var k :| 0 <= k < |NAMES| && NAMES[k] == name;
    PlanIsForward(t.x, t.m, w.owners, NAMES, Plan([], []), k);
  }

  /** What may be published is or descends from everything ever published, on either channel. */
  lemma PublishedIsNewest(f: Facts, w: World, t: Attempt, s: Sha)
    requires IsOrder(f) && Inv(f, w) && Legal(f, w, t) && (t.moved != {} || t.released) && s in w.ever
    ensures AtMost(f, s, t.m.sha)
  {
    var audit := AuditOf(t.x, t.m, t.expected, t.a).value;
    assert Covered(f, w, s);
    if v :| v in w.releases && AtMost(f, s, f.sourceOf(v)) {
      ReleasesBelow(f, w, t, v);
    } else {
      var name :| name in w.owners && Owns(f, w, name, s);
      OwnersBelow(f, w, t, name);
    }
  }

  lemma StaysCovered(f: Facts, w: World, t: Attempt, s: Sha)
    requires IsOrder(f) && Inv(f, w) && Legal(f, w, t) && (t.moved != {} || t.released) && s in w.ever + {t.m.sha}
    ensures Covered(f, After(w, t), s)
  {
    var w' := After(w, t);
    if s in w.ever {
      PublishedIsNewest(f, w, t, s);
      if v :| v in w.releases && AtMost(f, s, f.sourceOf(v)) {
        assert v in w'.releases;
      } else {
        var name :| name in w.owners && Owns(f, w, name, s);
        assert Owns(f, w', name, s);
      }
    } else if t.released {
      assert t.m.version in w'.releases;
    } else {
      var name :| name in t.moved;
      assert Owns(f, w', name, s);
    }
  }

  lemma StepKeeps(f: Facts, w: World, t: Attempt)
    requires IsOrder(f) && Inv(f, w) && Legal(f, w, t)
    ensures Inv(f, After(w, t))
  {
    if t.moved != {} || t.released {
      var w' := After(w, t);
      forall s | s in w'.ever
        ensures AtMost(f, s, w'.latest) && Covered(f, w', s)
      {
        if s in w.ever { PublishedIsNewest(f, w, t, s); }
        StaysCovered(f, w, t, s);
      }
    }
  }

  // ---- All runs --------------------------------------------------------------------------------------------

  ghost predicate Runs(f: Facts, w: World, ts: seq<Attempt>)
    decreases |ts|
  {
    ts != [] ==> Legal(f, w, ts[0]) && Runs(f, After(w, ts[0]), ts[1..])
  }

  function End(w: World, ts: seq<Attempt>): World
    decreases |ts|
  {
    if ts == [] then w else End(After(w, ts[0]), ts[1..])
  }

  lemma {:induction false} RunKeeps(f: Facts, w: World, ts: seq<Attempt>)
    requires IsOrder(f) && Inv(f, w) && Runs(f, w, ts)
    ensures Inv(f, End(w, ts))
    decreases |ts|
  {
    if ts != [] {
      StepKeeps(f, w, ts[0]);
      RunKeeps(f, After(w, ts[0]), ts[1..]);
    }
  }

  /** Nothing is published yet. */
  function Empty(): World { World({}, map name | name in NAMES :: NoTag, {}, 0) }

  /** Monotone publication: from an empty channel, after any sequence of audits and writes, the sources ever
      published form a chain and the last one published is its maximum. */
  lemma PublicationIsMonotone(f: Facts, ts: seq<Attempt>, s: Sha, t: Sha)
    requires IsOrder(f) && Runs(f, Empty(), ts)
    requires s in End(Empty(), ts).ever && t in End(Empty(), ts).ever
    ensures AtMost(f, s, End(Empty(), ts).latest) && (AtMost(f, s, t) || AtMost(f, t, s))
  {
    assert Inv(f, Empty());
    RunKeeps(f, Empty(), ts);
  }

  /** No canary tag ever moves backwards or across. */
  lemma OwnersMoveForward(f: Facts, w: World, t: Attempt, name: nat)
    requires Inv(f, w) && Legal(f, w, t) && name in w.owners && w.owners[name].Tag?
    ensures var after := After(w, t).owners[name];
            after.Tag? && AtMost(f, f.sourceOf(w.owners[name].version), f.sourceOf(after.version))
  {
    if name in t.moved { OwnersBelow(f, w, t, name); }
  }
}
