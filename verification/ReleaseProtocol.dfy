/** Any number of publisher runs sharing one expected asset map and one release slot.

    The remote answers audits from the past: a listing shows assets that were stored at some earlier
    moment, possibly not all of them, and nothing else about an answer is trusted. A command that
    reports failure may take effect at once, later, more than once, or never, and an upload may stop
    half way and leave its name taken. Runs act in any order. */
module ReleaseProtocol {
  import opened Prelude
  import opened PlainNames
  import opened ReleaseAudit
  import opened ReleaseRun

  /** A stored asset; a `Starter` is an upload that never finished. */
  datatype Stored = Starter | Stored(size: int, sha256: Text)

  datatype Slot = Vacant | Held(draft: bool, assets: map<Text, Stored>)

  datatype Effect = CreateDraft | Put(name: Text, content: Stored) | MakePublic

  /** `history` ends with the present slot; `logs[i]` is what run `i` has done; `pending` are the
      commands that reported failure. */
  datatype System = System(history: seq<Slot>, logs: seq<Log>, pending: seq<Effect>)

  datatype Action =
    | Observe(run: nat, answers: Answers)
    | Check(run: nat, asset: Asset)
    | Succeed(run: nat, command: Command)      // the command takes effect and says so
    | Lose(run: nat, command: Command)         // the command reports failure
    | Land(effect: nat, partial: bool)         // a failed command takes effect after all

  // ---- The remote --------------------------------------------------------------------------------

  function Now(s: System): Slot
    requires s.history != []
  {
    s.history[|s.history| - 1]
  }

  predicate Applies(slot: Slot, x: Effect) {
    match x
    case CreateDraft => slot.Vacant?
    case Put(name, _) => slot.Held? && slot.draft && name !in slot.assets
    case MakePublic => slot.Held?
  }

  function Applied(slot: Slot, x: Effect): Slot
    requires Applies(slot, x)
  {
    match x
    case CreateDraft => Held(true, map[])
    case Put(name, content) => slot.(assets := slot.assets[name := content])
    case MakePublic => slot.(draft := false)
  }

  predicate StoredAs(slot: Slot, l: Listed) {
    && slot.Held? && l.Listed? && l.name in slot.assets
    && (l.uploaded ==> slot.assets[l.name] == Stored(l.size, l.sha256))
  }

  /** Everything listed was there at some moment in the past, and a release said to be public was. */
  predicate Honest(history: seq<Slot>, answers: Answers) {
    && (answers.listing.Some? ==>
          exists k :: 0 <= k < |history| && ListedAt(history[k], answers.listing.value))
    && (answers.release.Found? && !answers.release.release.draft ==>
          exists k :: 0 <= k < |history| && Public(history[k]))
  }

  predicate Public(slot: Slot) { slot.Held? && !slot.draft }

  predicate ListedAt(slot: Slot, listing: seq<Listed>) {
    forall i :: 0 <= i < |listing| && listing[i].Listed? ==> StoredAs(slot, listing[i])
  }

  // ---- Steps -------------------------------------------------------------------------------------

  type Stores = seq<Text -> LocalFile>

  function EffectOf(store: Text -> LocalFile, c: Command): Effect {
    match c
    case Create => CreateDraft
    case Upload(a) => Put(a.name, Stored(store(a.name).size, store(a.name).sha256))
    case Publish => MakePublic
  }

  predicate Enabled(e: Expectation, stores: Stores, s: System, a: Action) {
    && s.history != [] && |s.logs| == |stores|
    && match a
       case Observe(i, answers) =>
         i < |stores| && Honest(s.history, answers) && MayFollow(s.logs[i], Audited(Audit(e, answers)))
       case Check(i, asset) =>
         i < |stores| && MayFollow(s.logs[i], Checked(asset, LocalMatches(stores[i](asset.name), asset)))
       case Succeed(i, c) =>
         i < |stores| && MayFollow(s.logs[i], Wrote(c, true)) && Applies(Now(s), EffectOf(stores[i], c))
       case Lose(i, c) =>
         i < |stores| && MayFollow(s.logs[i], Wrote(c, false))
       case Land(k, partial) =>
         k < |s.pending| && Applies(Now(s), s.pending[k])
  }

  function Record(s: System, i: nat, x: Event): System
    requires i < |s.logs|
  {
    s.(logs := s.logs[i := Then(s.logs[i], x)])
  }

  function Change(s: System, x: Effect): System
    requires s.history != [] && Applies(Now(s), x)
  {
    s.(history := s.history + [Applied(Now(s), x)])
  }

  function Shortened(x: Effect, partial: bool): Effect {
    if partial && x.Put? then x.(content := Starter) else x
  }

  function Next(e: Expectation, stores: Stores, s: System, a: Action): System
    requires Enabled(e, stores, s, a)
  {
    match a
    case Observe(i, answers) => Record(s, i, Audited(Audit(e, answers)))
    case Check(i, asset) => Record(s, i, Checked(asset, LocalMatches(stores[i](asset.name), asset)))
    case Succeed(i, c) => Change(Record(s, i, Wrote(c, true)), EffectOf(stores[i], c))
    case Lose(i, c) => Record(s, i, Wrote(c, false)).(pending := s.pending + [EffectOf(stores[i], c)])
    case Land(k, partial) => Change(s, Shortened(s.pending[k], partial))
  }

  // ---- What holds --------------------------------------------------------------------------------

  /** The asset is stored with its approved size and digest. */
  predicate Approved(slot: Slot, a: Asset) {
    slot.Held? && a.name in slot.assets && slot.assets[a.name] == Stored(a.size, a.sha256)
  }

  predicate Expects(e: Expectation, name: Text, content: Stored) {
    exists k :: 0 <= k < |e.assets| && e.assets[k].name == name &&
                (content.Stored? ==> content == Stored(e.assets[k].size, e.assets[k].sha256))
  }

  predicate Stocked(e: Expectation, slot: Slot) {
    forall k :: 0 <= k < |e.assets| ==> Approved(slot, e.assets[k])
  }

  /** Only expected assets, with the approved bytes; and a public release has all of them. */
  ghost predicate Good(e: Expectation, slot: Slot) {
    slot.Held? ==>
      && (forall n :: n in slot.assets ==> Expects(e, n, slot.assets[n]))
      && (!slot.draft ==> Stocked(e, slot))
  }

  /** Nothing stored is lost or replaced, and a public release stays public. */
  ghost predicate Grows(was: Slot, now: Slot) {
    was.Held? ==>
      && now.Held? && (!was.draft ==> !now.draft)
      && forall n :: n in was.assets ==> n in now.assets && now.assets[n] == was.assets[n]
  }

  /** Every audit in the log is still true of the slot: what it did not find missing is stored. */
  ghost predicate Informed(e: Expectation, log: Log, slot: Slot) {
    log.Then? ==>
      && Informed(e, log.before, slot)
      && (log.last.Audited? && log.last.result.Ok? ==> AuditHolds(e, log.last.result.value, slot))
  }

  ghost predicate AuditHolds(e: Expectation, p: Publication, slot: Slot) {
    && (forall a :: a in p.missing ==> a in e.assets)
    && (p.stage != Absent ==> forall a :: a in e.assets && a !in p.missing ==> Approved(slot, a))
    && (p.stage == Complete ==> Public(slot))
  }

  /** The hash checks in the log are those of this run's own files. */
  ghost predicate Truthful(log: Log, store: Text -> LocalFile) {
    log.Then? ==>
      && Truthful(log.before, store)
      && (log.last.Checked? && log.last.ok ==> LocalMatches(store(log.last.asset.name), log.last.asset))
  }

  /** A failed command can only do what its run was entitled to. */
  ghost predicate Harmless(e: Expectation, x: Effect, slot: Slot) {
    match x
    case CreateDraft => true
    case Put(name, content) => Expects(e, name, content)
    case MakePublic => Stocked(e, slot)
  }

  ghost predicate Inv(e: Expectation, stores: Stores, s: System) {
    && s.history != [] && |s.logs| == |stores|
    && (forall k :: 0 <= k < |s.history| ==> Good(e, s.history[k]))
    && (forall j, k :: 0 <= j <= k < |s.history| ==> Grows(s.history[j], s.history[k]))
    && (forall i :: 0 <= i < |s.logs| ==> Informed(e, s.logs[i], Now(s)) && Truthful(s.logs[i], stores[i]))
    && (forall k :: 0 <= k < |s.pending| ==> Harmless(e, s.pending[k], Now(s)))
  }

  lemma AppliedGrows(slot: Slot, x: Effect)
    requires Applies(slot, x)
    ensures Grows(slot, Applied(slot, x))
  {
  }

  lemma ApprovedGrows(was: Slot, now: Slot, a: Asset)
    requires Grows(was, now) && Approved(was, a)
    ensures Approved(now, a)
  {
  }

  lemma {:induction false} InformedGrows(e: Expectation, log: Log, was: Slot, now: Slot)
    requires Grows(was, now) && Informed(e, log, was)
    ensures Informed(e, log, now)
  {
    if log.Then? {
      InformedGrows(e, log.before, was, now);
    }
  }

  lemma AppliedGood(e: Expectation, slot: Slot, x: Effect)
    requires Good(e, slot) && Applies(slot, x) && Harmless(e, x, slot)
    ensures Good(e, Applied(slot, x))
  {
    if x.Put? {
      var after := Applied(slot, x);
      forall n | n in after.assets ensures Expects(e, n, after.assets[n]) {
        assert n != x.name ==> n in slot.assets && after.assets[n] == slot.assets[n];
      }
    }
  }

  lemma HarmlessGrows(e: Expectation, x: Effect, was: Slot, now: Slot)
    requires Harmless(e, x, was) && Grows(was, now)
    ensures Harmless(e, x, now)
  {
    if x.MakePublic? {
      forall k | 0 <= k < |e.assets| ensures Approved(now, e.assets[k]) {
        ApprovedGrows(was, now, e.assets[k]);
      }
    }
  }

  lemma ChangeKeeps(e: Expectation, stores: Stores, s: System, x: Effect)
    requires Inv(e, stores, s) && Applies(Now(s), x) && Harmless(e, x, Now(s))
    ensures Inv(e, stores, Change(s, x))
  {
    var s' := Change(s, x);
    var now, now' := Now(s), Now(s');
    AppliedGrows(now, x);
    AppliedGood(e, now, x);
    forall j, k | 0 <= j <= k < |s'.history| ensures Grows(s'.history[j], s'.history[k]) {
      if k == |s.history| && j < k {
        assert Grows(s.history[j], s.history[|s.history| - 1]);
        GrowsTransitive(s.history[j], now, now');
      }
    }
    forall i | 0 <= i < |s'.logs| ensures Informed(e, s'.logs[i], now') {
      InformedGrows(e, s.logs[i], now, now');
    }
    forall k | 0 <= k < |s'.pending| ensures Harmless(e, s'.pending[k], now') {
      HarmlessGrows(e, s.pending[k], now, now');
    }
  }

  lemma GrowsTransitive(a: Slot, b: Slot, c: Slot)
    requires Grows(a, b) && Grows(b, c)
    ensures Grows(a, c)
  {
  }

  /** What the discipline entitles a run to write is harmless, whatever happened since it looked. */
  lemma EntitledIsHarmless(e: Expectation, store: Text -> LocalFile, log: Log, c: Command, ok: bool, slot: Slot)
    requires Informed(e, log, slot) && Truthful(log, store) && MayFollow(log, Wrote(c, ok))
    ensures Harmless(e, EffectOf(store, c), slot)
  {
    match c
    case Create =>
    case Upload(a) =>
      assert AuditHolds(e, log.before.last.result.value, slot);
      assert a in e.assets;
      var k :| 0 <= k < |e.assets| && e.assets[k] == a;
    case Publish =>
      assert AuditHolds(e, log.last.result.value, slot);
      forall k | 0 <= k < |e.assets| ensures Approved(slot, e.assets[k]) {
        assert e.assets[k] in e.assets;
      }
  }

  /** An honest answer, however old, never makes an audit claim an asset that is not stored now. */
  lemma HonestAuditHolds(e: Expectation, history: seq<Slot>, answers: Answers)
    requires history != [] && Honest(history, answers) && Accepts(e, answers)
    requires forall k :: 0 <= k < |history| ==> Grows(history[k], history[|history| - 1])
    ensures AuditHolds(e, Conclusion(e, answers), history[|history| - 1])
  {
    ConclusionSound(e, answers);
    var p, now := Conclusion(e, answers), history[|history| - 1];
    if p.stage == Complete {
      var k :| 0 <= k < |history| && Public(history[k]);
      assert Grows(history[k], now);
    }
    if p.stage != Absent {
      var listing := answers.listing.value;
      var k :| 0 <= k < |history| && ListedAt(history[k], listing);
      forall a | a in e.assets && a !in p.missing ensures Approved(now, a) {
        assert Confirmed(listing, a);
        var i :| 0 <= i < |listing| && Matches(listing[i], a);
        assert StoredAs(history[k], listing[i]);
        ApprovedGrows(history[k], now, a);
      }
    }
  }

  lemma RecordKeeps(e: Expectation, stores: Stores, s: System, i: nat, x: Event)
    requires Inv(e, stores, s) && i < |stores|
    requires x.Audited? && x.result.Ok? ==> AuditHolds(e, x.result.value, Now(s))
    requires x.Checked? && x.ok ==> LocalMatches(stores[i](x.asset.name), x.asset)
    ensures Inv(e, stores, Record(s, i, x))
  {
  }

  lemma ObserveKeeps(e: Expectation, stores: Stores, s: System, i: nat, answers: Answers)
    requires Inv(e, stores, s) && Enabled(e, stores, s, Observe(i, answers))
    ensures Inv(e, stores, Record(s, i, Audited(Audit(e, answers))))
  {
    if Accepts(e, answers) {
      HonestAuditHolds(e, s.history, answers);
    }
    RecordKeeps(e, stores, s, i, Audited(Audit(e, answers)));
  }

  lemma WriteKeeps(e: Expectation, stores: Stores, s: System, i: nat, c: Command, ok: bool)
    requires Inv(e, stores, s) && i < |stores| && MayFollow(s.logs[i], Wrote(c, ok))
    ensures Inv(e, stores, Record(s, i, Wrote(c, ok))) && Harmless(e, EffectOf(stores[i], c), Now(s))
  {
    EntitledIsHarmless(e, stores[i], s.logs[i], c, ok, Now(s));
    RecordKeeps(e, stores, s, i, Wrote(c, ok));
  }

  lemma StepKeeps(e: Expectation, stores: Stores, s: System, a: Action)
    requires Inv(e, stores, s) && Enabled(e, stores, s, a)
    ensures Inv(e, stores, Next(e, stores, s, a))
  {
    match a
    case Observe(i, answers) =>
      ObserveKeeps(e, stores, s, i, answers);
    case Check(i, asset) =>
      RecordKeeps(e, stores, s, i, Checked(asset, LocalMatches(stores[i](asset.name), asset)));
    case Succeed(i, c) =>
      WriteKeeps(e, stores, s, i, c, true);
      ChangeKeeps(e, stores, Record(s, i, Wrote(c, true)), EffectOf(stores[i], c));
    case Lose(i, c) =>
      WriteKeeps(e, stores, s, i, c, false);
    case Land(k, partial) =>
      ChangeKeeps(e, stores, s, Shortened(s.pending[k], partial));
  }

  // ---- Runs of the whole system -------------------------------------------------------------------

  ghost predicate Valid(e: Expectation, stores: Stores, s: System, actions: seq<Action>)
    decreases |actions|
  {
    actions == [] ||
    (Enabled(e, stores, s, actions[0]) && Valid(e, stores, Next(e, stores, s, actions[0]), actions[1..]))
  }

  ghost function Exec(e: Expectation, stores: Stores, s: System, actions: seq<Action>): System
    requires Valid(e, stores, s, actions)
    decreases |actions|
  {
    if actions == [] then s else Exec(e, stores, Next(e, stores, s, actions[0]), actions[1..])
  }

  /** The slot as this or an earlier publication left it, and runs that have not started. */
  function Initial(slot: Slot, runs: nat): System {
    System([slot], seq(runs, _ => Empty), [])
  }

  lemma {:induction false} RunKeeps(e: Expectation, stores: Stores, s: System, actions: seq<Action>)
    requires Inv(e, stores, s) && Valid(e, stores, s, actions)
    ensures Inv(e, stores, Exec(e, stores, s, actions))
    decreases |actions|
  {
    if actions != [] {
      StepKeeps(e, stores, s, actions[0]);
      RunKeeps(e, stores, Next(e, stores, s, actions[0]), actions[1..]);
    }
  }

  /** Over every interleaving of any number of runs, at every moment: the release holds only expected
      assets with the approved size and digest, nothing is ever replaced or removed, and a public
      release holds exactly the expected set. */
  lemma ReleaseAlwaysGood(e: Expectation, stores: Stores, slot: Slot, actions: seq<Action>)
    requires Good(e, slot) && Valid(e, stores, Initial(slot, |stores|), actions)
    ensures var h := Exec(e, stores, Initial(slot, |stores|), actions).history;
            && (forall k :: 0 <= k < |h| ==> Good(e, h[k]))
            && (forall j, k :: 0 <= j <= k < |h| ==> Grows(h[j], h[k]))
            && (forall k :: 0 <= k < |h| && Public(h[k]) ==> Exact(e, h[k]))
  {
    RunKeeps(e, stores, Initial(slot, |stores|), actions);
    var h := Exec(e, stores, Initial(slot, |stores|), actions).history;
    forall k | 0 <= k < |h| && Public(h[k]) ensures Exact(e, h[k]) {
      PublicIsExact(e, h[k]);
    }
  }

  /** A run that ends with a complete audit leaves a public release with exactly the expected assets,
      whatever the other runs were doing. */
  lemma SuccessMeansPublic(e: Expectation, stores: Stores, slot: Slot, actions: seq<Action>, i: nat)
    requires Good(e, slot) && Valid(e, stores, Initial(slot, |stores|), actions) && i < |stores|
    requires |Exec(e, stores, Initial(slot, |stores|), actions).logs| == |stores|
    requires EndsIn(Exec(e, stores, Initial(slot, |stores|), actions).logs[i], Complete)
    ensures var h := Exec(e, stores, Initial(slot, |stores|), actions).history;
            h != [] && Public(h[|h| - 1]) && Exact(e, h[|h| - 1])
  {
    RunKeeps(e, stores, Initial(slot, |stores|), actions);
    var s := Exec(e, stores, Initial(slot, |stores|), actions);
    assert Informed(e, s.logs[i], Now(s));
    PublicIsExact(e, Now(s));
  }

  /** Exactly the expected names, each with its approved size and digest. */
  ghost predicate Exact(e: Expectation, slot: Slot) {
    slot.Held? && slot.assets.Keys == Names(e.assets) && forall a :: a in e.assets ==> Approved(slot, a)
  }

  lemma PublicIsExact(e: Expectation, slot: Slot)
    requires Good(e, slot) && Public(slot)
    ensures Exact(e, slot)
  {
    forall n | n in slot.assets ensures n in Names(e.assets) {
      assert Expects(e, n, slot.assets[n]);
    }
    forall a | a in e.assets ensures Approved(slot, a) && a.name in slot.assets {
      var k :| 0 <= k < |e.assets| && e.assets[k] == a;
    }
  }

  // ---- Answers that tell the present --------------------------------------------------------------------

  /** The listing shows what is stored, all of it, each once. */
  ghost predicate Snapshot(slot: Slot, listing: seq<Listed>) {
    && slot.Held?
    && (forall i :: 0 <= i < |listing| ==>
          && listing[i].Listed? && listing[i].id > 0 && listing[i].uploaded && listing[i].name in slot.assets
          && slot.assets[listing[i].name] == Stored(listing[i].size, listing[i].sha256))
    && (forall i, j :: 0 <= i < j < |listing| ==> listing[i].name != listing[j].name && listing[i].id != listing[j].id)
    && (forall n :: n in slot.assets ==> Lists(listing, n))
  }

  /** A good release without half-finished uploads, answered as it is, is accepted: it is found a draft or
      complete, and missing is exactly what is not stored. */
  lemma TrueAnswerIsAccepted(e: Expectation, slot: Slot, r: Release, tag: TagAnswer, listing: seq<Listed>)
    requires ValidExpectation(e) && Good(e, slot) && Snapshot(slot, listing)
    requires r.id > 0 && r.tagName == Tag(e) && r.prerelease && r.apiUrl && r.publicUrl && r.target == e.sourceSha
    requires r.draft == slot.draft && (!r.draft ==> r.immutable)
    requires tag == TagAt(e.sourceSha) || (tag == NoTag && r.draft)
    ensures var p := Audit(e, Answers(Found(r), tag, Some(listing)));
            && p.Ok? && p.value.stage == (if slot.draft then Draft else Complete) && p.value.releaseId == Some(r.id)
            && forall a :: a in p.value.missing <==> a in e.assets && a.name !in slot.assets
  {
    forall i | 0 <= i < |listing| ensures Expected(e, listing[i]) {
      var l := listing[i];
      assert Expects(e, l.name, slot.assets[l.name]);
      var k :| 0 <= k < |e.assets| && e.assets[k].name == l.name &&
               (slot.assets[l.name].Stored? ==> slot.assets[l.name] == Stored(e.assets[k].size, e.assets[k].sha256));
      assert Matches(l, e.assets[k]);
    }
    forall n ensures Lists(listing, n) <==> n in slot.assets {
    }
    if !slot.draft {
      forall k | 0 <= k < |e.assets| ensures Lists(listing, e.assets[k].name) {
        assert Approved(slot, e.assets[k]);
      }
    }
    forall a ensures a in MissingFrom(e.assets, listing) <==> a in e.assets && a.name !in slot.assets {
      MissingAre(e.assets, listing, a);
    }
  }

  /** No release and no tag, or a tag at the source: everything is missing. */
  lemma AbsentIsAccepted(e: Expectation, tag: TagAnswer, listing: Option<seq<Listed>>)
    requires ValidExpectation(e) && (tag == NoTag || tag == TagAt(e.sourceSha))
    ensures Audit(e, Answers(NoRelease, tag, listing)) == Ok(Publication(Absent, None, [], e.assets))
  {
  }
}
