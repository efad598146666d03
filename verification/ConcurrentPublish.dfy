/** Several frontend builds publishing into one `dist` directory.

    Every file-system call that `publishDist` and `removeTempPaths` make is one step, and any other
    publisher may run between two of them. A tree is named by the publisher that built it
    (`INITIAL` for the bundle that was live at the start); `whole` is lost when a removal stops
    half way. Renaming a directory fails when a non-empty target is present and when the source is
    missing; it can only succeed on a target that is absent or already gutted.

    `Config` says what the environment may do. `ConcurrentPublishTheorems` gives, for every number of
    publishers and every configuration, the exact condition under which each promise at the end holds. */
module ConcurrentPublish {
  const INITIAL: int := -1

  /** What a path holds: nothing, or a tree named by its builder. */
  datatype Spot = Vacant | Holds(builder: int, whole: bool)

  /** The identity `fileIdentity` returned, if the path existed. */
  datatype Identity = Unknown | Known(builder: int)

  datatype Effect = Effect(dist: Spot, self: Publisher)

  datatype Phase =
    | Ready                                  // staged tree built, publishDist not entered
    | Window                                 // dist moved aside (or found absent)
    | Stating                                // staged tree renamed in, identity not read yet
    | Finalizing(identity: Identity)      // awaiting the finalizer
    | OwnsDist                               // finalizer threw, dist still has our identity
    | Restoring(owned: bool)                 // about to rename the backup back inline
    | Retrying                               // about to call restoreTempPath
    | KeptCheck                              // about to decide whether to forget the backup
    | Discarding                             // success: backup untracked, removal in flight
    | Superseded                             // lost dist: backup untracked, removal in flight
    | CleanupCheck                           // threw or interrupted; removeTempPaths is about to look at dist
    | CleanupRestore                         // removeTempPaths saw dist absent
    | CleanupRemove                          // removeTempPaths saw dist present
    | Exited

  /** History, which no step looks at: how many bundles had gone live when this publisher moved dist aside
      and when it published, counting its own, and whether it took its own bundle back. */
  datatype Mark = Mark(taken: nat, born: nat, withdrew: bool)

  const UNMARKED: Mark := Mark(0, 0, false)

  datatype Publisher = Publisher(
    phase: Phase,
    hasBackup: bool,
    backup: Spot,
    tracked: bool,          // backup registered in tempPaths with restoreTo = dist
    published: bool,
    mark: Mark)

  /** `clock` counts the bundles that went live. */
  datatype State = State(dist: Spot, clock: nat, pubs: seq<Publisher>)

  datatype Action =
    | Proceed
    | Fail
    | Signal
    | Leave(left: Spot)   // a removal that leaves `left` behind

  /** `removalMayFail`: the rollback's removal of a failed bundle may throw, leaving anything from
      nothing to the whole tree. `statAtomic`: no other publisher runs between renaming the staged
      tree in and reading its identity. `rollbackAtomic`: none runs between the identity check, the
      removal and the inline restore. `signals`: a signal may arrive while the finalizer is awaited. */
  datatype Config = Config(removalMayFail: bool, statAtomic: bool, rollbackAtomic: bool, signals: bool)

  function ReadyPublisher(): Publisher { Publisher(Ready, false, Vacant, false, false, UNMARKED) }

  function Initial(n: nat): State {
    State(Holds(INITIAL, true), 0, seq(n, _ => ReadyPublisher()))
  }

  // ---- Steps -------------------------------------------------------------------------------

  predicate WholeTree(t: Spot) { t.Holds? && t.whole }

  predicate Replaceable(t: Spot) { t.Vacant? || !t.whole }

  /** What a removal may leave of `before`: nothing, a gutted tree, or all of it. */
  predicate Remains(before: Spot, left: Spot) {
    left.Vacant? || (before.Holds? && left.builder == before.builder &&
                   (left.whole ==> before.whole))
  }

  predicate Protected(cfg: Config, phase: Phase) {
    || (cfg.statAtomic && phase.Stating?)
    || (cfg.rollbackAtomic && (phase.OwnsDist? || phase == Restoring(true)))
  }

  predicate ActionEnabled(cfg: Config, dist: Spot, p: Publisher, a: Action) {
    match p.phase
    case Ready => a.Proceed? || a.Signal?
    case Window => (a.Proceed? && Replaceable(dist)) || (a.Fail? && dist.Holds?)
    case Finalizing(_) => a.Proceed? || a.Fail? || (a.Signal? && cfg.signals)
    case OwnsDist => a.Proceed? || (a.Leave? && cfg.removalMayFail && Remains(dist, a.left))
    case Restoring(_) => (a.Proceed? && Replaceable(dist)) || (a.Fail? && dist.Holds?)
    case Discarding => a.Leave? && Remains(p.backup, a.left)
    case Superseded => a.Leave? && Remains(p.backup, a.left)
    case CleanupRestore => (a.Proceed? && Replaceable(dist)) || (a.Fail? && dist.Holds?)
    case CleanupRemove => a.Leave? && Remains(p.backup, a.left)
    case Exited => false
    case _ => a.Proceed?
  }

  predicate Enabled(cfg: Config, s: State, i: nat, a: Action) {
    && i < |s.pubs|
    && (forall j :: 0 <= j < |s.pubs| && j != i ==> !Protected(cfg, s.pubs[j].phase))
    && ActionEnabled(cfg, s.dist, s.pubs[i], a)
  }

  /** `publishDist`'s rename of the backup back to dist, wherever it is attempted. */
  function PutBack(p: Publisher, next: Phase): Effect {
    Effect(p.backup, p.(phase := next, backup := Vacant, tracked := false))
  }

  /** Removing its own bundle, or enough of it that it is no bundle any more, withdraws it. */
  function Withdrawn(dist: Spot, i: int, m: Mark, left: Spot): Mark {
    if dist.Holds? && dist.builder == i && !WholeTree(left) then m.(withdrew := true) else m
  }

  predicate Ticks(p: Publisher, a: Action) { p.phase.Window? && a.Proceed? }

  /** The new content of dist and the new local state after publisher `i` takes `a`. */
  function Act(dist: Spot, clock: nat, i: int, p: Publisher, a: Action): Effect {
    match p.phase
    case Ready =>
      if a.Signal? then Effect(dist, p.(phase := Exited))
      else if dist.Holds? then
        Effect(Vacant, p.(phase := Window, hasBackup := true, backup := dist, tracked := true,
                          mark := p.mark.(taken := clock)))
      else Effect(dist, p.(phase := Window))
    case Window =>
      if a.Proceed? then
        Effect(Holds(i, true), p.(phase := Stating, published := true, mark := p.mark.(born := clock + 1)))
      else Effect(dist, p.(phase := if p.hasBackup then Restoring(false) else CleanupCheck))
    case Stating =>
      Effect(dist, p.(phase := Finalizing(if dist.Holds? then Known(dist.builder) else Unknown)))
    case Finalizing(identity) =>
      if a.Signal? then Effect(dist, p.(phase := CleanupCheck))
      else if a.Proceed? then
        Effect(dist, if p.hasBackup then p.(phase := Discarding, tracked := false) else p.(phase := Exited))
      else if dist.Holds? && identity == Known(dist.builder) then Effect(dist, p.(phase := OwnsDist))
      else Effect(dist, p.(phase := Superseded, tracked := false))
    case OwnsDist =>
      if a.Proceed? then
        Effect(Vacant, p.(phase := if p.hasBackup then Restoring(true) else CleanupCheck,
                          mark := Withdrawn(dist, i, p.mark, Vacant)))
      else if a.Leave? then
        Effect(a.left, p.(phase := if p.hasBackup then Retrying else CleanupCheck,
                          mark := Withdrawn(dist, i, p.mark, a.left)))
      else Effect(dist, p)
    case Restoring(_) =>
      if a.Proceed? then PutBack(p, CleanupCheck) else Effect(dist, p.(phase := Retrying))
    case Retrying =>
      if dist.Vacant? then PutBack(p, CleanupCheck) else Effect(dist, p.(phase := KeptCheck))
    case KeptCheck =>
      Effect(dist, p.(phase := CleanupCheck, tracked := p.tracked && dist.Vacant?))
    case Discarding =>
      Effect(dist, p.(phase := Exited, backup := if a.Leave? then a.left else p.backup))
    case Superseded =>
      Effect(dist, p.(phase := CleanupCheck, backup := if a.Leave? then a.left else p.backup))
    case CleanupCheck =>
      Effect(dist, p.(phase := if !p.tracked then Exited
                         else if dist.Vacant? then CleanupRestore else CleanupRemove))
    case CleanupRestore =>
      if a.Proceed? then PutBack(p, Exited) else Effect(dist, p.(phase := Exited, tracked := false))
    case CleanupRemove =>
      Effect(dist, p.(phase := Exited, tracked := false, backup := if a.Leave? then a.left else p.backup))
    case Exited => Effect(dist, p)
  }

  function Next(s: State, i: nat, a: Action): State
    requires i < |s.pubs|
  {
    var r := Act(s.dist, s.clock, i, s.pubs[i], a);
    State(r.dist, if Ticks(s.pubs[i], a) then s.clock + 1 else s.clock, s.pubs[i := r.self])
  }

  // ---- Runs --------------------------------------------------------------------------------

  type Schedule = seq<(nat, Action)>

  ghost predicate Valid(cfg: Config, s: State, sched: Schedule)
    decreases |sched|
  {
    sched == [] ||
    (Enabled(cfg, s, sched[0].0, sched[0].1) && Valid(cfg, Next(s, sched[0].0, sched[0].1), sched[1..]))
  }

  ghost function Exec(cfg: Config, s: State, sched: Schedule): State
    requires Valid(cfg, s, sched)
    decreases |sched|
  {
    if sched == [] then s else Exec(cfg, Next(s, sched[0].0, sched[0].1), sched[1..])
  }

  ghost predicate Reachable(cfg: Config, n: nat, s: State) {
    exists sched: Schedule :: Valid(cfg, Initial(n), sched) && Exec(cfg, Initial(n), sched) == s
  }

  lemma {:induction false} ExecSnoc(cfg: Config, s: State, sched: Schedule, i: nat, a: Action)
    requires Valid(cfg, s, sched) && Enabled(cfg, Exec(cfg, s, sched), i, a)
    ensures Valid(cfg, s, sched + [(i, a)])
    ensures Exec(cfg, s, sched + [(i, a)]) == Next(Exec(cfg, s, sched), i, a)
    decreases |sched|
  {
    var longer := sched + [(i, a)];
    if sched == [] {
      assert longer[1..] == [];
    } else {
      ExecSnoc(cfg, Next(s, sched[0].0, sched[0].1), sched[1..], i, a);
      assert longer[1..] == sched[1..] + [(i, a)];
    }
  }

  lemma Start(cfg: Config, n: nat)
    ensures Reachable(cfg, n, Initial(n))
  {
    assert Valid(cfg, Initial(n), []);
  }

  lemma Go(cfg: Config, n: nat, s: State, i: nat, a: Action) returns (s': State)
    requires Reachable(cfg, n, s) && Enabled(cfg, s, i, a)
    ensures s' == Next(s, i, a) && Reachable(cfg, n, s')
  {
    var sched: Schedule :| Valid(cfg, Initial(n), sched) && Exec(cfg, Initial(n), sched) == s;
    ExecSnoc(cfg, Initial(n), sched, i, a);
    s' := Next(s, i, a);
  }

  // ---- What is promised --------------------------------------------------------------------

  /** dist or some backup holds a complete bundle. */
  ghost predicate Complete(s: State) {
    WholeTree(s.dist) || exists i :: 0 <= i < |s.pubs| && WholeTree(s.pubs[i].backup)
  }

  /** Publisher `i` takes a whole bundle it did not build off dist without keeping it as its backup. */
  ghost predicate RemovesForeign(s: State, i: nat, a: Action)
    requires i < |s.pubs|
  {
    var s' := Next(s, i, a);
    WholeTree(s.dist) && s.dist.builder != i && s'.dist != s.dist && s'.pubs[i].backup != s.dist
  }

  /** The step renames the backup back to dist. */
  predicate PutsBack(dist: Spot, p: Publisher, a: Action) {
    ((p.phase.Restoring? || p.phase.CleanupRestore?) && a.Proceed?) || (p.phase.Retrying? && dist.Vacant?)
  }

  /** `q` put its bundle live after `p` moved dist aside, and has not taken it back. */
  predicate Overtakes(p: Publisher, q: Publisher) {
    q.published && q.mark.born > p.mark.taken && !q.mark.withdrew
  }

  /** Publisher `i` puts the bundle in its backup live again although a later one, its own or another's,
      has gone live since and was not taken back by its builder. The later bundle may be in a backup by
      now, or replaced by one later still. */
  ghost predicate RestoresStale(s: State, i: nat, a: Action)
    requires i < |s.pubs|
  {
    PutsBack(s.dist, s.pubs[i], a) && exists j :: 0 <= j < |s.pubs| && Overtakes(s.pubs[i], s.pubs[j])
  }

  ghost predicate AlwaysComplete(n: nat, cfg: Config) {
    forall s :: Reachable(cfg, n, s) ==> Complete(s)
  }

  ghost predicate NeverRemovesForeign(n: nat, cfg: Config) {
    forall s, i: nat, a :: Reachable(cfg, n, s) && Enabled(cfg, s, i, a) ==> !RemovesForeign(s, i, a)
  }

  ghost predicate NeverRestoresStale(n: nat, cfg: Config) {
    forall s, i: nat, a :: Reachable(cfg, n, s) && Enabled(cfg, s, i, a) ==> !RestoresStale(s, i, a)
  }
}
