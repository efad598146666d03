/** When concurrent publishers keep their promises: an inductive invariant for each promise in the
    configurations where it holds, and a concrete schedule in the configurations where it does not. */
module ConcurrentPublishTheorems {
  import opened ConcurrentPublish

  // ---- A whole bundle survives: one publisher, any removal failure ----------------------------

  /** The lone publisher's backup is whole whenever dist is not. */
  predicate LoneInv(s: State) {
    && |s.pubs| == 1
    && var p := s.pubs[0]; var held := p.tracked && WholeTree(p.backup);
    match p.phase
    case Ready => WholeTree(s.dist) && !p.tracked
    case Window => s.dist.Vacant? && p.hasBackup && held
    case Stating => s.dist == Holds(0, true) && p.hasBackup && held
    case Finalizing(id) => s.dist == Holds(0, true) && id == Known(0) && p.hasBackup && held
    case OwnsDist => s.dist == Holds(0, true) && p.hasBackup && held
    case Restoring(_) => p.hasBackup && held
    case Retrying => p.hasBackup && held
    case KeptCheck => s.dist.Holds? && held
    case Discarding => WholeTree(s.dist) && !p.tracked
    case Superseded => false
    case CleanupCheck => (!p.tracked && (WholeTree(s.dist) || WholeTree(p.backup))) || (held && WholeTree(s.dist))
    case CleanupRestore => false
    case CleanupRemove => WholeTree(s.dist)
    case Exited => !p.tracked && (WholeTree(s.dist) || WholeTree(p.backup))
  }

  lemma LoneStep(cfg: Config, s: State, i: nat, a: Action)
    requires LoneInv(s) && Enabled(cfg, s, i, a)
    ensures LoneInv(Next(s, i, a))
  {
  }

  // ---- A whole bundle survives: two publishers, removal never fails half way -------------------

  predicate Holding(p: Publisher) { p.tracked && p.hasBackup && WholeTree(p.backup) }
  predicate Empty(p: Publisher) { !p.tracked && !p.hasBackup && p.backup.Vacant? }

  predicate LocalInv(p: Publisher) {
    match p.phase
    case Ready => Empty(p)
    case Window => Holding(p) || Empty(p)
    case Stating => Holding(p) || Empty(p)
    case Finalizing(_) => Holding(p) || Empty(p)
    case OwnsDist => Holding(p) || Empty(p)
    case Restoring(_) => Holding(p)
    case Retrying => Holding(p)
    case KeptCheck => Holding(p)
    case CleanupRestore => Holding(p)
    case CleanupRemove => Holding(p)
    case CleanupCheck => !p.tracked || Holding(p)
    case _ => !p.tracked
  }

  /** A whole backup that will not be removed while dist stays present. */
  predicate Keeping(p: Publisher) {
    WholeTree(p.backup) &&
    match p.phase
    case Window => Holding(p)
    case Restoring(_) => true
    case Retrying => true
    case KeptCheck => true
    case CleanupCheck => !p.tracked
    case Exited => true
    case _ => false
  }

  /** A whole backup that will not be removed while dist stays absent. */
  predicate Guarding(p: Publisher) {
    Keeping(p) || (Holding(p) && (p.phase.CleanupCheck? || p.phase.CleanupRestore?))
  }

  /** Publisher `i` seen together with the other publisher `q`. */
  predicate PairInv(dist: Spot, i: int, p: Publisher, q: Publisher) {
    && (dist.Vacant? && (p.phase.Ready? || (p.phase.Window? && !p.hasBackup)) ==>
          (q.phase.Window? || q.phase.Restoring?) && Holding(q))
    && ((p.phase.Stating? || p.phase.Finalizing? || p.phase.OwnsDist?) && !p.hasBackup ==>
          dist == Holds(i, true) && Keeping(q))
  }

  predicate Duo(dist: Spot, i: int, p: Publisher, j: int, q: Publisher) {
    && LocalInv(p) && LocalInv(q)
    && (dist.Holds? ==> dist.whole)
    && PairInv(dist, i, p, q) && PairInv(dist, j, q, p)
    && (dist.Vacant? ==> Guarding(p) || Guarding(q))
  }

  predicate TwoInv(s: State) {
    |s.pubs| == 2 && Duo(s.dist, 0, s.pubs[0], 1, s.pubs[1])
  }

  lemma DuoLocal(cfg: Config, dist: Spot, clock: nat, i: int, p: Publisher, j: int, q: Publisher, a: Action)
    requires !cfg.removalMayFail && i != j
    requires Duo(dist, i, p, j, q) && ActionEnabled(cfg, dist, p, a)
    ensures var r := Act(dist, clock, i, p, a);
            LocalInv(r.self) && (r.dist.Holds? ==> r.dist.whole) && PairInv(r.dist, i, r.self, q)
  {
  }

  lemma DuoOther(cfg: Config, dist: Spot, clock: nat, i: int, p: Publisher, j: int, q: Publisher, a: Action)
    requires !cfg.removalMayFail && i != j
    requires Duo(dist, i, p, j, q) && ActionEnabled(cfg, dist, p, a)
    ensures var r := Act(dist, clock, i, p, a); PairInv(r.dist, j, q, r.self)
  {
  }

  lemma DuoGuards(cfg: Config, dist: Spot, clock: nat, i: int, p: Publisher, j: int, q: Publisher, a: Action)
    requires !cfg.removalMayFail && i != j
    requires Duo(dist, i, p, j, q) && ActionEnabled(cfg, dist, p, a)
    ensures var r := Act(dist, clock, i, p, a); r.dist.Vacant? ==> Guarding(r.self) || Guarding(q)
  {
  }

  lemma DuoStep(cfg: Config, dist: Spot, clock: nat, i: int, p: Publisher, j: int, q: Publisher, a: Action)
    requires !cfg.removalMayFail && i != j
    requires Duo(dist, i, p, j, q) && ActionEnabled(cfg, dist, p, a)
    ensures var r := Act(dist, clock, i, p, a); Duo(r.dist, i, r.self, j, q)
  {
    DuoLocal(cfg, dist, clock, i, p, j, q, a);
    DuoOther(cfg, dist, clock, i, p, j, q, a);
    DuoGuards(cfg, dist, clock, i, p, j, q, a);
  }

  lemma TwoStep(cfg: Config, s: State, i: nat, a: Action)
    requires !cfg.removalMayFail && TwoInv(s) && Enabled(cfg, s, i, a)
    ensures TwoInv(Next(s, i, a))
  {
    DuoStep(cfg, s.dist, s.clock, i, s.pubs[i], 1 - i, s.pubs[1 - i], a);
  }

  // ---- Building schedules ---------------------------------------------------------------------

  /** The first three publishers of a crowd whose other members have not moved. */
  datatype Trio = Trio(d: Spot, clock: nat, p: Publisher, q: Publisher, r: Publisher)

  datatype Moves = Stop | Then(i: nat, a: Action, rest: Moves)

  function Unmoved(): Trio {
    Trio(Holds(INITIAL, true), 0, ReadyPublisher(), ReadyPublisher(), ReadyPublisher())
  }

  function Member(x: Trio, k: nat): Publisher {
    if k == 0 then x.p else if k == 1 then x.q else if k == 2 then x.r else ReadyPublisher()
  }

  function Crowd(n: nat, x: Trio): State {
    State(x.d, x.clock, seq(n, k requires 0 <= k < n => Member(x, k)))
  }

  predicate CanMove(cfg: Config, x: Trio, i: nat, a: Action) {
    && i < 3 && ActionEnabled(cfg, x.d, Member(x, i), a)
    && (i == 0 || !Protected(cfg, x.p.phase))
    && (i == 1 || !Protected(cfg, x.q.phase))
    && (i == 2 || !Protected(cfg, x.r.phase))
  }

  function Move(x: Trio, i: nat, a: Action): Trio {
    var m := Act(x.d, x.clock, i, Member(x, i), a);
    var now := if Ticks(Member(x, i), a) then x.clock + 1 else x.clock;
    Trio(m.dist, now, if i == 0 then m.self else x.p, if i == 1 then m.self else x.q, if i == 2 then m.self else x.r)
  }

  /** `moves` is a legal schedule that takes the crowd from `x` to `y`. */
  predicate Drives(cfg: Config, x: Trio, moves: Moves, y: Trio)
    decreases moves
  {
    match moves
    case Stop => x == y
    case Then(i, a, rest) => CanMove(cfg, x, i, a) && Drives(cfg, Move(x, i, a), rest, y)
  }

  predicate Below(moves: Moves, n: nat) {
    moves.Stop? || (moves.i < n && Below(moves.rest, n))
  }

  lemma {:induction false} DriveReaches(cfg: Config, n: nat, x: Trio, moves: Moves, y: Trio)
    requires Reachable(cfg, n, Crowd(n, x)) && Drives(cfg, x, moves, y) && Below(moves, n)
    ensures Reachable(cfg, n, Crowd(n, y))
    decreases moves
  {
    if moves.Then? {
      var s := Go(cfg, n, Crowd(n, x), moves.i, moves.a);
      assert s.pubs == Crowd(n, Move(x, moves.i, moves.a)).pubs;
      DriveReaches(cfg, n, Move(x, moves.i, moves.a), moves.rest, y);
    }
  }

  /** `loose` allows everything `tight` allows. */
  predicate Allows(loose: Config, tight: Config) {
    && (tight.removalMayFail ==> loose.removalMayFail) && (tight.signals ==> loose.signals)
    && (loose.statAtomic ==> tight.statAtomic) && (loose.rollbackAtomic ==> tight.rollbackAtomic)
  }

  lemma {:induction false} DriveLoosely(loose: Config, tight: Config, x: Trio, moves: Moves, y: Trio)
    requires Allows(loose, tight) && Drives(tight, x, moves, y)
    ensures Drives(loose, x, moves, y)
    decreases moves
  {
    if moves.Then? {
      DriveLoosely(loose, tight, Move(x, moves.i, moves.a), moves.rest, y);
    }
  }

  lemma BelowMore(moves: Moves, k: nat, n: nat)
    requires Below(moves, k) && k <= n
    ensures Below(moves, n)
  {
  }

  lemma Continue(cfg: Config, n: nat, tight: Config, k: nat, x: Trio, moves: Moves, y: Trio)
    requires Allows(cfg, tight) && Drives(tight, x, moves, y) && Below(moves, k) && k <= n
    requires x == Unmoved() || Reachable(cfg, n, Crowd(n, x))
    ensures Reachable(cfg, n, Crowd(n, y))
  {
    BelowMore(moves, k, n);
    Start(cfg, n);
    assert Initial(n).pubs == Crowd(n, Unmoved()).pubs;
    DriveLoosely(cfg, tight, x, moves, y);
    DriveReaches(cfg, n, x, moves, y);
  }

  // ---- A whole bundle is lost -----------------------------------------------------------------

  /** Publisher 1 enters during publisher 0's window, so it has no backup; once it rolls back, publisher 0
      still tracks the only bundle, and publisher 2 repeats the trick while 0 cleans up. */
  function LossStage1(): Trio {
    Trio(Holds(1, true), 1, Publisher(Window, true, Holds(INITIAL, true), true, false, UNMARKED),
         Publisher(Finalizing(Known(1)), false, Vacant, false, true, Mark(0, 1, false)), ReadyPublisher())
  }

  function LossStage2(): Trio {
    Trio(Holds(1, true), 1, Publisher(KeptCheck, true, Holds(INITIAL, true), true, false, UNMARKED),
         Publisher(Finalizing(Known(1)), false, Vacant, false, true, Mark(0, 1, false)), ReadyPublisher())
  }

  function LossStage3(): Trio {
    Trio(Vacant, 1, Publisher(CleanupCheck, true, Holds(INITIAL, true), true, false, UNMARKED),
         Publisher(CleanupCheck, false, Vacant, false, true, Mark(0, 1, true)), ReadyPublisher())
  }

  function LossStage4(): Trio {
    Trio(Holds(2, true), 2, Publisher(CleanupCheck, true, Holds(INITIAL, true), true, false, UNMARKED),
         Publisher(CleanupCheck, false, Vacant, false, true, Mark(0, 1, true)),
         Publisher(Finalizing(Known(2)), false, Vacant, false, true, Mark(0, 2, false)))
  }

  function LossStage5(): Trio {
    Trio(Vacant, 2, Publisher(Exited, true, Vacant, false, false, UNMARKED),
         Publisher(CleanupCheck, false, Vacant, false, true, Mark(0, 1, true)),
         Publisher(CleanupCheck, false, Vacant, false, true, Mark(0, 2, true)))
  }

  lemma LossLeg1() returns (moves: Moves)
    ensures Drives(Config(false, true, true, false), Unmoved(), moves, LossStage1()) && Below(moves, 3)
  {
    moves := Then(0, Proceed, Then(1, Proceed, Then(1, Proceed, Then(1, Proceed, Stop))));
  }

  lemma LossLeg2() returns (moves: Moves)
    ensures Drives(Config(false, true, true, false), LossStage1(), moves, LossStage2()) && Below(moves, 3)
  {
    moves := Then(0, Fail, Then(0, Fail, Then(0, Proceed, Stop)));
  }

  lemma LossLeg3() returns (moves: Moves)
    ensures Drives(Config(false, true, true, false), LossStage2(), moves, LossStage3()) && Below(moves, 3)
  {
    moves := Then(1, Fail, Then(1, Proceed, Then(0, Proceed, Stop)));
  }

  lemma LossLeg4() returns (moves: Moves)
    ensures Drives(Config(false, true, true, false), LossStage3(), moves, LossStage4()) && Below(moves, 3)
  {
    moves := Then(2, Proceed, Then(2, Proceed, Then(2, Proceed, Stop)));
  }

  lemma LossLeg5() returns (moves: Moves)
    ensures Drives(Config(false, true, true, false), LossStage4(), moves, LossStage5()) && Below(moves, 3)
  {
    moves := Then(0, Proceed, Then(0, Leave(Vacant), Then(2, Fail, Then(2, Proceed, Stop))));
  }

  lemma LossReaches2(n: nat, cfg: Config)
    requires n >= 3
    ensures Reachable(cfg, n, Crowd(n, LossStage2()))
  {
    var leg1 := LossLeg1();
    Continue(cfg, n, Config(false, true, true, false), 3, Unmoved(), leg1, LossStage1());
    var leg2 := LossLeg2();
    Continue(cfg, n, Config(false, true, true, false), 3, LossStage1(), leg2, LossStage2());
  }

  lemma LossReaches4(n: nat, cfg: Config)
    requires n >= 3
    ensures Reachable(cfg, n, Crowd(n, LossStage4()))
  {
    LossReaches2(n, cfg);
    var leg3 := LossLeg3();
    Continue(cfg, n, Config(false, true, true, false), 3, LossStage2(), leg3, LossStage3());
    var leg4 := LossLeg4();
    Continue(cfg, n, Config(false, true, true, false), 3, LossStage3(), leg4, LossStage4());
  }

  lemma ThreeCanLoseEverything(n: nat, cfg: Config)
    requires n >= 3
    ensures !AlwaysComplete(n, cfg)
  {
    LossReaches4(n, cfg);
    var leg5 := LossLeg5();
    Continue(cfg, n, Config(false, true, true, false), 3, LossStage4(), leg5, LossStage5());
    assert !Complete(Crowd(n, LossStage5()));
  }

  /** Publisher 0 leaves a gutted bundle in dist; publisher 1 takes that as its backup, so publisher 0's
      cleanup removes the last whole one, and publisher 1's rollback restores the gutted one. */
  function GuttedStage1(): Trio {
    Trio(Holds(0, true), 1, Publisher(OwnsDist, true, Holds(INITIAL, true), true, true, Mark(0, 1, false)),
         ReadyPublisher(), ReadyPublisher())
  }

  function GuttedStage2(): Trio {
    Trio(Vacant, 1, Publisher(CleanupCheck, true, Holds(INITIAL, true), true, true, Mark(0, 1, true)),
         Publisher(Window, true, Holds(0, false), true, false, Mark(1, 0, false)), ReadyPublisher())
  }

  function GuttedStage3(): Trio {
    Trio(Holds(1, true), 2, Publisher(Exited, true, Vacant, false, true, Mark(0, 1, true)),
         Publisher(Finalizing(Known(1)), true, Holds(0, false), true, true, Mark(1, 2, false)),
         ReadyPublisher())
  }

  function GuttedStage4(): Trio {
    Trio(Holds(0, false), 2, Publisher(Exited, true, Vacant, false, true, Mark(0, 1, true)),
         Publisher(CleanupCheck, true, Vacant, false, true, Mark(1, 2, true)), ReadyPublisher())
  }

  lemma GuttedLeg1() returns (moves: Moves)
    ensures Drives(Config(true, true, true, false), LiveStage(), moves, GuttedStage1()) && Below(moves, 2)
  {
    moves := Then(0, Fail, Stop);
  }

  lemma GuttedLeg2() returns (moves: Moves)
    ensures Drives(Config(true, true, true, false), GuttedStage1(), moves, GuttedStage2()) && Below(moves, 2)
  {
    moves := Then(0, Leave(Holds(0, false)), Then(0, Proceed, Then(1, Proceed, Then(0, Proceed, Stop))));
  }

  lemma GuttedLeg3() returns (moves: Moves)
    ensures Drives(Config(true, true, true, false), GuttedStage2(), moves, GuttedStage3()) && Below(moves, 2)
  {
    moves := Then(1, Proceed, Then(1, Proceed, Then(0, Proceed, Then(0, Leave(Vacant), Stop))));
  }

  lemma GuttedLeg4() returns (moves: Moves)
    ensures Drives(Config(true, true, true, false), GuttedStage3(), moves, GuttedStage4()) && Below(moves, 2)
  {
    moves := Then(1, Fail, Then(1, Proceed, Then(1, Proceed, Stop)));
  }

  lemma GuttedReaches2(n: nat, cfg: Config)
    requires n >= 2 && cfg.removalMayFail
    ensures Reachable(cfg, n, Crowd(n, GuttedStage2()))
  {
    LiveReaches(n, cfg);
    var leg1 := GuttedLeg1();
    Continue(cfg, n, Config(true, true, true, false), 2, LiveStage(), leg1, GuttedStage1());
    var leg2 := GuttedLeg2();
    Continue(cfg, n, Config(true, true, true, false), 2, GuttedStage1(), leg2, GuttedStage2());
  }

  lemma PartialRemovalCanLoseEverything(n: nat, cfg: Config)
    requires n >= 2 && cfg.removalMayFail
    ensures !AlwaysComplete(n, cfg)
  {
    GuttedReaches2(n, cfg);
    var leg3 := GuttedLeg3();
    Continue(cfg, n, Config(true, true, true, false), 2, GuttedStage2(), leg3, GuttedStage3());
    var leg4 := GuttedLeg4();
    Continue(cfg, n, Config(true, true, true, false), 2, GuttedStage3(), leg4, GuttedStage4());
    assert !Complete(Crowd(n, GuttedStage4()));
  }

  lemma {:induction false} RunKeepsLone(cfg: Config, s: State, sched: Schedule)
    requires LoneInv(s) && Valid(cfg, s, sched)
    ensures LoneInv(Exec(cfg, s, sched))
    decreases |sched|
  {
    if sched != [] {
      LoneStep(cfg, s, sched[0].0, sched[0].1);
      RunKeepsLone(cfg, Next(s, sched[0].0, sched[0].1), sched[1..]);
    }
  }

  lemma {:induction false} RunKeepsTwo(cfg: Config, s: State, sched: Schedule)
    requires !cfg.removalMayFail && TwoInv(s) && Valid(cfg, s, sched)
    ensures TwoInv(Exec(cfg, s, sched))
    decreases |sched|
  {
    if sched != [] {
      TwoStep(cfg, s, sched[0].0, sched[0].1);
      RunKeepsTwo(cfg, Next(s, sched[0].0, sched[0].1), sched[1..]);
    }
  }

  lemma FewPublishersStayComplete(n: nat, cfg: Config, s: State)
    requires n <= 1 || (n == 2 && !cfg.removalMayFail)
    requires Reachable(cfg, n, s)
    ensures Complete(s)
  {
    var sched: Schedule :| Valid(cfg, Initial(n), sched) && Exec(cfg, Initial(n), sched) == s;
    if n == 0 {
      assert sched == [];
    } else if n == 1 {
      RunKeepsLone(cfg, Initial(n), sched);
      assert WholeTree(s.dist) || WholeTree(s.pubs[0].backup);
    } else {
      RunKeepsTwo(cfg, Initial(n), sched);
      assert WholeTree(s.dist) || WholeTree(s.pubs[0].backup) || WholeTree(s.pubs[1].backup);
    }
  }

  /** Whatever the interleaving, some complete bundle is at dist or in a backup in every reachable
      state exactly when at most one publisher runs, or two run and a rollback's removal never
      stops half way. Neither atomicity assumption is needed, and signals do not matter. */
  lemma CompleteExactly(n: nat, cfg: Config)
    ensures AlwaysComplete(n, cfg) <==> n <= 1 || (n == 2 && !cfg.removalMayFail)
  {
    if n <= 1 || (n == 2 && !cfg.removalMayFail) {
      forall s | Reachable(cfg, n, s) ensures Complete(s) {
        FewPublishersStayComplete(n, cfg, s);
      }
    } else if n == 2 {
      PartialRemovalCanLoseEverything(n, cfg);
    } else {
      ThreeCanLoseEverything(n, cfg);
    }
  }

  // ---- A newer bundle is never removed ---------------------------------------------------------

  /** With both windows closed, the recorded identity is always the publisher's own. */
  predicate Owner(dist: Spot, i: int, p: Publisher) {
    match p.phase
    case Stating => dist == Holds(i, true)
    case Finalizing(id) => id == Known(i)
    case OwnsDist => dist.Holds? && dist.builder == i
    case _ => true
  }

  predicate OwnershipInv(s: State) { forall i :: 0 <= i < |s.pubs| ==> Owner(s.dist, i, s.pubs[i]) }

  lemma OwnerSelf(cfg: Config, dist: Spot, clock: nat, i: int, p: Publisher, a: Action)
    requires Owner(dist, i, p) && ActionEnabled(cfg, dist, p, a)
    ensures var r := Act(dist, clock, i, p, a); Owner(r.dist, i, r.self)
    ensures var r := Act(dist, clock, i, p, a);
            WholeTree(dist) && dist.builder != i && r.dist != dist ==> r.self.backup == dist
  {
  }

  lemma OwnershipStep(cfg: Config, s: State, i: nat, a: Action)
    requires cfg.statAtomic && cfg.rollbackAtomic && OwnershipInv(s) && Enabled(cfg, s, i, a)
    ensures OwnershipInv(Next(s, i, a)) && !RemovesForeign(s, i, a)
  {
    OwnerSelf(cfg, s.dist, s.clock, i, s.pubs[i], a);
    forall j | 0 <= j < |s.pubs| ensures Owner(Next(s, i, a).dist, j, Next(s, i, a).pubs[j]) {
      if j != i { assert Owner(s.dist, j, s.pubs[j]) && !Protected(cfg, s.pubs[j].phase); }
    }
  }

  lemma {:induction false} RunKeepsOwnership(cfg: Config, s: State, sched: Schedule)
    requires cfg.statAtomic && cfg.rollbackAtomic && OwnershipInv(s) && Valid(cfg, s, sched)
    ensures OwnershipInv(Exec(cfg, s, sched))
    decreases |sched|
  {
    if sched != [] {
      OwnershipStep(cfg, s, sched[0].0, sched[0].1);
      RunKeepsOwnership(cfg, Next(s, sched[0].0, sched[0].1), sched[1..]);
    }
  }

  /** Publisher 0 has published and awaits its finalizer. */
  function LiveStage(): Trio {
    Trio(Holds(0, true), 1, Publisher(Finalizing(Known(0)), true, Holds(INITIAL, true), true, true, Mark(0, 1, false)),
         ReadyPublisher(), ReadyPublisher())
  }

  lemma LiveReaches(n: nat, cfg: Config)
    requires n >= 1
    ensures Reachable(cfg, n, Crowd(n, LiveStage()))
  {
    var moves := Then(0, Proceed, Then(0, Proceed, Then(0, Proceed, Stop)));
    assert Drives(Config(false, true, true, false), Unmoved(), moves, LiveStage());
    Continue(cfg, n, Config(false, true, true, false), 1, Unmoved(), moves, LiveStage());
  }

  /** Publisher 1 replaces dist before publisher 0 reads its identity: 0 records 1's identity. */
  function StatWindowRemovesForeignState(): Trio {
    Trio(Holds(1, true), 2, Publisher(OwnsDist, true, Holds(INITIAL, true), true, true, Mark(0, 1, false)),
         Publisher(Stating, true, Holds(0, true), true, true, Mark(1, 2, false)), ReadyPublisher())
  }

  lemma StatWindowRemovesForeignSchedule() returns (moves: Moves)
    ensures Drives(Config(false, false, true, false), Unmoved(), moves, StatWindowRemovesForeignState())
    ensures Below(moves, 2)
  {
    moves := Then(0, Proceed, Then(0, Proceed, Then(1, Proceed, Then(1, Proceed, Then(0, Proceed, Then(0, Fail,
              Stop))))));
  }

  lemma StatWindowReaches(n: nat, cfg: Config)
    requires n >= 2 && !cfg.statAtomic
    ensures Reachable(cfg, n, Crowd(n, StatWindowRemovesForeignState()))
  {
    var moves := StatWindowRemovesForeignSchedule();
    Continue(cfg, n, Config(false, false, true, false), 2, Unmoved(), moves, StatWindowRemovesForeignState());
  }

  lemma StatWindowRemovesForeign(n: nat, cfg: Config)
    requires n >= 2 && !cfg.statAtomic
    ensures !NeverRemovesForeign(n, cfg)
  {
    StatWindowReaches(n, cfg);
    var s := Crowd(n, StatWindowRemovesForeignState());
    assert RemovesForeign(s, 0, Proceed);
  }

  /** Publisher 1 replaces dist after publisher 0 checked its identity and before it removes the tree. */
  function RollbackWindowRemovesForeignState(): Trio {
    Trio(Holds(1, true), 2, Publisher(OwnsDist, true, Holds(INITIAL, true), true, true, Mark(0, 1, false)),
         Publisher(Finalizing(Known(1)), true, Holds(0, true), true, true, Mark(1, 2, false)), ReadyPublisher())
  }

  lemma RollbackWindowRemovesForeignSchedule() returns (moves: Moves)
    ensures Drives(Config(false, true, false, false), LiveStage(), moves, RollbackWindowRemovesForeignState())
    ensures Below(moves, 2)
  {
    moves := Then(0, Fail, Then(1, Proceed, Then(1, Proceed, Then(1, Proceed, Stop))));
  }

  lemma RollbackWindowRemovesForeign(n: nat, cfg: Config)
    requires n >= 2 && !cfg.rollbackAtomic
    ensures !NeverRemovesForeign(n, cfg)
  {
    LiveReaches(n, cfg);
    var moves := RollbackWindowRemovesForeignSchedule();
    Continue(cfg, n, Config(false, true, false, false), 2, LiveStage(), moves, RollbackWindowRemovesForeignState());
    var s := Crowd(n, RollbackWindowRemovesForeignState());
    assert RemovesForeign(s, 0, Proceed);
  }

  /** A publisher never removes a bundle another one built exactly when no other publisher can run in
      the two check-then-act windows (or when there is no other publisher). */
  lemma ForeignRemovalExactly(n: nat, cfg: Config)
    ensures NeverRemovesForeign(n, cfg) <==> n <= 1 || (cfg.statAtomic && cfg.rollbackAtomic)
  {
    if n <= 1 || (cfg.statAtomic && cfg.rollbackAtomic) {
      forall s, i: nat, a | Reachable(cfg, n, s) && Enabled(cfg, s, i, a) ensures !RemovesForeign(s, i, a) {
        var sched: Schedule :| Valid(cfg, Initial(n), sched) && Exec(cfg, Initial(n), sched) == s;
        if n <= 1 {
          LoneRemovesNothingForeign(cfg, n, s, sched, i, a);
        } else {
          RunKeepsOwnership(cfg, Initial(n), sched);
          OwnershipStep(cfg, s, i, a);
        }
      }
    } else if !cfg.statAtomic {
      StatWindowRemovesForeign(n, cfg);
    } else {
      RollbackWindowRemovesForeign(n, cfg);
    }
  }

  lemma LoneRemovesNothingForeign(cfg: Config, n: nat, s: State, sched: Schedule, i: nat, a: Action)
    requires n <= 1 && Valid(cfg, Initial(n), sched) && Exec(cfg, Initial(n), sched) == s
    requires Enabled(cfg, s, i, a)
    ensures !RemovesForeign(s, i, a)
  {
    if n == 1 {
      RunKeepsLone(cfg, Initial(n), sched);
    }
  }

  // ---- A stale backup never goes live ----------------------------------------------------------

  /** Publisher `i` on its own: a backup it may still put back is whole, and a bundle it published stays
      until it is taken back. */
  predicate Calm(dist: Spot, clock: nat, i: int, p: Publisher) {
    && (dist.Holds? ==> dist.whole)
    && (p.tracked ==> p.hasBackup && WholeTree(p.backup))
    && p.mark.taken <= clock && p.mark.born <= clock && (!p.published ==> p.mark.born == 0)
    && match p.phase
       case Ready => !p.published && !p.hasBackup
       case Window => !p.published && p.hasBackup == p.tracked
       case Stating => dist == Holds(i, true) && p.hasBackup == p.tracked
       case Finalizing(id) => id == Known(i) && p.hasBackup == p.tracked
       case OwnsDist => dist == Holds(i, true) && p.hasBackup == p.tracked
       case Restoring(owned) => p.tracked && (if owned then dist.Vacant? && p.mark.withdrew else !p.published)
       case Retrying => p.tracked && !p.published
       case CleanupRestore => p.tracked && !p.published
       case KeptCheck => !p.published
       case CleanupCheck => !p.tracked || !p.published
       case CleanupRemove => !p.published
       case _ => !p.tracked
  }

  /** While `p` may still put its backup back, a bundle that overtook it is live. */
  predicate Visible(dist: Spot, p: Publisher, j: int, q: Publisher) {
    p.tracked && Overtakes(p, q) ==> dist == Holds(j, true)
  }

  predicate CalmDuo(dist: Spot, clock: nat, i: int, p: Publisher, j: int, q: Publisher) {
    && Calm(dist, clock, i, p) && Calm(dist, clock, j, q)
    && Visible(dist, p, j, q) && Visible(dist, q, i, p)
  }

  predicate Orderly(cfg: Config) { !cfg.signals && !cfg.removalMayFail && cfg.statAtomic && cfg.rollbackAtomic }

  lemma CalmSelf(cfg: Config, dist: Spot, clock: nat, i: int, p: Publisher, j: int, q: Publisher, a: Action)
    requires Orderly(cfg) && i != j && CalmDuo(dist, clock, i, p, j, q)
    requires ActionEnabled(cfg, dist, p, a) && !Protected(cfg, q.phase)
    ensures var r := Act(dist, clock, i, p, a); var now := if Ticks(p, a) then clock + 1 else clock;
            Calm(r.dist, now, i, r.self) && Visible(r.dist, r.self, j, q)
  {
  }

  lemma CalmOther(cfg: Config, dist: Spot, clock: nat, i: int, p: Publisher, j: int, q: Publisher, a: Action)
    requires Orderly(cfg) && i != j && CalmDuo(dist, clock, i, p, j, q)
    requires ActionEnabled(cfg, dist, p, a) && !Protected(cfg, q.phase)
    ensures var r := Act(dist, clock, i, p, a); var now := if Ticks(p, a) then clock + 1 else clock;
            Calm(r.dist, now, j, q) && Visible(r.dist, q, i, r.self)
  {
  }

  /** What `p` puts back has not been overtaken. */
  lemma CalmRestores(cfg: Config, dist: Spot, clock: nat, i: int, p: Publisher, j: int, q: Publisher, a: Action)
    requires CalmDuo(dist, clock, i, p, j, q) && ActionEnabled(cfg, dist, p, a) && PutsBack(dist, p, a)
    ensures !Overtakes(p, p) && !Overtakes(p, q)
  {
  }

  predicate CalmPair(s: State) {
    |s.pubs| == 2 && CalmDuo(s.dist, s.clock, 0, s.pubs[0], 1, s.pubs[1])
  }

  lemma CalmStep(cfg: Config, s: State, i: nat, a: Action)
    requires Orderly(cfg) && CalmPair(s) && Enabled(cfg, s, i, a)
    ensures CalmPair(Next(s, i, a)) && !RestoresStale(s, i, a)
  {
    var j := 1 - i;
    CalmSelf(cfg, s.dist, s.clock, i, s.pubs[i], j, s.pubs[j], a);
    CalmOther(cfg, s.dist, s.clock, i, s.pubs[i], j, s.pubs[j], a);
    if PutsBack(s.dist, s.pubs[i], a) { CalmRestores(cfg, s.dist, s.clock, i, s.pubs[i], j, s.pubs[j], a); }
  }

  lemma {:induction false} RunKeepsCalm(cfg: Config, s: State, sched: Schedule)
    requires Orderly(cfg) && CalmPair(s) && Valid(cfg, s, sched)
    ensures CalmPair(Exec(cfg, s, sched))
    decreases |sched|
  {
    if sched != [] {
      CalmStep(cfg, s, sched[0].0, sched[0].1);
      RunKeepsCalm(cfg, Next(s, sched[0].0, sched[0].1), sched[1..]);
    }
  }

  /** A lone publisher has taken its bundle back whenever it may put its backup back. */
  predicate LoneCalm(s: State) {
    && LoneInv(s)
    && var p := s.pubs[0];
    && (p.phase.Ready? || p.phase.Window? ==> !p.published)
    && (p.phase.Restoring? || (p.phase.Retrying? && s.dist.Vacant?) ==> p.published ==> p.mark.withdrew)
  }

  lemma LoneCalmStep(cfg: Config, s: State, i: nat, a: Action)
    requires LoneCalm(s) && Enabled(cfg, s, i, a)
    ensures LoneCalm(Next(s, i, a)) && !RestoresStale(s, i, a)
  {
    LoneStep(cfg, s, i, a);
  }

  lemma {:induction false} RunKeepsLoneCalm(cfg: Config, s: State, sched: Schedule)
    requires LoneCalm(s) && Valid(cfg, s, sched)
    ensures LoneCalm(Exec(cfg, s, sched))
    decreases |sched|
  {
    if sched != [] {
      LoneCalmStep(cfg, s, sched[0].0, sched[0].1);
      RunKeepsLoneCalm(cfg, Next(s, sched[0].0, sched[0].1), sched[1..]);
    }
  }

  /** A signal reaches publisher 0 in its finalizer while publisher 1 is between its two renames: the
      cleanup sees a free destination. */
  function SignalRestoresStaleState(): Trio {
    Trio(Vacant, 1, Publisher(CleanupRestore, true, Holds(INITIAL, true), true, true, Mark(0, 1, false)),
         Publisher(Window, true, Holds(0, true), true, false, Mark(1, 0, false)), ReadyPublisher())
  }

  lemma SignalRestoresStaleSchedule() returns (moves: Moves)
    ensures Drives(Config(false, true, true, true), LiveStage(), moves, SignalRestoresStaleState()) && Below(moves, 2)
  {
    moves := Then(0, Signal, Then(1, Proceed, Then(0, Proceed, Stop)));
  }

  lemma SignalRestoresStale(n: nat, cfg: Config)
    requires n >= 2 && cfg.signals
    ensures !NeverRestoresStale(n, cfg)
  {
    LiveReaches(n, cfg);
    var moves := SignalRestoresStaleSchedule();
    Continue(cfg, n, Config(false, true, true, true), 2, LiveStage(), moves, SignalRestoresStaleState());
    var s := Crowd(n, SignalRestoresStaleState());
    assert Overtakes(s.pubs[0], s.pubs[0]);
    assert RestoresStale(s, 0, Proceed);
  }

  /** Publisher 0 cannot remove its failed bundle; publisher 1 moves it aside before the last retry. */
  function FailedRemovalRestoresStaleState(): Trio {
    Trio(Vacant, 1, Publisher(Retrying, true, Holds(INITIAL, true), true, true, Mark(0, 1, false)),
         Publisher(Window, true, Holds(0, true), true, false, Mark(1, 0, false)), ReadyPublisher())
  }

  lemma FailedRemovalRestoresStaleSchedule() returns (moves: Moves)
    ensures Drives(Config(true, true, true, false), LiveStage(), moves, FailedRemovalRestoresStaleState())
    ensures Below(moves, 2)
  {
    moves := Then(0, Fail, Then(0, Leave(Holds(0, true)), Then(1, Proceed, Stop)));
  }

  lemma FailedRemovalRestoresStale(n: nat, cfg: Config)
    requires n >= 2 && cfg.removalMayFail
    ensures !NeverRestoresStale(n, cfg)
  {
    LiveReaches(n, cfg);
    var moves := FailedRemovalRestoresStaleSchedule();
    Continue(cfg, n, Config(true, true, true, false), 2, LiveStage(), moves, FailedRemovalRestoresStaleState());
    var s := Crowd(n, FailedRemovalRestoresStaleState());
    assert Overtakes(s.pubs[0], s.pubs[0]);
    assert RestoresStale(s, 0, Proceed);
  }

  /** Publisher 1 moves publisher 0's bundle aside between 0's identity check and its removal. */
  function RollbackWindowRestoresStaleState(): Trio {
    Trio(Vacant, 1, Publisher(Restoring(true), true, Holds(INITIAL, true), true, true, Mark(0, 1, false)),
         Publisher(Window, true, Holds(0, true), true, false, Mark(1, 0, false)), ReadyPublisher())
  }

  lemma RollbackWindowRestoresStaleSchedule() returns (moves: Moves)
    ensures Drives(Config(false, true, false, false), LiveStage(), moves, RollbackWindowRestoresStaleState())
    ensures Below(moves, 2)
  {
    moves := Then(0, Fail, Then(1, Proceed, Then(0, Proceed, Stop)));
  }

  lemma RollbackWindowRestoresStale(n: nat, cfg: Config)
    requires n >= 2 && !cfg.rollbackAtomic
    ensures !NeverRestoresStale(n, cfg)
  {
    LiveReaches(n, cfg);
    var moves := RollbackWindowRestoresStaleSchedule();
    Continue(cfg, n, Config(false, true, false, false), 2, LiveStage(), moves, RollbackWindowRestoresStaleState());
    var s := Crowd(n, RollbackWindowRestoresStaleState());
    assert Overtakes(s.pubs[0], s.pubs[0]);
    assert RestoresStale(s, 0, Proceed);
  }

  /** Publisher 0 records publisher 1's identity, removes 1's bundle and restores its own old backup. */
  function StatWindowRestoresStaleState(): Trio {
    Trio(Vacant, 2, Publisher(Restoring(true), true, Holds(INITIAL, true), true, true, Mark(0, 1, false)),
         Publisher(Stating, true, Holds(0, true), true, true, Mark(1, 2, false)), ReadyPublisher())
  }

  lemma StatWindowRestoresStale(n: nat, cfg: Config)
    requires n >= 2 && !cfg.statAtomic
    ensures !NeverRestoresStale(n, cfg)
  {
    StatWindowReaches(n, cfg);
    var moves := Then(0, Proceed, Stop);
    assert Drives(Config(false, false, true, false), StatWindowRemovesForeignState(), moves,
                  StatWindowRestoresStaleState());
    Continue(cfg, n, Config(false, false, true, false), 2, StatWindowRemovesForeignState(), moves,
             StatWindowRestoresStaleState());
    var s := Crowd(n, StatWindowRestoresStaleState());
    assert Overtakes(s.pubs[0], s.pubs[0]);
    assert RestoresStale(s, 0, Proceed);
  }

  /** Publisher 0 loses the race before it publishes: publisher 1 enters during its window, publishes and
      finishes, and when publisher 2 moves that bundle aside the last retry of publisher 0 finds dist free. */
  function LateRestoreStage(): Trio {
    Trio(Holds(1, true), 1, Publisher(Retrying, true, Holds(INITIAL, true), true, false, UNMARKED),
         Publisher(Finalizing(Known(1)), false, Vacant, false, true, Mark(0, 1, false)), ReadyPublisher())
  }

  function LateRestoreState(): Trio {
    Trio(Vacant, 1, Publisher(Retrying, true, Holds(INITIAL, true), true, false, UNMARKED),
         Publisher(Exited, false, Vacant, false, true, Mark(0, 1, false)),
         Publisher(Window, true, Holds(1, true), true, false, Mark(1, 0, false)))
  }

  lemma LateRestoreLeg1() returns (moves: Moves)
    ensures Drives(Config(false, true, true, false), LossStage1(), moves, LateRestoreStage()) && Below(moves, 3)
  {
    moves := Then(0, Fail, Then(0, Fail, Stop));
  }

  lemma LateRestoreLeg2() returns (moves: Moves)
    ensures Drives(Config(false, true, true, false), LateRestoreStage(), moves, LateRestoreState()) && Below(moves, 3)
  {
    moves := Then(1, Proceed, Then(2, Proceed, Stop));
  }

  lemma LateRestoreReaches(n: nat, cfg: Config)
    requires n >= 3
    ensures Reachable(cfg, n, Crowd(n, LateRestoreStage()))
  {
    var start := LossLeg1();
    Continue(cfg, n, Config(false, true, true, false), 3, Unmoved(), start, LossStage1());
    var leg1 := LateRestoreLeg1();
    Continue(cfg, n, Config(false, true, true, false), 3, LossStage1(), leg1, LateRestoreStage());
  }

  /** Three publishers are enough for a stale restore, however orderly each of them runs: the finished
      bundle of one is pushed aside by the old bundle of another. */
  lemma LateRestoreIsStale(n: nat, cfg: Config)
    requires n >= 3
    ensures !NeverRestoresStale(n, cfg)
  {
    LateRestoreReaches(n, cfg);
    var leg2 := LateRestoreLeg2();
    Continue(cfg, n, Config(false, true, true, false), 3, LateRestoreStage(), leg2, LateRestoreState());
    var s := Crowd(n, LateRestoreState());
    assert Overtakes(s.pubs[0], s.pubs[1]);
    assert RestoresStale(s, 0, Proceed);
  }

  lemma FewRestoreNothingStale(n: nat, cfg: Config, s: State, i: nat, a: Action)
    requires n <= 1 || (n == 2 && Orderly(cfg))
    requires Reachable(cfg, n, s) && Enabled(cfg, s, i, a)
    ensures !RestoresStale(s, i, a)
  {
    var sched: Schedule :| Valid(cfg, Initial(n), sched) && Exec(cfg, Initial(n), sched) == s;
    if n == 1 {
      RunKeepsLoneCalm(cfg, Initial(n), sched);
      LoneCalmStep(cfg, s, i, a);
    } else if n == 2 {
      RunKeepsCalm(cfg, Initial(n), sched);
      CalmStep(cfg, s, i, a);
    }
  }

  /** No publisher ever puts a backup live over the claim of a later bundle exactly when it is alone, or
      there are two and nothing can interrupt either: no signal during the finalizer, no failed removal,
      and neither check-then-act window open. With three publishers nothing helps. */
  lemma StaleRestoreExactly(n: nat, cfg: Config)
    ensures NeverRestoresStale(n, cfg) <==> n <= 1 || (n == 2 && Orderly(cfg))
  {
    if n <= 1 || (n == 2 && Orderly(cfg)) {
      forall s, i: nat, a | Reachable(cfg, n, s) && Enabled(cfg, s, i, a) ensures !RestoresStale(s, i, a) {
        FewRestoreNothingStale(n, cfg, s, i, a);
      }
    } else if n >= 3 {
      LateRestoreIsStale(n, cfg);
    } else if cfg.signals {
      SignalRestoresStale(n, cfg);
    } else if cfg.removalMayFail {
      FailedRemovalRestoresStale(n, cfg);
    } else if !cfg.rollbackAtomic {
      RollbackWindowRestoresStale(n, cfg);
    } else {
      StatWindowRestoresStale(n, cfg);
    }
  }
}
