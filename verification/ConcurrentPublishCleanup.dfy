/** What the publishers leave behind when no removal of a backup stops early. */
module ConcurrentPublishCleanup {
  import opened ConcurrentPublish

  /** A removal of a backup leaves nothing. */
  predicate Thorough(p: Publisher, a: Action) {
    (p.phase.Discarding? || p.phase.Superseded? || p.phase.CleanupRemove?) && a.Leave? ==> a.left.Vacant?
  }

  /** A step that gives a backup up without removing it: after a failed rollback that found dist in use, or
      because the rename of the cleanup found it in use. */
  predicate Keeps(dist: Spot, p: Publisher, a: Action) {
    (p.phase.KeptCheck? && dist.Holds?) || (p.phase.CleanupRestore? && a.Fail?)
  }

  /** Where the backup of a publisher can be; `kept` says that it took such a step. */
  predicate Local(p: Publisher, kept: bool) {
    match p.phase
    case Ready => !p.hasBackup && p.backup.Vacant? && !p.tracked && !kept
    case Discarding => p.hasBackup && p.backup.Holds? && !p.tracked && !kept
    case Superseded => p.hasBackup == p.backup.Holds? && !p.tracked && !kept
    case CleanupCheck => (p.tracked ==> p.backup.Holds? && !kept) && (!p.tracked ==> p.backup.Holds? == kept)
    case CleanupRestore => p.backup.Holds? && p.tracked && !kept
    case CleanupRemove => p.backup.Holds? && p.tracked && !kept
    case Exited => p.backup.Holds? == kept
    case _ => p.hasBackup == p.backup.Holds? == p.tracked && !kept && (Rollback(p.phase) ==> p.hasBackup)
  }

  predicate Rollback(phase: Phase) { phase.Restoring? || phase.Retrying? || phase.KeptCheck? }

  lemma LocalStep(cfg: Config, dist: Spot, clock: nat, i: int, p: Publisher, a: Action, kept: bool)
    requires ActionEnabled(cfg, dist, p, a) && Thorough(p, a) && Local(p, kept)
    ensures Local(Act(dist, clock, i, p, a).self, kept || Keeps(dist, p, a))
  {
  }

  ghost predicate AllThorough(cfg: Config, s: State, sched: Schedule)
    requires Valid(cfg, s, sched)
    decreases |sched|
  {
    sched == [] ||
    (Thorough(s.pubs[sched[0].0], sched[0].1) && AllThorough(cfg, Next(s, sched[0].0, sched[0].1), sched[1..]))
  }

  /** Publisher `i` keeps its backup somewhere in the run. */
  ghost predicate KeepsIn(cfg: Config, s: State, sched: Schedule, i: nat)
    requires Valid(cfg, s, sched)
    decreases |sched|
  {
    sched != [] &&
    ((sched[0].0 == i && Keeps(s.dist, s.pubs[i], sched[0].1))
     || KeepsIn(cfg, Next(s, sched[0].0, sched[0].1), sched[1..], i))
  }

  lemma {:induction false} RunIsLocal(cfg: Config, s: State, sched: Schedule, i: nat, kept: bool)
    requires Valid(cfg, s, sched) && AllThorough(cfg, s, sched) && i < |s.pubs| && Local(s.pubs[i], kept)
    ensures i < |Exec(cfg, s, sched).pubs|
    ensures Local(Exec(cfg, s, sched).pubs[i], kept || KeepsIn(cfg, s, sched, i))
    decreases |sched|
  {
    if sched != [] {
      var j, a := sched[0].0, sched[0].1;
      if j == i { LocalStep(cfg, s.dist, s.clock, i, s.pubs[i], a, kept); }
      RunIsLocal(cfg, Next(s, j, a), sched[1..], i, kept || (j == i && Keeps(s.dist, s.pubs[i], a)));
    }
  }

  /** When every removal of a backup is thorough, a publisher that has exited leaves a backup exactly if it
      gave it up without removing it. */
  lemma BackupsAreRemoved(cfg: Config, n: nat, sched: Schedule, i: nat)
    requires Valid(cfg, Initial(n), sched) && AllThorough(cfg, Initial(n), sched) && i < n
    ensures i < |Exec(cfg, Initial(n), sched).pubs|
    ensures var p := Exec(cfg, Initial(n), sched).pubs[i];
            p.phase.Exited? ==> (p.backup.Holds? <==> KeepsIn(cfg, Initial(n), sched, i))
  {
    RunIsLocal(cfg, Initial(n), sched, i, false);
  }
}
