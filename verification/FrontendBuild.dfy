/** The frontend build's publish transaction in one process, with every file-system call free to fail.

    `files` maps a path to the node it holds. `faults` decides, call by call, what the next rename,
    stat, removal or finalizer does; quantifying over it covers every combination of outcomes,
    including a signal that arrives while an `await` is pending. Removals of a directory that fail may
    have deleted any part of it. Only this process writes. */
module FrontendBuild {
  import opened Prelude

  type Path = nat

  /** A file or directory. `data` is its content; an emptied directory has no data. */
  datatype Node = Node(ino: nat, isDir: bool, data: seq<nat>)

  type Files = map<Path, Node>

  datatype Fault =
    | Fine
    | Errno                          // fails without effect
    | Partial(rest: seq<nat>)        // a directory removal stops and leaves `rest`
    | Vanished                       // a directory removal throws after deleting everything
    | Interrupt                      // a signal arrives while this await is pending

  datatype Rename = Renamed | Missing | Refused

  datatype Ending = Completed | Thrown | Interrupted

  datatype Finalizer =
    | NoFinalizer
    | Custom                                                       // succeeds or throws, touches no path here
    | PublishMeta(staged: Path, meta: Path, backup: Path)
    | RemoveMeta(meta: Path)

  /** POSIX rename of an existing `src`: a directory replaces only an empty directory, a file only a file. */
  predicate CanRename(f: Files, src: Path, dst: Path) {
    src in f && (dst in f ==> f[src].isDir == f[dst].isDir && (f[src].isDir ==> f[dst].data == []))
  }

  function Moved(f: Files, src: Path, dst: Path): Files
    requires src in f
  {
    (f - {src})[dst := f[src]]
  }

  /** Whether a removal that meets `f` leaves something of `n` behind. */
  predicate LeftBy(n: Node, recursive: bool, f: Fault) {
    if n.isDir then !recursive || !(f.Fine? || f.Vanished?) else !f.Fine?
  }

  /** How many of the coming calls do something other than succeed. */
  function Bad(faults: seq<Fault>): nat {
    if faults == [] then 0 else (if faults[0].Fine? then 0 else 1) + Bad(faults[1..])
  }

  /** What call number `k` from here does. */
  function Nth(faults: seq<Fault>, k: nat): Fault { if k < |faults| then faults[k] else Fine }

  /** The calls after the next `k`. */
  function Drop(faults: seq<Fault>, k: nat): seq<Fault> { if k <= |faults| then faults[k..] else [] }

  lemma {:induction false} NoneBad(faults: seq<Fault>, k: nat)
    requires Bad(faults) == 0
    ensures Nth(faults, k).Fine?
  {
    if faults != [] && k > 0 {
      NoneBad(faults[1..], k - 1);
    }
  }

  lemma DropMore(faults: seq<Fault>, j: nat, k: nat)
    ensures Drop(Drop(faults, j), k) == Drop(faults, j + k)
  {
  }

  function FailuresToExplain(threw: bool, rollbackFailed: bool): nat {
    (if threw then 1 else 0) + (if rollbackFailed then 1 else 0)
  }

  function At(f: Files, p: Path): Option<Node> {
    if p in f then Some(f[p]) else None
  }

  class Build {
    var files: Files
    var temp: map<Path, Option<Path>>     // tempPaths: path to its restoreTo
    var faults: seq<Fault>

    method NextFault() returns (f: Fault)
      modifies this`faults
      ensures f == Nth(old(faults), 0) && faults == Drop(old(faults), 1)
      ensures Bad(faults) == Bad(old(faults)) - (if f.Fine? then 0 else 1)
    {
      if faults == [] {
        f := Fine;
      } else {
        f := faults[0];
        faults := faults[1..];
      }
    }

    method RenameSync(src: Path, dst: Path) returns (r: Rename)
      modifies this`files, this`faults
      ensures r == Missing <==> src !in old(files)
      ensures r == Renamed <==> Nth(old(faults), 0).Fine? && CanRename(old(files), src, dst)
      ensures r == Renamed ==> files == Moved(old(files), src, dst)
      ensures r != Renamed ==> files == old(files)
      ensures faults == Drop(old(faults), 1) && Bad(faults) <= Bad(old(faults))
      ensures r != Renamed && CanRename(files, src, dst) ==> Bad(faults) < Bad(old(faults))
    {
      var f := NextFault();
      if src !in files {
        r := Missing;
      } else if f.Fine? && CanRename(files, src, dst) {
        files := Moved(files, src, dst);
        r := Renamed;
      } else {
        r := Refused;
      }
    }

    /** `fileIdentity`: undefined when the path is absent or the stat fails. */
    method FileIdentity(p: Path) returns (id: Option<nat>, ghost failed: bool)
      modifies this`faults
      ensures id == if p in files && !failed then Some(files[p].ino) else None
      ensures failed == !Nth(old(faults), 0).Fine? && faults == Drop(old(faults), 1)
      ensures Bad(faults) == Bad(old(faults)) - (if failed then 1 else 0)
    {
      var f := NextFault();
      failed := !f.Fine?;
      id := if p in files && f.Fine? then Some(files[p].ino) else None;
    }

    /** `rmSync`/`rm` with `force`: removing an absent path succeeds. A failed removal of a file leaves
        it alone; a failed recursive removal of a directory leaves any part of it. A signal can only
        arrive during an awaited removal. */
    method Remove(p: Path, recursive: bool, awaited: bool) returns (e: Ending)
      modifies this`files, this`faults
      ensures e == Completed ==> files == old(files) - {p}
      ensures files - {p} == old(files) - {p}
      ensures p in files ==> p in old(files)
      ensures e == Thrown && p in old(files) && !old(files)[p].isDir ==> files == old(files)
      ensures !awaited ==> e != Interrupted
      ensures Bad(faults) <= Bad(old(faults))
      ensures e == Interrupted || (e == Thrown && (p in old(files) && old(files)[p].isDir ==> recursive)) ==>
                Bad(faults) < Bad(old(faults))
      ensures awaited && (p in old(files) && old(files)[p].isDir ==> recursive) ==>
                (e == Thrown <==> p in old(files) && Throws(Nth(old(faults), 0)))
      ensures e == Interrupted <==> awaited && Nth(old(faults), 0).Interrupt?
      ensures e != Interrupted ==> faults == Drop(old(faults), 1)
      ensures e != Interrupted ==>
                (p in files <==> p in old(files) && LeftBy(old(files)[p], recursive, Nth(old(faults), 0)))
    {
      var f := NextFault();
      if f.Interrupt? && awaited {
        var g := NextFault();
        if p in files && g.Partial? && files[p].isDir && recursive {
          files := files[p := files[p].(data := g.rest)];
        } else if g.Vanished? {
          files := files - {p};
        }
        e := Interrupted;
      } else if p !in files {
        e := Completed;
      } else if f.Fine? && (files[p].isDir ==> recursive) {
        files := files - {p};
        e := Completed;
      } else if files[p].isDir && recursive && f.Partial? {
        files := files[p := files[p].(data := f.rest)];
        e := Thrown;
      } else if files[p].isDir && recursive && f.Vanished? {
        files := files - {p};
        e := Thrown;
      } else {
        e := Thrown;
      }
    }

    method TrackTempPath(p: Path, restoreTo: Option<Path>)
      modifies this`temp
      ensures temp == old(temp)[p := restoreTo]
    {
      temp := temp[p := restoreTo];
    }

    /** The path is no longer tracked even when its removal fails or is cut short. */
    method UntrackTempPath(p: Path, recursive: bool) returns (e: Ending)
      modifies this
      ensures temp == old(temp) - {p}
      ensures e == Completed ==> files == old(files) - {p}
      ensures files - {p} == old(files) - {p} && (p in files ==> p in old(files))
      ensures Bad(faults) <= Bad(old(faults))
      ensures e == Interrupted || (e == Thrown && (recursive || p !in old(files))) ==> Bad(faults) < Bad(old(faults))
      ensures e == Interrupted <==> Nth(old(faults), 0).Interrupt?
      ensures e != Interrupted ==> faults == Drop(old(faults), 1)
      ensures e != Interrupted ==>
                (p in files <==> p in old(files) && LeftBy(old(files)[p], recursive, Nth(old(faults), 0)))
    {
      temp := temp - {p};
      e := Remove(p, recursive, true);
    }

    /** Only ever a restore: the path is renamed back when its destination is free and the call works,
        otherwise nothing changes. */
    method RestoreTempPath(p: Path)
      modifies this
      ensures if p in old(temp) && Restorable(old(temp), old(files), p) && Nth(old(faults), 0).Fine? then
                files == Moved(old(files), p, old(temp)[p].value) && temp == old(temp) - {p}
              else
                files == old(files) && temp == old(temp)
      ensures p in old(temp) && Restorable(old(temp), old(files), p) ==> faults == Drop(old(faults), 1)
      ensures Bad(faults) <= Bad(old(faults))
    {
      if p in temp && temp[p].Some? && p in files && temp[p].value !in files {
        var r := RenameSync(p, temp[p].value);
        if r == Renamed {
          temp := temp - {p};
        }
      }
    }

    /** One round of the cleanup loop: forget the path, then restore it if its destination is free,
        otherwise remove it. Nothing but the path and a free destination changes. */
    method RemoveTempPath(p: Path)
      requires p in temp
      modifies this
      ensures temp == old(temp) - {p} && temp.Keys == old(temp).Keys - {p}
      ensures Elsewhere(old(files), files, p, old(temp)[p])
      ensures Restorable(old(temp), old(files), p) ==>
                files == if Nth(old(faults), 0).Fine? then Moved(old(files), p, old(temp)[p].value) else old(files)
      ensures !Restorable(old(temp), old(files), p) ==>
                (p in files <==> p in old(files) && LeftBy(old(files)[p], true, Nth(old(faults), 0)))
      ensures faults == Drop(old(faults), 1) && Bad(faults) <= Bad(old(faults))
    {
      var restoreTo := temp[p];
      temp := temp - {p};
      if restoreTo.Some? && p in files && restoreTo.value !in files {
        var _ := RenameSync(p, restoreTo.value);
      } else {
        ghost var before := files;
        var _ := Remove(p, true, false);
        OutsideUnchanged(before, files, p);
      }
    }

    /** Forgets every tracked path. A backup whose destination is free ends up there or stays where it
        is; a destination that already holds something is never touched. Entries are visited in any order. */
    method RemoveTempPaths()
      modifies this
      ensures temp == map[]
      ensures forall q :: q !in old(temp) && q !in Targets(old(temp)) ==> At(files, q) == At(old(files), q)
      ensures Tidy(old(temp)) ==>
                forall q :: q in Targets(old(temp)) && q in old(files) ==> At(files, q) == At(old(files), q)
      ensures Tidy(old(temp)) ==>
                forall p :: p in old(temp) && Restorable(old(temp), old(files), p) ==>
                  Survives(files, p, old(temp)[p].value, old(files)[p])
      // When every call works, each tracked path is gone, and restored where its destination was free.
      ensures Tidy(old(temp)) && Bad(old(faults)) == 0 ==>
                forall p :: p in old(temp) ==> Dropped(old(temp), old(files), files, p)
    {
      ghost var before, start := files, temp;
      while temp != map[]
        invariant temp.Keys <= start.Keys && forall p :: p in temp ==> temp[p] == start[p]
        invariant forall q :: q !in start && q !in Targets(start) ==> At(files, q) == At(before, q)
        invariant Tidy(start) ==>
                    forall q :: q in Targets(start) && q in before ==> At(files, q) == At(before, q)
        invariant Bad(faults) <= Bad(old(faults))
        invariant Tidy(start) ==>
                    forall p :: p in start ==>
                      Cleaning(start, before, files, temp.Keys, p, Bad(old(faults)) == 0)
        decreases temp.Keys
      {
        var p :| p in temp;
        assert start[p].Some? ==> start[p].value in Targets(start);
        if Bad(faults) == 0 { NoneBad(faults, 0); }
        ghost var f, left := files, temp.Keys;
        RemoveTempPath(p);
        if Tidy(start) {
          forall q | q in start
            ensures Cleaning(start, before, files, temp.Keys, q, Bad(old(faults)) == 0)
          {
            CleaningStep(start, before, f, files, left, p, q, Bad(old(faults)) == 0);
          }
        }
      }
    }

    /** The first rename of both transactions: track the backup, move the live path onto it, and forget
        the backup again if there was nothing to move or the rename failed. */
    method MoveAside(live: Path, backup: Path) returns (r: Rename)
      requires live != backup && backup !in files && backup !in temp
      modifies this
      ensures r == Missing <==> live !in old(files)
      ensures r == Renamed ==> files == Moved(old(files), live, backup) && temp == old(temp)[backup := Some(live)]
      ensures r != Renamed ==> files == old(files) && temp == old(temp)
      ensures Bad(faults) + (if r == Refused then 1 else 0) <= Bad(old(faults))
      ensures faults == Drop(old(faults), 1) && (r == Refused <==> live in old(files) && !Nth(old(faults), 0).Fine?)
    {
      ghost var t0 := temp;
      TrackTempPath(backup, Some(live));
      r := RenameSync(live, backup);
      if r != Renamed {
        temp := temp - {backup};
        assert temp == t0;
      }
    }

    /** The catch block of publishMetafile: the previous metafile is renamed back, with one more attempt. */
    method PutMetafileBack(meta: Path, backup: Path) returns (ghost failed: bool)
      requires meta != backup && meta !in files && backup in files && backup in temp && temp[backup] == Some(meta)
      modifies this
      ensures (files == Moved(old(files), backup, meta) && temp == old(temp) - {backup}) ||
              (failed && files == old(files) && temp == old(temp))
      ensures failed == !Nth(old(faults), 0).Fine? && faults == Drop(old(faults), if failed then 2 else 1)
      ensures Bad(faults) + (if failed then 1 else 0) <= Bad(old(faults))
    {
      var back := RenameSync(backup, meta);
      failed := back != Renamed;
      if back == Renamed {
        temp := temp - {backup};
      } else {
        DropMore(old(faults), 1, 1);
        RestoreTempPath(backup);
      }
    }

    /** publishMetafile once the previous metafile is out of the way; `f0` and `t0` are the state before. */
    method MoveMetafileIn(staged: Path, meta: Path, backup: Path, hasBackup: bool,
                          ghost f0: Files, ghost t0: map<Path, Option<Path>>)
      returns (e: Ending, ghost rollbackFailed: bool)
      requires staged != meta && staged != backup && meta != backup && hasBackup == (meta in f0)
      requires backup !in f0 && backup !in t0
      requires if hasBackup then files == Moved(f0, meta, backup) && temp == t0[backup := Some(meta)]
               else files == f0 && temp == t0
      modifies this
      ensures MetaOutcome(f0, t0, files, temp, staged, meta, backup, e, rollbackFailed)
      ensures Bad(faults) + FailuresToExplain(e == Interrupted || (e == Thrown && staged in f0), rollbackFailed)
              <= Bad(old(faults))
      ensures e == Thrown <==> !Nth(old(faults), 0).Fine? || staged !in f0
      ensures e == Thrown ==>
                faults == Drop(old(faults), if !hasBackup then 1 else if Nth(old(faults), 1).Fine? then 2 else 3)
      ensures e == Completed ==> faults == Drop(old(faults), if hasBackup then 2 else 1)
      ensures e == Completed ==>
                (backup in files <==> meta in f0 && LeftBy(f0[meta], false, Nth(old(faults), 1)))
    {
      ghost var fs := faults;
      rollbackFailed := false;
      assert hasBackup ==> temp - {backup} == t0;
      var r := RenameSync(staged, meta);
      if r != Renamed {
        if hasBackup {
          rollbackFailed := PutMetafileBack(meta, backup);
          DropMore(fs, 1, if rollbackFailed then 2 else 1);
        }
        return Thrown, rollbackFailed;
      }
      e := Completed;
      if hasBackup {
        ghost var before := files;
        DropMore(fs, 1, 1);
        var gone := UntrackTempPath(backup, false);
        OutsideUnchanged(before, files, backup);
        e := if gone == Interrupted then Interrupted else Completed;
      }
    }

    /** Publishes the metafile, or puts the previous one (or its absence) back. */
    method PublishMetafile(staged: Path, meta: Path, backup: Path)
      returns (e: Ending, ghost rollbackFailed: bool)
      requires staged != meta && staged != backup && meta != backup
      requires backup !in files && backup !in temp
      modifies this
      ensures MetaOutcome(old(files), old(temp), files, temp, staged, meta, backup, e, rollbackFailed)
      ensures Bad(faults) + FailuresToExplain(e == Interrupted || (e == Thrown && staged in old(files)), rollbackFailed)
              <= Bad(old(faults))
      ensures e == Thrown <==> MetaThrows(old(files), staged, meta, old(faults))
      ensures e == Thrown ==> faults == Drop(old(faults), MetaCalls(old(files), meta, old(faults)))
      ensures e == Completed ==> faults == Drop(old(faults), if meta in old(files) then 3 else 2)
      ensures e == Completed ==>
                (backup in files <==> meta in old(files) && LeftBy(old(files)[meta], false, Nth(old(faults), 2)))
    {
      ghost var f0, t0, fs := files, temp, faults;
      var aside := MoveAside(meta, backup);
      if aside == Refused {
        return Thrown, false;
      }
      e, rollbackFailed := MoveMetafileIn(staged, meta, backup, aside == Renamed, f0, t0);
      DropMore(fs, 1, 1);
      DropMore(fs, 1, 2);
      DropMore(fs, 1, 3);
    }

    /** Runs the finalizer. A custom one succeeds, throws or is interrupted, and touches no path here. */
    method Finalize(fin: Finalizer) returns (e: Ending, ghost rollbackFailed: bool)
      requires fin.PublishMeta? ==> fin.staged != fin.meta && fin.staged != fin.backup && fin.meta != fin.backup
      requires fin.PublishMeta? ==> fin.backup !in files && fin.backup !in temp
      requires MetaIsFile(files, fin)
      modifies this
      ensures Untouched(old(files), files, FinalizerPaths(fin))
      ensures e == Completed ==> Finalized(old(files), files, fin) && (fin.PublishMeta? ==> At(files, fin.staged).None?)
      ensures e == Interrupted && fin.PublishMeta? ==> Finalized(old(files), files, fin)
      ensures e != Thrown ==> temp == old(temp) && !rollbackFailed
      ensures e == Thrown && !rollbackFailed ==> NotFinalized(old(files), files, fin) && temp == old(temp)
      ensures temp == old(temp) ||
              (e == Thrown && fin.PublishMeta? && temp == old(temp)[fin.backup := Some(fin.meta)])
      ensures e == Thrown <==> FinalizerThrows(old(files), fin, old(faults))
      ensures e == Thrown ==> faults == Drop(old(faults), FinalizerCalls(old(files), fin, old(faults)))
      ensures e == Completed ==> faults == Drop(old(faults), FinishedCalls(old(files), fin))
      ensures e == Completed && fin.PublishMeta? ==>
                (fin.backup in files <==> MetaLeft(old(files), fin, old(faults)))
      ensures Bad(faults) + FailuresToExplain(e == Interrupted || (e == Thrown
                && FinalizerReady(old(files), fin)), rollbackFailed)
              <= Bad(old(faults))
    {
      rollbackFailed := false;
      match fin
      case NoFinalizer =>
        e := Completed;
      case Custom =>
        var f := NextFault();
        e := if f.Fine? then Completed else if f.Interrupt? then Interrupted else Thrown;
      case PublishMeta(staged, meta, backup) =>
        e, rollbackFailed := PublishMetafile(staged, meta, backup);
      case RemoveMeta(meta) =>
        ghost var before := files;
        e := Remove(meta, false, true);
        OutsideUnchanged(before, files, meta);
    }

    /** The catch block of publishDist. `hasBackup` says the previous bundle is at `backup`; `owns`
        says both stats confirmed that dist is the bundle this run published. */
    method RollBack(dist: Path, backup: Path, hasBackup: bool, published: bool, owns: bool)
      returns (e: Ending, ghost rollbackFailed: bool)
      requires dist != backup && (owns ==> published)
      requires hasBackup ==> backup in files && backup in temp && temp[backup] == Some(dist)
      requires !hasBackup ==> backup !in files && backup !in temp
      requires if published then dist in files else hasBackup ==> dist !in files
      modifies this
      ensures Untouched(old(files), files, {dist, backup})
      ensures temp == old(temp) || temp == old(temp) - {backup}
      ensures hasBackup && (published ==> owns) ==> DistKept(files, temp, dist, backup, old(files)[backup])
      ensures (published ==> owns) && !rollbackFailed ==>
                At(files, dist) == (if hasBackup then At(old(files),
                          backup) else if owns then None else At(old(files), dist))
                && backup !in temp && backup !in files
      ensures published && !owns ==> At(files, dist) == At(old(files), dist) && backup !in temp && !rollbackFailed
      ensures e == Interrupted ==> published && !owns
      ensures e != Completed
      ensures published && !owns && Bad(old(faults)) == 0 ==> e == Thrown && backup !in files
      ensures rollbackFailed && (published ==> old(files)[dist].isDir) ==> Bad(faults) < Bad(old(faults))
      ensures Bad(faults) <= Bad(old(faults))
    {
      rollbackFailed := false;
      var errors := false;
      ghost var start := files;
      if owns {
        var removed := Remove(dist, true, false);
        OutsideUnchanged(start, files, dist);
        errors := removed != Completed;
      }
      assert At(files, backup) == At(start, backup);
      if hasBackup && !errors && (!published || owns) {
        var back := RenameSync(backup, dist);
        if back == Renamed {
          temp := temp - {backup};
        } else {
          errors := true;
        }
      }
      if published && !owns {
        ghost var before := files;
        var gone := UntrackTempPath(backup, true);
        OutsideUnchanged(before, files, backup);
        if gone == Interrupted {
          return Interrupted, false;
        }
      }
      if errors {
        rollbackFailed := true;
        RestoreTempPath(backup);
        if backup in temp && dist in files {
          temp := temp - {backup};
        }
      }
      e := Thrown;
    }

    /** The start of the catch block: is the bundle at dist still the one whose identity was read? */
    method OwnsPublished(dist: Path, identity: Option<nat>) returns (owns: bool, ghost statFailed: bool)
      requires dist in files && (identity.Some? ==> identity.value == files[dist].ino)
      modifies this`faults
      ensures owns == !statFailed
      ensures statFailed == (identity.None? || !Nth(old(faults), 0).Fine?)
      ensures Bad(faults) == Bad(old(faults)) - (if identity.Some? && statFailed then 1 else 0)
    {
      owns, statFailed := false, true;
      if identity.Some? {
        var now;
        now, statFailed := FileIdentity(dist);
        owns := now == identity;
      }
    }

    /** The end of publishDist without an error: the backup is dropped. */
    method DropBackup(backup: Path, hasBackup: bool) returns (e: Ending)
      requires !hasBackup ==> backup !in files && backup !in temp
      modifies this
      ensures Untouched(old(files), files, {backup}) && temp == old(temp) - {backup}
      ensures e != Thrown && (e == Interrupted ==> Bad(faults) < Bad(old(faults)))
      ensures Bad(faults) <= Bad(old(faults))
      ensures e == Interrupted <==> hasBackup && Nth(old(faults), 0).Interrupt?
      ensures e == Completed ==>
                (backup in files <==> backup in old(files) && LeftBy(old(files)[backup], true, Nth(old(faults), 0)))
    {
      e := Completed;
      if hasBackup {
        ghost var before := files;
        var gone := UntrackTempPath(backup, true);
        OutsideUnchanged(before, files, backup);
        e := if gone == Interrupted then Interrupted else Completed;
      } else {
        assert temp - {backup} == temp;
      }
    }

    /** The catch block after the finalizer threw. `live` and `tracked` are the state the finalizer found. */
    method CatchFinalizer(dist: Path, backup: Path, hasBackup: bool, fin: Finalizer, identity: Option<nat>,
                          ghost live: Files, ghost tracked: map<Path, Option<Path>>, ghost metaFailed: bool)
      returns (e: Ending, ghost how: How)
      requires BundleIn(live, tracked, dist, backup, hasBackup, fin)
      requires Untouched(live, files, FinalizerPaths(fin))
      requires temp == tracked || (fin.PublishMeta? && temp == tracked[fin.backup := Some(fin.meta)])
      requires !metaFailed ==> NotFinalized(live, files, fin) && temp == tracked
      requires identity.Some? ==> identity.value == live[dist].ino
      modifies this
      ensures FinishOutcome(live, tracked, files, temp, dist, backup, hasBackup, fin, e, how)
      ensures how.threw && (metaFailed ==> how.rollbackFailed)
      ensures how.statFailed == (identity.None? || !Nth(old(faults), 0).Fine?)
      ensures Bad(faults) <= Bad(old(faults))
      ensures live[dist].isDir && !metaFailed && (how.rollbackFailed || (how.statFailed && identity.Some?)) ==>
                Bad(faults) < Bad(old(faults))
      ensures how.statFailed && Bad(old(faults)) <= (if identity.Some? then 1 else 0) ==>
                e == Thrown && backup !in files
    {
      assert At(files, dist) == At(live, dist) && At(files, backup) == At(live, backup);
      ghost var f1 := files;
      var owns, statFailed := OwnsPublished(dist, identity);
      ghost var undone;
      e, undone := RollBack(dist, backup, hasBackup, true, owns);
      how := How(metaFailed || undone, true, statFailed);
      assert forall q :: q in FinalizerPaths(fin) ==> At(files, q) == At(f1, q);
    }

    /** The end of publishDist after the finalizer completed. `live` and `tracked` are the state it found, and
        `calls` what was to come at the stat before it. */
    method KeepPublished(dist: Path, backup: Path, hasBackup: bool, fin: Finalizer, ghost live: Files,
                         ghost tracked: map<Path, Option<Path>>, ghost calls: seq<Fault>, ghost statFailed: bool)
      returns (e: Ending)
      requires BundleIn(live, tracked, dist, backup, hasBackup, fin) && temp == tracked
      requires Untouched(live, files, FinalizerPaths(fin)) && Finalized(live, files, fin)
      requires fin.PublishMeta? ==> At(files, fin.staged).None?
      requires fin.PublishMeta? ==> (fin.backup in files <==> MetaLeft(live, fin, Drop(calls, 1)))
      requires faults == Drop(calls, 1 + FinishedCalls(live, fin))
      modifies this
      ensures FinishOutcome(live, tracked, files, temp, dist, backup, hasBackup, fin, e, How(false, false, statFailed))
      ensures e == Interrupted ==> Bad(faults) < Bad(old(faults))
      ensures Bad(faults) <= Bad(old(faults))
      ensures e == Completed ==> Leftovers(live, files, At(live, backup), backup, fin, calls)
    {
      ghost var f1 := files;
      assert At(f1, dist) == At(live, dist) && At(f1, backup) == At(live, backup);
      e := DropBackup(backup, hasBackup);
      assert forall q :: q in FinalizerPaths(fin) ==> At(files, q) == At(f1, q);
    }

    /** publishDist once the staged bundle is live: read its identity, run the finalizer, and either
        drop the backup or roll back. */
    method FinishPublish(dist: Path, backup: Path, hasBackup: bool, fin: Finalizer)
      returns (e: Ending, ghost how: How)
      requires BundleIn(files, temp, dist, backup, hasBackup, fin)
      modifies this
      ensures FinishOutcome(old(files), old(temp), files, temp, dist, backup, hasBackup, fin, e, how)
      ensures old(files)[dist].isDir && FinalizerReady(old(files), fin) ==>
                Bad(faults) + FailuresToExplain(e != Completed, how.Excepted()) <= Bad(old(faults))
      ensures how.Disowned() && FinalizerReady(old(files), fin) && Bad(old(faults)) <= 2 ==>
                e == Thrown && backup !in files
      ensures how.Disowned() <==> Unrecognised(old(files), fin, old(faults))
      ensures e == Completed ==> Leftovers(old(files), files, At(old(files), backup), backup, fin, old(faults))
    {
      ghost var live, tracked, calls := files, temp, faults;
      var identity, failed := FileIdentity(dist);
      ghost var metaFailed;
      e, metaFailed := Finalize(fin);
      how := How(false, false, failed);
      if e == Thrown {
        e, how := CatchFinalizer(dist, backup, hasBackup, fin, identity, live, tracked, metaFailed);
      } else if e == Completed {
        DropMore(calls, 1, FinishedCalls(live, fin));
        e := KeepPublished(dist, backup, hasBackup, fin, live, tracked, calls, failed);
      }
    }

    /** The rename that makes the staged bundle live, or the rollback of an unpublished run. */
    method RenameIn(staged: Path, dist: Path, backup: Path, hasBackup: bool)
      returns (live: bool, ghost rollbackFailed: bool)
      requires staged != dist && staged != backup && dist != backup && dist !in files
      requires hasBackup ==> backup in files && backup in temp && temp[backup] == Some(dist)
      requires !hasBackup ==> backup !in files && backup !in temp
      modifies this
      ensures live <==> staged in old(files) && Nth(old(faults), 0).Fine?
      ensures live ==> files == Moved(old(files), staged, dist) && faults == Drop(old(faults), 1)
      ensures live ==> temp == old(temp) && !rollbackFailed
      ensures !live ==> Untouched(old(files), files, {dist, backup})
      ensures temp == old(temp) || temp == old(temp) - {backup}
      ensures !live && hasBackup ==> DistKept(files, temp, dist, backup, old(files)[backup])
      ensures !live && !rollbackFailed ==> At(files, dist) == At(old(files), backup) && backup !in temp
      ensures Bad(faults) + FailuresToExplain(!live && staged in old(files), rollbackFailed) <= Bad(old(faults))
    {
      var r := RenameSync(staged, dist);
      live, rollbackFailed := r == Renamed, false;
      if !live {
        var ended;
        ended, rollbackFailed := RollBack(dist, backup, hasBackup, false, false);
      }
    }

    /** `publishDist` from the moment the staged bundle is live. `f0` and `t0` are the state before. */
    method FinishRenamed(staged: Path, dist: Path, backup: Path, hasBackup: bool, fin: Finalizer,
                         ghost f0: Files, ghost t0: map<Path, Option<Path>>)
      returns (e: Ending, ghost how: How)
      requires Setup(f0, t0, staged, dist, backup, fin) && staged in f0 && hasBackup == (dist in f0)
      requires Untouched(f0, files, {staged, dist, backup}) && At(files, staged).None?
      requires At(files, dist) == At(f0, staged) && At(files, backup) == At(f0, dist)
      requires temp == if hasBackup then t0[backup := Some(dist)] else t0
      modifies this
      ensures DistOutcome(f0, t0, files, temp, staged, dist, backup, fin, e, how)
      ensures Ready(f0, staged, fin) ==>
                Bad(faults) + FailuresToExplain(e != Completed, how.Excepted()) <= Bad(old(faults))
      ensures how.Disowned() && FinalizerReady(f0, fin) && Bad(old(faults)) <= 2 ==> e == Thrown && backup !in files
      ensures how.Disowned() <==> Unrecognised(f0, fin, old(faults))
      ensures e == Completed ==> Leftovers(f0, files, At(f0, dist), backup, fin, old(faults))
    {
      ghost var f1 := files;
      assert temp - {backup} == t0;
      e, how := FinishPublish(dist, backup, hasBackup, fin);
      assert fin.PublishMeta? ==> At(f1, fin.staged) == At(f0, fin.staged) && At(f1, fin.meta) == At(f0, fin.meta);
      assert fin.RemoveMeta? ==> At(f1, fin.meta) == At(f0, fin.meta);
    }

    /** `publishDist` once the previous bundle is out of the way. */
    method PublishStaged(staged: Path, dist: Path, backup: Path, hasBackup: bool, fin: Finalizer,
                         ghost f0: Files, ghost t0: map<Path, Option<Path>>)
      returns (e: Ending, ghost how: How)
      requires Setup(f0, t0, staged, dist, backup, fin) && hasBackup == (dist in f0)
      requires if hasBackup then files == Moved(f0, dist, backup) && temp == t0[backup := Some(dist)]
               else files == f0 && temp == t0
      modifies this
      ensures DistOutcome(f0, t0, files, temp, staged, dist, backup, fin, e, how)
      ensures Ready(f0, staged, fin) ==>
                Bad(faults) + FailuresToExplain(e != Completed, how.Excepted()) <= Bad(old(faults))
      ensures how.Disowned() && FinalizerReady(f0, fin) && Bad(old(faults)) <= 2 ==> e == Thrown && backup !in files
      ensures how.Disowned() <==>
              staged in f0 && Nth(old(faults), 0).Fine? && Unrecognised(f0, fin, Drop(old(faults), 1))
      ensures e == Completed ==> Leftovers(f0, files, At(f0, dist), backup, fin, Drop(old(faults), 1))
    {
      ghost var rollbackFailed;
      var live;
      live, rollbackFailed := RenameIn(staged, dist, backup, hasBackup);
      if live {
        e, how := FinishRenamed(staged, dist, backup, hasBackup, fin, f0, t0);
      } else {
        assert temp - {backup} == t0;
        e, how := Thrown, How(rollbackFailed, false, false);
      }
    }

    /** `publishDist`. */
    method PublishDist(staged: Path, dist: Path, backup: Path, fin: Finalizer)
      returns (e: Ending, ghost how: How)
      requires Setup(files, temp, staged, dist, backup, fin)
      modifies this
      ensures DistOutcome(old(files), old(temp), files, temp, staged, dist, backup, fin, e, how)
      ensures Ready(old(files), staged, fin) ==>
                Bad(faults) + FailuresToExplain(e != Completed, how.Excepted()) <= Bad(old(faults))
      ensures how.Disowned() && FinalizerReady(old(files), fin) && Bad(old(faults)) <= 2 ==>
                e == Thrown && backup !in files
      ensures how.Disowned() <==> Disowns(old(files), staged, dist, fin, old(faults))
      ensures e == Completed ==>
                Leftovers(old(files), files, At(old(files), dist), backup, fin, Drop(old(faults), 2))
    {
      ghost var f0, t0 := files, temp;
      var aside := MoveAside(dist, backup);
      if aside == Refused {
        return Thrown, How(false, false, false);
      }
      DropMore(old(faults), 1, 1);
      e, how := PublishStaged(staged, dist, backup, aside == Renamed, fin, f0, t0);
    }

    /** The `finally` block: forget and remove the staging paths. A signal or a failed removal ends it. */
    method DropStaging(staged: Path, fin: Finalizer, sofar: Ending) returns (e: Ending)
      requires sofar != Interrupted
      modifies this
      ensures Untouched(old(files), files, Staging(staged, fin))
      ensures forall p :: p in temp ==> p in old(temp) && temp[p] == old(temp)[p]
      ensures forall p :: p in old(temp) && p !in Staging(staged, fin) ==> p in temp
      ensures e == Completed ==> sofar == Completed
      ensures e == Interrupted ==> Bad(faults) < Bad(old(faults))
      ensures staged !in temp && (staged in files ==> staged in old(files))
      ensures e == Completed ==> forall p :: p in Staging(staged, fin) ==> p !in files && p !in temp
      ensures sofar == Completed && e != Completed && (forall p :: p in Staging(staged, fin) ==> p !in old(files)) ==>
                Bad(faults) < Bad(old(faults))
    {
      ghost var before := files;
      e := UntrackTempPath(staged, true);
      OutsideUnchanged(before, files, staged);
      if e == Completed && fin.PublishMeta? {
        before := files;
        e := UntrackTempPath(fin.staged, false);
        OutsideUnchanged(before, files, fin.staged);
        assert staged == fin.staged || At(files, staged) == At(before, staged);
      }
      e := if e == Completed then sofar else e;
    }

    /** `removeTempPaths` as the failed or interrupted build calls it. */
    method Abandon(staged: Path, dist: Path, backup: Path, fin: Finalizer)
      requires {staged, dist, backup} !! FinalizerPaths(fin) && staged != dist && staged != backup && dist != backup
      requires fin.PublishMeta? ==> fin.staged != fin.meta && fin.staged != fin.backup && fin.meta != fin.backup
      requires forall p :: p in temp ==> TrackedAs(temp[p], p, staged, dist, backup, fin)
      modifies this
      ensures temp == map[]
      ensures Untouched(old(files), files, {staged, dist, backup} + FinalizerPaths(fin))
      ensures backup !in old(temp) ==> At(files, backup) == At(old(files), backup)
      ensures backup !in old(temp) || dist in old(files) ==> At(files, dist) == At(old(files), dist)
      ensures backup in old(temp) && backup in old(files) && dist !in old(files) ==>
                Survives(files, backup, dist, old(files)[backup])
      ensures fin.PublishMeta? && fin.backup !in old(temp) ==> At(files, fin.meta) == At(old(files), fin.meta)
      ensures fin.RemoveMeta? ==> At(files, fin.meta) == At(old(files), fin.meta)
      ensures fin.PublishMeta? && fin.backup !in old(temp) ==> At(files, fin.backup) == At(old(files), fin.backup)
      ensures staged !in old(temp) ==> At(files, staged) == At(old(files), staged)
    {
      assert forall q :: q in Targets(temp) ==> q == dist || (fin.PublishMeta? && q == fin.meta);
      assert dist in Targets(temp) ==> backup in temp;
      assert fin.PublishMeta? && fin.meta in Targets(temp) ==> fin.backup in temp;
      RemoveTempPaths();
    }

    /** What follows publishDist: the `finally` block unless a signal came, and the cleanup of every tracked
        path unless all went well. */
    method CleanUp(staged: Path, dist: Path, backup: Path, fin: Finalizer, sofar: Ending,
                   ghost t0: map<Path, Option<Path>>)
      returns (e: Ending)
      requires {staged, dist, backup} !! FinalizerPaths(fin) && staged != dist && staged != backup && dist != backup
      requires fin.PublishMeta? ==> fin.staged != fin.meta && fin.staged != fin.backup && fin.meta != fin.backup
      requires t0 == StagingPaths(staged, fin) && StillTracked(t0, temp, dist, backup, fin)
      requires sofar == Completed ==> temp == t0
      modifies this
      ensures e == Completed ==> sofar == Completed
      ensures sofar == Interrupted ==> e == Interrupted
      ensures temp == map[] && Untouched(old(files), files, {staged, dist, backup} + FinalizerPaths(fin))
      ensures backup !in old(temp) ==> At(files, backup) == At(old(files), backup)
      ensures backup !in old(temp) || dist in old(files) ==> At(files, dist) == At(old(files), dist)
      ensures backup in old(temp) && backup in old(files) && dist !in old(files) ==>
                Survives(files, backup, dist, old(files)[backup])
      ensures (fin.PublishMeta? && fin.backup !in old(temp)) || fin.RemoveMeta? ==>
                At(files, fin.meta) == At(old(files), fin.meta)
      ensures fin.PublishMeta? && fin.backup !in old(temp) ==> At(files, fin.backup) == At(old(files), fin.backup)
      ensures e == Completed ==> forall p :: p in Staging(staged, fin) ==> p !in files
      ensures Bad(old(faults)) == 0 && sofar == Thrown ==> e == Thrown
      ensures sofar != Interrupted && staged !in old(files) ==> staged !in files
      ensures sofar == Completed && e != Completed && (forall p :: p in Staging(staged, fin) ==> p !in old(files)) ==>
                Bad(old(faults)) > 0
    {
      e := sofar;
      if e != Interrupted {
        e := DropStaging(staged, fin, e);
      }
      if e != Completed {
        Abandon(staged, dist, backup, fin);
      } else {
        assert forall p :: p in temp ==> p in t0;
      }
    }

    /** The end of a build: publish, drop the staging paths in the `finally`, and clean up every tracked
        path unless all went well. */
    method PublishBuild(staged: Path, dist: Path, backup: Path, fin: Finalizer)
      returns (e: Ending, ghost how: How)
      requires Setup(files, temp, staged, dist, backup, fin)
      requires temp == StagingPaths(staged, fin)
      modifies this
      // A completed build is live and its metafile describes it.
      ensures e == Completed ==> NewLive(old(files), files, staged, dist) && Finalized(old(files), files, fin)
      // Nothing of the run is left: the staging paths are gone, and each backup unless its removal failed.
      ensures e == Completed ==> forall p :: p in Staging(staged, fin) ==> p !in files
      ensures e == Completed ==>
                Leftovers(old(files), files, At(old(files), dist), backup, fin, Drop(old(faults), 2))
      ensures Ready(old(files), staged, fin) && Bad(old(faults)) == 0 ==> backup !in files
      // The previous bundle stays live or intact in the backup unless the new one is live and finalized.
      ensures dist in old(files) && !how.Disowned() ==>
                NewAndFinal(old(files), files, staged, dist, fin, e) || Survives(files, backup, dist, old(files)[dist])
      // Bundle and metafile are both new or both old when the rollback's own calls succeed.
      ensures !how.Excepted() ==>
                || NewAndFinal(old(files), files, staged, dist, fin, e)
                || (At(files, dist) == At(old(files), dist) && NotFinalized(old(files), files, fin))
      // One failing call is never enough to reach the two exceptions, and none is reached without any.
      ensures Ready(old(files), staged, fin) && Bad(old(faults)) <= 1 ==> !how.Excepted()
      ensures Ready(old(files), staged, fin) && Bad(old(faults)) == 0 ==> e == Completed
      // Two are, on exactly these fault lists: an unfinalized bundle is live and the previous one is gone.
      ensures how.Disowned() <==> Disowns(old(files), staged, dist, fin, old(faults))
      ensures how.Disowned() ==>
                NewLive(old(files), files, staged, dist) && (!how.rollbackFailed ==>
                    NotFinalized(old(files), files, fin))
      ensures how.Disowned() && Ready(old(files), staged, fin) && Bad(old(faults)) <= 2 ==>
                e == Thrown && backup !in files && staged !in files
      // Every other path is untouched and nothing stays tracked.
      ensures Untouched(old(files), files, {staged, dist, backup} + FinalizerPaths(fin))
      ensures temp == map[]
    {
      ghost var t0 := temp;
      e, how := PublishDist(staged, dist, backup, fin);
      if Bad(old(faults)) == 0 {
        NoneBad(old(faults), 3 + FinishedCalls(old(files), fin));
        assert Nth(Drop(old(faults), 2), 1 + FinishedCalls(old(files), fin)).Fine?;
      }
      e := CleanUp(staged, dist, backup, fin, e, t0);
    }
  }

  /** What went wrong besides the ending: a call of a rollback failed, the finalizer threw, the identity of
      the published bundle could not be read before or after it. */
  datatype How = How(rollbackFailed: bool, threw: bool, statFailed: bool) {
    /** The finalizer threw and a stat failed: this run takes its own bundle for a newer one's. */
    predicate Disowned() { threw && statFailed }

    predicate Excepted() { Disowned() || rollbackFailed }
  }

  /** The new bundle is live at dist and the previous one, if any, in the tracked backup. */
  ghost predicate BundleIn(f: Files, t: map<Path, Option<Path>>, dist: Path, backup: Path, hasBackup: bool,
                           fin: Finalizer) {
    && dist != backup && {dist, backup} !! FinalizerPaths(fin) && dist in f
    && (if hasBackup then backup in f && backup in t && t[backup] == Some(dist) else backup !in f && backup !in t)
    && (fin.PublishMeta? ==>
          && fin.staged != fin.meta && fin.staged != fin.backup && fin.meta != fin.backup
          && fin.backup !in f && fin.backup !in t)
    && MetaIsFile(f, fin)
  }

  /** How publishDist may end once the new bundle is live, from `f` and `t` to `g` and `u`. */
  ghost predicate FinishOutcome(f: Files, t: map<Path, Option<Path>>, g: Files, u: map<Path, Option<Path>>,
                                dist: Path, backup: Path, hasBackup: bool, fin: Finalizer, e: Ending, how: How) {
    && Untouched(f, g, {dist, backup} + FinalizerPaths(fin))
    && StillTracked(t - {backup}, u, dist, backup, fin)
    && (!how.threw || how.statFailed ==> At(g, dist) == At(f, dist))
    && (if how.threw then
          && e != Completed && (!how.statFailed ==> e == Thrown)
          && (how.statFailed ==> backup !in u)
          && (!how.statFailed && hasBackup ==> backup in f && DistKept(g, u, dist, backup, f[backup]))
          && (!how.rollbackFailed ==> NotFinalized(f, g, fin) && (fin.PublishMeta? ==> fin.backup !in u))
          && (!how.statFailed && !how.rollbackFailed ==> At(g, dist) == At(f, backup) && u == t - {backup})
        else
          && e != Thrown && !how.rollbackFailed && (u == t || u == t - {backup})
          && (e == Completed ==> u == t - {backup} && (fin.PublishMeta? ==> At(g, fin.staged).None?))
          && (e == Completed || fin.PublishMeta? ==> Finalized(f, g, fin)))
  }

  /** How publishDist may end, from `f` and `t` to `g` and `u`. */
  ghost predicate DistOutcome(f: Files, t: map<Path, Option<Path>>, g: Files, u: map<Path, Option<Path>>,
                              staged: Path, dist: Path, backup: Path, fin: Finalizer, e: Ending, how: How) {
    && Untouched(f, g, {staged, dist, backup} + FinalizerPaths(fin))
    && StillTracked(t, u, dist, backup, fin)
    && (e != Thrown || how.Disowned() ==> NewLive(f, g, staged, dist))
    && (how.Disowned() ==> e != Completed && backup !in u && staged !in g)
    && (how.threw && !how.statFailed ==> e == Thrown)
    && (how.threw && !how.rollbackFailed ==> NotFinalized(f, g, fin) && (fin.PublishMeta? ==> fin.backup !in u))
    && (e == Completed || (e == Interrupted && fin.PublishMeta? && !how.threw) ==> Finalized(f, g, fin))
    && (e == Completed ==> !how.threw && !how.rollbackFailed && u == t)
    && (e == Completed ==> forall p :: p in Staging(staged, fin) ==> p !in g)
    && (e == Interrupted && !how.threw ==> !how.rollbackFailed && (fin.PublishMeta? ==> fin.backup !in u))
    && (e == Thrown && !how.Disowned() && dist in f ==> DistKept(g, u, dist, backup, f[dist]))
    && (e == Thrown && !how.Excepted() ==> At(g, dist) == At(f, dist) && NotFinalized(f, g, fin) && u == t)
  }

  /** A call that fails, other than by a signal. */
  predicate Throws(f: Fault) { !f.Fine? && !f.Interrupt? }

  /** Publishing the metafile throws: the previous one cannot be moved aside or the new one not moved in. */
  predicate MetaThrows(f: Files, staged: Path, meta: Path, faults: seq<Fault>) {
    (meta in f && !Nth(faults, 0).Fine?) || !Nth(faults, 1).Fine? || staged !in f
  }

  /** How many calls it makes before it throws. */
  function MetaCalls(f: Files, meta: Path, faults: seq<Fault>): nat {
    if meta !in f then 2 else if !Nth(faults, 0).Fine? then 1 else if Nth(faults, 2).Fine? then 3 else 4
  }

  predicate FinalizerThrows(f: Files, fin: Finalizer, faults: seq<Fault>) {
    match fin
    case NoFinalizer => false
    case Custom => Throws(Nth(faults, 0))
    case RemoveMeta(meta) => meta in f && Throws(Nth(faults, 0))
    case PublishMeta(staged, meta, _) => MetaThrows(f, staged, meta, faults)
  }

  function FinalizerCalls(f: Files, fin: Finalizer, faults: seq<Fault>): nat {
    if fin.PublishMeta? then MetaCalls(f, fin.meta, faults) else 1
  }

  /** How many calls the finalizer makes when it completes. */
  function FinishedCalls(f: Files, fin: Finalizer): nat {
    match fin
    case NoFinalizer => 0
    case PublishMeta(_, meta, _) => if meta in f then 3 else 2
    case _ => 1
  }

  /** The previous metafile stays in its backup: its removal, the finalizer's last call, fails. */
  predicate MetaLeft(f: Files, fin: Finalizer, faults: seq<Fault>)
    requires fin.PublishMeta?
  {
    fin.meta in f && LeftBy(f[fin.meta], false, Nth(faults, 2))
  }

  /** What a completed publish leaves in the two backups: nothing, unless the call that removes one fails.
      `faults` starts at the stat of the published bundle; `prev` is the bundle before. */
  predicate Leftovers(f: Files, g: Files, prev: Option<Node>, backup: Path, fin: Finalizer, faults: seq<Fault>) {
    && (backup in g <==> prev.Some? && LeftBy(prev.value, true, Nth(faults, 1 + FinishedCalls(f, fin))))
    && (fin.PublishMeta? ==> (fin.backup in g <==> MetaLeft(f, fin, Drop(faults, 1))))
  }

  /** The finalizer throws, and the stat before it or the stat after it fails. */
  predicate Unrecognised(f: Files, fin: Finalizer, faults: seq<Fault>) {
    var rest := Drop(faults, 1);
    && FinalizerThrows(f, fin, rest)
    && !(Nth(faults, 0).Fine? && Nth(rest, FinalizerCalls(f, fin, rest)).Fine?)
  }

  /** The runs that take their own bundle for a newer one's: both renames succeed, then that happens. */
  predicate Disowns(f: Files, staged: Path, dist: Path, fin: Finalizer, faults: seq<Fault>) {
    && staged in f && (dist in f ==> Nth(faults, 0).Fine?) && Nth(faults, 1).Fine?
    && Unrecognised(f, fin, Drop(faults, 2))
  }

  /** The new bundle is live and its metafile with it; a signal may leave a dev build's old metafile. */
  predicate NewAndFinal(f: Files, g: Files, staged: Path, dist: Path, fin: Finalizer, e: Ending) {
    NewLive(f, g, staged, dist) && (Finalized(f, g, fin) || (e == Interrupted && !fin.PublishMeta?))
  }

  /** Two failing calls lose a bundle: the stat after the rename fails and the finalizer throws. */
  method TwoFaultsLoseTheBundle(before: Node, after: Node) returns (b: Build, e: Ending)
    requires before != after && before.isDir && after.isDir
    ensures e == Thrown && At(b.files, 1) == Some(after) && forall p :: At(b.files, p) != Some(before)
  {
    b := new Build;
    b.files, b.temp, b.faults := map[0 := after, 1 := before], map[0 := None], [Fine, Fine, Errno, Errno];
    ghost var how;
    e, how := b.PublishBuild(0, 1, 2, Custom);
  }

  lemma OutsideUnchanged(f: Files, g: Files, p: Path)
    requires g - {p} == f - {p}
    ensures forall q :: q != p ==> At(g, q) == At(f, q)
  {
    forall q | q != p ensures At(g, q) == At(f, q) {
      assert q in f <==> q in f - {p};
      assert q in g <==> q in g - {p};
      if q in f { assert (f - {p})[q] == (g - {p})[q]; }
    }
  }

  /** Nothing outside `paths` differs. */
  ghost predicate Untouched(f: Files, g: Files, paths: set<Path>) {
    forall q :: q !in paths ==> At(g, q) == At(f, q)
  }

  predicate MetaReplaced(f: Files, g: Files, staged: Path, meta: Path) {
    staged in f && At(g, meta) == At(f, staged)
  }

  /** The staging and backup paths are this run's own, and the backup names are not in use yet. */
  predicate Setup(f: Files, temp: map<Path, Option<Path>>, staged: Path, dist: Path, backup: Path, fin: Finalizer) {
    && staged != dist && staged != backup && dist != backup
    && {staged, dist, backup} !! FinalizerPaths(fin)
    && backup !in f && backup !in temp
    && (fin.PublishMeta? ==>
          && fin.staged != fin.meta && fin.staged != fin.backup && fin.meta != fin.backup
          && fin.backup !in f && fin.backup !in temp)
    && MetaIsFile(f, fin)
  }

  /** Every staged output exists, as it does once the build itself succeeded. */
  predicate Ready(f: Files, staged: Path, fin: Finalizer) {
    staged in f && f[staged].isDir && FinalizerReady(f, fin)
  }

  predicate NewLive(f: Files, g: Files, staged: Path, dist: Path) {
    staged in f && At(g, dist) == At(f, staged)
  }

  /** Only the two backups can be tracked on top of what was tracked before. */
  predicate StillTracked(t: map<Path, Option<Path>>, u: map<Path, Option<Path>>, dist: Path, backup: Path,
                         fin: Finalizer) {
    && (forall p :: p in t ==> p in u && u[p] == t[p])
    && (forall p :: p in u && p !in t ==>
          || (p == backup && u[p] == Some(dist))
          || (fin.PublishMeta? && p == fin.backup && u[p] == Some(fin.meta)))
  }

  predicate TrackedAs(restoreTo: Option<Path>, p: Path, staged: Path, dist: Path, backup: Path, fin: Finalizer) {
    || (p in Staging(staged, fin) && restoreTo.None?)
    || (p == backup && restoreTo == Some(dist))
    || (fin.PublishMeta? && p == fin.backup && restoreTo == Some(fin.meta))
  }

  function Staging(staged: Path, fin: Finalizer): set<Path> {
    if fin.PublishMeta? then {staged, fin.staged} else {staged}
  }

  function StagingPaths(staged: Path, fin: Finalizer): map<Path, Option<Path>> {
    map p | p in Staging(staged, fin) :: None
  }

  function FinalizerPaths(fin: Finalizer): set<Path> {
    match fin
    case PublishMeta(staged, meta, backup) => {staged, meta, backup}
    case RemoveMeta(meta) => {meta}
    case _ => {}
  }

  predicate MetaIsFile(f: Files, fin: Finalizer) {
    fin.RemoveMeta? && fin.meta in f ==> !f[fin.meta].isDir
  }

  predicate FinalizerReady(f: Files, fin: Finalizer) {
    fin.PublishMeta? ==> fin.staged in f
  }

  /** The metafile on disk describes the new bundle: the staged one, or none for a dev build. */
  predicate Finalized(f: Files, g: Files, fin: Finalizer) {
    match fin
    case PublishMeta(staged, meta, _) => MetaReplaced(f, g, staged, meta)
    case RemoveMeta(meta) => At(g, meta).None?
    case _ => true
  }

  /** The metafile is what it was, absent included. */
  predicate NotFinalized(f: Files, g: Files, fin: Finalizer) {
    fin.PublishMeta? || fin.RemoveMeta? ==> At(g, fin.meta) == At(f, fin.meta)
  }

  /** The previous bundle is live and nothing tracks its backup; or it is intact in the backup, and if
      that is still tracked then dist is free, so a cleanup restores it. */
  predicate DistKept(f: Files, temp: map<Path, Option<Path>>, dist: Path, backup: Path, prev: Node) {
    || (At(f, dist) == Some(prev) && backup !in temp)
    || (At(f, backup) == Some(prev) && (backup in temp ==> temp[backup] == Some(dist) && dist !in f))
  }

  /** How publishMetafile may end, from `f` and `t` to `g` and `u`: the new metafile is in place, or the
      previous one or its absence is, unless a call of the rollback failed too. */
  ghost predicate MetaOutcome(f: Files, t: map<Path, Option<Path>>, g: Files, u: map<Path, Option<Path>>,
                              staged: Path, meta: Path, backup: Path, e: Ending, rollbackFailed: bool) {
    && Untouched(f, g, {staged, meta, backup})
    && (u == t || u == t[backup := Some(meta)])
    && (if e == Thrown then
          MetaKept(f, g, u, meta, backup) && (!rollbackFailed ==> At(g, meta) == At(f, meta) && u == t)
        else
          MetaReplaced(f, g, staged, meta) && At(g, staged).None? && u == t && !rollbackFailed)
  }

  /** The previous metafile is in place, or in the backup, where it is still tracked only if a cleanup
      would restore it. */
  predicate MetaKept(f: Files, g: Files, temp: map<Path, Option<Path>>, meta: Path, backup: Path) {
    || (At(g, meta) == At(f, meta) && backup !in temp)
    || (meta in f && At(g, backup) == At(f, meta) && meta !in g && backup in temp && temp[backup] == Some(meta))
  }

  function Targets(t: map<Path, Option<Path>>): set<Path> {
    set p | p in t && t[p].Some? :: t[p].value
  }

  /** No tracked path is another one's destination, and destinations are not shared. */
  predicate Tidy(t: map<Path, Option<Path>>) {
    && (forall p :: p in t ==> p !in Targets(t))
    && (forall p, q :: p in t && q in t && p != q && t[p].Some? ==> t[p] != t[q])
  }

  predicate Restorable(t: map<Path, Option<Path>>, f: Files, p: Path)
    requires p in t
  {
    t[p].Some? && p in f && t[p].value !in f
  }

  /** The cleanup has not reached `p`: nothing happened to it, nor to its destination if that was free. */
  predicate Pending(t: map<Path, Option<Path>>, f: Files, g: Files, p: Path)
    requires p in t
  {
    At(g, p) == At(f, p) && (Restorable(t, f, p) ==> t[p].value !in g)
  }

  predicate Cleaning(t: map<Path, Option<Path>>, f: Files, g: Files, left: set<Path>, p: Path, clean: bool)
    requires p in t
  {
    if p in left then Pending(t, f, g, p) else Visited(t, f, g, p, clean)
  }

  /** Nothing but `p` and a free destination changes. */
  ghost predicate Elsewhere(f: Files, g: Files, p: Path, dst: Option<Path>) {
    forall q :: q != p && (dst != Some(q) || q in f) ==> At(g, q) == At(f, q)
  }

  /** One round of the cleanup, seen from each tracked path `q`. */
  lemma CleaningStep(t: map<Path, Option<Path>>, f0: Files, f: Files, g: Files, left: set<Path>, p: Path, q: Path,
                     clean: bool)
    requires Tidy(t) && p in left && p in t && q in t && Elsewhere(f, g, p, t[p])
    requires Cleaning(t, f0, f, left, p, clean) && Cleaning(t, f0, f, left, q, clean)
    requires Restorable(t, f, p) ==> g == Moved(f, p, t[p].value) || (!clean && g == f)
    requires !Restorable(t, f, p) && clean ==> p !in g
    requires Restorable(t, f0, p) ==> Restorable(t, f, p)
    ensures Cleaning(t, f0, g, left - {p}, q, clean)
  {
    assert t[p].Some? ==> t[p].value in Targets(t) && t[p].value != q;
    assert t[q].Some? ==> t[q].value in Targets(t) && t[q].value != p;
  }

  /** The cleanup has been at `p`; `clean` says that every call worked. */
  predicate Visited(t: map<Path, Option<Path>>, f: Files, g: Files, p: Path, clean: bool)
    requires p in t
  {
    (Restorable(t, f, p) ==> Survives(g, p, t[p].value, f[p])) && (clean ==> Dropped(t, f, g, p))
  }

  /** Path `p` is gone, and its node is at its destination if that was free. */
  predicate Dropped(t: map<Path, Option<Path>>, f: Files, g: Files, p: Path)
    requires p in t
  {
    p !in g && (Restorable(t, f, p) ==> At(g, t[p].value) == Some(f[p]))
  }

  predicate Survives(f: Files, p: Path, dst: Path, n: Node) {
    At(f, p) == Some(n) || At(f, dst) == Some(n)
  }
}
