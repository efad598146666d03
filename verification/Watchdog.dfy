/** `runTestsWithWatchdog`: one bounded attempt, one retry after a hang or a crash, one verdict. */
module Watchdog {
  import opened Prelude
  import PlainNames

  type Line = string

  type Log = seq<Line>

  const HUNG: int := 124
  const CRASHED: int := 134

  // ---- Reading a log ---------------------------------------------------------------------------------------

  predicate IsDigit(c: char) { '0' <= c <= '9' }

  predicate IsBlank(c: char) { c as int < 0x10000 && PlainNames.IsSpace(c as int) }

  /** `[1-9]\d*\s+word`, end to end: a positive count of something. */
  predicate Counts(body: Line, word: Line) {
    exists i, j :: 0 < i < j <= |body| && CountsAt(body, word, i, j)
  }

  predicate CountsAt(body: Line, word: Line, i: nat, j: nat)
    requires 0 < i < j <= |body|
  {
    && body[0] != '0' && (forall k :: 0 <= k < i ==> IsDigit(body[k]))
    && (forall k :: i <= k < j ==> IsBlank(body[k])) && body[j..] == word
  }

  /** A line that reports a failing test or an unhandled error. */
  predicate Reports(body: Line) {
    || "(fail)" <= body || Counts(body, "fail") || body == "# Unhandled error between tests"
    || Counts(body, "error") || Counts(body, "errors")
  }

  /** How lines are stripped of their prefixes, and which logs carry a crash marker. */
  datatype Scanner = Scanner(normalize: Line -> Line, marked: Log -> bool)

  predicate HasFailure(x: Scanner, log: Log) {
    exists i :: 0 <= i < |log| && Reports(x.normalize(log[i]))
  }

  predicate IsCrash(x: Scanner, code: int, log: Log) { code == CRASHED || (code != 0 && x.marked(log)) }

  // ---- The disk --------------------------------------------------------------------------------------------

  /** The timings directory: absent, something else of that name, or a directory with this content. */
  datatype Timings = NoTimings | NotDirectory | Directory(content: int)

  /** The timings, the log file and the log kept of attempt 1. */
  datatype Disk = Disk(timings: Timings, log: Option<Log>, kept: Option<Log>)

  /** What an attempt did: how it ended, the log it wrote (`None` if the file never opened), the timings it
      left, and whether its log could then be read. */
  datatype Run = Run(hung: bool, code: int, log: Option<Log>, timings: Timings, readable: bool)

  /** The test command: what attempt 1 or 2 does, started on these timings. */
  type Command = (int, Timings) -> Run

  function ExitCode(run: Run): int { if run.hung then HUNG else run.code }

  function LogAfter(before: Option<Log>, run: Run): Option<Log> { if run.log.Some? then run.log else before }

  /** What `observe` reads. */
  function TextRead(before: Option<Log>, run: Run): Log {
    var log := LogAfter(before, run);
    if run.readable && log.Some? then log.value else []
  }

  // ---- The verdict -----------------------------------------------------------------------------------------

  datatype Options = Options(retryOnCrash: bool, preserve: bool, renameWorks: bool)

  datatype Receipt = Receipt(exitCode: int, attempts: int, failuresSeen: bool, crashed: bool, kept: bool)

  class Invocation {
    const x: Scanner
    const options: Options
    const command: Command
    var disk: Disk
    var backup: Option<int>
    var attempts: int
    var failuresSeen: bool
    var crashedAny: bool
    var logPreserved: bool
    /** The timings each attempt started on. */
    ghost var starts: seq<Timings>

    constructor (x: Scanner, options: Options, command: Command, disk: Disk)
      ensures this.x == x && this.options == options && this.command == command && this.disk == disk
      ensures attempts == 0 && !failuresSeen && !crashedAny && !logPreserved && starts == [] && backup == None
    {
      this.x, this.options, this.command, this.disk := x, options, command, disk;
      backup, attempts, failuresSeen, crashedAny, logPreserved, starts := None, 0, false, false, false, [];
    }

    method SnapshotTimings()
      modifies `backup
      ensures Restored(backup) == Baseline(disk.timings)
    {
      backup := if disk.timings.Directory? then Some(disk.timings.content) else None;
    }

    /** Removes what is there and copies the backup back, if there is one. */
    method RestoreTimings()
      modifies `disk
      ensures disk == old(disk).(timings := Restored(backup))
    {
      disk := disk.(timings := NoTimings);
      if backup.Some? {
        disk := disk.(timings := Directory(backup.value));
      }
    }

    method RunAttempt() returns (run: Run)
      modifies `disk, `starts
      ensures run == command(attempts, old(disk).timings) && starts == old(starts) + [old(disk).timings]
      ensures disk == old(disk).(timings := run.timings, log := LogAfter(old(disk).log, run))
    {
      run := command(attempts, disk.timings);
      starts := starts + [disk.timings];
      disk := disk.(timings := run.timings, log := LogAfter(disk.log, run));
    }

    /** Classifies a finished attempt from its log and records what it saw. */
    method Observe(run: Run) returns (crashed: bool)
      modifies `failuresSeen, `crashedAny
      ensures var text := if run.readable && disk.log.Some? then disk.log.value else [];
              && failuresSeen == (old(failuresSeen) || (ExitCode(run) != 0 && HasFailure(x, text)))
              && crashed == (ExitCode(run) != 0 && options.retryOnCrash && !run.hung && IsCrash(x, run.code, text))
              && crashedAny == (old(crashedAny) || crashed)
    {
      if ExitCode(run) == 0 {
        return false;
      }
      var text := if run.readable && disk.log.Some? then disk.log.value else [];
      if HasFailure(x, text) {
        failuresSeen := true;
      }
      crashed := options.retryOnCrash && !run.hung && IsCrash(x, run.code, text);
      crashedAny := crashedAny || crashed;
    }

    /** Moves the log of attempt 1 out of the way, restores the timings and runs again. */
    method Retry() returns (run: Run)
      modifies this
      ensures attempts == 2 && failuresSeen == old(failuresSeen) && crashedAny == old(crashedAny)
      ensures run == command(2, Restored(backup)) && starts == old(starts) + [Restored(backup)]
      ensures backup == old(backup)
      ensures logPreserved == if options.preserve then options.renameWorks && old(disk).log.Some? else old(logPreserved)
      ensures var moved := options.preserve && logPreserved;
              && disk.kept == (if moved then old(disk).log else old(disk).kept)
              && disk.log == LogAfter(if moved then None else old(disk).log, run)
    {
      if options.preserve {
        logPreserved := options.renameWorks && disk.log.Some?;
        if logPreserved {
          disk := disk.(kept := disk.log, log := None);
        }
      }
      RestoreTimings();
      attempts := 2;
      run := RunAttempt();
    }

    /** `runTestsWithWatchdog`. */
    method RunTests() returns (r: Receipt)
      requires attempts == 0 && !failuresSeen && !crashedAny && !logPreserved && starts == [] && backup == None
      modifies this
      ensures r == Verdict(x, options, command, old(disk)) && IsReceipt(x, options, command, old(disk), r)
      ensures starts == Starts(x, options, command, old(disk))
      ensures Retried(x, options, command, old(disk)) && r.kept ==>
                disk.kept == LogAfter(old(disk).log, First(command, old(disk)))
    {
      SnapshotTimings();
      attempts := 1;
      var attempt := RunAttempt();
      var crashed := Observe(attempt);
      if attempt.hung || crashed {
        attempt := Retry();
        var _ := Observe(attempt);
      }
      var exitCode := ExitCode(attempt);
      if attempts == 2 && failuresSeen && exitCode == 0 {
        exitCode := 1;
      }
      r := Receipt(exitCode, attempts, failuresSeen, crashedAny, logPreserved);
      VerdictIsReceipt(x, options, command, old(disk));
    }
  }

  // ---- The verdict as a function of the outcomes -----------------------------------------------------------

  function First(command: Command, disk: Disk): Run { command(1, disk.timings) }

  /** What a restore puts on disk. */
  function Restored(backup: Option<int>): Timings { if backup.Some? then Directory(backup.value) else NoTimings }

  /** The baseline the retry starts from. */
  function Baseline(t: Timings): Timings { if t.Directory? then t else NoTimings }

  function Second(command: Command, disk: Disk): Run { command(2, Baseline(disk.timings)) }

  predicate FirstCrashed(x: Scanner, o: Options, command: Command, disk: Disk) {
    var run := First(command, disk);
    o.retryOnCrash && !run.hung && run.code != 0 && IsCrash(x, run.code, TextRead(disk.log, run))
  }

  predicate Retried(x: Scanner, o: Options, command: Command, disk: Disk) {
    First(command, disk).hung || FirstCrashed(x, o, command, disk)
  }

  function Starts(x: Scanner, o: Options, command: Command, disk: Disk): seq<Timings> {
    if Retried(x, o, command, disk) then [disk.timings, Baseline(disk.timings)] else [disk.timings]
  }

  /** What the log file holds when the retry starts. */
  function LogAtRetry(o: Options, command: Command, disk: Disk): Option<Log> {
    if o.preserve && o.renameWorks then None else LogAfter(disk.log, First(command, disk))
  }

  function Verdict(x: Scanner, o: Options, command: Command, disk: Disk): Receipt {
    var one := First(command, disk);
    var seenOne := ExitCode(one) != 0 && HasFailure(x, TextRead(disk.log, one));
    if !Retried(x, o, command, disk) then Receipt(ExitCode(one), 1, seenOne, false, false)
    else
      var two := Second(command, disk);
      var text := TextRead(LogAtRetry(o, command, disk), two);
      var seen := seenOne || (ExitCode(two) != 0 && HasFailure(x, text));
      var crashedTwo := ExitCode(two) != 0 && o.retryOnCrash && !two.hung && IsCrash(x, two.code, text);
      Receipt(if seen && ExitCode(two) == 0 then 1 else ExitCode(two), 2, seen,
              FirstCrashed(x, o, command, disk) || crashedTwo,
              o.preserve && o.renameWorks && LogAfter(disk.log, one).Some?)
  }

  /** The last attempt that ran. */
  function Final(x: Scanner, o: Options, command: Command, disk: Disk): Run {
    if Retried(x, o, command, disk) then Second(command, disk) else First(command, disk)
  }

  /** Exit 0 exactly when the last attempt exited 0 by itself and, if it was a retry, the log read from the
      interrupted first attempt reported nothing. */
  lemma GreenExactly(x: Scanner, o: Options, command: Command, disk: Disk)
    ensures Verdict(x, o, command, disk).exitCode == 0 <==>
            && !Final(x, o, command, disk).hung && Final(x, o, command, disk).code == 0
            && (Retried(x, o, command, disk) ==> !HasFailure(x, TextRead(disk.log, First(command, disk))))
  {
    if Retried(x, o, command, disk) { assert ExitCode(First(command, disk)) != 0; }
  }

  /** Two attempts exactly after a hang, or after a crash where the caller asked for it; a plain failure
      reports its own code after one. */
  lemma RetriesExactly(x: Scanner, o: Options, command: Command, disk: Disk)
    ensures var r := Verdict(x, o, command, disk);
            var run := First(command, disk);
            && (r.attempts == 1 || r.attempts == 2)
            && (r.attempts == 2 <==> run.hung || (o.retryOnCrash && IsCrash(x, run.code, TextRead(disk.log, run))))
            && (r.attempts == 1 ==> r.exitCode == run.code)
  {
  }

  /** Findings on the receipt never come with exit 0. */
  lemma FindingsAreRed(x: Scanner, o: Options, command: Command, disk: Disk)
    ensures Verdict(x, o, command, disk).failuresSeen ==> Verdict(x, o, command, disk).exitCode != 0
  {
  }

  /** The retry starts from the timings attempt 1 started from, absent ones included, exactly when no other
      file stands in the place of their directory. */
  lemma RetryStartsAlike(x: Scanner, o: Options, command: Command, disk: Disk)
    requires Retried(x, o, command, disk)
    ensures var s := Starts(x, o, command, disk); |s| == 2 && (s[0] == s[1] <==> !disk.timings.NotDirectory?)
  {
  }

  /** An attempt ended other than with 0 and the log read after it has a line that reports a failure. */
  predicate Found(x: Scanner, run: Run, text: Log) {
    (run.hung || run.code != 0) && exists i :: 0 <= i < |text| && Reports(x.normalize(text[i]))
  }

  /** An attempt crashed: it ended by itself, with the abort code or with another and a crash marker. */
  predicate CrashedIn(x: Scanner, o: Options, run: Run, text: Log) {
    o.retryOnCrash && !run.hung && (run.code == 134 || (run.code != 0 && x.marked(text)))
  }

  /** Every field of the receipt, from what the attempts did. */
  predicate IsReceipt(x: Scanner, o: Options, command: Command, disk: Disk, r: Receipt) {
    var one := command(1, disk.timings);
    var two := command(2, if disk.timings.Directory? then disk.timings else NoTimings);
    var left := if one.log.Some? then one.log else disk.log;
    var textOne := if one.readable && left.Some? then left.value else [];
    var kept := o.preserve && o.renameWorks && left.Some?;
    var log := if two.log.Some? then two.log else if kept then None else left;
    var textTwo := if two.readable && log.Some? then log.value else [];
    var again := one.hung || CrashedIn(x, o, one, textOne);
    var last := if again then two else one;
    && r.attempts == (if again then 2 else 1)
    && (r.failuresSeen <==> Found(x, one, textOne) || (again && Found(x, two, textTwo)))
    && (r.crashed <==> CrashedIn(x, o, one, textOne) || (again && CrashedIn(x, o, two, textTwo)))
    && (r.kept <==> again && kept)
    && r.exitCode == (if last.hung then 124 else if last.code == 0 && r.failuresSeen then 1 else last.code)
  }

  lemma VerdictIsReceipt(x: Scanner, o: Options, command: Command, disk: Disk)
    ensures IsReceipt(x, o, command, disk, Verdict(x, o, command, disk))
  {
  }

  /** A positive number, blanks and one of the words report a failure, as do the two fixed forms. */
  lemma FailuresAreReported(digits: Line, blanks: Line, rest: Line)
    requires digits != [] && digits[0] != '0' && forall k :: 0 <= k < |digits| ==> '0' <= digits[k] <= '9'
    requires blanks != [] && forall k :: 0 <= k < |blanks| ==> IsBlank(blanks[k])
    ensures forall word :: word in {"fail", "error", "errors"} ==> Reports(digits + blanks + word)
    ensures Reports("(fail)" + rest) && Reports("# Unhandled error between tests")
  {
    forall word | word in {"fail", "error", "errors"}
      ensures Counts(digits + blanks + word, word)
    {
      var body, i, j := digits + blanks + word, |digits|, |digits| + |blanks|;
      assert body[j..] == word;
      assert CountsAt(body, word, i, j);
    }
  }

  /** A count of zero reports nothing. */
  lemma ZeroIsNoFailure(rest: Line)
    ensures !Reports(['0'] + rest)
  {
    var body := ['0'] + rest;
    assert body[0] == '0' && "(fail)"[0] == '(' && "# Unhandled error between tests"[0] == '#';
  }
}
