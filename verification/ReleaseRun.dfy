/** One run of the canary release publisher, against a remote that may answer anything.

    A run is recorded as its log of audits, local hash checks and write commands. `Legal` is the
    discipline every run keeps; `ReleaseProtocol` shows what it guarantees when runs interleave. */
module ReleaseRun {
  import opened Prelude
  import opened PlainNames
  import opened ReleaseAudit
  import opened Visibility

  datatype Command = Create | Upload(asset: Asset) | Publish

  datatype Event =
    | Audited(result: Result<Publication>)
    | Checked(asset: Asset, ok: bool)
    | Wrote(command: Command, ok: bool)

  /** What a run did, latest event last. */
  datatype Log = Empty | Then(before: Log, last: Event)

  /** A staged file: the path `gh` is given, and its measured size and digest. */
  datatype LocalFile = LocalFile(path: Text, size: int, sha256: Text)

  /** The path is no option, carries no asset label and no line end, and names the asset. */
  predicate PlainPath(path: Text, name: Text) {
    && path != [] && path[0] != DASH && Basename(path) == name
    && forall i :: 0 <= i < |path| ==> path[i] != HASH && path[i] != NUL && path[i] != CR && path[i] != LF
  }

  predicate LocalMatches(f: LocalFile, a: Asset) {
    PlainPath(f.path, a.name) && f.size == a.size && f.sha256 == a.sha256
  }

  lemma {:induction false} LastPartIs(path: Text, name: Text)
    requires SLASH !in name && (path == [] || path[|path| - 1] == SLASH)
    ensures LastPart(path + name) == name
    decreases |name|
  {
    if name == [] {
      assert path + name == path;
    } else {
      assert (path + name)[..|path + name| - 1] == path + name[..|name| - 1];
      LastPartIs(path, name[..|name| - 1]);
    }
  }

  /** A file name is the base name of its paths: alone, or after a directory and a slash. */
  lemma BasenameIs(directory: Text, name: Text)
    requires name != [] && SLASH !in name
    ensures Basename(name) == name && Basename(directory + [SLASH] + name) == name
  {
    LastPartIs([], name);
    assert [] + name == name;
    LastPartIs(directory + [SLASH], name);
  }

  // ---- The discipline --------------------------------------------------------------------------

  /** The run stopped with an error. */
  predicate Ended(log: Log) {
    log.Then? &&
    match log.last
    case Audited(r) => r.Failed?
    case Checked(_, ok) => !ok
    case Wrote(_, ok) => !ok
  }

  /** The log ends with a successful audit that found the release in `stage`. */
  predicate EndsIn(log: Log, stage: Stage) {
    log.Then? && log.last.Audited? && log.last.result.Ok? && log.last.result.value.stage == stage
  }

  predicate Has(log: Log, x: Event) {
    log.Then? && (log.last == x || Has(log.before, x))
  }

  function First(log: Log): Option<Event> {
    match log
    case Empty => None
    case Then(Empty, x) => Some(x)
    case Then(before, _) => First(before)
  }

  /** The first audit succeeded and everything it found missing has been hash-checked. */
  predicate Prechecked(log: Log) {
    && First(log).Some? && First(log).value.Audited? && First(log).value.result.Ok?
    && forall a :: a in First(log).value.result.value.missing ==> Has(log, Checked(a, true))
  }

  predicate MayFollow(log: Log, x: Event) {
    && !Ended(log)
    && (x.Wrote? ==> Prechecked(log))
    && match x
       case Audited(_) => true
       case Checked(_, _) => true
       case Wrote(Create, _) => EndsIn(log, Absent)
       case Wrote(Upload(a), _) =>
         && log.Then? && log.last == Checked(a, true) && EndsIn(log.before, Draft)
         && log.before.last.result.value.missing != [] && log.before.last.result.value.missing[0] == a
       case Wrote(Publish, _) =>
         EndsIn(log, Draft) && log.last.result.value.missing == []
  }

  /** Every event was allowed where it happened. */
  predicate Legal(log: Log) {
    log.Then? ==> Legal(log.before) && MayFollow(log.before, log.last)
  }

  function Writes(log: Log): nat {
    if log.Empty? then 0 else Writes(log.before) + (if log.last.Wrote? then 1 else 0)
  }

  /** The names uploaded, in order. */
  function Uploads(log: Log): seq<Text> {
    if log.Empty? then []
    else if log.last.Wrote? && log.last.command.Upload? then Uploads(log.before) + [log.last.command.asset.name]
    else Uploads(log.before)
  }

  /** The write commands, in order. */
  function Commands(log: Log): seq<Command> {
    if log.Empty? then []
    else if log.last.Wrote? then Commands(log.before) + [log.last.command]
    else Commands(log.before)
  }

  lemma {:induction false} UploadsAre(log: Log)
    ensures |Commands(log)| == Writes(log)
    ensures forall n :: n in Uploads(log) ==> Uploaded(Commands(log), n)
  {
    if log.Then? { UploadsAre(log.before); }
  }

  /** The last audit succeeded and does not show what was written: no release, the next asset to upload one
      that was uploaded, or a release that was published and is not complete. */
  predicate Stuck(log: Log) {
    && log.Then? && log.last.Audited? && log.last.result.Ok? && Commands(log) != []
    && var p := log.last.result.value;
       || p.stage == Absent
       || (p.missing != [] && p.missing[0].name in Uploads(log))
       || (p.stage != Complete && Commands(log)[|Commands(log)| - 1] == Publish)
  }

  function AuditCount(log: Log): nat {
    if log.Empty? then 0 else AuditCount(log.before) + (if log.last.Audited? then 1 else 0)
  }

  /** The audits in the log are what the remote answered, in order. */
  predicate AuditsAgree(log: Log, verdicts: nat -> Result<Publication>) {
    log.Then? ==>
      && AuditsAgree(log.before, verdicts)
      && (log.last.Audited? ==> log.last.result == verdicts(AuditCount(log.before)))
  }

  predicate Distinct(names: seq<Text>) {
    forall i, j :: 0 <= i < j < |names| ==> names[i] != names[j]
  }

  lemma PrecheckedGrows(log: Log, x: Event)
    requires Prechecked(log)
    ensures Prechecked(Then(log, x))
  {
    assert First(Then(log, x)) == First(log);
  }

  // ---- The run -----------------------------------------------------------------------------------

  /** What every successful audit guarantees about its conclusion. */
  predicate Sound(e: Expectation, p: Publication) {
    && (forall a :: a in p.missing ==> a in e.assets)
    && (p.stage == Complete ==> p.missing == [])
  }

  ghost predicate AllSound(e: Expectation, verdicts: nat -> Result<Publication>) {
    forall k: nat :: verdicts(k).Ok? ==> Sound(e, verdicts(k).value)
  }

  // ---- A remote that shows every write in time -------------------------------------------------------------

  /** What the first audits find, and for the `n`-th write the number of the audit that shows it and the
      budget left then. */
  datatype Schedule = Schedule(first: Publication, at: nat -> nat, left: nat -> real)

  /** Everything a run has to write on finding `p`. */
  function Plan(p: Publication): seq<Command> {
    (if p.stage == Absent then [Create] else []) + seq(|p.missing|, i requires 0 <= i < |p.missing| =>
      Upload(p.missing[i])) + [Publish]
  }

  /** An audit shows the release as `n` writes of the plan leave it. */
  predicate Shows(first: Publication, n: nat, p: Publication) {
    var base := if first.stage == Absent then 1 else 0;
    if n < base then p.stage == Absent && p.missing == first.missing
    else if n <= base + |first.missing| then p.stage == Draft && p.missing == first.missing[n - base..]
    else p.stage == Complete && p.missing == []
  }

  /** An audit shows the effect of this command. */
  predicate Visible(c: Command, p: Publication) {
    match c
    case Create => p.stage != Absent
    case Upload(a) => p.stage != Absent && forall m :: m in p.missing ==> m.name != a.name
    case Publish => p.stage == Complete
  }

  /** Between write `n` and the audit that shows it, every audit succeeds without showing it, and the retries
      for which the window has budget left reach it. */
  ghost predicate InTime(s: Schedule, verdicts: nat -> Result<Publication>, delays: seq<real>, n: nat) {
    && n < |Plan(s.first)| && s.at(n) < s.at(n + 1)
    && verdicts(s.at(n + 1)).Ok? && Shows(s.first, n + 1, verdicts(s.at(n + 1)).value)
    && (forall k :: s.at(n) < k < s.at(n + 1) ==> verdicts(k).Ok? && !Visible(Plan(s.first)[n], verdicts(k).value))
    && var lag := s.at(n + 1) - s.at(n) - 1;
       lag <= Retries(delays, s.left(n)) && s.left(n + 1) == s.left(n) - Slept(delays, s.left(n), lag)
  }

  /** Commands report success, the files are the approved ones, and every write shows in time. */
  ghost predicate Prompt(s: Schedule, verdicts: nat -> Result<Publication>, acks: nat -> bool,
                         store: Text -> LocalFile, delays: seq<real>) {
    && s.first.stage != Complete && UniqueNames(s.first.missing)
    && verdicts(0) == Ok(s.first) && verdicts(1) == Ok(s.first) && s.at(0) == 1 && s.left(0) == Sum(delays)
    && (forall n: nat :: acks(n))
    && (forall a :: a in s.first.missing ==> LocalMatches(store(a.name), a))
    && forall n :: 0 <= n < |Plan(s.first)| ==> InTime(s, verdicts, delays, n)
  }

  /** A remote that shows every write in the next audit is such a one, whatever the delays. */
  lemma ImmediateIsPrompt(first: Publication, verdicts: nat -> Result<Publication>, acks: nat -> bool,
                          store: Text -> LocalFile, delays: seq<real>)
    requires first.stage != Complete && UniqueNames(first.missing) && forall n: nat :: acks(n)
    requires forall a :: a in first.missing ==> LocalMatches(store(a.name), a)
    requires verdicts(0) == Ok(first) && verdicts(1) == Ok(first)
    requires forall k :: 1 < k <= |Plan(first)| + 1 ==> verdicts(k).Ok? && Shows(first, k - 1, verdicts(k).value)
    ensures Prompt(Schedule(first, n => n + 1, _ => Sum(delays)), verdicts, acks, store, delays)
  {
    var s := Schedule(first, n => n + 1, _ => Sum(delays));
    forall n | 0 <= n < |Plan(first)| ensures InTime(s, verdicts, delays, n) {
      var k := n + 2;
      assert verdicts(k).Ok? && Shows(first, k - 1, verdicts(k).value);
    }
  }

  /** After these audits and commands, with `left` of the budget, the run has made the first writes of the plan
      and seen them. */
  ghost predicate OnSchedule(s: Schedule, audits: nat, commands: seq<Command>, left: real, p: Publication) {
    var n := |commands|;
    && n <= |Plan(s.first)| && commands == Plan(s.first)[..n]
    && audits == s.at(n) + 1 && left == s.left(n) && Shows(s.first, n, p)
  }

  predicate Uploaded(commands: seq<Command>, name: Text) {
    exists c :: c in commands && c.Upload? && c.asset.name == name
  }

  /** While assets are missing, the next one is the next of the plan and was not uploaded. */
  lemma NextUpload(first: Publication, n: nat, p: Publication)
    requires n <= |Plan(first)| && Shows(first, n, p) && UniqueNames(first.missing)
    requires p.stage == Draft && p.missing != []
    ensures p.missing[0] in first.missing && !Uploaded(Plan(first)[..n], p.missing[0].name)
  {
    var base := if first.stage == Absent then 1 else 0;
    assert p.missing[0] == first.missing[n - base];
    forall k | 0 <= k < n && Plan(first)[k].Upload?
      ensures Plan(first)[k].asset.name != p.missing[0].name
    {
      assert Plan(first)[k].asset == first.missing[k - base];
    }
  }

  /** One more write of the plan shows. */
  lemma ShownIsVisible(first: Publication, n: nat, p: Publication)
    requires n < |Plan(first)| && Shows(first, n + 1, p) && UniqueNames(first.missing)
    ensures Visible(Plan(first)[n], p)
  {
    var base := if first.stage == Absent then 1 else 0;
    if base <= n < base + |first.missing| {
      var a := first.missing[n - base];
      assert Plan(first)[n] == Upload(a);
      RestLacks(first.missing, n - base);
      assert p.missing == first.missing[n - base + 1..];
    }
  }

  lemma RestLacks(assets: seq<Asset>, i: nat)
    requires i < |assets| && UniqueNames(assets)
    ensures forall m :: m in assets[i + 1..] ==> m.name != assets[i].name
  {
    forall k | i < k < |assets| ensures assets[k].name != assets[i].name {
    }
  }

  /** Audits from number `from` on, until one throws or shows `c`, or `most` have been made. */
  ghost predicate Lookup(verdicts: nat -> Result<Publication>, from: nat, tries: nat, most: nat, c: Command) {
    && 1 <= tries <= most
    && (forall k :: from <= k < from + tries - 1 ==> verdicts(k).Ok? && !Visible(c, verdicts(k).value))
    && (verdicts(from + tries - 1).Ok? && !Visible(c, verdicts(from + tries - 1).value) ==> tries == most)
  }

  /** A lookup ends with audit `shown`, the first that shows the command, if its tries reach it. */
  lemma LookupSettles(verdicts: nat -> Result<Publication>, from: nat, shown: nat, tries: nat, most: nat, c: Command)
    requires Lookup(verdicts, from, tries, most, c) && from <= shown < from + most
    requires verdicts(shown).Ok? && Visible(c, verdicts(shown).value)
    requires forall k :: from <= k < shown ==> verdicts(k).Ok? && !Visible(c, verdicts(k).value)
    ensures from + tries - 1 == shown
  {
  }

  /** A run that is on schedule stays on it. */
  lemma StaysOnSchedule(s: Schedule, verdicts: nat -> Result<Publication>, delays: seq<real>, audits: nat,
                        commands: seq<Command>, left: real, p: Publication, tries: nat)
    requires OnSchedule(s, audits, commands, left, p) && UniqueNames(s.first.missing)
    requires |commands| < |Plan(s.first)| && InTime(s, verdicts, delays, |commands|)
    requires Lookup(verdicts, audits, tries, 1 + Retries(delays, left), Plan(s.first)[|commands|])
    ensures var answer := verdicts(audits + tries - 1);
            && answer.Ok?
            && OnSchedule(s, audits + tries, commands + [Plan(s.first)[|commands|]],
                          left - Slept(delays, left, tries - 1), answer.value)
  {
    var n := |commands|;
    ShownIsVisible(s.first, n, verdicts(s.at(n + 1)).value);
    LookupSettles(verdicts, audits, s.at(n + 1), tries, 1 + Retries(delays, left), Plan(s.first)[n]);
    assert Plan(s.first)[..n + 1] == Plan(s.first)[..n] + [Plan(s.first)[n]];
  }

  /** What a run writes after an audit that found `p`. */
  function NextWrite(p: Publication): Command {
    if p.stage == Absent then Create else if p.missing != [] then Upload(p.missing[0]) else Publish
  }

  /** Which runs go as planned: the number of audits, the commands, the budget left and the last audit. */
  type Course = (nat, seq<Command>, real, Publication) -> bool

  /** Such a run is not stuck, its next command succeeds, and once that is seen it is on course again. */
  ghost predicate Leads(on: Course, verdicts: nat -> Result<Publication>, acks: nat -> bool, store: Text -> LocalFile,
                        delays: seq<real>, audits: nat, commands: seq<Command>, left: real, p: Publication) {
    on(audits, commands, left, p) && p.stage != Complete ==>
      && acks(|commands|) && (commands != [] ==> p.stage != Absent) && Publish !in commands
      && (p.stage == Draft && p.missing != [] ==>
            !Uploaded(commands, p.missing[0].name) && LocalMatches(store(p.missing[0].name), p.missing[0]))
      && forall tries :: SeenBy(on, verdicts, delays, audits, commands, left, NextWrite(p), tries)
  }

  /** If the lookup for `c` ends after `tries` audits, then with a success that is on course. */
  ghost predicate SeenBy(on: Course, verdicts: nat -> Result<Publication>, delays: seq<real>, audits: nat,
                         commands: seq<Command>, left: real, c: Command, tries: nat) {
    Lookup(verdicts, audits, tries, 1 + Retries(delays, left), c) ==>
      && verdicts(audits + tries - 1).Ok?
      && on(audits + tries, commands + [c], left - Slept(delays, left, tries - 1), verdicts(audits + tries - 1).value)
  }

  ghost predicate Steady(on: Course, verdicts: nat -> Result<Publication>, acks: nat -> bool,
                         store: Text -> LocalFile, delays: seq<real>) {
    forall audits, commands, left, p :: Leads(on, verdicts, acks, store, delays, audits, commands, left, p)
  }

  lemma CourseAcks(on: Course, verdicts: nat -> Result<Publication>, acks: nat -> bool, store: Text -> LocalFile,
                   delays: seq<real>, audits: nat, commands: seq<Command>, left: real, p: Publication)
    requires Steady(on, verdicts, acks, store, delays) && on(audits, commands, left, p) && p.stage != Complete
    ensures acks(|commands|)
  {
    assert Leads(on, verdicts, acks, store, delays, audits, commands, left, p);
  }

  lemma CourseSees(on: Course, verdicts: nat -> Result<Publication>, acks: nat -> bool, store: Text -> LocalFile,
                   delays: seq<real>, audits: nat, commands: seq<Command>, left: real, p: Publication, tries: nat)
    requires Steady(on, verdicts, acks, store, delays) && on(audits, commands, left, p) && p.stage != Complete
    requires Lookup(verdicts, audits, tries, 1 + Retries(delays, left), NextWrite(p))
    ensures verdicts(audits + tries - 1).Ok?
    ensures on(audits + tries, commands + [NextWrite(p)], left - Slept(delays, left, tries - 1),
               verdicts(audits + tries - 1).value)
  {
    assert Leads(on, verdicts, acks, store, delays, audits, commands, left, p);
    assert SeenBy(on, verdicts, delays, audits, commands, left, NextWrite(p), tries);
  }

  lemma NextOfPlan(first: Publication, n: nat, p: Publication)
    requires Shows(first, n, p) && p.stage != Complete && n <= |Plan(first)|
    ensures n < |Plan(first)| && Plan(first)[n] == NextWrite(p) && (n > 0 ==> p.stage != Absent)
    ensures Publish !in Plan(first)[..n]
  {
  }

  lemma ScheduleSees(s: Schedule, verdicts: nat -> Result<Publication>, delays: seq<real>, on: Course, audits: nat,
                     commands: seq<Command>, left: real, p: Publication, tries: nat)
    requires OnSchedule(s, audits, commands, left, p) && p.stage != Complete && UniqueNames(s.first.missing)
    requires |commands| < |Plan(s.first)| ==> InTime(s, verdicts, delays, |commands|)
    requires forall a, cs, b, q :: on(a, cs, b, q) <==> OnSchedule(s, a, cs, b, q)
    ensures SeenBy(on, verdicts, delays, audits, commands, left, NextWrite(p), tries)
  {
    NextOfPlan(s.first, |commands|, p);
    if Lookup(verdicts, audits, tries, 1 + Retries(delays, left), NextWrite(p)) {
      StaysOnSchedule(s, verdicts, delays, audits, commands, left, p, tries);
    }
  }

  lemma ScheduleLeads(s: Schedule, verdicts: nat -> Result<Publication>, acks: nat -> bool, store: Text -> LocalFile,
                      delays: seq<real>, on: Course, audits: nat, commands: seq<Command>, left: real, p: Publication)
    requires Prompt(s, verdicts, acks, store, delays)
    requires OnSchedule(s, audits, commands, left, p) && p.stage != Complete
    requires forall a, cs, b, q :: on(a, cs, b, q) <==> OnSchedule(s, a, cs, b, q)
    ensures Leads(on, verdicts, acks, store, delays, audits, commands, left, p)
  {
    var n := |commands|;
    NextOfPlan(s.first, n, p);
    if p.stage == Draft && p.missing != [] { NextUpload(s.first, n, p); }
    forall tries: nat ensures SeenBy(on, verdicts, delays, audits, commands, left, NextWrite(p), tries) {
      ScheduleSees(s, verdicts, delays, on, audits, commands, left, p, tries);
    }
  }

  /** A remote that keeps a schedule gives a steady course. */
  lemma ScheduleIsSteady(s: Schedule, verdicts: nat -> Result<Publication>, acks: nat -> bool,
                         store: Text -> LocalFile, delays: seq<real>, on: Course)
    requires Prompt(s, verdicts, acks, store, delays)
    requires forall a, cs, b, q :: on(a, cs, b, q) <==> OnSchedule(s, a, cs, b, q)
    ensures Steady(on, verdicts, acks, store, delays)
  {
    forall audits, commands, left, p ensures Leads(on, verdicts, acks, store, delays, audits, commands, left, p) {
      if on(audits, commands, left, p) && p.stage != Complete {
        ScheduleLeads(s, verdicts, acks, store, delays, on, audits, commands, left, p);
      }
    }
  }

  // ---- The client ----------------------------------------------------------------------------------------

  /** The GitHub boundary: `verdicts` and `acks` decide what each audit concludes and whether each
      command reports success. Everything the run does is appended to `log`. */
  class Client {
    const expected: Expectation
    const verdicts: nat -> Result<Publication>
    const acks: nat -> bool
    var log: Log

    ghost predicate Valid()
      reads this
    {
      Legal(log) && AllSound(expected, verdicts) && AuditsAgree(log, verdicts)
    }

    constructor (expected: Expectation, verdicts: nat -> Result<Publication>, acks: nat -> bool)
      requires AllSound(expected, verdicts)
      ensures this.expected == expected && this.verdicts == verdicts && this.acks == acks
      ensures Valid() && log == Empty
    {
      this.expected, this.verdicts, this.acks, this.log := expected, verdicts, acks, Empty;
    }

    method ReadOnce() returns (p: Result<Publication>)
      requires Valid() && !Ended(log)
      modifies this
      ensures Valid() && log == Then(old(log), Audited(p)) && p == verdicts(AuditCount(old(log)))
      ensures p.Ok? ==> Sound(expected, p.value)
    {
      p := verdicts(AuditCount(log));
      log := Then(log, Audited(p));
    }

    /** The read after a write, through the shared window: audits until one shows it, an error, or no retry
        is left. */
    method ReadUntil(window: Window, c: Command) returns (p: Result<Publication>, ghost tries: nat)
      requires Valid() && !Ended(log) && window.Valid()
      modifies this, window
      ensures Valid() && window.Valid()
      ensures log.Then? && log.last == Audited(p)
      ensures Writes(log) == Writes(old(log)) && Uploads(log) == Uploads(old(log))
      ensures Commands(log) == Commands(old(log))
      ensures Lookup(verdicts, AuditCount(old(log)), tries, 1 + Retries(window.delays, old(window.remaining)), c)
      ensures AuditCount(log) == AuditCount(old(log)) + tries && p == verdicts(AuditCount(log) - 1)
      ensures window.remaining == old(window.remaining) - Slept(window.delays, old(window.remaining), tries - 1)
      ensures Prechecked(old(log)) ==> Prechecked(log)
      ensures p.Ok? ==> Sound(expected, p.value)
    {
      var count := LookUp(window, c);
      tries := count;
      ObserveMany(log, verdicts, AuditCount(log), count);
      p := verdicts(AuditCount(log) + count - 1);
      log := Observed(log, verdicts, AuditCount(log), count);
    }

    /** The audits of one read: how many it makes. */
    method LookUp(window: Window, c: Command) returns (count: nat)
      requires window.Valid()
      modifies window
      ensures window.Valid()
      ensures Lookup(verdicts, AuditCount(log), count, 1 + Retries(window.delays, old(window.remaining)), c)
      ensures window.remaining == old(window.remaining) - Slept(window.delays, old(window.remaining), count - 1)
    {
      var n, ask := AuditCount(log), verdicts;
      var stop := (r: Result<Publication>) => r.Failed? || Visible(c, r.value);
      var observe := (k: nat) => ask(n + k);
      var last;
      last, count := window.Read(observe, stop);
      forall m | n <= m < n + count - 1 ensures verdicts(m).Ok? && !Visible(c, verdicts(m).value) {
        assert !stop(observe(m - n));
      }
    }

    /** `verifyLocalAsset`. */
    method VerifyLocalAsset(a: Asset, store: Text -> LocalFile) returns (ok: bool)
      requires Valid() && !Ended(log)
      modifies this
      ensures Valid() && ok == LocalMatches(store(a.name), a) && log == Then(old(log), Checked(a, ok))
      // Not an option, no label separator, NUL or line end, and the right file name, size and digest.
      ensures var f := store(a.name);
              ok <==> && f.path != [] && f.path[0] != 45 && 35 !in f.path && 0 !in f.path && 13 !in f.path
                      && 10 !in f.path && Basename(f.path) == a.name && f.size == a.size && f.sha256 == a.sha256
    {
      ok := LocalMatches(store(a.name), a);
      log := Then(log, Checked(a, ok));
    }

    /** `mutate`: a command that reports failure ends the run, though it may have taken effect. */
    method Mutate(c: Command) returns (ok: bool)
      requires Valid() && MayFollow(log, Wrote(c, true)) && MayFollow(log, Wrote(c, false))
      modifies this
      ensures Valid() && log == Then(old(log), Wrote(c, ok)) && ok == acks(Writes(old(log)))
    {
      ok := acks(Writes(log));
      log := Then(log, Wrote(c, ok));
    }
  }

  /** The log after `tries` more audits, starting with verdict `n`. */
  function Observed(log: Log, verdicts: nat -> Result<Publication>, n: nat, tries: nat): Log {
    if tries == 0 then log
    else Then(Observed(log, verdicts, n, tries - 1), Audited(verdicts(n + tries - 1)))
  }

  /** Repeated audits, of which only the last may have thrown, keep the discipline and write nothing. */
  lemma {:induction false} ObserveMany(log: Log, verdicts: nat -> Result<Publication>, n: nat, tries: nat)
    requires Legal(log) && !Ended(log) && AuditCount(log) == n && AuditsAgree(log, verdicts)
    requires forall m :: n <= m < n + tries - 1 ==> verdicts(m).Ok?
    ensures var l := Observed(log, verdicts, n, tries);
            && Legal(l) && Writes(l) == Writes(log) && Uploads(l) == Uploads(log) && Commands(l) == Commands(log)
            && AuditCount(l) == n + tries && AuditsAgree(l, verdicts)
            && (Prechecked(log) ==> Prechecked(l))
  {
    if tries > 0 {
      ObserveMany(log, verdicts, n, tries - 1);
      var l := Observed(log, verdicts, n, tries - 1);
      if Prechecked(l) {
        PrecheckedGrows(l, Audited(verdicts(n + tries - 1)));
      }
    }
  }

  function Names(assets: seq<Asset>): set<Text> {
    set a | a in assets :: a.name
  }

  lemma {:induction false} NamesCount(assets: seq<Asset>)
    ensures |Names(assets)| <= |assets|
  {
    if assets != [] {
      var rest := assets[..|assets| - 1];
      NamesCount(rest);
      assert Names(assets) == Names(rest) + {assets[|assets| - 1].name};
    }
  }

  /** Distinct names drawn from a set are no more than the set. */
  lemma {:induction false} DistinctFit(names: seq<Text>, pool: set<Text>)
    requires Distinct(names) && forall n :: n in names ==> n in pool
    ensures |names| <= |pool|
  {
    if names != [] {
      var rest, x := names[..|names| - 1], names[|names| - 1];
      assert x !in rest;
      DistinctFit(rest, pool - {x});
    }
  }

  lemma UploadsFit(names: seq<Text>, assets: seq<Asset>)
    requires Distinct(names) && forall n :: n in names ==> n in Names(assets)
    ensures |names| <= |Names(assets)| <= |assets|
  {
    NamesCount(assets);
    DistinctFit(names, Names(assets));
  }

  /** Names of expected assets, each at most once. */
  predicate Proper(assets: seq<Asset>, names: seq<Text>) {
    Distinct(names) && forall n :: n in names ==> n in Names(assets)
  }

  lemma ProperGrows(assets: seq<Asset>, names: seq<Text>, a: Asset)
    requires Proper(assets, names) && a in assets && a.name !in names
    ensures Proper(assets, names + [a.name]) && |names| < |Names(assets)|
  {
    UploadsFit(names + [a.name], assets);
  }

  datatype Outcome = Outcome(published: bool, uploaded: seq<Text>, createdDraft: bool)

  /** Hash-checks everything the first audit found missing, before any write. */
  method Precheck(client: Client, missing: seq<Asset>, store: Text -> LocalFile) returns (ok: bool)
    requires client.Valid() && !Ended(client.log)
    requires client.log.Then? && client.log.before.Empty? && client.log.last.Audited? && client.log.last.result.Ok?
    requires client.log.last.result.value.missing == missing
    modifies client
    ensures client.Valid() && Writes(client.log) == Writes(old(client.log))
              && Uploads(client.log) == Uploads(old(client.log))
    ensures Commands(client.log) == Commands(old(client.log)) && AuditCount(client.log) == AuditCount(old(client.log))
    ensures ok ==> Prechecked(client.log) && !Ended(client.log)
    ensures !ok ==> Ended(client.log)
    ensures ok <==> forall a :: a in missing ==> LocalMatches(store(a.name), a)
  {
    ghost var first := client.log.last;
    for i := 0 to |missing|
      invariant client.Valid() && !Ended(client.log) && First(client.log) == Some(first)
      invariant Writes(client.log) == Writes(old(client.log)) && Uploads(client.log) == Uploads(old(client.log))
      invariant Commands(client.log) == Commands(old(client.log))
      invariant AuditCount(client.log) == AuditCount(old(client.log))
      invariant forall k :: 0 <= k < i ==>
                  Has(client.log, Checked(missing[k], true)) && LocalMatches(store(missing[k].name), missing[k])
    {
      ghost var before := client.log;
      var matches := client.VerifyLocalAsset(missing[i], store);
      if !matches {
        assert missing[i] in missing;
        return false;
      }
      assert First(client.log) == First(before);
    }
    ok := true;
  }

  /** Writes what comes after the audit that found `p0`, and looks for it. `on` is any steady course. */
  method WriteAndSee(client: Client, window: Window, c: Command, store: Text -> LocalFile, p0: Publication,
                     ghost on: Course)
    returns (p: Result<Publication>)
    requires client.Valid() && window.Valid() && Prechecked(client.log)
    requires MayFollow(client.log, Wrote(c, true)) && MayFollow(client.log, Wrote(c, false))
    requires Steady(on, client.verdicts, client.acks, store, window.delays)
    requires p0.stage != Complete && c == NextWrite(p0)
    modifies client, window
    ensures client.Valid() && window.Valid() && Prechecked(client.log)
    ensures Commands(client.log) == Commands(old(client.log)) + [c] && Writes(client.log) == Writes(old(client.log)) + 1
    ensures Uploads(client.log) == Uploads(old(client.log)) + (if c.Upload? then [c.asset.name] else [])
    ensures p.Failed? ==> Ended(client.log)
    ensures p.Ok? ==> client.log.Then? && client.log.last == Audited(p) && Sound(client.expected, p.value)
    ensures on(AuditCount(old(client.log)), Commands(old(client.log)), old(window.remaining), p0) ==>
              p.Ok? && on(AuditCount(client.log), Commands(client.log), window.remaining, p.value)
  {
    ghost var audits, commands, left := AuditCount(client.log), Commands(client.log), window.remaining;
    UploadsAre(client.log);
    ghost var tries;
    p, tries := WriteThenRead(client, window, c);
    if on(audits, commands, left, p0) {
      CourseAcks(on, client.verdicts, client.acks, store, window.delays, audits, commands, left, p0);
      CourseSees(on, client.verdicts, client.acks, store, window.delays, audits, commands, left, p0, tries);
    }
  }

  /** One command and, if it reports success, the read after it. */
  method WriteThenRead(client: Client, window: Window, c: Command) returns (p: Result<Publication>, ghost tries: nat)
    requires client.Valid() && window.Valid() && Prechecked(client.log)
    requires MayFollow(client.log, Wrote(c, true)) && MayFollow(client.log, Wrote(c, false))
    modifies client, window
    ensures client.Valid() && window.Valid() && Prechecked(client.log)
    ensures Commands(client.log) == Commands(old(client.log)) + [c] && Writes(client.log) == Writes(old(client.log)) + 1
    ensures Uploads(client.log) == Uploads(old(client.log)) + (if c.Upload? then [c.asset.name] else [])
    ensures p.Failed? ==> Ended(client.log)
    ensures p.Ok? ==> client.log.Then? && client.log.last == Audited(p) && Sound(client.expected, p.value)
    ensures client.acks(Writes(old(client.log))) ==>
              var n, left := AuditCount(old(client.log)), old(window.remaining);
              && Lookup(client.verdicts, n, tries, 1 + Retries(window.delays, left), c)
              && AuditCount(client.log) == n + tries && p == client.verdicts(n + tries - 1)
              && window.remaining == left - Slept(window.delays, left, tries - 1)
  {
    PrecheckedGrows(client.log, Wrote(c, true));
    PrecheckedGrows(client.log, Wrote(c, false));
    var sent := client.Mutate(c);
    tries := 0;
    if !sent {
      return Failed, tries;
    }
    p, tries := client.ReadUntil(window, c);
  }

  /** One round of the upload loop: hash-check the next missing asset, upload it and look for it. */
  method UploadNext(client: Client, store: Text -> LocalFile, window: Window, p0: Publication, ghost on: Course)
    returns (p: Result<Publication>)
    requires client.Valid() && window.Valid() && Prechecked(client.log)
    requires client.log.Then? && client.log.last == Audited(Ok(p0)) && p0.stage == Draft && p0.missing != []
    requires Steady(on, client.verdicts, client.acks, store, window.delays)
    modifies client, window
    ensures client.Valid() && window.Valid() && Prechecked(client.log)
    ensures p.Failed? ==> Ended(client.log)
    ensures var c := Upload(p0.missing[0]);
            || (p.Failed? && Commands(client.log) == Commands(old(client.log))
                && Writes(client.log) == Writes(old(client.log)) && Uploads(client.log) == Uploads(old(client.log)))
            || (Commands(client.log) == Commands(old(client.log)) + [c]
                && Writes(client.log) == Writes(old(client.log)) + 1
                && Uploads(client.log) == Uploads(old(client.log)) + [c.asset.name])
    ensures p.Ok? ==> client.log.Then? && client.log.last == Audited(p) && Sound(client.expected, p.value)
    ensures p.Ok? ==> Commands(client.log) != Commands(old(client.log))
    ensures on(AuditCount(old(client.log)), Commands(old(client.log)), old(window.remaining), p0) ==>
              p.Ok? && on(AuditCount(client.log), Commands(client.log), window.remaining, p.value)
  {
    var asset := p0.missing[0];
    assert Leads(on, client.verdicts, client.acks, store, window.delays, AuditCount(client.log), Commands(client.log),
                 window.remaining, p0);
    PrecheckedGrows(client.log, Checked(asset, true));
    PrecheckedGrows(client.log, Checked(asset, false));
    var matches := client.VerifyLocalAsset(asset, store);
    if !matches {
      return Failed;
    }
    p := WriteAndSee(client, window, Upload(asset), store, p0, on);
  }

  /** The upload loop: one missing asset at a time, each confirmed by a fresh audit before the next.
      Returns the last audit, which found nothing missing, or fails. */
  method FillGaps(client: Client, store: Text -> LocalFile, window: Window, start: Publication, ghost on: Course)
    returns (p: Result<Publication>)
    requires client.Valid() && window.Valid() && Prechecked(client.log) && !Ended(client.log)
    requires client.log.Then? && client.log.last == Audited(Ok(start)) && Sound(client.expected, start)
    requires Uploads(client.log) == [] && start.stage == Draft && Publish !in Commands(client.log)
    requires Steady(on, client.verdicts, client.acks, store, window.delays)
    modifies client, window
    ensures client.Valid() && window.Valid() && Publish !in Commands(client.log)
    ensures Proper(client.expected.assets, Uploads(client.log))
    ensures Writes(client.log) == Writes(old(client.log)) + |Uploads(client.log)|
    ensures Create in Commands(client.log) <==> Create in Commands(old(client.log))
    ensures p.Ok? ==>
              client.log.Then? && client.log.last == Audited(p) && Prechecked(client.log) && p.value.missing == []
    ensures p.Ok? && p.value.stage == Absent ==> Commands(client.log) != []
    ensures p.Failed? ==> Ended(client.log) || Stuck(client.log)
    ensures on(AuditCount(old(client.log)), Commands(old(client.log)), old(window.remaining), start) ==>
              p.Ok? && on(AuditCount(client.log), Commands(client.log), window.remaining, p.value)
  {
    var publication := start;
    ghost var writes := Writes(client.log);
    ghost var steady := on(AuditCount(client.log), Commands(client.log), window.remaining, start);
    var uploaded: seq<Text> := [];
    while publication.missing != []
      invariant client.Valid() && window.Valid() && Prechecked(client.log) && Publish !in Commands(client.log)
      invariant client.log.Then? && client.log.last == Audited(Ok(publication)) && Sound(client.expected, publication)
      invariant uploaded == Uploads(client.log) && Proper(client.expected.assets, uploaded)
      invariant Writes(client.log) == writes + |uploaded|
      invariant Create in Commands(client.log) <==> Create in Commands(old(client.log))
      invariant publication.stage != Draft ==> Commands(client.log) != []
      invariant steady ==> on(AuditCount(client.log), Commands(client.log), window.remaining, publication)
      decreases |Names(client.expected.assets)| - |uploaded|
    {
      assert Leads(on, client.verdicts, client.acks, store, window.delays, AuditCount(client.log), Commands(client.log),
                   window.remaining, publication);
      UploadsAre(client.log);
      if publication.stage != Draft {
        return Failed;
      }
      var asset := publication.missing[0];
      if asset.name in uploaded {
        return Failed;
      }
      ProperGrows(client.expected.assets, uploaded, asset);
      var seen := UploadNext(client, store, window, publication, on);
      if seen.Failed? {
        return Failed;
      }
      uploaded := uploaded + [asset.name];
      publication := seen.value;
    }
    p := Ok(publication);
  }

  /** What a finished run says of itself. */
  predicate Reported(log: Log, o: Outcome) {
    && EndsIn(log, Complete) && o.uploaded == Uploads(log)
    && (o.published <==> Writes(log) > 0) && (o.createdDraft <==> Create in Commands(log))
  }

  /** The run ended on course, with a complete release. */
  ghost predicate EndsOn(log: Log, left: real, on: Course) {
    EndsIn(log, Complete) && on(AuditCount(log), Commands(log), left, log.last.result.value)
  }

  /** `publishVerifiedCanaryRelease`. Whatever the remote answers the run ends, its log is legal, it
      uploads each expected name at most once and writes at most |assets| + 2 times; it succeeds only
      after an audit that found the release complete, and says what it wrote. It fails exactly when an
      audit, a file or a command failed, or a write does not show; and when every write shows in time it
      succeeds, having written exactly what was missing. */
  method PublishVerified(client: Client, store: Text -> LocalFile, window: Window, ghost s: Schedule)
    returns (r: Result<Outcome>)
    requires client.Valid() && client.log == Empty && window.Valid() && window.remaining == Sum(window.delays)
    modifies client, window
    ensures client.Valid() && window.Valid()
    ensures Proper(client.expected.assets, Uploads(client.log))
    ensures Writes(client.log) <= |client.expected.assets| + 2
    ensures r.Ok? ==> Reported(client.log, r.value)
    ensures r.Failed? ==> Ended(client.log) || Stuck(client.log)
    ensures client.verdicts(0).Ok? && client.verdicts(0).value.stage == Complete ==>
              r == Ok(Outcome(false, [], false)) && Commands(client.log) == []
    ensures Prompt(s, client.verdicts, client.acks, store, window.delays) ==>
              r.Ok? && Commands(client.log) == Plan(s.first)
  {
    var first := client.ReadOnce();
    if first.Failed? {
      return Failed;
    }
    if first.value.stage == Complete {
      return Ok(Outcome(false, [], false));
    }
    var checked := Precheck(client, first.value.missing, store);
    if !checked {
      return Failed;
    }
    ghost var before := client.log;
    var second := client.ReadOnce();
    PrecheckedGrows(before, Audited(second));
    if second.Failed? {
      return Failed;
    }
    var publication := second.value;
    if publication.stage == Complete {
      return Ok(Outcome(false, [], false));
    }
    r := WriteInTime(client, store, window, publication, s);
  }

  lemma ScheduleEnds(s: Schedule, audits: nat, commands: seq<Command>, left: real, p: Publication)
    requires OnSchedule(s, audits, commands, left, p) && p.stage == Complete && s.first.stage != Complete
    ensures commands == Plan(s.first)
  {
  }

  /** The writes of a run, for a remote that may keep the schedule `s`. */
  method WriteInTime(client: Client, store: Text -> LocalFile, window: Window, found: Publication, ghost s: Schedule)
    returns (r: Result<Outcome>)
    requires client.Valid() && window.Valid() && Prechecked(client.log) && !Ended(client.log)
    requires client.log.Then? && client.log.last == Audited(Ok(found)) && Sound(client.expected, found)
    requires found.stage != Complete && Commands(client.log) == [] && Writes(client.log) == 0
    requires Uploads(client.log) == []
    modifies client, window
    ensures client.Valid() && window.Valid()
    ensures Proper(client.expected.assets, Uploads(client.log))
    ensures Writes(client.log) <= |client.expected.assets| + 2
    ensures r.Ok? ==> Reported(client.log, r.value)
    ensures r.Failed? ==> Ended(client.log) || Stuck(client.log)
    ensures Prompt(s, client.verdicts, client.acks, store, window.delays) && found == s.first
            && AuditCount(old(client.log)) == 2 && old(window.remaining) == Sum(window.delays) ==>
              r.Ok? && Commands(client.log) == Plan(s.first)
  {
    ghost var prompt := && Prompt(s, client.verdicts, client.acks, store, window.delays) && found == s.first
                        && AuditCount(client.log) == 2 && window.remaining == Sum(window.delays);
    ghost var on: Course := (audits: nat, commands: seq<Command>, left: real, p: Publication) =>
      prompt && OnSchedule(s, audits, commands, left, p);
    if prompt { ScheduleIsSteady(s, client.verdicts, client.acks, store, window.delays, on); }
    r := WriteRelease(client, store, window, found, on);
    if prompt {
      ScheduleEnds(s, AuditCount(client.log), Commands(client.log), window.remaining, client.log.last.result.value);
    }
  }

  /** The writes of a run whose audits found the release absent or a draft. */
  method WriteRelease(client: Client, store: Text -> LocalFile, window: Window, found: Publication,
                      ghost on: Course)
    returns (r: Result<Outcome>)
    requires Steady(on, client.verdicts, client.acks, store, window.delays)
    requires client.Valid() && window.Valid() && Prechecked(client.log) && !Ended(client.log)
    requires client.log.Then? && client.log.last == Audited(Ok(found)) && Sound(client.expected, found)
    requires found.stage != Complete && Commands(client.log) == [] && Writes(client.log) == 0
    requires Uploads(client.log) == []
    modifies client, window
    ensures client.Valid() && window.Valid()
    ensures Proper(client.expected.assets, Uploads(client.log))
    ensures Writes(client.log) <= |client.expected.assets| + 2
    ensures r.Ok? ==> Reported(client.log, r.value)
    ensures r.Failed? ==> Ended(client.log) || Stuck(client.log)
    ensures on(AuditCount(old(client.log)), [], old(window.remaining), found) ==>
              r.Ok? && EndsOn(client.log, window.remaining, on)
  {
    var publication := found;
    if publication.stage == Absent {
      assert Leads(on, client.verdicts, client.acks, store, window.delays, AuditCount(client.log), [],
                   window.remaining, publication);
      var seen := WriteAndSee(client, window, Create, store, publication, on);
      if seen.Failed? {
        return Failed;
      }
      publication := seen.value;
      assert Leads(on, client.verdicts, client.acks, store, window.delays, AuditCount(client.log), Commands(client.log),
                   window.remaining, publication);
      if publication.stage == Complete {
        return Ok(Outcome(true, [], true));
      }
      if publication.stage != Draft {
        return Failed;
      }
    }
    r := FinishDraft(client, store, window, publication, found.stage == Absent, on);
  }

  /** Fill the gaps of an audited draft, then publish it and confirm. */
  method FinishDraft(client: Client, store: Text -> LocalFile, window: Window, draft: Publication,
                     createdDraft: bool, ghost on: Course)
    returns (r: Result<Outcome>)
    requires Steady(on, client.verdicts, client.acks, store, window.delays)
    requires client.Valid() && window.Valid() && Prechecked(client.log) && !Ended(client.log)
    requires client.log.Then? && client.log.last == Audited(Ok(draft)) && Sound(client.expected, draft)
    requires draft.stage == Draft && Uploads(client.log) == []
    requires Commands(client.log) == if createdDraft then [Create] else []
    requires Writes(client.log) == if createdDraft then 1 else 0
    modifies client, window
    ensures client.Valid() && window.Valid()
    ensures Proper(client.expected.assets, Uploads(client.log))
    ensures Writes(client.log) <= |client.expected.assets| + 2
    ensures r.Ok? ==> Reported(client.log, r.value)
    ensures r.Failed? ==> Ended(client.log) || Stuck(client.log)
    ensures on(AuditCount(old(client.log)), Commands(old(client.log)), old(window.remaining), draft) ==>
              r.Ok? && EndsOn(client.log, window.remaining, on)
  {
    var filled := FillGaps(client, store, window, draft, on);
    UploadsFit(Uploads(client.log), client.expected.assets);
    if filled.Failed? {
      return Failed;
    }
    assert Leads(on, client.verdicts, client.acks, store, window.delays, AuditCount(client.log), Commands(client.log),
                 window.remaining, filled.value);
    if filled.value.stage == Complete {
      return Ok(Outcome(createdDraft || Uploads(client.log) != [], Uploads(client.log), createdDraft));
    }
    if filled.value.stage != Draft {
      return Failed;
    }
    var uploaded := Uploads(client.log);
    var confirmed := WriteAndSee(client, window, Publish, store, filled.value, on);
    assert confirmed.Ok? ==> Leads(on, client.verdicts, client.acks, store, window.delays, AuditCount(client.log),
                                   Commands(client.log), window.remaining, confirmed.value);
    if confirmed.Failed? || confirmed.value.stage != Complete {
      return Failed;
    }
    r := Ok(Outcome(true, uploaded, createdDraft));
  }

  /** The run on raw remote answers: each audit concludes what `verifyCanaryReleasePublication` does. */
  method PublishCanaryRelease(expected: Expectation, answers: nat -> Answers, acks: nat -> bool,
                              store: Text -> LocalFile, delays: seq<real>, ghost s: Schedule)
    returns (r: Result<Outcome>, log: Log)
    ensures Legal(log) && AuditsAgree(log, (k: nat) => Audit(expected, answers(k)))
    ensures Proper(expected.assets, Uploads(log))
    ensures Writes(log) <= |expected.assets| + 2
    ensures r.Ok? ==> Reported(log, r.value)
    // It fails for one of these reasons and no other.
    ensures r.Failed? <==> !ValidDelays(delays) || Ended(log) || Stuck(log)
    ensures !ValidDelays(delays) ==> log == Empty
    // A complete release is left alone, and one that shows every write in time becomes complete.
    ensures ValidDelays(delays) && Audit(expected, answers(0)).Ok?
            && Audit(expected, answers(0)).value.stage == Complete ==>
              r == Ok(Outcome(false, [], false)) && Commands(log) == []
    ensures ValidDelays(delays) && Prompt(s, (k: nat) => Audit(expected, answers(k)), acks, store, delays) ==>
              r.Ok? && Commands(log) == Plan(s.first)
  {
    log := Empty;
    var window := Open(delays);
    if window == null {
      return Failed, log;
    }
    var verdicts := (k: nat) => Audit(expected, answers(k));
    forall k: nat | verdicts(k).Ok? ensures Sound(expected, verdicts(k).value) {
      ConclusionSound(expected, answers(k));
    }
    var client := new Client(expected, verdicts, acks);
    r := PublishVerified(client, store, window, s);
    log := client.log;
  }
}
