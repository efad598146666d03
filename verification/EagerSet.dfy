/** `traverseEagerSet`: the files a first paint downloads, by a worklist. */
module EagerSet {
  import opened Prelude

  type Path = string

  type Body = string

  const SHELL: Path := "index.html"

  /** How references are found in a page and in a script, and how one resolves from a file. */
  datatype Refs = Refs(html: Body -> seq<string>, imports: Body -> seq<string>, resolve: (string, Path) -> Option<Path>)

  type Files = map<Path, Body>

  predicate IsScript(path: Path) { |path| >= 3 && path[|path| - 3..] == ".js" }

  /** What a file makes the browser load, before asking which of it exists. */
  function Needs(x: Refs, path: Path, body: Body): seq<string> {
    if path == SHELL then x.html(body) else if IsScript(path) then x.imports(body) else []
  }

  /** `s` holds every existing target of these references. */
  predicate Holds(x: Refs, files: Files, refs: seq<string>, from: Path, s: set<Path>) {
    forall i :: 0 <= i < |refs| ==>
      var target := x.resolve(refs[i], from); target.Some? && target.value in files ==> target.value in s
  }

  /** `s` holds the shell, if there is one, and everything a file in it needs. */
  predicate Closed(x: Refs, files: Files, s: set<Path>) {
    && (SHELL in files ==> SHELL in s)
    && forall path :: path in s && path in files ==> Holds(x, files, Needs(x, path, files[path]), path, s)
  }

  ghost predicate InEveryClosed(x: Refs, files: Files, s: set<Path>) {
    forall other :: Closed(x, files, other) ==> s <= other
  }

  /** Adds an existing file not seen before to the set and the queue. */
  method Add(files: Files, target: Option<Path>, eager: set<Path>, queue: seq<Path>)
    returns (eager': set<Path>, queue': seq<Path>)
    ensures eager' == if target.Some? && target.value in files then eager + {target.value} else eager
    ensures queue' == if eager' == eager then queue else queue + [target.value]
  {
    eager', queue' := eager, queue;
    if target.Some? && target.value in files && target.value !in eager {
      eager', queue' := eager + {target.value}, queue + [target.value];
    }
  }

  lemma NeededIsIn(x: Refs, files: Files, path: Path, eager: set<Path>, i: nat)
    requires path in files && path in eager && InEveryClosed(x, files, eager)
    requires i < |Needs(x, path, files[path])|
    requires var target := x.resolve(Needs(x, path, files[path])[i], path); target.Some? && target.value in files
    ensures InEveryClosed(x, files, eager + {x.resolve(Needs(x, path, files[path])[i], path).value})
  {
    var target := x.resolve(Needs(x, path, files[path])[i], path).value;
    forall other | Closed(x, files, other)
      ensures eager + {target} <= other
    {
      assert eager <= other;
      assert Holds(x, files, Needs(x, path, files[path]), path, other);
    }
  }

  /** Adds what a file needs. */
  method AddAll(x: Refs, files: Files, path: Path, eager: set<Path>, queue: seq<Path>)
    returns (eager': set<Path>, queue': seq<Path>)
    requires path in files && path in eager && eager <= files.Keys && InEveryClosed(x, files, eager)
    ensures eager <= eager' <= files.Keys && InEveryClosed(x, files, eager')
    ensures Holds(x, files, Needs(x, path, files[path]), path, eager')
    ensures forall p :: p in queue' <==> p in queue || p in eager' - eager
    ensures eager' == eager ==> queue' == queue
  {
    var refs := Needs(x, path, files[path]);
    eager', queue' := eager, queue;
    for i := 0 to |refs|
      invariant eager <= eager' <= files.Keys && InEveryClosed(x, files, eager')
      invariant Holds(x, files, refs[..i], path, eager')
      invariant forall p :: p in queue' <==> p in queue || p in eager' - eager
      invariant eager' == eager ==> queue' == queue
    {
      var target := x.resolve(refs[i], path);
      if target.Some? && target.value in files { NeededIsIn(x, files, path, eager', i); }
      eager', queue' := Add(files, target, eager', queue');
      assert refs[..i + 1] == refs[..i] + [refs[i]];
    }
    assert refs[..|refs|] == refs;
  }

  predicate Settled(x: Refs, files: Files, p: Path, s: set<Path>) {
    p in files && Holds(x, files, Needs(x, p, files[p]), p, s)
  }

  /** The shell is settled, and so is every file of the set that is not waiting in the queue. */
  predicate Working(x: Refs, files: Files, eager: set<Path>, queue: seq<Path>) {
    && SHELL in eager && Settled(x, files, SHELL, eager)
    && (forall p :: p in queue ==> p in eager)
    && forall p :: p in eager && p !in queue ==> Settled(x, files, p, eager)
  }

  /** Working on the head of the queue keeps this up, whatever it adds. */
  lemma WorkGoesOn(x: Refs, files: Files, eager: set<Path>, queue: seq<Path>, eager': set<Path>, queue': seq<Path>)
    requires queue != [] && Working(x, files, eager, queue) && eager <= eager' <= files.Keys
    requires Settled(x, files, queue[0], eager')
    requires forall p :: p in queue' <==> p in queue[1..] || p in eager' - eager
    ensures Working(x, files, eager', queue')
  {
    assert queue == [queue[0]] + queue[1..];
    forall p | p in eager' && p !in queue'
      ensures Settled(x, files, p, eager')
    {
      if p != queue[0] { assert Settled(x, files, p, eager); }
    }
  }

  /** One round of the worklist: the head of the queue is visited. */
  method Visit(x: Refs, files: Files, eager: set<Path>, queue: seq<Path>)
    returns (eager': set<Path>, queue': seq<Path>)
    requires queue != [] && eager <= files.Keys && InEveryClosed(x, files, eager) && Working(x, files, eager, queue)
    ensures eager <= eager' <= files.Keys && InEveryClosed(x, files, eager') && Working(x, files, eager', queue')
    ensures eager' == eager ==> |queue'| < |queue|
  {
    var path := queue[0];
    eager', queue' := eager, queue[1..];
    if IsScript(path) {
      eager', queue' := AddAll(x, files, path, eager, queue[1..]);
    }
    WorkGoesOn(x, files, eager, queue, eager', queue');
  }

  lemma ShellIsIn(x: Refs, files: Files)
    requires SHELL in files
    ensures InEveryClosed(x, files, {SHELL})
  {
  }

  lemma AllSettled(x: Refs, files: Files, eager: set<Path>)
    requires eager <= files.Keys && Working(x, files, eager, [])
    ensures Closed(x, files, eager)
  {
    forall p | p in eager
      ensures Holds(x, files, Needs(x, p, files[p]), p, eager)
    {
      assert Settled(x, files, p, eager);
    }
  }

  /** The eager set is the least set that holds the shell and is closed under what its files need. */
  method TraverseEagerSet(x: Refs, files: Files) returns (eager: set<Path>)
    ensures eager <= files.Keys && Closed(x, files, eager) && InEveryClosed(x, files, eager)
    ensures SHELL !in files ==> eager == {}
  {
    eager := {};
    if SHELL !in files {
      return;
    }
    var queue: seq<Path> := [];
    eager, queue := Add(files, Some(SHELL), eager, queue);
    ShellIsIn(x, files);
    eager, queue := AddAll(x, files, SHELL, eager, queue);
    while queue != []
      invariant eager <= files.Keys && InEveryClosed(x, files, eager) && Working(x, files, eager, queue)
      decreases files.Keys - eager, |queue|
    {
      ghost var before := eager;
      eager, queue := Visit(x, files, eager, queue);
      if eager != before { Shrinks(files.Keys, before, eager); }
    }
    AllSettled(x, files, eager);
  }

  lemma Shrinks(all: set<Path>, before: set<Path>, after: set<Path>)
    requires before <= after <= all && before != after
    ensures all - after < all - before
  {
    var p :| p in after && p !in before;
    assert p in all - before && p !in all - after;
  }

  /** `from` is in `s` and makes the browser load `target`: the shell by what its page references, any other
      file by what it imports if its name ends in `.js`. */
  ghost predicate Loads(x: Refs, files: Files, s: set<Path>, from: Path, i: nat, target: Path) {
    && from in s && from in files && target in files
    && if from == "index.html" then
         i < |x.html(files[from])| && x.resolve(x.html(files[from])[i], from) == Some(target)
       else
         && (exists stem :: from == stem + ".js")
         && i < |x.imports(files[from])| && x.resolve(x.imports(files[from])[i], from) == Some(target)
  }

  lemma LoadsIsNeeds(x: Refs, files: Files, s: set<Path>, from: Path, i: nat, target: Path)
    requires from in s && from in files && target in files
    ensures Loads(x, files, s, from, i, target) <==>
            i < |Needs(x, from, files[from])| && x.resolve(Needs(x, from, files[from])[i], from) == Some(target)
  {
    if IsScript(from) { assert from == from[..|from| - 3] + ".js"; }
    forall stem | from == stem + ".js" ensures IsScript(from) {
      assert from[|from| - 3..] == ".js";
    }
  }

  /** The eager files are the shell, exactly what they load themselves, and nothing else. */
  lemma EagerIsLoaded(x: Refs, files: Files, eager: set<Path>, target: Path)
    requires SHELL in files && target in files && target != SHELL
    requires eager <= files.Keys && Closed(x, files, eager) && InEveryClosed(x, files, eager)
    ensures SHELL in eager && (target in eager <==> exists from, i :: Loads(x, files, eager, from, i, target))
  {
    forall from, i: nat | Loads(x, files, eager, from, i, target)
      ensures target in eager
    {
      LoadsIsNeeds(x, files, eager, from, i, target);
      assert Holds(x, files, Needs(x, from, files[from]), from, eager);
    }
    if target in eager && forall from, i :: !Loads(x, files, eager, from, i, target) {
      var less := eager - {target};
      forall path | path in less && path in files
        ensures Holds(x, files, Needs(x, path, files[path]), path, less)
      {
        assert Holds(x, files, Needs(x, path, files[path]), path, eager);
        forall i: nat | i < |Needs(x, path, files[path])|
          ensures x.resolve(Needs(x, path, files[path])[i], path) != Some(target)
        {
          LoadsIsNeeds(x, files, eager, path, i, target);
        }
      }
      assert Closed(x, files, less);
    }
  }
}
