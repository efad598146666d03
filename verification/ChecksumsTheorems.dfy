/** Printing and parsing SHA256SUMS are inverse exactly on nonempty lists of proper, distinct entries. */
module ChecksumsTheorems {
  import opened Prelude
  import opened PlainNames
  import opened Checksums

  function MapOf(es: seq<Entry>): Sums {
    if es == [] then map[] else map[es[0].name := es[0].digest] + MapOf(es[1..])
  }

  lemma {:induction false} MapAt(es: seq<Entry>, i: nat)
    requires i < |es| && Distinct(es)
    ensures es[i].name in MapOf(es) && MapOf(es)[es[i].name] == es[i].digest
    decreases |es|
  {
    if i == 0 {
      if es[0].name in MapOf(es[1..]) { NameIn(es[1..], es[0].name); }
    } else {
      MapAt(es[1..], i - 1);
    }
  }

  lemma {:induction false} NameIn(es: seq<Entry>, name: Text)
    requires name in MapOf(es)
    ensures exists i :: 0 <= i < |es| && es[i].name == name
    decreases |es|
  {
    if es[0].name == name {
      assert es[0].name == name;
    } else {
      NameIn(es[1..], name);
      var i :| 0 <= i < |es[1..]| && es[1..][i].name == name;
      assert es[i + 1].name == name;
    }
  }

  lemma {:induction false} NameHeld(es: seq<Entry>, i: nat)
    requires i < |es|
    ensures es[i].name in MapOf(es)
    decreases |es|
  {
    if i > 0 { NameHeld(es[1..], i - 1); }
  }

  /** The order of a list without repeated names does not matter to what it maps. */
  lemma MapForgetsOrder(a: seq<Entry>, b: seq<Entry>)
    requires multiset(a) == multiset(b) && Distinct(a)
    ensures MapOf(a) == MapOf(b)
  {
    StillDistinct(a, b);
    Included(a, b);
    Included(b, a);
  }

  lemma Included(a: seq<Entry>, b: seq<Entry>)
    requires multiset(a) == multiset(b) && Distinct(a) && Distinct(b)
    ensures forall name :: name in MapOf(a) ==> name in MapOf(b) && MapOf(b)[name] == MapOf(a)[name]
  {
    forall name | name in MapOf(a)
      ensures name in MapOf(b) && MapOf(b)[name] == MapOf(a)[name]
    {
      NameIn(a, name);
      var i :| 0 <= i < |a| && a[i].name == name;
      assert a[i] in multiset(b);
      var j :| 0 <= j < |b| && b[j] == a[i];
      MapAt(a, i);
      MapAt(b, j);
    }
  }

  predicate AllProper(es: seq<Entry>) { forall i :: 0 <= i < |es| ==> Proper(es[i]) }

  // ---- Reading what was printed ----------------------------------------------------------------------------

  lemma NoLineEnd(e: Entry)
    requires Proper(e)
    ensures LF !in Line(e) && Line(e) != [] && !IsSpace(Line(e)[|Line(e)| - 1])
  {
    forall i | 0 <= i < |Line(e)|
      ensures Line(e)[i] != LF
    {
      if i < 64 { assert IsHex(e.digest[i]); } else if i >= 66 { assert !IsForbidden(e.name[i - 66]); }
    }
    assert Line(e)[|Line(e)| - 1] == e.name[|e.name| - 1];
  }

  /** The lines of the printed text are the lines of the entries. */
  lemma PrintedLines(es: seq<Entry>)
    requires es != [] && AllProper(es)
    ensures Split(TrimEnd(Lines(LinesOf(es)) + [LF])) == LinesOf(es)
  {
    var lines := LinesOf(es);
    var text := Lines(lines);
    forall i | 0 <= i < |lines|
      ensures LF !in lines[i] && lines[i] != [] && !IsSpace(lines[i][|lines[i]| - 1])
    {
      NoLineEnd(es[i]);
    }
    LinesEnd(lines);
    assert (text + [LF])[..|text|] == text;
    assert TrimEnd(text + [LF]) == TrimEnd(text) == text;
    SplitLines(lines);
  }

  /** The entries added one by one, each under a new name. */
  function AddAll(es: seq<Entry>, entries: Sums): Result<Sums> {
    if es == [] then Ok(entries)
    else if es[0].name in entries then Failed
    else AddAll(es[1..], entries[es[0].name := es[0].digest])
  }

  lemma {:induction false} ParsesEntries(es: seq<Entry>, entries: Sums)
    requires AllProper(es)
    ensures ParseLines(LinesOf(es), entries) == AddAll(es, entries)
    decreases |es|
  {
    if es != [] {
      LineParses(es[0]);
      assert LinesOf(es)[1..] == LinesOf(es[1..]);
      ParsesEntries(es[1..], entries[es[0].name := es[0].digest]);
    }
  }

  predicate FreshNames(es: seq<Entry>, entries: Sums) { forall i :: 0 <= i < |es| ==> es[i].name !in entries }

  lemma FreshTail(es: seq<Entry>, entries: Sums)
    requires es != [] && es[0].name !in entries
    ensures Distinct(es) && FreshNames(es, entries) <==>
            Distinct(es[1..]) && FreshNames(es[1..], entries[es[0].name := es[0].digest])
  {
    var rest, more := es[1..], entries[es[0].name := es[0].digest];
    if Distinct(rest) && FreshNames(rest, more) {
      forall i | 0 <= i < |es|
        ensures es[i].name !in entries && (i > 0 ==> es[i].name != es[0].name)
      {
        if i > 0 { assert rest[i - 1].name !in more; }
      }
    }
  }

  /** Adding succeeds exactly when no name repeats. */
  lemma {:induction false} AddsDistinct(es: seq<Entry>, entries: Sums)
    ensures AddAll(es, entries) ==
            if Distinct(es) && FreshNames(es, entries) then Ok(entries + MapOf(es)) else Failed
    decreases |es|
  {
    if es == [] {
      assert entries + map[] == entries;
    } else if es[0].name !in entries {
      var e := es[0];
      AddsDistinct(es[1..], entries[e.name := e.digest]);
      FreshTail(es, entries);
      assert entries[e.name := e.digest] + MapOf(es[1..]) == entries + MapOf(es);
    }
  }

  lemma SortKeeps(es: seq<Entry>)
    ensures |Sort(es)| == |es| && (AllProper(es) <==> AllProper(Sort(es))) && (Distinct(es) <==> Distinct(Sort(es)))
  {
    var s := Sort(es);
    assert |s| == |multiset(s)| == |multiset(es)| == |es|;
    if AllProper(es) { ProperCopies(es, s); }
    if AllProper(s) { ProperCopies(s, es); }
    if Distinct(es) { StillDistinct(es, s); }
    if Distinct(s) { StillDistinct(s, es); }
  }

  lemma ProperCopies(a: seq<Entry>, b: seq<Entry>)
    requires multiset(a) == multiset(b) && AllProper(a)
    ensures AllProper(b)
  {
    forall i | 0 <= i < |b|
      ensures Proper(b[i])
    {
      assert b[i] in multiset(a);
    }
  }

  // ---- Only what is proper comes back ------------------------------------------------------------------------

  lemma {:induction false} ParsedIsProper(lines: seq<Text>, entries: Sums)
    requires ParseLines(lines, entries).Ok? && forall name :: name in entries ==> Proper(Entry(name, entries[name]))
    ensures var m := ParseLines(lines, entries).value; forall name :: name in m ==> Proper(Entry(name, m[name]))
    decreases |lines|
  {
    if lines != [] {
      var e := ParseLine(lines[0]).value;
      ParsedIsProper(lines[1..], entries[e.name := e.digest]);
    }
  }

  lemma {:induction false} ParsedCount(lines: seq<Text>, entries: Sums)
    requires ParseLines(lines, entries).Ok?
    ensures |ParseLines(lines, entries).value| == |entries| + |lines|
    decreases |lines|
  {
    if lines != [] {
      var e := ParseLine(lines[0]).value;
      assert entries[e.name := e.digest].Keys == entries.Keys + {e.name};
      ParsedCount(lines[1..], entries[e.name := e.digest]);
    }
  }

  lemma {:induction false} SplitCount(line: Text, rest: Text)
    ensures |Split(line + [LF] + rest)| >= 1 + |Split(rest)|
    decreases |line|
  {
    var s := line + [LF] + rest;
    if line == [] {
      assert s[1..] == rest;
    } else {
      assert s[1..] == line[1..] + [LF] + rest;
      SplitCount(line[1..], rest);
    }
  }

  lemma {:induction false} LinesCount(lines: seq<Text>)
    ensures |Split(Lines(lines))| >= |lines|
    decreases |lines|
  {
    if |lines| > 1 {
      LinesCount(lines[1..]);
      SplitCount(lines[0], Lines(lines[1..]));
    }
  }

  lemma MapGrows(m: Sums, name: Text, digest: Text)
    ensures |map[name := digest] + m| == |m| + if name in m then 0 else 1
  {
    var more := map[name := digest] + m;
    assert |more| == |more.Keys| && |m| == |m.Keys|;
    if name in m { assert more.Keys == m.Keys; } else { assert more.Keys == m.Keys + {name}; }
  }

  lemma DistinctCons(es: seq<Entry>)
    requires es != [] && Distinct(es[1..]) && es[0].name !in MapOf(es[1..])
    ensures Distinct(es)
  {
    forall j | 0 < j < |es|
      ensures es[j].name != es[0].name
    {
      NameHeld(es[1..], j - 1);
    }
  }

  lemma {:induction false} MapCount(es: seq<Entry>)
    ensures |MapOf(es)| <= |es| && (|MapOf(es)| == |es| ==> Distinct(es))
    decreases |es|
  {
    if es != [] {
      MapCount(es[1..]);
      MapGrows(MapOf(es[1..]), es[0].name, es[0].digest);
      if |MapOf(es)| == |es| { DistinctCons(es); }
    }
  }

  /** An empty list prints as a blank line, which is no checksum line. */
  lemma EmptyFails()
    ensures Print([]) == [LF] && Parse(Print([])).Failed?
  {
    assert TrimEnd([LF]) == TrimEnd([]) == [];
    assert ParseLine([]).None?;
  }

  lemma TextReadsBack(s: seq<Entry>)
    requires s != [] && AllProper(s)
    ensures Parse(Lines(LinesOf(s)) + [LF]) == if Distinct(s) then Ok(MapOf(s)) else Failed
  {
    PrintedLines(s);
    ParsesEntries(s, map[]);
    AddsDistinct(s, map[]);
    assert map[] + MapOf(s) == MapOf(s);
  }

  lemma ProperRoundTrip(es: seq<Entry>)
    requires es != [] && AllProper(es)
    ensures Parse(Print(es)) == if Distinct(es) then Ok(MapOf(es)) else Failed
  {
    SortKeeps(es);
    TextReadsBack(Sort(es));
    if Distinct(es) { MapForgetsOrder(es, Sort(es)); }
  }

  predicate PlainNamed(es: seq<Entry>) { forall i :: 0 <= i < |es| ==> IsPlainName(es[i].name) }

  lemma EndsPlainly(e: Entry)
    requires IsPlainName(e.name)
    ensures Line(e) != [] && !IsSpace(Line(e)[|Line(e)| - 1])
  {
    assert Line(e)[|Line(e)| - 1] == e.name[|e.name| - 1];
  }

  /** With plain names only the final line end is trimmed, so there are at least as many lines as entries. */
  lemma EnoughLines(s: seq<Entry>)
    requires s != [] && PlainNamed(s)
    ensures |Split(TrimEnd(Lines(LinesOf(s)) + [LF]))| >= |s|
  {
    var lines := LinesOf(s);
    var text := Lines(lines);
    EndsPlainly(s[|s| - 1]);
    LinesEnd(lines);
    assert (text + [LF])[..|text|] == text;
    assert TrimEnd(text + [LF]) == TrimEnd(text) == text;
    LinesCount(lines);
  }

  lemma PlainCopies(a: seq<Entry>, b: seq<Entry>)
    requires multiset(a) == multiset(b) && PlainNamed(a)
    ensures PlainNamed(b)
  {
    forall i | 0 <= i < |b|
      ensures IsPlainName(b[i].name)
    {
      assert b[i] in multiset(a);
    }
  }

  lemma ReadBackIsProper(es: seq<Entry>)
    requires es != [] && Parse(Print(es)) == Ok(MapOf(es))
    ensures AllProper(es) && Distinct(es)
  {
    var lines := Split(TrimEnd(Print(es)));
    ParsedIsProper(lines, map[]);
    forall i | 0 <= i < |es|
      ensures IsPlainName(es[i].name)
    {
      NameHeld(es, i);
    }
    SortKeeps(es);
    PlainCopies(es, Sort(es));
    EnoughLines(Sort(es));
    ParsedCount(lines, map[]);
    MapCount(es);
    forall i | 0 <= i < |es|
      ensures Proper(es[i])
    {
      MapAt(es, i);
    }
  }

  /** The printed file reads back as the list exactly when the list is nonempty, every entry is a digest
      and a plain name, and no name repeats. */
  lemma RoundTripExactly(es: seq<Entry>)
    ensures Parse(Print(es)) == Ok(MapOf(es)) <==> es != [] && AllProper(es) && Distinct(es)
  {
    if es == [] {
      EmptyFails();
    } else {
      if Parse(Print(es)) == Ok(MapOf(es)) { ReadBackIsProper(es); }
      if AllProper(es) { ProperRoundTrip(es); }
    }
  }

  /** The order in which the assets were listed leaves no trace in the file. */
  lemma PrintForgetsOrder(a: seq<Entry>, b: seq<Entry>)
    requires multiset(a) == multiset(b) && Distinct(a)
    ensures Print(a) == Print(b)
  {
    SortForgetsOrder(a, b);
  }
}
