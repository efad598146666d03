/** SHA256SUMS: the printer of the publication evidence and the parser of the approval evidence. */
module Checksums {
  import opened Prelude
  import opened PlainNames

  datatype Entry = Entry(name: Text, digest: Text)

  type Sums = map<Text, Text>

  // ---- Order -------------------------------------------------------------------------------------------

  /** `a < b` on JavaScript strings: by UTF-16 code unit. */
  predicate Less(a: Text, b: Text) {
    b != [] && (a == [] || a[0] < b[0] || (a[0] == b[0] && Less(a[1..], b[1..])))
  }

  lemma {:induction false} LessIsStrict(a: Text, b: Text, c: Text)
    ensures !Less(a, a)
    ensures Less(a, b) ==> !Less(b, a)
    ensures Less(a, b) && Less(b, c) ==> Less(a, c)
    ensures Less(a, b) || a == b || Less(b, a)
    decreases |a|
  {
    if a != [] {
      LessIsStrict(a[1..], if b == [] then [] else b[1..], if c == [] then [] else c[1..]);
      if b != [] && a[0] == b[0] && a[1..] == b[1..] { assert a == [a[0]] + a[1..] && b == [b[0]] + b[1..]; }
    }
  }

  predicate Ascending(es: seq<Entry>) {
    forall i, j :: 0 <= i < j < |es| ==> !Less(es[j].name, es[i].name)
  }

  predicate Distinct(es: seq<Entry>) {
    forall i, j :: 0 <= i < j < |es| ==> es[i].name != es[j].name
  }

  /** `e` into a sorted list, before what it is equal to. */
  function Insert(e: Entry, es: seq<Entry>): (r: seq<Entry>)
    requires Ascending(es)
    ensures multiset(r) == multiset(es) + multiset{e}
    ensures Ascending(r)
  {
    if es == [] then [e]
    else if !Less(es[0].name, e.name) then
      InFront(e, es);
      [e] + es
    else
      var rest := Insert(e, es[1..]);
      assert es == [es[0]] + es[1..];
      Behind(e, es, rest);
      [es[0]] + rest
  }

  lemma InFront(e: Entry, es: seq<Entry>)
    requires Ascending(es) && es != [] && !Less(es[0].name, e.name)
    ensures Ascending([e] + es)
  {
    var r := [e] + es;
    forall i, j | 0 <= i < j < |r|
      ensures !Less(r[j].name, r[i].name)
    {
      if i == 0 {
        LessIsStrict(r[j].name, e.name, es[0].name);
        LessIsStrict(es[0].name, r[j].name, e.name);
        LessIsStrict(e.name, es[0].name, r[j].name);
      }
    }
  }

  lemma Behind(e: Entry, es: seq<Entry>, rest: seq<Entry>)
    requires Ascending(es) && es != [] && Less(es[0].name, e.name)
    requires Ascending(rest) && multiset(rest) == multiset(es[1..]) + multiset{e}
    ensures Ascending([es[0]] + rest)
  {
    forall j | 0 <= j < |rest|
      ensures !Less(rest[j].name, es[0].name)
    {
      assert rest[j] in multiset(rest);
      LessIsStrict(es[0].name, e.name, es[0].name);
      if rest[j] != e { assert rest[j] in es[1..]; }
    }
  }

  /** The entries in order of name. */
  function Sort(es: seq<Entry>): (r: seq<Entry>)
    ensures multiset(r) == multiset(es) && Ascending(r)
  {
    if es == [] then []
    else
      assert es == [es[0]] + es[1..];
      Insert(es[0], Sort(es[1..]))
  }

  lemma SameFirst(a: seq<Entry>, b: seq<Entry>)
    requires multiset(a) == multiset(b) && Ascending(a) && Ascending(b) && Distinct(a) && a != [] && b != []
    ensures a[0] == b[0]
  {
    assert a[0] in multiset(b) && b[0] in multiset(a);
    var j :| 0 <= j < |b| && b[j] == a[0];
    var i :| 0 <= i < |a| && a[i] == b[0];
    LessIsStrict(a[0].name, b[0].name, a[0].name);
  }

  lemma SameRest(a: seq<Entry>, b: seq<Entry>)
    requires multiset(a) == multiset(b) && a != [] && b != [] && a[0] == b[0]
    ensures multiset(a[1..]) == multiset(b[1..])
  {
    assert a == [a[0]] + a[1..] && b == [b[0]] + b[1..];
    assert multiset(a[1..]) == multiset(a) - multiset{a[0]};
    assert multiset(b[1..]) == multiset(b) - multiset{b[0]};
  }

  lemma TailKeeps(a: seq<Entry>)
    requires a != [] && Ascending(a)
    ensures Ascending(a[1..]) && (Distinct(a) ==> Distinct(a[1..]))
  {
  }

  lemma {:induction false} OneOrder(a: seq<Entry>, b: seq<Entry>)
    requires multiset(a) == multiset(b) && Ascending(a) && Ascending(b) && Distinct(a)
    ensures a == b
    decreases |a|
  {
    assert |a| == |multiset(a)| == |multiset(b)| == |b|;
    if a != [] {
      SameFirst(a, b);
      SameRest(a, b);
      TailKeeps(a);
      TailKeeps(b);
      OneOrder(a[1..], b[1..]);
      assert a == [a[0]] + a[1..] == [b[0]] + b[1..] == b;
    }
  }

  /** A list without repeated names has one order, whatever order it came in. */
  lemma SortForgetsOrder(a: seq<Entry>, b: seq<Entry>)
    requires multiset(a) == multiset(b) && Distinct(a)
    ensures Sort(a) == Sort(b)
  {
    StillDistinct(a, Sort(a));
    OneOrder(Sort(a), Sort(b));
  }

  lemma StillDistinct(a: seq<Entry>, b: seq<Entry>)
    requires multiset(a) == multiset(b) && Distinct(a)
    ensures Distinct(b)
  {
    if i, j :| 0 <= i < j < |b| && b[i].name == b[j].name {
      assert b[i] in multiset(a) && b[j] in multiset(a);
      var k :| 0 <= k < |a| && a[k] == b[i];
      var l :| 0 <= l < |a| && a[l] == b[j];
      assert k == l;
      TwoCopies(b, i, j);
      OneCopy(a, k);
    }
  }

  lemma TwoCopies(s: seq<Entry>, i: nat, j: nat)
    requires i < j < |s| && s[i] == s[j]
    ensures multiset(s)[s[i]] >= 2
  {
    assert s == s[..j] + s[j..];
    assert s[i] in s[..j] && s[j] in s[j..];
  }

  lemma OneCopy(s: seq<Entry>, k: nat)
    requires k < |s| && Distinct(s)
    ensures multiset(s)[s[k]] == 1
  {
    assert s == s[..k] + [s[k]] + s[k + 1..];
    assert s[k] !in s[..k] && s[k] !in s[k + 1..];
  }

  // ---- Text ------------------------------------------------------------------------------------------------

  function TrimEnd(s: Text): Text {
    if s == [] || !IsSpace(s[|s| - 1]) then s else TrimEnd(s[..|s| - 1])
  }

  /** `split('\n')`. */
  function Split(s: Text): (r: seq<Text>)
    ensures |r| > 0
  {
    if s == [] then [[]]
    else
      var rest := Split(s[1..]);
      if s[0] == LF then [[]] + rest else [[s[0]] + rest[0]] + rest[1..]
  }

  /** `join('\n')`. */
  function Lines(lines: seq<Text>): Text {
    if lines == [] then [] else if |lines| == 1 then lines[0] else lines[0] + [LF] + Lines(lines[1..])
  }

  lemma {:induction false} SplitLine(line: Text, rest: Text)
    requires LF !in line
    ensures Split(line) == [line] && Split(line + [LF] + rest) == [line] + Split(rest)
    decreases |line|
  {
    if line == [] {
      assert ([] + [LF] + rest)[1..] == rest;
    } else {
      var s := line + [LF] + rest;
      assert s[1..] == line[1..] + [LF] + rest;
      SplitLine(line[1..], rest);
      assert line == [line[0]] + line[1..];
      assert Split(s)[1..] == Split(rest);
    }
  }

  lemma {:induction false} SplitLines(lines: seq<Text>)
    requires lines != [] && forall i :: 0 <= i < |lines| ==> LF !in lines[i]
    ensures Split(Lines(lines)) == lines
    decreases |lines|
  {
    if |lines| == 1 {
      SplitLine(lines[0], []);
    } else {
      SplitLines(lines[1..]);
      SplitLine(lines[0], Lines(lines[1..]));
    }
  }

  lemma {:induction false} LinesEnd(lines: seq<Text>)
    requires lines != [] && lines[|lines| - 1] != []
    ensures Lines(lines) != []
    ensures var last := lines[|lines| - 1]; Lines(lines)[|Lines(lines)| - 1] == last[|last| - 1]
    decreases |lines|
  {
    if |lines| > 1 { LinesEnd(lines[1..]); }
  }

  // ---- The printer -----------------------------------------------------------------------------------------

  function Line(e: Entry): Text { e.digest + [SPACE, SPACE] + e.name }

  function LinesOf(es: seq<Entry>): (r: seq<Text>)
    ensures |r| == |es| && forall i :: 0 <= i < |es| ==> r[i] == Line(es[i])
  {
    if es == [] then [] else [Line(es[0])] + LinesOf(es[1..])
  }

  function Print(es: seq<Entry>): Text { Lines(LinesOf(Sort(es))) + [LF] }

  // ---- The parser ------------------------------------------------------------------------------------------

  /** One line: a lower-case digest, two spaces, a plain name. */
  function ParseLine(line: Text): (r: Option<Entry>)
    ensures r.Some? ==> Proper(r.value) && line == Line(r.value)
  {
    if |line| > 66 && IsDigest(line[..64]) && line[64..66] == [SPACE, SPACE] && IsPlainName(line[66..]) then
      assert line == line[..64] + line[64..66] + line[66..];
      Some(Entry(line[66..], line[..64]))
    else None
  }

  lemma LineParses(e: Entry)
    requires Proper(e)
    ensures ParseLine(Line(e)) == Some(e)
  {
    var line := Line(e);
    assert line[..64] == e.digest && line[64..66] == [SPACE, SPACE] && line[66..] == e.name;
  }

  predicate Proper(e: Entry) { IsDigest(e.digest) && IsPlainName(e.name) }

  function ParseLines(lines: seq<Text>, entries: Sums): Result<Sums> {
    if lines == [] then Ok(entries)
    else
      var e := ParseLine(lines[0]);
      if e.None? || e.value.name in entries then Failed
      else ParseLines(lines[1..], entries[e.value.name := e.value.digest])
  }

  function Parse(raw: Text): Result<Sums> { ParseLines(Split(TrimEnd(raw)), map[]) }

  /** `checksums`, as the loop it is. */
  method Checksums(raw: Text) returns (r: Result<Sums>)
    ensures r == Parse(raw)
  {
    var lines := Split(TrimEnd(raw));
    var entries: Sums := map[];
    assert lines[0..] == lines;
    for i := 0 to |lines|
      invariant ParseLines(lines[i..], entries) == Parse(raw)
    {
      var e := ParseLine(lines[i]);
      assert lines[i..][0] == lines[i] && lines[i..][1..] == lines[i + 1..];
      if e.None? || e.value.name in entries {
        return Failed;
      }
      entries := entries[e.value.name := e.value.digest];
    }
    r := Ok(entries);
  }
}
