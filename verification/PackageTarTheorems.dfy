/** What `assertRegularTar` lets through, over the bytes of the archive, and that it lets every proper
    package through. */
module PackageTarTheorems {
  import opened Prelude
  import opened Octal
  import opened Tar
  import opened TarWriter
  import opened PackageTar

  lemma FieldBytes(h: Bytes, from: nat, to: nat, i: nat)
    requires from <= i < to <= |h| && RawOctal(h[from..to])
    ensures h[i] == 0 || h[i] == 32 || 48 <= h[i] <= 55
  {
    assert h[i] == h[from..to][i - from];
  }

  /** What the bytes of every member of an accepted package say. */
  lemma PackageBytes(decode: Bytes -> Bytes, unix: bool, tar: Bytes, hd: Header, h: Bytes, content: Bytes)
    requires Walk(Regular(decode, unix), tar, {}).Ok?
    requires Holds(Walk(Regular(decode, unix), tar, {}).value, hd, h, content)
    ensures |h| == 512 && h[156] in {0, 48, 53} && (h[156] == 53 ==> content == []) && h[345] == 0
    ensures Number(h[124..136]) == Some(|content|) && Number(h[148..156]) == Some(SumFrom(h, 0))
    ensures var mode := Number(h[100..108]);
            && mode.Some? && 0 <= mode.value <= 0x1ff
            && (unix && decode(UntilNul(h[0..100])) in {BINARY, RUNTIME} ==> mode.value == 0x1ed)
    ensures hd.name == decode(UntilNul(h[0..100])) && PlainPath(hd.name)
  {
    var taken := ReadIsAdmitted(Regular(decode, unix), tar, hd, h, content);
    RegularSays(decode, unix, h, taken, hd);
  }

  lemma RegularSays(decode: Bytes -> Bytes, unix: bool, h: Bytes, taken: Names, hd: Header)
    requires RegularHeader(decode, unix, h, taken) == Ok(hd)
    ensures |h| == 512 && h[156] in {0, 48, 53} && (h[156] == 53 ==> hd.size == 0) && h[345] == 0
    ensures Number(h[124..136]) == Some(hd.size) && Number(h[148..156]) == Some(SumFrom(h, 0))
    ensures var mode := Number(h[100..108]);
            && mode.Some? && 0 <= mode.value <= 0x1ff
            && (unix && decode(UntilNul(h[0..100])) in {BINARY, RUNTIME} ==> mode.value == 0x1ed)
    ensures hd.name == decode(UntilNul(h[0..100])) && PlainPath(hd.name)
  {
  }

  /** Its numbers are written in octal digits, spaces and NULs only. */
  lemma PackageDigits(decode: Bytes -> Bytes, unix: bool, tar: Bytes, hd: Header, h: Bytes, content: Bytes, i: nat)
    requires Walk(Regular(decode, unix), tar, {}).Ok?
    requires Holds(Walk(Regular(decode, unix), tar, {}).value, hd, h, content)
    requires 100 <= i < 108 || 124 <= i < 136 || 148 <= i < 156
    ensures |h| == 512 && (h[i] == 0 || h[i] == 32 || 48 <= h[i] <= 55)
  {
    var taken := ReadIsAdmitted(Regular(decode, unix), tar, hd, h, content);
    assert RegularHeader(decode, unix, h, taken) == Ok(hd);
    if i < 108 {
      FieldBytes(h, 100, 108, i);
    } else if i < 136 {
      FieldBytes(h, 124, 136, i);
    } else {
      FieldBytes(h, 148, 156, i);
    }
  }

  // ---- Every proper package is accepted --------------------------------------------------------------------

  /** The mode of a header is written as seven octal digits and NUL. */
  predicate HasMode(t: Bytes, mode: nat) { |t| == BLOCK && t[100..108] == Digits(mode, 7) + [0] }

  /** A file or an empty directory of a plain path not used yet, with a legal mode. */
  predicate EntryFits(decode: Bytes -> Bytes, unix: bool, es: Entries, modes: Bytes -> nat, seen: Names)
    requires es.Entry?
  {
    var mode := modes(es.name);
    && HasMode(es.template, mode) && mode <= 0x1ff
    && (unix && es.name in {BINARY, RUNTIME} ==> mode == 0x1ed)
    && es.kind in {0, 48, 53} && (es.kind == 53 ==> es.content == []) && |es.content| < SIZE_LIMIT
    && |es.name| <= 100 && 0 !in es.name && decode(es.name) == es.name && PlainPath(es.name) && es.name !in seen
  }

  predicate CanPack(decode: Bytes -> Bytes, unix: bool, es: Entries, modes: Bytes -> nat, seen: Names) {
    es.Entry? ==> EntryFits(decode, unix, es, modes, seen) && CanPack(decode, unix, es.rest, modes, seen + {es.name})
  }

  function Same(name: Bytes): Bytes { name }

  lemma OctalField(s: Bytes, tail: Bytes)
    requires AllOctal(s) && forall i :: 0 <= i < |tail| ==> FitsField(tail[i])
    ensures RawOctal(s + tail)
  {
  }

  lemma ModeReads(t: Bytes, mode: nat)
    requires HasMode(t, mode) && mode <= 0x1ff
    ensures RawOctal(t[100..108]) && Number(t[100..108]) == Some(mode)
  {
    Powers();
    OctalField(Digits(mode, 7), [0]);
    NumberReadsDigits(mode, 7, []);
    assert Digits(mode, 7) + [0] + [] == Digits(mode, 7) + [0];
  }

  lemma FieldsAreRegular(decode: Bytes -> Bytes, unix: bool, h: Bytes, seen: Names, path: Bytes, size: nat, mode: nat)
    requires |h| == BLOCK && RawOctal(h[148..156]) && RawOctal(h[124..136]) && RawOctal(h[100..108])
    requires Number(h[148..156]) == Some(SumFrom(h, 0)) && Number(h[124..136]) == Some(size)
    requires Number(h[100..108]) == Some(mode) && mode <= 0x1ff && h[345] == 0
    requires h[156] in {0, 48, 53} && (h[156] == 53 ==> size == 0)
    requires UntilNul(h[0..100]) == path && decode(path) == path && PlainPath(path) && path !in seen
    requires unix && path in {BINARY, RUNTIME} ==> mode == 0x1ed
    ensures RegularHeader(decode, unix, h, seen) == Ok(Header(path, h[156], size))
  {
  }

  lemma StampIsRaw(t: Bytes, name: Bytes, kind: Byte, size: nat, mode: nat)
    requires HasMode(t, mode) && |name| <= 100 && mode <= 0x1ff
    ensures var h := Stamp(t, name, kind, size);
            && RawOctal(h[148..156]) && RawOctal(h[124..136]) && RawOctal(h[100..108])
            && Number(h[100..108]) == Some(mode)
  {
    StampSums(t, name, kind, size);
    StampFields(t, name, kind, size);
    ModeReads(t, mode);
    OctalField(Digits(SumFrom(Stamp(t, name, kind, size), 0), 6), [0, 32]);
    OctalField(Digits(size, 11), [0]);
  }

  lemma StampIsRegular(decode: Bytes -> Bytes, unix: bool, es: Entries, modes: Bytes -> nat, seen: Names)
    requires es.Entry? && EntryFits(decode, unix, es, modes, seen)
    ensures Taken(Regular(decode, unix), Same, es, seen)
  {
    var h := Stamp(es.template, es.name, es.kind, |es.content|);
    StampIsRaw(es.template, es.name, es.kind, |es.content|, modes(es.name));
    StampSums(es.template, es.name, es.kind, |es.content|);
    StampFields(es.template, es.name, es.kind, |es.content|);
    StampNumbers(es.template, es.name, es.kind, |es.content|);
    FieldsAreRegular(decode, unix, h, seen, es.name, |es.content|, modes(es.name));
  }

  lemma {:induction false} PackIsTaken(decode: Bytes -> Bytes, unix: bool, es: Entries, modes: Bytes -> nat,
                                       seen: Names)
    requires CanPack(decode, unix, es, modes, seen)
    ensures AllTaken(Regular(decode, unix), Same, es, seen)
    decreases es
  {
    if es.Entry? {
      StampIsRegular(decode, unix, es, modes, seen);
      PackIsTaken(decode, unix, es.rest, modes, seen + {es.name});
    }
  }

  /** Files and empty directories under distinct plain paths with legal modes, written as a ustar archive, are
      accepted and come apart as they were written. */
  lemma PackageRoundTrip(decode: Bytes -> Bytes, unix: bool, es: Entries, modes: Bytes -> nat, zeros: nat)
    requires CanPack(decode, unix, es, modes, {}) && zeros >= BLOCK
    ensures Headed(es) && Walk(Regular(decode, unix), Join(Pack(Same, es, zeros)), {}) == Ok(Pack(Same, es, zeros))
  {
    PackIsTaken(decode, unix, es, modes, {});
    PackIsSound(Regular(decode, unix), Same, es, zeros, {});
    WalkJoin(Regular(decode, unix), Pack(Same, es, zeros), {});
  }

  // ---- Which paths are plain -------------------------------------------------------------------------------

  lemma {:induction false} PartsOne(s: Bytes)
    requires SLASH !in s
    ensures Parts(s) == [s]
  {
    if s != [] {
      PartsOne(s[1..]);
      assert [s[0]] + s[1..] == s;
    }
  }

  lemma {:induction false} PartsSplit(s: Bytes, rest: Bytes)
    requires SLASH !in s
    ensures Parts(s + ([SLASH] + rest)) == [s] + Parts(rest)
    decreases |s|
  {
    var all := s + ([SLASH] + rest);
    if s == [] {
      assert all[1..] == rest;
    } else {
      PartsSplit(s[1..], rest);
      assert all[1..] == s[1..] + ([SLASH] + rest);
      assert [s[0]] + s[1..] == s;
    }
  }

  lemma {:induction false} GlueParts(parts: seq<Bytes>)
    requires |parts| > 0 && forall i :: 0 <= i < |parts| ==> SLASH !in parts[i]
    ensures Parts(Glue(parts)) == parts
    decreases |parts|
  {
    if |parts| == 1 {
      PartsOne(parts[0]);
    } else {
      var rest := Glue(parts[1..]);
      GlueParts(parts[1..]);
      PartsSplit(parts[0], rest);
      assert parts[0] + [SLASH] + rest == parts[0] + ([SLASH] + rest);
    }
  }

  /** A file or directory name below the package. */
  predicate IsName(part: Bytes) {
    part != [] && part != [46] && part != [46, 46] && SLASH !in part && BACKSLASH !in part
  }

  lemma {:induction false} GlueEnds(parts: seq<Bytes>)
    requires |parts| > 0 && forall i :: 0 <= i < |parts| ==> IsName(parts[i])
    ensures Glue(parts) != [] && Glue(parts)[|Glue(parts)| - 1] != SLASH && BACKSLASH !in Glue(parts)
    decreases |parts|
  {
    assert IsName(parts[0]);
    if |parts| > 1 { GlueEnds(parts[1..]); }
  }

  lemma GluedIsPlain(parts: seq<Bytes>, path: Bytes)
    requires |parts| > 0 && forall i :: 0 <= i < |parts| ==> IsName(parts[i])
    requires PACKAGE <= path && (path == Glue(parts) || path == Glue(parts) + [SLASH])
    ensures PlainPath(path)
  {
    GlueParts(parts);
    GlueEnds(parts);
    assert WithoutSlash(path) == Glue(parts);
    assert forall i :: 0 <= i < |parts| ==> IsName(parts[i]) && PlainPart(parts[i]);
  }

  /** Names glued below `package` are a plain path, for a file or, with a slash at the end, for a directory. */
  lemma NamesArePlain(top: Bytes, names: seq<Bytes>)
    requires top + [SLASH] == PACKAGE && IsName(top) && forall i :: 0 <= i < |names| ==> IsName(names[i])
    ensures names != [] ==> PlainPath(top + [SLASH] + Glue(names)) && PlainPath(top + [SLASH] + Glue(names) + [SLASH])
    ensures PlainPath(top + [SLASH])
  {
    var parts := [top] + names;
    assert forall i :: 0 <= i < |parts| ==> IsName(parts[i]);
    if names == [] {
      GluedIsPlain([top], top + [SLASH]);
    } else {
      assert parts[1..] == names && parts[0] == top;
      assert Glue(parts) == top + [SLASH] + Glue(names);
      GluedIsPlain(parts, Glue(parts));
      GluedIsPlain(parts, Glue(parts) + [SLASH]);
      GluedIsPlain([top], top + [SLASH]);
    }
  }

  /** And there are no other plain paths. */
  lemma PlainPathsAreNames(path: Bytes)
    requires PlainPath(path)
    ensures var parts := Parts(WithoutSlash(path));
            && Glue(parts) == WithoutSlash(path) && parts[0] == PACKAGE[..7]
            && forall i :: 0 <= i < |parts| ==> IsName(parts[i])
  {
    var s := WithoutSlash(path);
    PartsGlue(s);
    PlainLeadsInside(path, []);
    forall i | 0 <= i < |Parts(s)|
      ensures IsName(Parts(s)[i])
    {
      assert PlainPart(Parts(s)[i]);
      GlueHolds(Parts(s), i, BACKSLASH);
    }
  }

  lemma {:induction false} GlueHolds(parts: seq<Bytes>, i: nat, b: Byte)
    requires i < |parts|
    ensures b in parts[i] ==> b in Glue(parts)
    decreases |parts|
  {
    if i > 0 { GlueHolds(parts[1..], i - 1, b); }
  }
}
