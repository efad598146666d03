/** `assertRegularTar`: the check of an npm package archive before its listing is trusted. `decode` turns
    name bytes into text; text is kept as its UTF-8 bytes, where the ASCII characters tested are themselves. */
module PackageTar {
  import opened Prelude
  import opened Octal
  import opened Tar
  import opened TarTamper

  const SLASH: Byte := 47
  const BACKSLASH: Byte := 92
  const PACKAGE: Bytes := [112, 97, 99, 107, 97, 103, 101, 47]                              // package/
  const BINARY: Bytes := PACKAGE + [109, 97, 110, 103, 111, 115, 116, 117, 100, 105, 111]   // mangostudio
  const RUNTIME: Bytes := BINARY + [45, 114, 117, 110, 116, 105, 109, 101]                  // -runtime

  /** Octal digits, spaces and NULs only. */
  predicate RawOctal(s: Bytes) { forall i :: 0 <= i < |s| ==> FitsField(s[i]) }

  predicate FitsField(b: Byte) { b == 0 || b == 32 || IsOctal(b) }

  /** The parts of a path between slashes. */
  function Parts(path: Bytes): (r: seq<Bytes>)
    ensures |r| > 0
  {
    if path == [] then [[]]
    else
      var rest := Parts(path[1..]);
      if path[0] == SLASH then [[]] + rest else [[path[0]] + rest[0]] + rest[1..]
  }

  function Glue(parts: seq<Bytes>): Bytes
    requires |parts| > 0
  {
    if |parts| == 1 then parts[0] else parts[0] + [SLASH] + Glue(parts[1..])
  }

  /** The parts hold no slash, and glued with slashes they are the path again. */
  lemma {:induction false} PartsGlue(path: Bytes)
    ensures Glue(Parts(path)) == path && forall i :: 0 <= i < |Parts(path)| ==> SLASH !in Parts(path)[i]
  {
    if path != [] {
      PartsGlue(path[1..]);
      var rest := Parts(path[1..]);
      if path[0] == SLASH {
        assert Parts(path)[1..] == rest;
      } else {
        assert Parts(path)[1..] == rest[1..];
      }
    }
  }

  function WithoutSlash(path: Bytes): Bytes {
    if path != [] && path[|path| - 1] == SLASH then path[..|path| - 1] else path
  }

  predicate PlainPart(part: Bytes) { part != [] && part != [46] && part != [46, 46] }

  predicate PlainPath(path: Bytes) {
    && PACKAGE <= path && BACKSLASH !in path
    && forall i :: 0 <= i < |Parts(WithoutSlash(path))| ==> PlainPart(Parts(WithoutSlash(path))[i])
  }

  /** The number in a raw field; NaN when it has none. */
  function Field(h: Bytes, from: nat, to: nat): Option<int>
    requires from <= to <= |h|
  {
    Number(h[from..to])
  }

  predicate ModeOk(unix: bool, path: Bytes, mode: Option<int>) {
    && mode.Some? && 0 <= mode.value <= 0x1ff
    && (unix && path in {BINARY, RUNTIME} ==> mode.value == 0x1ed)
  }

  /** A header the check accepts, after the paths seen so far; `unix` for a Linux or macOS binary package. */
  function RegularHeader(decode: Bytes -> Bytes, unix: bool, h: Bytes, seen: Names): Result<Header> {
    if |h| != BLOCK || !RawOctal(h[148..156]) || !RawOctal(h[124..136]) || !RawOctal(h[100..108]) then Failed
    else
      var path := decode(UntilNul(h[0..100]));
      var size := Field(h, 124, 136);
      var kind := h[156];
      if Field(h, 148, 156) != Some(SumFrom(h, 0)) || !ModeOk(unix, path, Field(h, 100, 108)) then Failed
      else if h[345] != 0 || size.None? || size.value < 0 then Failed
      else if kind !in {0, 48, DIRECTORY} || (kind == DIRECTORY && size.value != 0) then Failed
      else if !PlainPath(path) || path in seen then Failed
      else Ok(Header(path, kind, size.value))
  }

  function Regular(decode: Bytes -> Bytes, unix: bool): Rules {
    Rules((h, seen) => RegularHeader(decode, unix, h, seen), true)
  }

  lemma RawMask(s: Bytes)
    requires RawOctal(s)
    ensures Mask(s) == s
  {
  }

  /** The raw-field test makes the masked and the unmasked reading of the checksum agree. */
  lemma RegularChecksSums(decode: Bytes -> Bytes, unix: bool)
    ensures ChecksSums(Regular(decode, unix))
  {
    forall h, taken
      ensures SumChecked(Regular(decode, unix), h, taken)
    {
      if RegularHeader(decode, unix, h, taken).Ok? { RawMask(h[148..156]); }
    }
  }

  /** `assertRegularTar` over any rules that take directory names too: the archive is accepted exactly when
      it comes apart into acceptable members. */
  method AssertRegular(rules: Rules, tar: Bytes) returns (ok: bool)
    requires rules.directoriesCount
    ensures ok == Walk(rules, tar, {}).Ok?
  {
    var seen: Names := {};
    var offset := 0;
    assert tar[0..] == tar;
    while offset + BLOCK <= |tar|
      invariant offset <= |tar|
      invariant Walk(rules, tar[offset..], seen).Ok? == Walk(rules, tar, {}).Ok?
    {
      var header := tar[offset..offset + BLOCK];
      assert tar[offset..][..BLOCK] == header;
      if AllZero(header) {
        return AllZero(tar[offset..]);
      }
      var entry := rules.admit(header, seen);
      if entry.Failed? || offset + Span(entry.value.size) > |tar| {
        return false;
      }
      assert tar[offset..][Span(entry.value.size)..] == tar[offset + Span(entry.value.size)..];
      seen := seen + {entry.value.name};
      offset := offset + Span(entry.value.size);
    }
    ok := false;
  }

  method AssertRegularTar(decode: Bytes -> Bytes, unix: bool, tar: Bytes) returns (ok: bool)
    ensures ok == Walk(Regular(decode, unix), tar, {}).Ok?
  {
    ok := AssertRegular(Regular(decode, unix), tar);
  }

  // ---- What an accepted archive holds ---------------------------------------------------------------------

  function Paths(ms: Members): Names {
    match ms
    case Tail(_) => {}
    case Member(hd, _, _, _, rest) => {hd.name} + Paths(rest)
  }

  function Count(ms: Members): nat {
    match ms
    case Tail(_) => 0
    case Member(_, _, _, _, rest) => 1 + Count(rest)
  }

  predicate NewPlainPath(rules: Rules, h: Bytes, seen: Names) {
    var r := rules.admit(h, seen);
    r.Ok? ==> PlainPath(r.value.name) && r.value.name !in seen
  }

  lemma {:induction false} PathsDistinct(rules: Rules, ms: Members, seen: Names)
    requires rules.directoriesCount && forall h, t :: NewPlainPath(rules, h, t)
    requires Sound(rules, ms, seen)
    ensures Paths(ms) !! seen && |Paths(ms)| == Count(ms) && forall path :: path in Paths(ms) ==> PlainPath(path)
    decreases ms
  {
    if ms.Member? {
      PathsDistinct(rules, ms.rest, Claim(rules, ms.hd, seen));
      assert NewPlainPath(rules, ms.header, seen);
    }
  }

  /** Where a path leads from the directory `dir`, as a file system takes it. */
  function Resolve(parts: seq<Bytes>, dir: seq<Bytes>): seq<Bytes> {
    if parts == [] then dir
    else if parts[0] == [] || parts[0] == [46] then Resolve(parts[1..], dir)
    else if parts[0] == [46, 46] then Resolve(parts[1..], if dir == [] then [] else dir[..|dir| - 1])
    else Resolve(parts[1..], dir + [parts[0]])
  }

  lemma {:induction false} PlainResolves(parts: seq<Bytes>, dir: seq<Bytes>)
    requires forall i :: 0 <= i < |parts| ==> PlainPart(parts[i])
    ensures Resolve(parts, dir) == dir + parts
    decreases |parts|
  {
    if parts != [] {
      assert PlainPart(parts[0]);
      PlainResolves(parts[1..], dir + [parts[0]]);
      assert dir + [parts[0]] + parts[1..] == dir + parts;
    }
  }

  lemma {:induction false} FirstPart(s: Bytes, rest: Bytes)
    requires SLASH !in s && (rest == [] || rest[0] == SLASH)
    ensures Parts(s + rest)[0] == s
    decreases |s|
  {
    if s == [] {
      assert s + rest == rest;
    } else {
      assert (s + rest)[1..] == s[1..] + rest;
      FirstPart(s[1..], rest);
    }
  }

  /** Every path of an accepted package leads where it says, into `package` under whatever directory the
      package is unpacked in, and no two members have the same path. */
  lemma AcceptedIsContained(rules: Rules, tar: Bytes, dir: seq<Bytes>)
    requires rules.directoriesCount && forall h, t :: NewPlainPath(rules, h, t)
    requires Walk(rules, tar, {}).Ok?
    ensures var ms := Walk(rules, tar, {}).value;
            && |Paths(ms)| == Count(ms)
            && forall path :: path in Paths(ms) ==> LeadsInside(path, dir)
  {
    JoinWalk(rules, tar, {});
    var ms := Walk(rules, tar, {}).value;
    PathsDistinct(rules, ms, {});
    forall path | path in Paths(ms)
      ensures LeadsInside(path, dir)
    {
      PlainLeadsInside(path, dir);
    }
  }

  predicate LeadsInside(path: Bytes, dir: seq<Bytes>) {
    Resolve(Parts(WithoutSlash(path)), dir) == dir + Parts(WithoutSlash(path))
    && Parts(WithoutSlash(path))[0] == PACKAGE[..7]
  }

  lemma PlainLeadsInside(path: Bytes, dir: seq<Bytes>)
    requires PlainPath(path)
    ensures LeadsInside(path, dir)
  {
    PlainResolves(Parts(WithoutSlash(path)), dir);
    var s := WithoutSlash(path);
    assert s == PACKAGE[..7] + s[7..];
    FirstPart(PACKAGE[..7], s[7..]);
  }

  lemma RegularPaths(decode: Bytes -> Bytes, unix: bool)
    ensures forall h, t :: NewPlainPath(Regular(decode, unix), h, t)
  {
  }

  // ---- The same for `assertRegularTar` -----------------------------------------------------------------

  /** The paths of a package that `assertRegularTar` accepts lead inside it, each once. */
  lemma PackageIsContained(decode: Bytes -> Bytes, unix: bool, tar: Bytes, dir: seq<Bytes>)
    requires Walk(Regular(decode, unix), tar, {}).Ok?
    ensures var ms := Walk(Regular(decode, unix), tar, {}).value;
            && |Paths(ms)| == Count(ms)
            && forall path :: path in Paths(ms) ==> LeadsInside(path, dir)
  {
    RegularPaths(decode, unix);
    AcceptedIsContained(Regular(decode, unix), tar, dir);
  }

  /** `assertRegularTar` refuses a package it accepted once a header byte outside the checksum fields, or a
      zero byte at the end, has any other value. */
  lemma PackageIsSealed(decode: Bytes -> Bytes, unix: bool, tar: Bytes, p: nat, b: Byte)
    requires Walk(Regular(decode, unix), tar, {}).Ok? && Guarded(Walk(Regular(decode, unix), tar, {}).value, p)
    ensures p < |tar| && (b != tar[p] ==> Walk(Regular(decode, unix), tar[p := b], {}).Failed?)
  {
    RegularChecksSums(decode, unix);
    ChangeIsRefused(Regular(decode, unix), tar, {}, p, b);
  }

  lemma RegularFieldIsSum(decode: Bytes -> Bytes, unix: bool, h: Bytes, seen: Names, p: nat, b: Byte)
    requires |h| == BLOCK && InSumField(p) && RegularHeader(decode, unix, h, seen).Ok?
    ensures RegularHeader(decode, unix, h[p := b], seen) ==
            if FitsField(b) && ChecksumOk(h[p := b]) then RegularHeader(decode, unix, h, seen) else Failed
  {
    var h' := h[p := b];
    assert h'[0..100] == h[0..100] && h'[124..136] == h[124..136] && h'[100..108] == h[100..108];
    var field, field' := h[148..156], h'[148..156];
    assert field' == field[p - 148 := b];
    assert field'[p - 148] == b;
    if FitsField(b) { RawMask(field'); }
  }

  lemma RegularFieldsAreSums(decode: Bytes -> Bytes, unix: bool)
    ensures FieldsAreSums(Regular(decode, unix), FitsField)
  {
    forall h, taken, p: nat, b
      ensures FieldIsSum(Regular(decode, unix), FitsField, h, taken, p, b)
    {
      if |h| == BLOCK && InSumField(p) && RegularHeader(decode, unix, h, taken).Ok? {
        RegularFieldIsSum(decode, unix, h, taken, p, b);
      }
    }
  }

  /** `assertRegularTar` accepts a changed checksum byte exactly when it is NUL, a space or an octal digit
      and the field still states the sum. */
  lemma PackageChecksums(decode: Bytes -> Bytes, unix: bool, tar: Bytes, p: nat, b: Byte)
    requires Walk(Regular(decode, unix), tar, {}).Ok? && InField(Walk(Regular(decode, unix), tar, {}).value, p)
    ensures p < |tar|
    ensures Walk(Regular(decode, unix), tar[p := b], {}).Ok? <==>
            FitsField(b) && StillSums(Walk(Regular(decode, unix), tar, {}).value, p, b)
  {
    RegularChecksSums(decode, unix);
    RegularFieldsAreSums(decode, unix);
    FieldChangeExactly(Regular(decode, unix), FitsField, tar, {}, p, b);
  }
}
