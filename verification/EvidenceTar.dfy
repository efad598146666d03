/** `readKnownTar`: the reader of approval evidence. The archive is the decompressed bytes. `decode` turns
    name bytes into text; text is kept as its UTF-8 bytes. */
module EvidenceTar {
  import opened Prelude
  import opened Octal
  import opened Tar

  const DOT: Bytes := [46]                   // .
  const RELEASE_ASSETS: Bytes :=             // release-assets/
    [114, 101, 108, 101, 97, 115, 101, 45, 97, 115, 115, 101, 116, 115, 47]
  const CHECKSUMS: Bytes :=                  // release-assets/SHA256SUMS
    RELEASE_ASSETS + [83, 72, 65, 50, 53, 54, 83, 85, 77, 83]

  /** `./x` reads as `x`, and `./` as `.`. */
  function Normal(raw: Bytes): Bytes {
    if raw == [46, 47] then DOT
    else if |raw| >= 2 && raw[0] == 46 && raw[1] == 47 then raw[2..]
    else raw
  }

  predicate DirectoryAllowed(name: Bytes, allowed: Names) {
    name == DOT || (name == RELEASE_ASSETS && CHECKSUMS in allowed)
  }

  /** A header the reader accepts, after the files already read. */
  function KnownHeader(decode: Bytes -> Bytes, allowed: Names, h: Bytes, taken: Names): Result<Header> {
    if |h| != BLOCK then Failed
    else
      var size := Number(Mask(h[124..136]));
      var name := Normal(decode(UntilNul(h[0..100])));
      if h[345] != 0 || size.None? || size.value < 0 || !ChecksumOk(h) then Failed
      else if h[156] == DIRECTORY then
        if size.value == 0 && DirectoryAllowed(name, allowed) then Ok(Header(name, DIRECTORY, 0)) else Failed
      else if h[156] in {0, 48} && name in allowed && name !in taken then Ok(Header(name, h[156], size.value))
      else Failed
  }

  function Known(decode: Bytes -> Bytes, allowed: Names): Rules {
    Rules((h, taken) => KnownHeader(decode, allowed, h, taken), false)
  }

  type Contents = map<Bytes, Bytes>

  /** The files of an archive. */
  function Files(ms: Members): Contents {
    match ms
    case Tail(_) => map[]
    case Member(hd, _, content, _, rest) =>
      if hd.kind == DIRECTORY then Files(rest) else map[hd.name := content] + Files(rest)
  }

  /** What is read when `files` were read before and the bytes `s` are left. */
  function ReadOn(rules: Rules, s: Bytes, files: Contents): Result<Contents> {
    match Walk(rules, s, files.Keys)
    case Failed => Failed
    case Ok(ms) => Ok(files + Files(ms))
  }

  /** Reading a whole archive that has to hold the required files. */
  function ReadAll(rules: Rules, tar: Bytes, required: Names): Result<Contents> {
    if |tar| % BLOCK != 0 then Failed
    else
      var r := ReadOn(rules, tar, map[]);
      if r.Ok? && required <= r.value.Keys then r else Failed
  }

  function ReadKnown(decode: Bytes -> Bytes, tar: Bytes, required: Names, optional: Names): Result<Contents> {
    ReadAll(Known(decode, required + optional), tar, required)
  }

  lemma ReadMember(rules: Rules, s: Bytes, hd: Header, files: Contents)
    requires !rules.directoriesCount && |s| >= Span(hd.size)
    requires !AllZero(s[..BLOCK]) && rules.admit(s[..BLOCK], files.Keys) == Ok(hd)
    ensures ReadOn(rules, s, files) ==
            ReadOn(rules, s[Span(hd.size)..], Added(hd, s[BLOCK..BLOCK + hd.size], files))
  {
    var content := s[BLOCK..BLOCK + hd.size];
    var more := Added(hd, content, files);
    assert more.Keys == Claim(rules, hd, files.Keys);
    match Walk(rules, s[Span(hd.size)..], more.Keys)
    case Failed =>
    case Ok(rest) => assert files + Files(Cut(s, hd, rest)) == more + Files(rest);
  }

  function Added(hd: Header, content: Bytes, files: Contents): Contents {
    if hd.kind == DIRECTORY then files else files[hd.name := content]
  }

  /** In an archive of whole blocks, a record whose content fits also fits with its padding. */
  lemma PaddingFits(at: nat, size: nat, total: nat)
    requires Whole(at) && Whole(total) && at + BLOCK + size <= total
    ensures at + Span(size) <= total && Whole(at + Span(size))
  {
    WholeSpan(size);
    WholeSum(at, Span(size));
    WholeIsMultiple(at + Span(size));
    WholeIsMultiple(total);
  }

  /** `readKnownTar`. */
  method ReadKnownTar(decode: Bytes -> Bytes, tar: Bytes, required: Names, optional: Names)
    returns (r: Result<Contents>)
    ensures r == ReadKnown(decode, tar, required, optional)
  {
    if |tar| % BLOCK != 0 {
      return Failed;
    }
    WholeIsMultiple(|tar|);
    r := ReadFiles(Known(decode, required + optional), tar);
    if r.Ok? && !(required <= r.value.Keys) {
      r := Failed;
    }
  }

  /** Where the reader stops at `offset`: at a zero block, at a header it refuses, at content cut short. */
  lemma ReadStops(rules: Rules, tar: Bytes, offset: nat, files: Contents)
    requires offset + BLOCK <= |tar|
    ensures var header := tar[offset..offset + BLOCK];
            var parsed := rules.admit(header, files.Keys);
            var result := ReadOn(rules, tar[offset..], files);
            if AllZero(header) then result == if AllZero(tar[offset..]) then Ok(files) else Failed
            else parsed.Failed? || offset + BLOCK + parsed.value.size > |tar| ==> result == Failed
  {
    assert tar[offset..][..BLOCK] == tar[offset..offset + BLOCK];
    assert files + map[] == files;
  }

  /** Otherwise it reads one member and goes on after it. */
  lemma ReadMoves(rules: Rules, tar: Bytes, offset: nat, files: Contents, hd: Header)
    requires !rules.directoriesCount && Whole(|tar|) && Whole(offset) && offset + BLOCK + hd.size <= |tar|
    requires !AllZero(tar[offset..offset + BLOCK]) && rules.admit(tar[offset..offset + BLOCK], files.Keys) == Ok(hd)
    ensures var next := offset + Span(hd.size);
            && next <= |tar| && Whole(next)
            && ReadOn(rules, tar[offset..], files) ==
               ReadOn(rules, tar[next..], Added(hd, tar[offset + BLOCK..offset + BLOCK + hd.size], files))
  {
    var s := tar[offset..];
    assert s[..BLOCK] == tar[offset..offset + BLOCK];
    PaddingFits(offset, hd.size, |tar|);
    ReadMember(rules, s, hd, files);
    assert s[BLOCK..BLOCK + hd.size] == tar[offset + BLOCK..offset + BLOCK + hd.size];
    assert s[Span(hd.size)..] == tar[offset + Span(hd.size)..];
  }

  /** The loop of `readKnownTar`. */
  method ReadFiles(rules: Rules, tar: Bytes) returns (r: Result<Contents>)
    requires !rules.directoriesCount && Whole(|tar|)
    ensures r == ReadOn(rules, tar, map[])
  {
    var files: Contents := map[];
    var offset := 0;
    assert tar[0..] == tar;
    while offset + BLOCK <= |tar|
      invariant Whole(offset) && offset <= |tar|
      invariant ReadOn(rules, tar[offset..], files) == ReadOn(rules, tar, map[])
    {
      ReadStops(rules, tar, offset, files);
      var header := tar[offset..offset + BLOCK];
      if AllZero(header) {
        return if AllZero(tar[offset..]) then Ok(files) else Failed;
      }
      var parsed := rules.admit(header, files.Keys);
      if parsed.Failed? || offset + BLOCK + parsed.value.size > |tar| {
        return Failed;
      }
      var hd := parsed.value;
      ReadMoves(rules, tar, offset, files, hd);
      files := Added(hd, tar[offset + BLOCK..offset + BLOCK + hd.size], files);
      offset := offset + Span(hd.size);
    }
    r := Failed;
  }

  // ---- What is accepted -------------------------------------------------------------------------------

  /** Files among the members, counted. */
  function FileCount(ms: Members): nat {
    match ms
    case Tail(_) => 0
    case Member(hd, _, _, _, rest) => (if hd.kind == DIRECTORY then 0 else 1) + FileCount(rest)
  }

  /** Under these rules a file has a known name not yet taken. */
  predicate NewName(rules: Rules, allowed: Names, h: Bytes, taken: Names) {
    var r := rules.admit(h, taken);
    r.Ok? && r.value.kind != DIRECTORY ==> r.value.name in allowed && r.value.name !in taken
  }

  lemma {:induction false} FilesDistinct(rules: Rules, allowed: Names, ms: Members, taken: Names)
    requires !rules.directoriesCount && forall h, t :: NewName(rules, allowed, h, t)
    requires Sound(rules, ms, taken)
    ensures Files(ms).Keys <= allowed && Files(ms).Keys !! taken && |Files(ms)| == FileCount(ms)
    decreases ms
  {
    if ms.Member? {
      FilesDistinct(rules, allowed, ms.rest, Claim(rules, ms.hd, taken));
      assert NewName(rules, allowed, ms.header, taken);
      if ms.hd.kind != DIRECTORY {
        var rest := Files(ms.rest);
        assert Files(ms).Keys == rest.Keys + {ms.hd.name} && |Files(ms).Keys| == |rest.Keys| + 1;
      }
    }
  }

  lemma KnownNames(decode: Bytes -> Bytes, allowed: Names, ms: Members)
    requires Sound(Known(decode, allowed), ms, {})
    ensures Files(ms).Keys <= allowed && |Files(ms)| == FileCount(ms)
  {
    FilesDistinct(Known(decode, allowed), allowed, ms, {});
  }

  /** The reader accepts exactly the archives of whole blocks that are known members in sequence, each
      known name at most once and every required one present, and then returns exactly their contents. */
  lemma ReadKnownExactly(decode: Bytes -> Bytes, tar: Bytes, required: Names, optional: Names)
    ensures ReadKnown(decode, tar, required, optional).Ok? <==>
            exists ms :: IsEvidence(decode, tar, required, optional, ms)
    ensures forall ms :: IsEvidence(decode, tar, required, optional, ms) ==>
              && ReadKnown(decode, tar, required, optional) == Ok(Files(ms))
              && Files(ms).Keys <= required + optional && |Files(ms)| == FileCount(ms)
  {
    var rules := Known(decode, required + optional);
    forall ms | IsEvidence(decode, tar, required, optional, ms)
      ensures ReadKnown(decode, tar, required, optional) == Ok(Files(ms))
      ensures Files(ms).Keys <= required + optional && |Files(ms)| == FileCount(ms)
    {
      WalkJoin(rules, ms, {});
      KnownNames(decode, required + optional, ms);
      EmptyFirst(rules, tar, ms);
    }
    if ReadKnown(decode, tar, required, optional).Ok? {
      var none: Contents := map[];
      assert none.Keys == {};
      var ms := Walk(rules, tar, {}).value;
      EmptyFirst(rules, tar, ms);
      JoinWalk(rules, tar, {});
      assert IsEvidence(decode, tar, required, optional, ms);
    }
  }

  lemma EmptyFirst(rules: Rules, tar: Bytes, ms: Members)
    requires Walk(rules, tar, {}) == Ok(ms)
    ensures ReadOn(rules, tar, map[]) == Ok(Files(ms))
  {
    var none: Contents := map[];
    assert none.Keys == {} && none + Files(ms) == Files(ms);
  }

  predicate IsEvidence(decode: Bytes -> Bytes, tar: Bytes, required: Names, optional: Names, ms: Members) {
    && |tar| % BLOCK == 0 && Join(ms) == tar
    && Sound(Known(decode, required + optional), ms, {}) && required <= Files(ms).Keys
  }
}
