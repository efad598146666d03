/** Evidence archives written by a plain ustar writer read back, and no header byte of an accepted one can
    be changed unnoticed. */
module EvidenceTarTheorems {
  import opened Prelude
  import opened Octal
  import opened Tar
  import opened TarTamper
  import opened TarWriter
  import opened EvidenceTar

  // ---- Writing and reading ------------------------------------------------------------------------------

  /** Name bytes that a header can hold and that decode to themselves. */
  predicate Writable(decode: Bytes -> Bytes, name: Bytes) {
    |name| <= 100 && 0 !in name && decode(name) == name
  }

  lemma StampIsKnown(decode: Bytes -> Bytes, allowed: Names, es: Entries, taken: Names)
    requires es.Entry? && EntryFits(decode, allowed, es, taken)
    ensures Taken(Known(decode, allowed), Normal, es, taken)
  {
    StampSums(es.template, es.name, es.kind, |es.content|);
    StampFields(es.template, es.name, es.kind, |es.content|);
    StampNumbers(es.template, es.name, es.kind, |es.content|);
  }

  /** A file of a known name not taken yet, or one of the two directories. */
  predicate EntryFits(decode: Bytes -> Bytes, allowed: Names, es: Entries, taken: Names)
    requires es.Entry?
  {
    && |es.template| == BLOCK && Writable(decode, es.name) && |es.content| < SIZE_LIMIT
    && (if es.kind == 53 then es.content == [] && DirectoryAllowed(Normal(es.name), allowed)
        else es.kind in {0, 48} && Normal(es.name) in allowed - taken)
  }

  predicate CanPack(decode: Bytes -> Bytes, allowed: Names, es: Entries, taken: Names) {
    es.Entry? ==>
      && EntryFits(decode, allowed, es, taken)
      && CanPack(decode, allowed, es.rest, if es.kind == 53 then taken else taken + {Normal(es.name)})
  }

  function Listed(es: Entries): Contents {
    match es
    case Done => map[]
    case Entry(_, name, kind, content, rest) =>
      if kind == 53 then Listed(rest) else map[Normal(name) := content] + Listed(rest)
  }

  lemma {:induction false} PackIsTaken(decode: Bytes -> Bytes, allowed: Names, es: Entries, taken: Names)
    requires CanPack(decode, allowed, es, taken)
    ensures AllTaken(Known(decode, allowed), Normal, es, taken)
    decreases es
  {
    if es.Entry? {
      StampIsKnown(decode, allowed, es, taken);
      PackIsTaken(decode, allowed, es.rest, if es.kind == 53 then taken else taken + {Normal(es.name)});
    }
  }

  lemma {:induction false} PackHolds(es: Entries, zeros: nat)
    requires Headed(es)
    ensures Files(Pack(Normal, es, zeros)) == Listed(es)
    decreases es
  {
    if es.Entry? { PackHolds(es.rest, zeros); }
  }

  /** Round trip: whatever files are written, under distinct known names and beside any of the two
      directories, those files are read. */
  lemma RoundTrip(decode: Bytes -> Bytes, required: Names, optional: Names, es: Entries, zeros: nat)
    requires CanPack(decode, required + optional, es, {}) && zeros >= BLOCK && zeros % BLOCK == 0
    requires required <= Listed(es).Keys
    ensures Headed(es) && ReadKnown(decode, Join(Pack(Normal, es, zeros)), required, optional) == Ok(Listed(es))
  {
    WholeIsMultiple(zeros);
    var rules := Known(decode, required + optional);
    PackIsTaken(decode, required + optional, es, {});
    PackIsSound(rules, Normal, es, zeros, {});
    var ms := Pack(Normal, es, zeros);
    PackHolds(es, zeros);
    PackIsWhole(Normal, es, zeros);
    WholeIsMultiple(|Join(ms)|);
    WalkJoin(rules, ms, {});
    EmptyFirst(rules, Join(ms), ms);
  }

  lemma HeldInEvidence(rules: Rules, tar: Bytes, required: Names, hd: Header, h: Bytes, content: Bytes)
    returns (t: Names)
    requires ReadAll(rules, tar, required).Ok? && Holds(Accepted(rules, tar, required), hd, h, content)
    ensures |h| == BLOCK && rules.admit(h, t) == Ok(hd) && |content| == hd.size
  {
    var none: Contents := map[];
    assert none.Keys == {};
    t := ReadIsAdmitted(rules, tar, hd, h, content);
  }

  lemma KnownSays(decode: Bytes -> Bytes, allowed: Names, h: Bytes, taken: Names, hd: Header)
    requires KnownHeader(decode, allowed, h, taken) == Ok(hd)
    ensures |h| == 512 && h[156] in {0, 48, 53} && h[345] == 0
    ensures Number(Mask(h[124..136])) == Some(hd.size) && Number(Mask(h[148..156])) == Some(SumFrom(h, 0))
    ensures var name := Normal(decode(UntilNul(h[0..100])));
            if h[156] == 53 then hd.size == 0 && (name == DOT || (name == RELEASE_ASSETS && CHECKSUMS in allowed))
            else name in allowed
  {
  }

  /** What the bytes of every member of accepted evidence say. */
  lemma EvidenceBytes(decode: Bytes -> Bytes, tar: Bytes, required: Names, optional: Names, hd: Header, h: Bytes,
                      content: Bytes)
    requires ReadKnown(decode, tar, required, optional).Ok?
    requires Holds(Evidence(decode, tar, required, optional), hd, h, content)
    ensures |h| == 512 && h[156] in {0, 48, 53} && h[345] == 0
    ensures Number(Mask(h[124..136])) == Some(|content|) && Number(Mask(h[148..156])) == Some(SumFrom(h, 0))
    ensures var name := Normal(decode(UntilNul(h[0..100])));
            if h[156] == 53 then
              content == [] && (name == DOT || (name == RELEASE_ASSETS && CHECKSUMS in required + optional))
            else
              name in required + optional
  {
    var rules := Known(decode, required + optional);
    var taken := HeldInEvidence(rules, tar, required, hd, h, content);
    KnownSays(decode, required + optional, h, taken, hd);
  }

  // ---- Changing one byte ---------------------------------------------------------------------------------

  lemma KnownChecksSums(decode: Bytes -> Bytes, allowed: Names)
    ensures ChecksSums(Known(decode, allowed))
  {
  }

  predicate AnyByte(b: Byte) { true }

  lemma KnownFieldsAreSums(decode: Bytes -> Bytes, allowed: Names)
    ensures FieldsAreSums(Known(decode, allowed), AnyByte)
  {
    forall h, taken, p: nat, b
      ensures FieldIsSum(Known(decode, allowed), AnyByte, h, taken, p, b)
    {
      if |h| == BLOCK && InSumField(p) {
        assert h[p := b][0..100] == h[0..100] && h[p := b][124..136] == h[124..136];
      }
    }
  }

  /** The members of an accepted archive. */
  function Accepted(rules: Rules, tar: Bytes, required: Names): Members
    requires ReadAll(rules, tar, required).Ok?
  {
    var none: Contents := map[];
    assert none.Keys == {};
    Walk(rules, tar, {}).value
  }

  /** Under rules that check sums, such as those of `readKnownTar`, changing a byte of a header outside its
      checksum field, or of the zero bytes at the end, turns an accepted archive into a refused one. */
  lemma HeadersAreSealed(rules: Rules, tar: Bytes, required: Names, p: nat, b: Byte)
    requires ChecksSums(rules) && ReadAll(rules, tar, required).Ok? && Guarded(Accepted(rules, tar, required), p)
    ensures p < |tar| && (b != tar[p] ==> ReadAll(rules, tar[p := b], required).Failed?)
  {
    var none: Contents := map[];
    assert none.Keys == {};
    ChangeIsRefused(rules, tar, {}, p, b);
  }

  /** Changing a byte of a content or of padding never does: the same names are read, and at most that
      byte of that content differs. */
  lemma ContentsAreFree(rules: Rules, tar: Bytes, required: Names, p: nat, b: Byte)
    requires ReadAll(rules, tar, required).Ok? && Body(Accepted(rules, tar, required), p)
    ensures p < |tar|
    ensures ReadAll(rules, tar[p := b], required) == Ok(Files(Poke(Accepted(rules, tar, required), p, b)))
    ensures ReadAll(rules, tar[p := b], required).value.Keys == ReadAll(rules, tar, required).value.Keys
  {
    var none: Contents := map[];
    assert none.Keys == {};
    var ms := Accepted(rules, tar, required);
    BodyIsFree(rules, tar, {}, p, b);
    EmptyFirst(rules, tar[p := b], Poke(ms, p, b));
    EmptyFirst(rules, tar, ms);
    PokeKeepsNames(ms, p, b);
  }

  lemma {:induction false} RestampKeepsFiles(ms: Members, p: nat, b: Byte)
    requires InField(ms, p)
    ensures Files(Restamp(ms, p, b)) == Files(ms)
    decreases ms
  {
    if p >= BLOCK { RestampKeepsFiles(ms.rest, p - Span(ms.hd.size), b); }
  }

  /** Changing a byte of a checksum field is accepted exactly when the field still states the sum, and then
      changes nothing that is read. */
  lemma ChecksumsSpeakForHeaders(rules: Rules, tar: Bytes, required: Names, p: nat, b: Byte)
    requires ChecksSums(rules) && FieldsAreSums(rules, AnyByte)
    requires ReadAll(rules, tar, required).Ok? && InField(Accepted(rules, tar, required), p)
    ensures p < |tar|
    ensures ReadAll(rules, tar[p := b], required) ==
            if StillSums(Accepted(rules, tar, required), p, b) then ReadAll(rules, tar, required) else Failed
  {
    var none: Contents := map[];
    assert none.Keys == {};
    var ms := Accepted(rules, tar, required);
    FieldChangeExactly(rules, AnyByte, tar, {}, p, b);
    RestampKeepsFiles(ms, p, b);
  }

  /** Every byte of an accepted archive is of one of the three kinds. */
  lemma {:induction false} EveryByteIsCovered(rules: Rules, ms: Members, taken: Names, p: nat)
    requires Sound(rules, ms, taken) && p < |Join(ms)|
    ensures Guarded(ms, p) || Body(ms, p) || InField(ms, p)
    decreases ms
  {
    if ms.Member? && p >= Span(ms.hd.size) {
      EveryByteIsCovered(rules, ms.rest, Claim(rules, ms.hd, taken), p - Span(ms.hd.size));
    }
  }

  lemma {:induction false} PokeKeepsNames(ms: Members, p: nat, b: Byte)
    requires Body(ms, p)
    ensures Files(Poke(ms, p, b)).Keys == Files(ms).Keys
    decreases ms
  {
    if p >= Span(ms.hd.size) { PokeKeepsNames(ms.rest, p - Span(ms.hd.size), b); }
  }

  // ---- The same for `readKnownTar` ---------------------------------------------------------------------

  /** The members of accepted evidence. */
  function Evidence(decode: Bytes -> Bytes, tar: Bytes, required: Names, optional: Names): Members
    requires ReadKnown(decode, tar, required, optional).Ok?
  {
    Accepted(Known(decode, required + optional), tar, required)
  }

  /** `readKnownTar` refuses evidence it accepted once a header byte outside the checksum fields, or a zero
      byte at the end, has any other value. */
  lemma EvidenceIsSealed(decode: Bytes -> Bytes, tar: Bytes, required: Names, optional: Names, p: nat, b: Byte)
    requires ReadKnown(decode, tar, required, optional).Ok? && Guarded(Evidence(decode, tar, required, optional), p)
    ensures p < |tar| && (b != tar[p] ==> ReadKnown(decode, tar[p := b], required, optional).Failed?)
  {
    KnownChecksSums(decode, required + optional);
    HeadersAreSealed(Known(decode, required + optional), tar, required, p, b);
  }

  /** `readKnownTar` accepts a changed checksum byte exactly when the field still states the sum, and then
      reads the same. */
  lemma EvidenceChecksums(decode: Bytes -> Bytes, tar: Bytes, required: Names, optional: Names, p: nat, b: Byte)
    requires ReadKnown(decode, tar, required, optional).Ok? && InField(Evidence(decode, tar, required, optional), p)
    ensures p < |tar|
    ensures ReadKnown(decode, tar[p := b], required, optional) ==
            if StillSums(Evidence(decode, tar, required, optional), p, b) then ReadKnown(decode, tar, required,
                      optional)
            else Failed
  {
    KnownChecksSums(decode, required + optional);
    KnownFieldsAreSums(decode, required + optional);
    ChecksumsSpeakForHeaders(Known(decode, required + optional), tar, required, p, b);
  }
}
