/** A plain ustar writer, for the archives that the readers have to take: any headers with correct fields
    and checksums, whatever stands in the bytes no reader looks at. */
module TarWriter {
  import opened Prelude
  import opened Octal
  import opened Tar
  import opened TarTamper

  const SIZE_LIMIT: nat := 0x2_0000_0000    // 8 to the 11th

  /** A header up to its checksum. What is no name and no size comes from `t`. */
  function Front(t: Bytes, name: Bytes, size: nat): (h: Bytes)
    requires |t| == BLOCK && |name| <= 100
    ensures |h| == 148
  {
    name + Zeros(100 - |name|) + t[100..124] + (Digits(size, 11) + [0]) + t[136..148]
  }

  /** A header after its checksum: the type flag, and no name prefix. */
  function Back(t: Bytes, kind: Byte): (h: Bytes)
    requires |t| == BLOCK
    ensures |h| == 356
  {
    [kind] + t[157..345] + [0] + t[346..]
  }

  const SPACES: Bytes := [32, 32, 32, 32, 32, 32, 32, 32]

  /** The header with its checksum: six digits, NUL, space. */
  function Stamp(t: Bytes, name: Bytes, kind: Byte, size: nat): (h: Bytes)
    requires |t| == BLOCK && |name| <= 100
    ensures |h| == BLOCK
  {
    Front(t, name, size) + Checksum(Front(t, name, size), Back(t, kind)) + Back(t, kind)
  }

  function Checksum(front: Bytes, back: Bytes): (field: Bytes)
    requires |front| == 148 && |back| == 356
    ensures |field| == 8
  {
    Digits(SumFrom(front + SPACES + back, 0), 6) + [0, 32]
  }

  lemma {:induction false} SumIgnoresField(u: Bytes, h: Bytes, i: nat)
    requires |u| == |h| == BLOCK && i <= BLOCK
    requires forall j :: 0 <= j < BLOCK && !InSumField(j) ==> u[j] == h[j]
    ensures SumFrom(u, i) == SumFrom(h, i)
    decreases BLOCK - i
  {
    if i < BLOCK { SumIgnoresField(u, h, i + 1); }
  }

  lemma {:induction false} SumBound(h: Bytes, i: nat)
    requires |h| == BLOCK && i <= BLOCK
    ensures SumFrom(h, i) <= 255 * (BLOCK - i)
    decreases BLOCK - i
  {
    if i < BLOCK { SumBound(h, i + 1); }
  }

  lemma Powers()
    ensures Power8(6) == 0x4_0000 && Power8(7) == 0x20_0000 && Power8(11) == SIZE_LIMIT
  {
    assert Power8(3) == 512;
    assert Power8(6) == 8 * 8 * 8 * Power8(3);
    assert Power8(9) == 8 * 8 * 8 * Power8(6);
    assert Power8(11) == 8 * 8 * Power8(9);
  }

  lemma MaskKeeps(s: Bytes)
    requires forall i :: 0 <= i < |s| ==> s[i] < 128
    ensures Mask(s) == s
  {
  }

  lemma ChecksumStates(front: Bytes, back: Bytes)
    requires |front| == 148 && |back| == 356
    ensures var h := front + Checksum(front, back) + back;
            && ChecksumOk(h) && Number(h[148..156]) == Some(SumFrom(h, 0))
            && h[148..156] == Digits(SumFrom(h, 0), 6) + [0, 32] && !AllZero(h)
  {
    var u := front + SPACES + back;
    var field := Checksum(front, back);
    var h := front + field + back;
    SumIgnoresField(u, h, 0);
    SumBound(u, 0);
    Powers();
    assert h[148..156] == field;
    assert h[148] == field[0];
    MaskKeeps(field);
    NumberReadsDigits(SumFrom(u, 0), 6, [32]);
    assert Digits(SumFrom(u, 0), 6) + [0] + [32] == field;
  }

  /** The checksum field states the sum, in digits. */
  lemma StampSums(t: Bytes, name: Bytes, kind: Byte, size: nat)
    requires |t| == BLOCK && |name| <= 100
    ensures var h := Stamp(t, name, kind, size);
            && ChecksumOk(h) && Number(h[148..156]) == Some(SumFrom(h, 0))
            && h[148..156] == Digits(SumFrom(h, 0), 6) + [0, 32] && !AllZero(h)
  {
    ChecksumStates(Front(t, name, size), Back(t, kind));
  }

  lemma FourParts(a: Bytes, b: Bytes, c: Bytes, d: Bytes)
    requires |a| == 100 && |b| == 24 && |c| == 12
    ensures var all := a + b + c + d;
            all[0..100] == a && all[100..108] == b[..8] && all[124..136] == c
  {
  }

  lemma FrontFields(t: Bytes, name: Bytes, size: nat)
    requires |t| == BLOCK && |name| <= 100
    ensures var front := Front(t, name, size);
            && front[0..100] == name + Zeros(100 - |name|) && front[124..136] == Digits(size, 11) + [0]
            && front[100..108] == t[100..108]
  {
    FourParts(name + Zeros(100 - |name|), t[100..124], Digits(size, 11) + [0], t[136..148]);
    assert t[100..124][..8] == t[100..108];
  }

  lemma StampFields(t: Bytes, name: Bytes, kind: Byte, size: nat)
    requires |t| == BLOCK && |name| <= 100
    ensures var h := Stamp(t, name, kind, size);
            && h[0..100] == name + Zeros(100 - |name|) && h[124..136] == Digits(size, 11) + [0]
            && h[100..108] == t[100..108] && h[156] == kind && h[345] == 0
  {
    FrontFields(t, name, size);
    var front, back := Front(t, name, size), Back(t, kind);
    var h := front + Checksum(front, back) + back;
    assert h[0..100] == front[0..100] && h[100..108] == front[100..108] && h[124..136] == front[124..136];
    assert h[156] == back[0] && h[345] == back[189];
  }

  lemma StampNumbers(t: Bytes, name: Bytes, kind: Byte, size: nat)
    requires |t| == BLOCK && |name| <= 100 && 0 !in name && size < SIZE_LIMIT
    ensures var h := Stamp(t, name, kind, size);
            && UntilNul(h[0..100]) == name && Number(h[124..136]) == Some(size)
            && Number(Mask(h[124..136])) == Some(size)
  {
    StampFields(t, name, kind, size);
    Powers();
    var field := Digits(size, 11) + [0];
    MaskKeeps(field);
    NumberReadsDigits(size, 11, []);
    assert Digits(size, 11) + [0] + [] == field;
    UntilNulKeeps(name, Zeros(100 - |name|));
  }

  /** Members to write, each with the other bytes of its header. */
  datatype Entries = Done | Entry(template: Bytes, name: Bytes, kind: Byte, content: Bytes, rest: Entries)

  /** The header of the first entry fits, and the rules take it as what it says; `read` is what they make of
      a name. */
  predicate Taken(rules: Rules, read: Bytes -> Bytes, es: Entries, taken: Names)
    requires es.Entry?
  {
    && |es.template| == BLOCK && |es.name| <= 100
    && var h := Stamp(es.template, es.name, es.kind, |es.content|);
       !AllZero(h) && rules.admit(h, taken) == Ok(Header(read(es.name), es.kind, |es.content|))
  }

  predicate AllTaken(rules: Rules, read: Bytes -> Bytes, es: Entries, taken: Names) {
    es.Entry? ==>
      && Taken(rules, read, es, taken)
      && AllTaken(rules, read, es.rest, Claim(rules, Header(read(es.name), es.kind, |es.content|), taken))
  }

  predicate Headed(es: Entries) {
    es.Entry? ==> |es.template| == BLOCK && |es.name| <= 100 && Headed(es.rest)
  }

  /** The archive of the entries, ended by `zeros` zero bytes. */
  function Pack(read: Bytes -> Bytes, es: Entries, zeros: nat): Members
    requires Headed(es)
  {
    match es
    case Done => Tail(zeros)
    case Entry(t, name, kind, content, rest) =>
      Member(Header(read(name), kind, |content|), Stamp(t, name, kind, |content|), content,
             Zeros(Padded(|content|) - |content|), Pack(read, rest, zeros))
  }

  /** What is taken entry by entry is read back as it was written. */
  lemma {:induction false} PackIsSound(rules: Rules, read: Bytes -> Bytes, es: Entries, zeros: nat, taken: Names)
    requires AllTaken(rules, read, es, taken) && zeros >= BLOCK
    ensures Headed(es) && Sound(rules, Pack(read, es, zeros), taken)
    decreases es
  {
    if es.Entry? {
      PackIsSound(rules, read, es.rest, zeros, Claim(rules, Header(read(es.name), es.kind, |es.content|), taken));
    }
  }

  lemma {:induction false} PackIsWhole(read: Bytes -> Bytes, es: Entries, zeros: nat)
    requires Headed(es) && Whole(zeros)
    ensures Whole(|Join(Pack(read, es, zeros))|)
    decreases es
  {
    if es.Entry? {
      PackIsWhole(read, es.rest, zeros);
      WholeSpan(|es.content|);
      WholeSum(Span(|es.content|), |Join(Pack(read, es.rest, zeros))|);
    }
  }

  // ---- The members of what is read -------------------------------------------------------------------------

  /** `h` with this content is one of the members, read as `hd`. */
  predicate Holds(ms: Members, hd: Header, h: Bytes, content: Bytes) {
    ms.Member? && ((ms.hd == hd && ms.header == h && ms.content == content) || Holds(ms.rest, hd, h, content))
  }

  lemma {:induction false} HeldIsAdmitted(rules: Rules, ms: Members, taken: Names, hd: Header, h: Bytes, content: Bytes)
    returns (t: Names)
    requires Sound(rules, ms, taken) && Holds(ms, hd, h, content)
    ensures |h| == BLOCK && rules.admit(h, t) == Ok(hd) && |content| == hd.size
    decreases ms
  {
    if ms.hd == hd && ms.header == h && ms.content == content {
      t := taken;
    } else {
      t := HeldIsAdmitted(rules, ms.rest, Claim(rules, ms.hd, taken), hd, h, content);
    }
  }

  /** The header of every member that is read was admitted as what it is read as. */
  lemma ReadIsAdmitted(rules: Rules, tar: Bytes, hd: Header, h: Bytes, content: Bytes) returns (t: Names)
    requires Walk(rules, tar, {}).Ok? && Holds(Walk(rules, tar, {}).value, hd, h, content)
    ensures |h| == BLOCK && rules.admit(h, t) == Ok(hd) && |content| == hd.size
  {
    JoinWalk(rules, tar, {});
    t := HeldIsAdmitted(rules, Walk(rules, tar, {}).value, {}, hd, h, content);
  }
}
