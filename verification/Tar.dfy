/** Tar archives as the two readers of the release pipeline see them: 512-byte headers, each followed by
    its content and padding, then zero bytes. The format is the ustar interchange format of the pax
    utility in IEEE Std 1003.1-2017. What makes a header acceptable is a parameter, `Rules`. */
module Tar {
  import opened Prelude
  import opened Octal

  const BLOCK: nat := 512

  // ---- Headers ---------------------------------------------------------------------------------------

  /** The header sum from byte `i` on, counting the checksum field as spaces. */
  function SumFrom(h: Bytes, i: nat): nat
    requires |h| == BLOCK && i <= BLOCK
    decreases BLOCK - i
  {
    if i == BLOCK then 0 else (if 148 <= i < 156 then 32 else h[i]) + SumFrom(h, i + 1)
  }

  /** Content bytes rounded up to whole blocks. */
  function Padded(size: nat): (n: nat)
    ensures n >= size
  {
    if size == 0 then 0 else BLOCK + Padded(if size <= BLOCK then 0 else size - BLOCK)
  }

  /** How far a record with `size` content bytes extends: its header and its padded content. */
  function Span(size: nat): (n: nat)
    ensures n >= BLOCK + size
  {
    BLOCK + Padded(size)
  }

  /** `Math.ceil(size / 512) * 512`. */
  lemma {:induction false} PaddedIsCeil(size: nat)
    ensures Padded(size) == (size + BLOCK - 1) / BLOCK * BLOCK
  {
    if size > BLOCK { PaddedIsCeil(size - BLOCK); }
  }

  /** A multiple of the block size. */
  predicate Whole(n: nat) { n == 0 || (n >= BLOCK && Whole(n - BLOCK)) }

  lemma {:induction false} WholeIsMultiple(n: nat)
    ensures Whole(n) <==> n % BLOCK == 0
  {
    if n >= BLOCK { WholeIsMultiple(n - BLOCK); }
  }

  lemma WholeSum(a: nat, b: nat)
    requires Whole(a) && Whole(b)
    ensures Whole(a + b)
  {
    WholeIsMultiple(a);
    WholeIsMultiple(b);
    WholeIsMultiple(a + b);
  }

  lemma WholeSpan(size: nat)
    ensures Whole(Span(size)) && Span(size) < 2 * BLOCK + size
  {
    PaddedIsCeil(size);
    WholeIsMultiple(Span(size));
  }

  predicate ChecksumOk(h: Bytes) {
    |h| == BLOCK && Number(Mask(h[148..156])) == Some(SumFrom(h, 0))
  }

  /** What a header says: the name, the type flag and the content size. */
  datatype Header = Header(name: Bytes, kind: Byte, size: nat)

  type Names = set<Bytes>

  /** Which headers are acceptable after the names taken so far, and whether directories take names. */
  datatype Rules = Rules(admit: (Bytes, Names) -> Result<Header>, directoriesCount: bool)

  const DIRECTORY: Byte := 53

  function Claim(rules: Rules, hd: Header, taken: Names): Names {
    if hd.kind == DIRECTORY && !rules.directoriesCount then taken else taken + {hd.name}
  }

  // ---- Archives --------------------------------------------------------------------------------------

  /** An archive taken apart: its members in order, then a run of zero bytes. */
  datatype Members =
    | Tail(zeros: nat)
    | Member(hd: Header, header: Bytes, content: Bytes, padding: Bytes, rest: Members)

  /** The bytes of an archive. */
  function Join(ms: Members): Bytes {
    match ms
    case Tail(n) => Zeros(n)
    case Member(_, header, content, padding, rest) => header + content + padding + Join(rest)
  }

  function Zeros(n: nat): (s: Bytes)
    ensures |s| == n && AllZero(s)
  {
    if n == 0 then [] else [0] + Zeros(n - 1)
  }

  /** Every member is acceptable where it stands and fills whole blocks; a zero block ends the archive. */
  predicate Sound(rules: Rules, ms: Members, taken: Names) {
    match ms
    case Tail(n) => n >= BLOCK
    case Member(hd, header, content, padding, rest) =>
      && |header| == BLOCK && !AllZero(header) && rules.admit(header, taken) == Ok(hd)
      && |content| == hd.size && |content| + |padding| == Padded(hd.size)
      && Sound(rules, rest, Claim(rules, hd, taken))
  }

  /** Taking an archive apart. */
  function Walk(rules: Rules, s: Bytes, taken: Names): Result<Members>
    decreases |s|
  {
    if |s| < BLOCK then Failed
    else if AllZero(s[..BLOCK]) then
      if AllZero(s) then Ok(Tail(|s|)) else Failed
    else
      match rules.admit(s[..BLOCK], taken)
      case Failed => Failed
      case Ok(hd) =>
        if |s| < Span(hd.size) then Failed
        else
          match Walk(rules, s[Span(hd.size)..], Claim(rules, hd, taken))
          case Failed => Failed
          case Ok(rest) => Ok(Cut(s, hd, rest))
  }

  /** The first member of `s`, which says `hd`. */
  function Cut(s: Bytes, hd: Header, rest: Members): Members
    requires |s| >= Span(hd.size)
  {
    Member(hd, s[..BLOCK], s[BLOCK..BLOCK + hd.size], s[BLOCK + hd.size..Span(hd.size)], rest)
  }

  // ---- Reading is the inverse of writing ----------------------------------------------------------------

  lemma {:induction false} ZeroRun(s: Bytes)
    requires AllZero(s)
    ensures s == Zeros(|s|)
  {
    if s != [] { ZeroRun(s[1..]); }
  }

  /** What is read writes back to the same bytes. */
  lemma {:induction false} JoinWalk(rules: Rules, s: Bytes, taken: Names)
    requires Walk(rules, s, taken).Ok?
    ensures Join(Walk(rules, s, taken).value) == s && Sound(rules, Walk(rules, s, taken).value, taken)
    decreases |s|
  {
    if AllZero(s[..BLOCK]) {
      ZeroRun(s);
    } else {
      var hd := rules.admit(s[..BLOCK], taken).value;
      JoinWalk(rules, s[Span(hd.size)..], Claim(rules, hd, taken));
    }
  }

  lemma CutJoin(ms: Members, rest: Bytes)
    requires ms.Member? && |ms.header| == BLOCK && |ms.content| == ms.hd.size
    requires |ms.content| + |ms.padding| == Padded(ms.hd.size)
    ensures var s := ms.header + ms.content + ms.padding + rest;
            |s| == Span(ms.hd.size) + |rest| && s[..BLOCK] == ms.header && s[Span(ms.hd.size)..] == rest
            && Cut(s, ms.hd, ms.rest) == ms
  {
  }

  /** What is written reads back as the same members. */
  lemma {:induction false} WalkJoin(rules: Rules, ms: Members, taken: Names)
    requires Sound(rules, ms, taken)
    ensures Walk(rules, Join(ms), taken) == Ok(ms)
    decreases ms
  {
    if ms.Member? {
      CutJoin(ms, Join(ms.rest));
      WalkJoin(rules, ms.rest, Claim(rules, ms.hd, taken));
    } else {
      ZeroRun(Zeros(ms.zeros)[..BLOCK]);
    }
  }

  /** The archives that are accepted are exactly the sound ones, and each comes apart in one way. */
  lemma WalkExactly(rules: Rules, s: Bytes, taken: Names)
    ensures Walk(rules, s, taken).Ok? <==> exists ms :: Sound(rules, ms, taken) && Join(ms) == s
    ensures forall ms :: Sound(rules, ms, taken) && Join(ms) == s ==> Walk(rules, s, taken) == Ok(ms)
  {
    forall ms | Sound(rules, ms, taken) && Join(ms) == s
      ensures Walk(rules, s, taken) == Ok(ms)
    {
      WalkJoin(rules, ms, taken);
    }
    if Walk(rules, s, taken).Ok? { JoinWalk(rules, s, taken); }
  }
}
