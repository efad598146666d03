/** What changing one byte of an accepted archive does: in a header or after the last member it is
    always refused, in a content it changes that content and nothing else. */
module TarTamper {
  import opened Prelude
  import opened Octal
  import opened Tar

  predicate InSumField(p: nat) { 148 <= p < 156 }

  /** Byte `p` is in a header, outside its checksum field, or in the zero bytes at the end. */
  predicate Guarded(ms: Members, p: nat) {
    match ms
    case Tail(n) => p < n
    case Member(hd, _, _, _, rest) =>
      if p < BLOCK then !InSumField(p) else p >= Span(hd.size) && Guarded(rest, p - Span(hd.size))
  }

  /** Byte `p` is in a content or in the padding after one. */
  predicate Body(ms: Members, p: nat) {
    match ms
    case Tail(n) => false
    case Member(hd, _, _, _, rest) =>
      p >= BLOCK && (p < Span(hd.size) || Body(rest, p - Span(hd.size)))
  }

  /** The archive with byte `p` of a content or padding set to `b`. */
  function Poke(ms: Members, p: nat, b: Byte): Members
    requires Body(ms, p)
  {
    var q := p - BLOCK;
    if p >= Span(ms.hd.size) then ms.(rest := Poke(ms.rest, p - Span(ms.hd.size), b))
    else if q < |ms.content| then ms.(content := ms.content[q := b])
    else if q - |ms.content| < |ms.padding| then ms.(padding := ms.padding[q - |ms.content| := b])
    else ms
  }

  // ---- Sums --------------------------------------------------------------------------------------------

  lemma {:induction false} SumChanges(h: Bytes, p: nat, b: Byte, i: nat)
    requires |h| == BLOCK && p < BLOCK && i <= BLOCK && !InSumField(p)
    ensures SumFrom(h[p := b], i) == SumFrom(h, i) + if i <= p then b - h[p] else 0
    decreases BLOCK - i
  {
    if i < BLOCK { SumChanges(h, p, b, i + 1); }
  }

  /** The eight bytes of the checksum field count as spaces. */
  lemma {:induction false} SumAtLeast(h: Bytes, i: nat)
    requires |h| == BLOCK && i <= BLOCK
    ensures SumFrom(h, i) >= if i <= 148 then 256 else if i < 156 then 32 * (156 - i) else 0
    decreases BLOCK - i
  {
    if i < BLOCK { SumAtLeast(h, i + 1); }
  }

  /** A header that passes its checksum has a digit in the checksum field. */
  lemma SumFieldHasDigit(h: Bytes)
    requires ChecksumOk(h)
    ensures exists i :: 148 <= i < 156 && h[i] != 0
  {
    var field := Mask(h[148..156]);
    var i :| 0 <= i < |field| && IsOctal(field[i]);
    assert h[148 + i] % 128 == field[i];
  }

  /** No header passes its checksum after a change outside the checksum field. */
  lemma ChangedFails(h: Bytes, p: nat, b: Byte)
    requires ChecksumOk(h) && p < BLOCK && !InSumField(p) && b != h[p]
    ensures !ChecksumOk(h[p := b]) && !AllZero(h[p := b])
  {
    SumChanges(h, p, b, 0);
    assert h[p := b][148..156] == h[148..156];
    SumFieldHasDigit(h);
    var i :| 148 <= i < 156 && h[i] != 0;
    assert h[p := b][i] == h[i];
  }

  /** One byte cannot write the sum of a header. */
  lemma OneByteIsNoSum(h: Bytes, p: nat)
    requires |h| == BLOCK && p < BLOCK && forall i :: 0 <= i < BLOCK && i != p ==> h[i] == 0
    ensures !ChecksumOk(h)
  {
    SumAtLeast(h, 0);
    var field := Mask(h[148..156]);
    if p != 148 {
      assert field[0] == h[148] % 128 == 0;
      assert UntilNul(field) == [];
    } else {
      assert field[1] == h[149] % 128 == 0;
      assert field[1..][0] == 0;
      assert UntilNul(field[1..]) == [];
      SingleDigit(UntilNul(field));
    }
  }

  lemma SingleDigit(s: Bytes)
    requires |s| <= 1
    ensures AllOctal(Trim(s)) ==> OctalValue(Trim(s)) < 8
  {
    if s == [] || IsBlank(s[0]) {
      assert s != [] ==> s[1..] == [];
      assert TrimStart(s) == [];
    } else {
      assert Trim(s) == s && s[..0] == [];
    }
  }

  // ---- Changing one byte -------------------------------------------------------------------------------

  predicate SumChecked(rules: Rules, h: Bytes, taken: Names) { rules.admit(h, taken).Ok? ==> ChecksumOk(h) }

  /** The rules look at the checksum of a header. */
  ghost predicate ChecksSums(rules: Rules) { forall h, taken :: SumChecked(rules, h, taken) }

  lemma TailChange(rules: Rules, s: Bytes, taken: Names, p: nat, b: Byte)
    requires ChecksSums(rules) && |s| >= BLOCK && AllZero(s) && p < |s| && b != 0
    ensures Walk(rules, s[p := b], taken).Failed?
  {
    var s' := s[p := b];
    assert s'[p] != 0;
    if p < BLOCK {
      var h := s'[..BLOCK];
      assert h[p] == b && !AllZero(h);
      OneByteIsNoSum(h, p);
      assert SumChecked(rules, h, taken);
      assert rules.admit(h, taken).Failed?;
    } else {
      assert AllZero(s'[..BLOCK]);
    }
  }

  lemma HeaderChange(rules: Rules, s: Bytes, taken: Names, p: nat, b: Byte)
    requires ChecksSums(rules) && |s| >= BLOCK && rules.admit(s[..BLOCK], taken).Ok?
    requires p < BLOCK && !InSumField(p) && b != s[p]
    ensures Walk(rules, s[p := b], taken).Failed?
  {
    var h := s[..BLOCK];
    assert SumChecked(rules, h, taken) && SumChecked(rules, h[p := b], taken);
    ChangedFails(h, p, b);
    assert s[p := b][..BLOCK] == h[p := b];
    assert rules.admit(h[p := b], taken).Failed?;
  }

  lemma LaterChange(rules: Rules, s: Bytes, taken: Names, hd: Header, p: nat, b: Byte)
    requires |s| >= Span(hd.size) && !AllZero(s[..BLOCK]) && rules.admit(s[..BLOCK], taken) == Ok(hd)
    requires Span(hd.size) <= p < |s|
    requires Walk(rules, s[Span(hd.size)..][p - Span(hd.size) := b], Claim(rules, hd, taken)).Failed?
    ensures Walk(rules, s[p := b], taken).Failed?
  {
    assert s[p := b][..BLOCK] == s[..BLOCK];
    assert s[p := b][Span(hd.size)..] == s[Span(hd.size)..][p - Span(hd.size) := b];
  }

  /** Any other value of any guarded byte makes an accepted archive a refused one. */
  lemma {:induction false} ChangeIsRefused(rules: Rules, s: Bytes, taken: Names, p: nat, b: Byte)
    requires ChecksSums(rules) && Walk(rules, s, taken).Ok? && Guarded(Walk(rules, s, taken).value, p)
    ensures p < |s| && (b != s[p] ==> Walk(rules, s[p := b], taken).Failed?)
    decreases |s|
  {
    if AllZero(s[..BLOCK]) {
      if b != s[p] { TailChange(rules, s, taken, p, b); }
    } else if p < BLOCK {
      if b != s[p] { HeaderChange(rules, s, taken, p, b); }
    } else {
      var hd := rules.admit(s[..BLOCK], taken).value;
      var n := Span(hd.size);
      ChangeIsRefused(rules, s[n..], Claim(rules, hd, taken), p - n, b);
      if b != s[p] { LaterChange(rules, s, taken, hd, p, b); }
    }
  }

  /** Changing the middle of three parts. */
  lemma MiddleChange(x: Bytes, y: Bytes, z: Bytes, p: nat, b: Byte)
    requires |x| <= p < |x| + |y|
    ensures (x + y + z)[p := b] == x + y[p - |x| := b] + z
  {
  }

  lemma LastChange(x: Bytes, y: Bytes, p: nat, b: Byte)
    requires |x| <= p < |x| + |y|
    ensures (x + y)[p := b] == x + y[p - |x| := b]
  {
  }

  lemma {:induction false} PokeJoins(rules: Rules, ms: Members, taken: Names, p: nat, b: Byte)
    requires Sound(rules, ms, taken) && Body(ms, p)
    ensures p < |Join(ms)| && Join(Poke(ms, p, b)) == Join(ms)[p := b]
    ensures Sound(rules, Poke(ms, p, b), taken)
    decreases ms
  {
    var h, c, d, rest := ms.header, ms.content, ms.padding, Join(ms.rest);
    if p >= Span(ms.hd.size) {
      PokeJoins(rules, ms.rest, Claim(rules, ms.hd, taken), p - Span(ms.hd.size), b);
      LastChange(h + c + d, rest, p, b);
    } else if p - BLOCK < |c| {
      MiddleChange(h, c, d + rest, p, b);
      assert h + c + d + rest == h + c + (d + rest);
      assert h + c[p - BLOCK := b] + d + rest == h + c[p - BLOCK := b] + (d + rest);
    } else {
      MiddleChange(h + c, d, rest, p, b);
    }
  }

  /** Any value of any other byte outside the checksum fields leaves the archive accepted, with that one
      byte of that one content or padding changed. */
  lemma BodyIsFree(rules: Rules, s: Bytes, taken: Names, p: nat, b: Byte)
    requires Walk(rules, s, taken).Ok? && Body(Walk(rules, s, taken).value, p)
    ensures p < |s| && Walk(rules, s[p := b], taken) == Ok(Poke(Walk(rules, s, taken).value, p, b))
  {
    var ms := Walk(rules, s, taken).value;
    JoinWalk(rules, s, taken);
    PokeJoins(rules, ms, taken, p, b);
    WalkJoin(rules, Poke(ms, p, b), taken);
  }

  // ---- Changing a checksum -----------------------------------------------------------------------------

  /** Byte `p` is in the checksum field of a header. */
  predicate InField(ms: Members, p: nat) {
    ms.Member? && if p < BLOCK then InSumField(p) else p >= Span(ms.hd.size) && InField(ms.rest, p - Span(ms.hd.size))
  }

  /** The header still states its own sum with byte `p` set to `b`. */
  predicate StillSums(ms: Members, p: nat, b: Byte)
    requires InField(ms, p)
  {
    if p < BLOCK then p < |ms.header| && ChecksumOk(ms.header[p := b])
    else StillSums(ms.rest, p - Span(ms.hd.size), b)
  }

  /** The archive with that byte set. */
  function Restamp(ms: Members, p: nat, b: Byte): Members
    requires InField(ms, p)
  {
    if p >= BLOCK then ms.(rest := Restamp(ms.rest, p - Span(ms.hd.size), b))
    else if p < |ms.header| then ms.(header := ms.header[p := b]) else ms
  }

  /** The rules read the checksum field for the checksum only, and take the bytes `fit` in it. */
  predicate FieldIsSum(rules: Rules, fit: Byte -> bool, h: Bytes, taken: Names, p: nat, b: Byte) {
    |h| == BLOCK && InSumField(p) && rules.admit(h, taken).Ok? ==>
      rules.admit(h[p := b], taken) == if fit(b) && ChecksumOk(h[p := b]) then rules.admit(h, taken) else Failed
  }

  ghost predicate FieldsAreSums(rules: Rules, fit: Byte -> bool) {
    forall h, taken, p, b :: FieldIsSum(rules, fit, h, taken, p, b)
  }

  lemma NotBlanked(h: Bytes, p: nat, b: Byte)
    requires ChecksumOk(h) && p < BLOCK
    ensures !AllZero(h[p := b])
  {
    if AllZero(h[p := b]) {
      assert forall i :: 0 <= i < BLOCK && i != p ==> h[i] == h[p := b][i];
      OneByteIsNoSum(h, p);
    }
  }

  lemma FirstField(rules: Rules, fit: Byte -> bool, s: Bytes, taken: Names, p: nat, b: Byte)
    requires ChecksSums(rules) && FieldsAreSums(rules, fit)
    requires Walk(rules, s, taken).Ok? && !AllZero(s[..BLOCK]) && InSumField(p)
    ensures var ms := Walk(rules, s, taken).value;
            && InField(ms, p)
            && Walk(rules, s[p := b], taken) == if fit(b) && StillSums(ms, p, b) then Ok(Restamp(ms, p, b)) else Failed
  {
    var h := s[..BLOCK];
    var n := Span(rules.admit(h, taken).value.size);
    assert SumChecked(rules, h, taken) && FieldIsSum(rules, fit, h, taken, p, b);
    NotBlanked(h, p, b);
    var s' := s[p := b];
    assert s'[..BLOCK] == h[p := b] && s'[n..] == s[n..] && s'[BLOCK..n] == s[BLOCK..n];
    var size := rules.admit(h, taken).value.size;
    assert s'[BLOCK..BLOCK + size] == s[BLOCK..BLOCK + size] && s'[BLOCK + size..n] == s[BLOCK + size..n];
  }

  lemma LaterField(rules: Rules, fit: Byte -> bool, s: Bytes, taken: Names, p: nat, b: Byte, hd: Header, ms: Members)
    requires |s| >= Span(hd.size) && !AllZero(s[..BLOCK]) && rules.admit(s[..BLOCK], taken) == Ok(hd)
    requires Span(hd.size) <= p < |s| && InField(ms, p - Span(hd.size))
    requires Walk(rules, s[Span(hd.size)..][p - Span(hd.size) := b], Claim(rules, hd, taken))
             == if fit(b) && StillSums(ms, p - Span(hd.size), b) then Ok(Restamp(ms, p - Span(hd.size), b)) else Failed
    ensures Walk(rules, s[p := b], taken)
            == if fit(b) && StillSums(Cut(s, hd, ms), p, b) then Ok(Restamp(Cut(s, hd, ms), p, b)) else Failed
  {
    var n := Span(hd.size);
    var s' := s[p := b];
    assert s'[..BLOCK] == s[..BLOCK] && s'[n..] == s[n..][p - n := b];
    assert s'[BLOCK..BLOCK + hd.size] == s[BLOCK..BLOCK + hd.size];
    assert s'[BLOCK + hd.size..n] == s[BLOCK + hd.size..n];
  }

  lemma RestIsFine(rules: Rules, s: Bytes, taken: Names, hd: Header, p: nat)
    requires |s| >= BLOCK && !AllZero(s[..BLOCK]) && rules.admit(s[..BLOCK], taken) == Ok(hd)
    requires Walk(rules, s, taken).Ok? && p >= BLOCK && InField(Walk(rules, s, taken).value, p)
    ensures |s| >= Span(hd.size) && p >= Span(hd.size)
    ensures var rest := Walk(rules, s[Span(hd.size)..], Claim(rules, hd, taken));
            && rest.Ok? && InField(rest.value, p - Span(hd.size))
            && Walk(rules, s, taken).value == Cut(s, hd, rest.value)
  {
  }

  /** A changed checksum byte is accepted exactly when it fits and the field still states the sum, and then
      nothing but that byte of that header differs. */
  lemma {:induction false} FieldChangeExactly(rules: Rules, fit: Byte -> bool, s: Bytes, taken: Names, p: nat, b: Byte)
    requires ChecksSums(rules) && FieldsAreSums(rules, fit)
    requires Walk(rules, s, taken).Ok? && InField(Walk(rules, s, taken).value, p)
    ensures p < |s|
    ensures var ms := Walk(rules, s, taken).value;
            Walk(rules, s[p := b], taken) == if fit(b) && StillSums(ms, p, b) then Ok(Restamp(ms, p, b)) else Failed
    decreases |s|
  {
    if p < BLOCK {
      FirstField(rules, fit, s, taken, p, b);
    } else {
      var hd := rules.admit(s[..BLOCK], taken).value;
      RestIsFine(rules, s, taken, hd, p);
      var n := Span(hd.size);
      FieldChangeExactly(rules, fit, s[n..], Claim(rules, hd, taken), p - n, b);
      LaterField(rules, fit, s, taken, p, b, hd, Walk(rules, s[n..], Claim(rules, hd, taken)).value);
    }
  }
}
