/** Bytes and the octal text fields of a ustar header. */
module Octal {
  import opened Prelude

  type Byte = x: int | 0 <= x < 256

  type Bytes = seq<Byte>

  predicate IsOctal(b: int) { 48 <= b <= 55 }

  /** The ASCII characters `trim` removes. */
  predicate IsBlank(b: int) { 9 <= b <= 13 || b == 32 }

  predicate AllOctal(s: Bytes) { forall i :: 0 <= i < |s| ==> IsOctal(s[i]) }

  predicate AllZero(s: Bytes) { forall i :: 0 <= i < |s| ==> s[i] == 0 }

  /** Everything before the first NUL. */
  function UntilNul(s: Bytes): Bytes {
    if s == [] || s[0] == 0 then [] else [s[0]] + UntilNul(s[1..])
  }

  function TrimStart(s: Bytes): Bytes {
    if s == [] || !IsBlank(s[0]) then s else TrimStart(s[1..])
  }

  function TrimEnd(s: Bytes): Bytes {
    if s == [] || !IsBlank(s[|s| - 1]) then s else TrimEnd(s[..|s| - 1])
  }

  function Trim(s: Bytes): Bytes { TrimEnd(TrimStart(s)) }

  /** `parseInt(s, 8)` of octal digits. */
  function OctalValue(s: Bytes): int
    requires AllOctal(s)
  {
    if s == [] then 0 else OctalValue(s[..|s| - 1]) * 8 + (s[|s| - 1] - 48)
  }

  /** `toString('ascii')` masks the high bit of every byte. */
  function Mask(s: Bytes): (r: Bytes)
    ensures |r| == |s| && forall i :: 0 <= i < |s| ==> r[i] == s[i] % 128
  {
    if s == [] then [] else [s[0] % 128] + Mask(s[1..])
  }

  /** The number in a text field: cut at NUL, trimmed, all octal digits. */
  function Number(text: Bytes): (r: Option<int>)
    ensures r.Some? ==> exists i :: 0 <= i < |text| && IsOctal(text[i])
  {
    var t := Trim(UntilNul(text));
    if t != [] && AllOctal(t) then
      TrimSubset(UntilNul(text), t[0]);
      UntilNulSubset(text, t[0]);
      Some(OctalValue(t))
    else None
  }

  lemma {:induction false} UntilNulSubset(s: Bytes, b: Byte)
    requires b in UntilNul(s)
    ensures b in s
  {
    if b != s[0] { UntilNulSubset(s[1..], b); }
  }

  lemma {:induction false} TrimStartSubset(s: Bytes, b: Byte)
    requires b in TrimStart(s)
    ensures b in s
  {
    if s != [] && IsBlank(s[0]) { TrimStartSubset(s[1..], b); }
  }

  lemma {:induction false} TrimEndSubset(s: Bytes, b: Byte)
    requires b in TrimEnd(s)
    ensures b in s
    decreases |s|
  {
    if s != [] && IsBlank(s[|s| - 1]) { TrimEndSubset(s[..|s| - 1], b); }
  }

  lemma TrimSubset(s: Bytes, b: Byte)
    requires b in Trim(s)
    ensures b in s
  {
    TrimEndSubset(TrimStart(s), b);
    TrimStartSubset(s, b);
  }

  // ---- Printing -------------------------------------------------------------------------------------

  function Power8(k: nat): nat { if k == 0 then 1 else 8 * Power8(k - 1) }

  /** `n` as exactly `k` octal digits. */
  function Digits(n: nat, k: nat): (r: Bytes)
    ensures |r| == k && AllOctal(r)
  {
    if k == 0 then [] else Digits(n / 8, k - 1) + [48 + n % 8]
  }

  lemma {:induction false} DigitsValue(n: nat, k: nat)
    requires n < Power8(k)
    ensures OctalValue(Digits(n, k)) == n
  {
    if k > 0 {
      DigitsValue(n / 8, k - 1);
      assert Digits(n, k)[..k - 1] == Digits(n / 8, k - 1);
    }
  }

  lemma {:induction false} UntilNulKeeps(s: Bytes, t: Bytes)
    requires forall i :: 0 <= i < |s| ==> s[i] != 0
    requires t == [] || t[0] == 0
    ensures UntilNul(s + t) == s
  {
    if s == [] {
      assert s + t == t;
    } else {
      assert (s + t)[1..] == s[1..] + t;
      UntilNulKeeps(s[1..], t);
    }
  }

  /** A field of `k` digits, then NUL, then anything, reads back. */
  lemma NumberReadsDigits(n: nat, k: nat, rest: Bytes)
    requires k > 0 && n < Power8(k)
    ensures Number(Digits(n, k) + [0] + rest) == Some(n)
  {
    var d := Digits(n, k);
    assert d + [0] + rest == d + ([0] + rest);
    UntilNulKeeps(d, [0] + rest);
    assert Trim(d) == d;
    DigitsValue(n, k);
  }
}
