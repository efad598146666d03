/** JavaScript strings as sequences of UTF-16 code units, and the name and digest rules the release code
    applies to them. */
module PlainNames {

  type Unit = x: int | 0 <= x < 0x10000

  type Text = seq<Unit>

  const NUL: Unit := 0
  const LF: Unit := 10
  const CR: Unit := 13
  const SPACE: Unit := 32
  const HASH: Unit := 35
  const DASH: Unit := 45
  const DOT: Unit := 46
  const SLASH: Unit := 47
  const BACKSLASH: Unit := 92
  const CANARY: Text := [45, 99, 97, 110, 97, 114, 121, 46]   // -canary.
  const MAX_SAFE: int := 0x1f_ffff_ffff_ffff

  /** The characters `trim` and `trimEnd` remove: ECMAScript white space and line terminators. */
  predicate IsSpace(c: Unit) {
    || 9 <= c <= 13 || c == 0x20 || c == 0xA0 || c == 0x1680 || 0x2000 <= c <= 0x200A
    || c == 0x2028 || c == 0x2029 || c == 0x202F || c == 0x205F || c == 0x3000 || c == 0xFEFF
  }

  predicate IsTrimmed(s: Text) {
    s != [] ==> !IsSpace(s[0]) && !IsSpace(s[|s| - 1])
  }

  predicate IsForbidden(c: Unit) {
    c == SLASH || c == BACKSLASH || c == NUL || c == CR || c == LF
  }

  /** A basename: nonempty, trimmed, not `.` or `..`, without separators, NUL or line ends. */
  predicate IsPlainName(s: Text) {
    && s != [] && IsTrimmed(s) && s != [DOT] && s != [DOT, DOT]
    && forall i :: 0 <= i < |s| ==> !IsForbidden(s[i])
  }

  predicate IsHex(c: Unit) { 48 <= c <= 57 || 97 <= c <= 102 }

  predicate IsDigest(s: Text) {
    |s| == 64 && forall i :: 0 <= i < |s| ==> IsHex(s[i])
  }

  /** A full lower-case commit hash. */
  predicate IsFullSha(s: Text) { |s| == 40 && forall i :: 0 <= i < |s| ==> IsHex(s[i]) }

  predicate IsDigit(c: Unit) { 48 <= c <= 57 }

  /** Letters, digits, underscore, dot and dash. */
  predicate IsNameUnit(c: Unit) {
    IsDigit(c) || 65 <= c <= 90 || 97 <= c <= 122 || c == 95 || c == DOT || c == DASH
  }

  /** `owner/repository`. */
  predicate IsRepository(s: Text) {
    exists k :: 0 < k < |s| - 1 && s[k] == SLASH && forall i :: 0 <= i < |s| && i != k ==> IsNameUnit(s[i])
  }

  /** What a canary version of this commit ends with: seven characters of the hash, after a `g` when they
      would read as a number with a leading zero. */
  function CanarySuffix(sha: Text): Text
    requires IsFullSha(sha)
  {
    var short := sha[..7];
    var numeric := short[0] == 48 && forall i :: 0 <= i < 7 ==> IsDigit(short[i]);
    CANARY + (if numeric then [103] + short else short)
  }

  predicate EndsWith(s: Text, end: Text) { |end| <= |s| && s[|s| - |end|..] == end }

  /** The last component of a POSIX path, trailing slashes aside. */
  function Basename(path: Text): Text {
    if path == [] then []
    else if path[|path| - 1] == SLASH then Basename(path[..|path| - 1])
    else LastPart(path)
  }

  function LastPart(path: Text): Text {
    if path == [] || path[|path| - 1] == SLASH then [] else LastPart(path[..|path| - 1]) + [path[|path| - 1]]
  }
}
