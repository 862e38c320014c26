/** Byte strings, and the few string operations the modelled code applies to them. */
module Bytes {

  type Byte = b: int | 0 <= b < 256

  type Text = seq<Byte>

  datatype Option<+T> = None | Some(value: T)

  /** The bytes of an ASCII literal. */
  function Ascii(s: string): (t: Text)
    requires forall i :: 0 <= i < |s| ==> s[i] < 128 as char
    ensures |t| == |s|
    ensures forall i :: 0 <= i < |s| ==> t[i] == s[i] as int
  {
    seq(|s|, i requires 0 <= i < |s| => s[i] as int)
  }

  predicate HasPrefix(t: Text, p: Text) {
    |p| <= |t| && t[..|p|] == p
  }

  /** How many times `c` repeats at the front of `t`. */
  function LeadingRun(t: Text, c: Byte): (n: nat)
    ensures n <= |t|
  {
    if t != [] && t[0] == c then 1 + LeadingRun(t[1..], c) else 0
  }

  function TrimRightSet(t: Text, cut: set<Byte>): Text {
    if t != [] && t[|t| - 1] in cut then TrimRightSet(t[..|t| - 1], cut) else t
  }

  /** Byte width of the white-space rune at the front of `t`, or 0. The non-ASCII
      white-space runes are spelled out as their UTF-8 encodings. */
  function SpaceAtFront(t: Text): (w: nat)
    ensures w <= |t|
  {
    if |t| >= 1 && IsAsciiSpace(t[0]) then 1
    else if |t| >= 2 && IsSpacePair(t[0], t[1]) then 2
    else if |t| >= 3 && IsSpaceTriple(t[0], t[1], t[2]) then 3
    else 0
  }

  function SpaceAtBack(t: Text): (w: nat)
    ensures w <= |t|
  {
    var n := |t|;
    if n >= 1 && IsAsciiSpace(t[n - 1]) then 1
    else if n >= 2 && IsSpacePair(t[n - 2], t[n - 1]) then 2
    else if n >= 3 && IsSpaceTriple(t[n - 3], t[n - 2], t[n - 1]) then 3
    else 0
  }

  predicate IsAsciiSpace(b: Byte) {
    9 <= b <= 13 || b == 32
  }

  predicate IsSpacePair(a: Byte, b: Byte) {
    a == 0xC2 && (b == 0x85 || b == 0xA0)
  }

  predicate IsSpaceTriple(a: Byte, b: Byte, c: Byte) {
    || (a == 0xE1 && b == 0x9A && c == 0x80)
    || (a == 0xE2 && b == 0x80 && (0x80 <= c <= 0x8A || c == 0xA8 || c == 0xA9 || c == 0xAF))
    || (a == 0xE2 && b == 0x81 && c == 0x9F)
    || (a == 0xE3 && b == 0x80 && c == 0x80)
  }

  /** The text without leading and trailing white space. */
  function TrimSpace(t: Text): Text
    decreases |t|
  {
    var front, back := SpaceAtFront(t), SpaceAtBack(t);
    if front > 0 then TrimSpace(t[front..])
    else if back > 0 then TrimSpace(t[..|t| - back])
    else t
  }

  /** Index of the first `c` in `t`, or |t| when there is none. */
  function IndexOf(t: Text, c: Byte): (n: nat)
    ensures n <= |t|
  {
    if t == [] || t[0] == c then 0 else 1 + IndexOf(t[1..], c)
  }
}
