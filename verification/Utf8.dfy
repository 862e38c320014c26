/** UTF-8 as section 3 of RFC 3629 defines it: decoding, well-formedness, and where a
    byte string may be cut without cutting a character. */
module Utf8 {
  import opened Bytes

  predicate RuneStart(b: Byte) {
    b < 0x80 || b >= 0xC0
  }

  predicate Continuation(b: Byte) {
    !RuneStart(b)
  }

  /** Byte width of the well-formed sequence at the front of `t`, or 0 when the front is
      not one. */
  function Width(t: Text): (w: nat)
    ensures w <= 4 && w <= |t|
    ensures w > 0 ==> RuneStart(t[0])
    ensures forall i :: 1 <= i < w ==> Continuation(t[i])
  {
    if t == [] then 0
    else if t[0] < 0x80 then 1
    else if 0xC2 <= t[0] < 0xE0 then
      if |t| >= 2 && Continuation(t[1]) then 2 else 0
    else if 0xE0 <= t[0] < 0xF0 then
      if |t| >= 3 && SecondOfThree(t[0], t[1]) && Continuation(t[2]) then 3 else 0
    else if 0xF0 <= t[0] < 0xF5 then
      if |t| >= 4 && SecondOfFour(t[0], t[1]) && Continuation(t[2]) && Continuation(t[3]) then 4 else 0
    else 0
  }

  predicate SecondOfThree(a: Byte, b: Byte) {
    Continuation(b) && (a == 0xE0 ==> b >= 0xA0) && (a == 0xED ==> b < 0xA0)
  }

  predicate SecondOfFour(a: Byte, b: Byte) {
    Continuation(b) && (a == 0xF0 ==> b >= 0x90) && (a == 0xF4 ==> b < 0x90)
  }

  /** The six payload bits of a continuation byte. */
  function Payload(b: Byte): (v: int)
    requires Continuation(b)
    ensures 0 <= v < 64
  {
    var x: int := b;
    x - 0x80
  }

  /** The rune at the front of a non-empty `t` and the bytes it takes; anything malformed
      reads as U+FFFD over one byte. */
  function DecodeRune(t: Text): (r: (nat, nat))
    requires t != []
    ensures 1 <= r.1 <= |t|
  {
    var w := Width(t);
    if w == 0 then (0xFFFD, 1)
    else
      var lead: int := t[0];
      if w == 1 then (lead, 1)
      else if w == 2 then ((lead - 0xC0) * 64 + Payload(t[1]), 2)
      else if w == 3 then ((lead - 0xE0) * 4096 + Payload(t[1]) * 64 + Payload(t[2]), 3)
      else ((lead - 0xF0) * 262144 + Payload(t[1]) * 4096 + Payload(t[2]) * 64 + Payload(t[3]), 4)
  }

  predicate WellFormed(t: Text) {
    t == [] || (Width(t) > 0 && WellFormed(t[Width(t)..]))
  }

  /** A position where `t` may be cut: its end, or the first byte of a character. */
  predicate Boundary(t: Text, p: nat) {
    p == |t| || (p < |t| && RuneStart(t[p]))
  }

  lemma {:induction false} RuneStartNearby(t: Text, q: nat) returns (r: nat)
    requires WellFormed(t) && q < |t|
    ensures r <= q < r + 4 && RuneStart(t[r])
  {
    var w := Width(t);
    if q < w {
      r := 0;
    } else {
      var tail := t[w..];
      var r' := RuneStartNearby(tail, q - w);
      assert tail[r'] == t[w + r'];
      r := w + r';
    }
  }

  lemma {:induction false} CutAtBoundary(t: Text, p: nat)
    requires WellFormed(t) && p <= |t| && Boundary(t, p)
    ensures WellFormed(t[..p]) && WellFormed(t[p..])
  {
    if p == 0 {
      assert t[p..] == t;
    } else {
      var w := Width(t);
      assert p >= w;
      var tail := t[w..];
      assert p - w < |tail| ==> tail[p - w] == t[p];
      CutAtBoundary(tail, p - w);
      assert t[p..] == tail[p - w..];
      PrefixWidth(t, p);
      assert t[..p][w..] == tail[..p - w];
    }
  }

  lemma PrefixWidth(t: Text, p: nat)
    requires Width(t) <= p <= |t|
    requires Width(t) > 0
    ensures Width(t[..p]) == Width(t)
  {
    var u := t[..p];
    assert forall i :: 0 <= i < p ==> u[i] == t[i];
  }

  /** After an ASCII byte a well-formed text may be cut. */
  lemma {:induction false} AfterAscii(t: Text, p: nat)
    requires WellFormed(t) && p < |t| && t[p] < 0x80
    ensures Boundary(t, p + 1)
  {
    var w := Width(t);
    var tail := t[w..];
    if p < w {
      assert p == 0;
      assert tail != [] ==> tail[0] == t[w];
    } else {
      AfterAscii(tail, p - w);
      assert p + 1 < |t| ==> tail[p - w + 1] == t[p + 1];
    }
  }

  /** Cutting a well-formed text at two boundaries leaves well-formed text between them. */
  lemma SliceWellFormed(t: Text, lo: nat, hi: nat)
    requires WellFormed(t) && lo <= hi <= |t| && Boundary(t, lo) && Boundary(t, hi)
    ensures WellFormed(t[lo..hi])
  {
    CutAtBoundary(t, hi);
    var head := t[..hi];
    assert lo < hi ==> head[lo] == t[lo];
    CutAtBoundary(head, lo);
    assert head[lo..] == t[lo..hi];
  }
}
