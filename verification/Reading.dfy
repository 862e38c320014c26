/** What the scanner's tests mean in the text itself: characters as RFC 3629 encodes them,
    white space, and which lines are protected. */
module Reading {
  import opened Bytes
  import opened Utf8
  import opened Lines
  import H = Headings

  // ---- characters ----

  predicate Scalar(r: int) {
    0 <= r < 0xD800 || 0xE000 <= r < 0x110000
  }

  /** Section 3 of RFC 3629. */
  function Encode(r: nat): Text
    requires Scalar(r)
  {
    if r < 0x80 then [r]
    else if r < 0x800 then [0xC0 + r / 64, 0x80 + r % 64]
    else if r < 0x10000 then [0xE0 + r / 4096, 0x80 + r / 64 % 64, 0x80 + r % 64]
    else [0xF0 + r / 262144, 0x80 + r / 4096 % 64, 0x80 + r / 64 % 64, 0x80 + r % 64]
  }

  /** What was encoded is decoded, whatever follows it. */
  lemma DecodesEncoded(r: nat, rest: Text)
    requires Scalar(r)
    ensures var t := Encode(r) + rest; Width(t) == |Encode(r)| && DecodeRune(t) == (r, |Encode(r)|)
  {
    var t := Encode(r) + rest;
    assert forall i :: 0 <= i < |Encode(r)| ==> t[i] == Encode(r)[i];
    if 0x80 <= r < 0x800 {
      assert r == 64 * (r / 64) + r % 64;
    } else if 0x800 <= r < 0x10000 {
      assert r == 4096 * (r / 4096) + 64 * (r / 64 % 64) + r % 64 by { Digits64(r); }
    } else if 0x10000 <= r {
      assert r == 262144 * (r / 262144) + 4096 * (r / 4096 % 64) + 64 * (r / 64 % 64) + r % 64 by { Digits64(r); }
    }
  }

  lemma Digits64(r: nat)
    ensures r / 4096 == r / 64 / 64 && r / 262144 == r / 64 / 64 / 64
    ensures r / 64 % 64 == r / 64 - 64 * (r / 4096) && r / 4096 % 64 == r / 4096 - 64 * (r / 262144)
  {
  }

  /** A width is measured exactly where the text begins with the encoding of a character. */
  lemma WidthMeansEncoded(t: Text)
    ensures Width(t) > 0 <==> exists r: nat :: Scalar(r) && Encode(r) <= t
  {
    if Width(t) > 0 {
      var r := DecodeRune(t).0;
      ReadsEncoding(t);
      assert Encode(r) <= t;
    }
    if r: nat :| Scalar(r) && Encode(r) <= t {
      DecodesEncoded(r, t[|Encode(r)|..]);
      assert Encode(r) + t[|Encode(r)|..] == t;
    }
  }

  lemma ReadsEncoding(t: Text)
    requires Width(t) > 0
    ensures Scalar(DecodeRune(t).0) && Encode(DecodeRune(t).0) == t[..Width(t)]
  {
    hide Encode, Scalar, DecodeRune;
    if Width(t) <= 2 {
      ReadsShort(t);
    } else if Width(t) == 3 {
      ReadsThree(t);
    } else {
      ReadsFour(t);
    }
  }

  lemma ReadsShort(t: Text)
    requires 0 < Width(t) <= 2
    ensures Scalar(DecodeRune(t).0) && Encode(DecodeRune(t).0) == t[..Width(t)]
  {
    if Width(t) == 2 {
      TwoDigits(t[0] - 0xC0, t[1] - 0x80);
    }
  }

  lemma ReadsThree(t: Text)
    requires Width(t) == 3
    ensures Scalar(DecodeRune(t).0) && Encode(DecodeRune(t).0) == t[..3]
  {
    ThreeDigits(t[0] - 0xE0, t[1] - 0x80, t[2] - 0x80);
  }

  lemma ReadsFour(t: Text)
    requires Width(t) == 4
    ensures Scalar(DecodeRune(t).0) && Encode(DecodeRune(t).0) == t[..4]
  {
    FourDigits(t[0] - 0xF0, t[1] - 0x80, t[2] - 0x80, t[3] - 0x80);
  }

  lemma TwoDigits(a: nat, b: nat)
    requires b < 64
    ensures (a * 64 + b) / 64 == a && (a * 64 + b) % 64 == b
  {
  }

  lemma ThreeDigits(a: nat, b: nat, c: nat)
    requires b < 64 && c < 64
    ensures var r := a * 4096 + b * 64 + c; r / 4096 == a && r / 64 % 64 == b && r % 64 == c
  {
    TwoDigits(a * 64 + b, c);
    TwoDigits(a, b);
    Digits64(a * 4096 + b * 64 + c);
  }

  lemma FourDigits(a: nat, b: nat, c: nat, d: nat)
    requires b < 64 && c < 64 && d < 64
    ensures var r := a * 262144 + b * 4096 + c * 64 + d;
            r / 262144 == a && r / 4096 % 64 == b && r / 64 % 64 == c && r % 64 == d
  {
    TwoDigits(a * 4096 + b * 64 + c, d);
    ThreeDigits(a, b, c);
    Digits64(a * 262144 + b * 4096 + c * 64 + d);
  }

  // ---- white space ----

  /** The white-space characters of Unicode. */
  predicate Space(r: int) {
    || 9 <= r <= 13 || r == 32 || r == 0x85 || r == 0xA0 || r == 0x1680 || 0x2000 <= r <= 0x200A
    || r == 0x2028 || r == 0x2029 || r == 0x202F || r == 0x205F || r == 0x3000
  }

  lemma SpaceAtFrontReads(t: Text)
    requires t != []
    ensures SpaceAtFront(t) == if Space(DecodeRune(t).0) then DecodeRune(t).1 else 0
  {
  }

  lemma SpaceAtBackReads(t: Text)
    requires SpaceAtBack(t) > 0
    ensures SpaceAtFront(t[|t| - SpaceAtBack(t)..]) == SpaceAtBack(t)
  {
  }

  lemma NoSpaceBehind(t: Text, k: nat)
    requires SpaceAtBack(t) == 0 && 0 < k <= |t|
    ensures SpaceAtFront(t[|t| - k..]) != k
  {
  }

  /** Nothing but white space. */
  predicate Spaces(t: Text) {
    t == [] || (Space(DecodeRune(t).0) && Spaces(t[DecodeRune(t).1..]))
  }

  lemma SpacesCons(t: Text, w: nat, rest: Text)
    requires 0 < w <= |t| && SpaceAtFront(t) == w == |t| && Spaces(rest)
    ensures Spaces(t + rest)
  {
    var u := t + rest;
    assert u[..w] == t && u[w..] == rest;
    assert forall i :: 0 <= i < w ==> u[i] == t[i];
    assert SpaceAtFront(u) == w;
    SpaceAtFrontReads(u);
  }

  lemma TrimStep(t: Text)
    ensures TrimSpace(t) == if SpaceAtFront(t) > 0 then TrimSpace(t[SpaceAtFront(t)..])
                            else if SpaceAtBack(t) > 0 then TrimSpace(t[..|t| - SpaceAtBack(t)])
                            else t
  {
    hide SpaceAtFront, SpaceAtBack;
  }

  lemma Around(a: Text, p: Text, t: Text, q: Text, b: Text)
    ensures a + (p + t + q) == a + p + t + q && (p + t + q) + b == p + t + (q + b) && [] + t + [] == t
  {
  }

  lemma {:induction false} TrimmedOff(t: Text) returns (pre: Text, post: Text)
    ensures t == pre + TrimSpace(t) + post && Spaces(pre) && Spaces(post)
    decreases |t|
  {
    hide DecodeRune, Spaces, SpaceAtFront, SpaceAtBack, TrimSpace;
    TrimStep(t);
    NoSpaces();
    var front, back := SpaceAtFront(t), SpaceAtBack(t);
    if front > 0 {
      var head, tail := t[..front], t[front..];
      assert t == head + tail;
      var p, q := TrimmedOff(tail);
      Around(head, p, TrimSpace(tail), q, []);
      OnlySpace(t);
      SpacesCons(head, front, p);
      pre, post := head + p, q;
    } else if back > 0 {
      var head, tail := t[..|t| - back], t[|t| - back..];
      assert t == head + tail;
      var p, q := TrimmedOff(head);
      Around([], p, TrimSpace(head), q, tail);
      SpaceAtBackReads(t);
      SpacesAppend(q, tail);
      pre, post := p, q + tail;
    } else {
      pre, post := [], [];
      Around([], [], t, [], []);
    }
  }

  /** Trimming takes white space off both ends and stops at what is none. */
  lemma TrimSpaceTakes(t: Text) returns (pre: Text, post: Text)
    ensures t == pre + TrimSpace(t) + post && Spaces(pre) && Spaces(post)
    ensures TrimSpace(t) != [] ==> !Space(DecodeRune(TrimSpace(t)).0)
    ensures forall k :: 0 < k <= |TrimSpace(t)| ==> !IsSpace(Last(TrimSpace(t), k))
  {
    hide TrimSpace, Spaces, DecodeRune, SpaceAtFront, SpaceAtBack, IsSpace;
    pre, post := TrimmedOff(t);
    var r := TrimSpace(t);
    H.TrimTwice(t);
    H.TrimmedEnds(r);
    if r != [] {
      SpaceAtFrontReads(r);
      forall k | 0 < k <= |r| ensures !IsSpace(Last(r, k)) {
        NoSpaceBehind(r, k);
        IsSpaceReads(r[|r| - k..]);
      }
    }
  }

  function Last(t: Text, k: nat): Text
    requires k <= |t|
  {
    t[|t| - k..]
  }

  /** One white-space character and nothing more. */
  predicate IsSpace(t: Text) {
    t != [] && Space(DecodeRune(t).0) && DecodeRune(t).1 == |t|
  }

  lemma IsSpaceReads(t: Text)
    requires t != []
    ensures IsSpace(t) <==> SpaceAtFront(t) == |t|
  {
    hide DecodeRune, Space, SpaceAtFront;
    SpaceAtFrontReads(t);
    assert DecodeRune(t).1 >= 1;
  }

  lemma NoSpaces()
    ensures Spaces([])
  {
  }

  lemma OnlySpace(t: Text)
    requires SpaceAtFront(t) > 0
    ensures SpaceAtFront(t[..SpaceAtFront(t)]) == SpaceAtFront(t)
  {
  }

  lemma {:induction false} SpacesAppend(q: Text, last: Text)
    requires Spaces(q) && last != [] && SpaceAtFront(last) == |last|
    ensures Spaces(q + last)
    decreases |q|
  {
    hide DecodeRune;
    if q == [] {
      NoSpaces();
      SpacesCons(last, |last|, []);
      assert last + [] == last == q + last;
    } else {
      SpaceAtFrontReads(q);
      var w := DecodeRune(q).1;
      SpacesAppend(q[w..], last);
      OnlySpace(q);
      SpacesCons(q[..w], w, q[w..] + last);
      assert q[..w] + (q[w..] + last) == q + last;
    }
  }
}
