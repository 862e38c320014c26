/** The alphabet and grammar of one entity-ID segment, and the string passes that bring
    an arbitrary text into it: rune mapping, dash collapsing and trimming. */
module Segments {
  import opened Bytes
  import Utf8

  const DASH: Byte := 45
  const UNDERSCORE: Byte := 95

  predicate Alnum(r: int) {
    48 <= r <= 57 || 65 <= r <= 90 || 97 <= r <= 122
  }

  predicate Allowed(r: int) {
    Alnum(r) || r == DASH || r == UNDERSCORE
  }

  predicate AllAllowed(t: Text) {
    forall i :: 0 <= i < |t| ==> Allowed(t[i])
  }

  /** The segment grammar: an alphanumeric byte, then allowed bytes. */
  predicate Segment(t: Text) {
    t != [] && Alnum(t[0]) && AllAllowed(t)
  }

  /** No two hyphens stand side by side. */
  ghost predicate NoPair(t: Text) {
    forall i, j :: 0 <= i < j < |t| && j == i + 1 ==> t[i] != DASH || t[j] != DASH
  }

  /** Alphanumeric at both ends, or empty. */
  predicate Trimmed(t: Text) {
    t != [] ==> Alnum(t[0]) && Alnum(t[|t| - 1])
  }

  /** What mapping, collapsing and trimming together leave behind. */
  ghost predicate Clean(t: Text) {
    AllAllowed(t) && NoPair(t) && Trimmed(t)
  }

  // ---- mapping ----

  /** The byte written for a rune: itself when allowed, a hyphen otherwise. */
  function Written(r: nat): Byte {
    if Allowed(r) then r else DASH
  }

  /** Every rune outside the alphabet becomes one hyphen. */
  function Mapped(t: Text): Text
    decreases |t|
  {
    if t == [] then []
    else [Written(Utf8.DecodeRune(t).0)] + Mapped(t[Utf8.DecodeRune(t).1..])
  }

  lemma MappedStep(t: Text, i: nat, out: Text)
    requires i < |t|
    ensures var (r, w) := Utf8.DecodeRune(t[i..]);
            i + w <= |t| && out + Mapped(t[i..]) == out + [Written(r)] + Mapped(t[i + w..])
  {
    hide Utf8.DecodeRune, Written;
    var (r, w) := Utf8.DecodeRune(t[i..]);
    assert t[i..][w..] == t[i + w..];
    assert Mapped(t[i..]) == [Written(r)] + Mapped(t[i + w..]);
  }

  lemma MappedNothing()
    ensures Mapped([]) == []
  {
  }

  method MapRunes(t: Text) returns (out: Text)
    ensures out == Mapped(t)
  {
    hide Utf8.DecodeRune, Written, Mapped;
    out := [];
    var i := 0;
    assert t[i..] == t;
    while i < |t|
      invariant 0 <= i <= |t|
      invariant out + Mapped(t[i..]) == Mapped(t)
    {
      MappedStep(t, i, out);
      var (r, w) := Utf8.DecodeRune(t[i..]);
      out := out + [Written(r)];
      i := i + w;
    }
    MappedNothing();
    assert t[i..] == [];
    assert out + [] == out;
  }

  lemma {:induction false} MappedIsAllowed(t: Text)
    ensures AllAllowed(Mapped(t))
    ensures t != [] ==> Mapped(t) != []
    decreases |t|
  {
    hide Utf8.DecodeRune;
    if t != [] {
      MappedIsAllowed(t[Utf8.DecodeRune(t).1..]);
    }
  }

  /** Mapping changes a text exactly when some byte of it is outside the alphabet. */
  lemma {:induction false} MappedFixes(t: Text)
    ensures Mapped(t) == t <==> AllAllowed(t)
    decreases |t|
  {
    MappedIsAllowed(t);
    if t != [] && AllAllowed(t) {
      assert t[0] < 0x80;
      assert Utf8.DecodeRune(t) == (t[0] as int, 1);
      MappedFixes(t[1..]);
      assert t == [t[0]] + t[1..];
    }
  }

  lemma MappedAscii(c: Byte, rest: Text)
    requires c < 0x80
    ensures Mapped([c] + rest) == [Written(c)] + Mapped(rest)
    ensures Mapped([]) == []
  {
    var t := [c] + rest;
    assert Utf8.DecodeRune(t) == (c as nat, 1);
    assert t[1..] == rest;
  }

  /** A rune in front of an ASCII byte reads as it does alone. */
  lemma RuneBeforeAscii(x: Text, y: Text)
    requires x != [] && y != [] && y[0] < 0x80
    ensures Utf8.DecodeRune(x + y) == Utf8.DecodeRune(x)
  {
    var t := x + y;
    assert t[0] == x[0];
    assert forall i :: 0 <= i < |x| ==> t[i] == x[i];
    assert t[|x|] == y[0] && !Utf8.Continuation(t[|x|]);
    assert Utf8.Width(t) == Utf8.Width(x);
  }

  /** Mapping a text that goes on with an ASCII byte maps its two parts. */
  lemma {:induction false} MappedSplits(x: Text, y: Text)
    requires y != [] && y[0] < 0x80
    ensures Mapped(x + y) == Mapped(x) + Mapped(y)
    decreases |x|
  {
    hide Utf8.DecodeRune, Written;
    if x == [] {
      assert x + y == y;
    } else {
      RuneBeforeAscii(x, y);
      var w := Utf8.DecodeRune(x).1;
      assert (x + y)[w..] == x[w..] + y;
      MappedSplits(x[w..], y);
    }
  }

  // ---- collapsing ----

  /** One left-to-right pass replacing each non-overlapping pair of hyphens by one. */
  function ReplacePairs(t: Text): Text
    decreases |t|
  {
    if t == [] then []
    else if |t| >= 2 && t[0] == DASH && t[1] == DASH then [DASH] + ReplacePairs(t[2..])
    else [t[0]] + ReplacePairs(t[1..])
  }

  /** Every maximal run of hyphens becomes one hyphen, in one pass. */
  function Collapsed(t: Text): Text {
    if t == [] then []
    else if |t| >= 2 && t[0] == DASH && t[1] == DASH then Collapsed(t[1..])
    else [t[0]] + Collapsed(t[1..])
  }

  predicate HasPair(t: Text) {
    exists i :: 0 <= i < |t| - 1 && HasPrefix(t[i..], [DASH, DASH])
  }

  lemma PairOrNot(t: Text)
    ensures HasPair(t) <==> !NoPair(t)
  {
    if !NoPair(t) {
      var i, j :| 0 <= i < j < |t| && j == i + 1 && t[i] == DASH && t[j] == DASH;
      assert t[i..][..2] == [t[i], t[j]];
      assert HasPrefix(t[i..], [DASH, DASH]);
    }
    if HasPair(t) {
      var i :| 0 <= i < |t| - 1 && HasPrefix(t[i..], [DASH, DASH]);
      assert t[i] == t[i..][..2][0];
      assert t[i + 1] == t[i..][..2][1];
    }
  }

  /** The repeated replacement of "--" by "-". */
  method CollapseRuns(t: Text) returns (out: Text)
    ensures out == Collapsed(t)
  {
    out := t;
    while HasPair(out)
      invariant Collapsed(out) == Collapsed(t)
      decreases |out|
    {
      ReplaceKeepsRuns(out);
      PairOrNot(out);
      ReplaceShrinks(out);
      out := ReplacePairs(out);
    }
    PairOrNot(out);
    CollapsedFixes(out);
  }

  lemma {:induction false} ReplaceKeepsRuns(t: Text)
    ensures Collapsed(ReplacePairs(t)) == Collapsed(t)
    ensures ReplacePairs(t) != [] <==> t != []
    ensures t != [] ==> ReplacePairs(t)[0] == t[0]
    decreases |t|
  {
    if t == [] {
    } else if |t| >= 2 && t[0] == DASH && t[1] == DASH {
      var rest := t[2..];
      ReplaceKeepsRuns(rest);
      var out := ReplacePairs(t);
      assert out[1..] == ReplacePairs(rest);
      assert t[1..][1..] == rest;
      assert t[1..][0] == DASH;
      if rest != [] && rest[0] == DASH {
        assert Collapsed(t[1..]) == Collapsed(rest);
        assert Collapsed(out) == Collapsed(ReplacePairs(rest));
      } else {
        assert Collapsed(t[1..]) == [DASH] + Collapsed(rest);
        assert Collapsed(out) == [DASH] + Collapsed(ReplacePairs(rest));
      }
    } else {
      var rest := t[1..];
      ReplaceKeepsRuns(rest);
      var out := ReplacePairs(t);
      assert out[1..] == ReplacePairs(rest);
    }
  }

  lemma {:induction false} ReplaceShrinks(t: Text)
    ensures |ReplacePairs(t)| <= |t|
    ensures !NoPair(t) ==> |ReplacePairs(t)| < |t|
    decreases |t|
  {
    if t == [] {
    } else if |t| >= 2 && t[0] == DASH && t[1] == DASH {
      ReplaceShrinks(t[2..]);
    } else {
      ReplaceShrinks(t[1..]);
      if !NoPair(t) {
        var i, j :| 0 <= i < j < |t| && j == i + 1 && t[i] == DASH && t[j] == DASH;
        assert i > 0;
        assert t[1..][i - 1] == DASH && t[1..][j - 1] == DASH;
      }
    }
  }

  lemma {:induction false} CollapsedFixes(t: Text)
    requires NoPair(t)
    ensures Collapsed(t) == t
  {
    if t != [] {
      NoPairTail(t);
      CollapsedFixes(t[1..]);
      assert t == [t[0]] + t[1..];
    }
  }

  lemma NoPairTail(t: Text)
    requires NoPair(t) && t != []
    ensures NoPair(t[1..])
  {
    var u := t[1..];
    forall i, j | 0 <= i < j < |u| && j == i + 1 ensures u[i] != DASH || u[j] != DASH {
      assert u[i] == t[i + 1] && u[j] == t[j + 1];
    }
  }

  lemma {:induction false} CollapsedIsClean(t: Text)
    requires AllAllowed(t)
    ensures AllAllowed(Collapsed(t)) && NoPair(Collapsed(t))
    ensures Collapsed(t) != [] <==> t != []
    ensures t != [] ==> Collapsed(t)[0] == t[0]
  {
    if t != [] {
      var rest := t[1..];
      CollapsedIsClean(rest);
      var c := Collapsed(rest);
      if !(|t| >= 2 && t[0] == DASH && t[1] == DASH) {
        var out := [t[0]] + c;
        assert Collapsed(t) == out;
        forall i, j | 0 <= i < j < |out| && j == i + 1 ensures out[i] != DASH || out[j] != DASH {
          if i > 0 {
            assert out[i] == c[i - 1] && out[j] == c[j - 1];
          } else {
            assert out[j] == c[0] == rest[0] == t[1];
          }
        }
      }
    }
  }

  // ---- trimming ----

  function TrimLeft(t: Text): Text {
    if t != [] && !Alnum(t[0]) then TrimLeft(t[1..]) else t
  }

  function TrimRight(t: Text): Text {
    if t != [] && !Alnum(t[|t| - 1]) then TrimRight(t[..|t| - 1]) else t
  }

  function Trim(t: Text): Text {
    TrimRight(TrimLeft(t))
  }

  lemma {:induction false} TrimLeftIsSuffix(t: Text) returns (k: nat)
    ensures k <= |t| && TrimLeft(t) == t[k..]
    ensures k < |t| ==> Alnum(t[k])
    ensures forall i :: 0 <= i < k ==> !Alnum(t[i])
  {
    if t != [] && !Alnum(t[0]) {
      var m := TrimLeftIsSuffix(t[1..]);
      k := m + 1;
      assert t[1..][m..] == t[k..];
      assert m < |t[1..]| ==> t[1..][m] == t[k];
      forall i | 0 <= i < k ensures !Alnum(t[i]) {
        if i > 0 {
          assert t[i] == t[1..][i - 1];
        }
      }
    } else {
      k := 0;
      assert t[0..] == t;
    }
  }

  lemma {:induction false} TrimRightIsPrefix(t: Text) returns (k: nat)
    ensures k <= |t| && TrimRight(t) == t[..k]
    ensures k > 0 ==> Alnum(t[k - 1])
    ensures forall i :: k <= i < |t| ==> !Alnum(t[i])
  {
    if t != [] && !Alnum(t[|t| - 1]) {
      var u := t[..|t| - 1];
      k := TrimRightIsPrefix(u);
      assert u[..k] == t[..k];
      assert k > 0 ==> u[k - 1] == t[k - 1];
      forall i | k <= i < |t| ensures !Alnum(t[i]) {
        if i < |u| {
          assert t[i] == u[i];
        }
      }
    } else {
      k := |t|;
      assert t[..k] == t;
    }
  }

  lemma TrimIsClean(t: Text)
    requires AllAllowed(t) && NoPair(t)
    ensures Clean(Trim(t))
  {
    var a := TrimLeftIsSuffix(t);
    var u := t[a..];
    var b := TrimRightIsPrefix(u);
    var v := u[..b];
    SliceKeeps(t, a, a + b);
    assert v == t[a..a + b];
    if v != [] {
      assert v[0] == u[0] == t[a];
      assert v[|v| - 1] == u[b - 1];
    }
  }

  lemma TrimFixes(t: Text)
    requires Trimmed(t)
    ensures Trim(t) == t
  {
  }

  /** Any slice of allowed, pair-free text is allowed and pair-free. */
  lemma SliceKeeps(t: Text, lo: nat, hi: nat)
    requires AllAllowed(t) && lo <= hi <= |t|
    ensures AllAllowed(t[lo..hi])
    ensures NoPair(t) ==> NoPair(t[lo..hi])
  {
    var u := t[lo..hi];
    forall i | 0 <= i < |u| ensures Allowed(u[i]) {
      assert u[i] == t[lo + i];
    }
    if NoPair(t) {
      forall i, j | 0 <= i < j < |u| && j == i + 1 ensures u[i] != DASH || u[j] != DASH {
        assert u[i] == t[lo + i] && u[j] == t[lo + j];
      }
    }
  }

  // ---- the three passes together ----

  function Slug(t: Text): Text {
    Trim(Collapsed(Mapped(t)))
  }

  lemma SlugIsClean(t: Text)
    ensures Clean(Slug(t))
  {
    MappedIsAllowed(t);
    CollapsedIsClean(Mapped(t));
    TrimIsClean(Collapsed(Mapped(t)));
  }

  /** The clean texts are exactly the ones the three passes leave alone. */
  lemma SlugFixes(t: Text)
    ensures Slug(t) == t <==> Clean(t)
  {
    SlugIsClean(t);
    if Clean(t) {
      MappedFixes(t);
      CollapsedFixes(t);
      TrimFixes(t);
    }
  }

  /** Hexadecimal digits in lower case. */
  predicate Hex(t: Text) {
    forall i :: 0 <= i < |t| ==> 48 <= t[i] <= 57 || 97 <= t[i] <= 102
  }

  lemma HexIsClean(t: Text)
    requires Hex(t)
    ensures Clean(t)
  {
  }

  /** Joining two non-empty texts that meet in alphanumerics with one hyphen keeps the
      alphabet; it keeps pair-freedom when both parts had it. */
  lemma JoinKeeps(a: Text, b: Text)
    requires AllAllowed(a) && AllAllowed(b) && a != [] && b != [] && Alnum(b[0])
    ensures AllAllowed(a + [DASH] + b)
    ensures NoPair(a) && NoPair(b) && a[|a| - 1] != DASH ==> NoPair(a + [DASH] + b)
  {
    var c := a + [DASH] + b;
    forall i | 0 <= i < |c| ensures Allowed(c[i]) {
      if i < |a| {
        assert c[i] == a[i];
      } else if i > |a| {
        assert c[i] == b[i - |a| - 1];
      }
    }
    if NoPair(a) && NoPair(b) && a[|a| - 1] != DASH {
      forall i, j | 0 <= i < j < |c| && j == i + 1 ensures c[i] != DASH || c[j] != DASH {
        if j < |a| {
          assert c[i] == a[i] && c[j] == a[j];
        } else if i > |a| {
          assert c[i] == b[i - |a| - 1] && c[j] == b[j - |a| - 1];
        }
      }
    }
  }

  /** The longest part of the front of `t`, at most `room` bytes, that ends in a letter or a
      digit: `k` is its length, 0 if there is none. */
  ghost predicate LongestFront(t: Text, room: int, k: nat) {
    && k <= |t| && (k > 0 ==> k <= room && Alnum(t[k - 1]))
    && forall i :: k <= i < room && i < |t| ==> !Alnum(t[i])
  }

  lemma {:induction false} TrimRightIsLongest(t: Text, k: nat)
    requires LongestFront(t, |t|, k)
    ensures k <= |t| && TrimRight(t) == t[..k]
    decreases |t|
  {
    if t != [] && !Alnum(t[|t| - 1]) {
      var u := t[..|t| - 1];
      TrimRightIsLongest(u, k);
      assert u[..k] == t[..k];
    } else {
      assert k == |t|;
    }
  }

  /** Such a front is always to be had, and only one. */
  lemma {:induction false} FindFront(t: Text, room: int) returns (k: nat)
    ensures LongestFront(t, room, k)
    ensures forall j :: LongestFront(t, room, j) ==> j == k
    decreases if room > 0 then room else 0
  {
    if room <= 0 {
      k := 0;
    } else if room <= |t| && Alnum(t[room - 1]) {
      k := room;
    } else {
      k := FindFront(t, room - 1);
    }
  }
}
