/** Bytewise order of texts, and sorting by a key of that kind. */
module Ordering {
  import opened Bytes

  predicate Below(a: Text, b: Text) {
    b != [] && (a == [] || a[0] < b[0] || (a[0] == b[0] && Below(a[1..], b[1..])))
  }

  /** The texts agree up to `k`, and there the first ends or has the lesser byte. */
  predicate PartsAt(a: Text, b: Text, k: nat) {
    && k <= |a| && k < |b| && a[..k] == b[..k] && (k == |a| || a[k] < b[k])
  }

  lemma AgreesInFront(a: Text, b: Text, k: nat)
    requires PartsAt(a, b, k)
    ensures k > 0 ==> a[0] == b[0]
  {
    if k > 0 {
      assert a[0] == a[..k][0] == b[..k][0] == b[0];
    }
  }

  lemma {:induction false} BelowExactly(a: Text, b: Text)
    ensures Below(a, b) <==> exists k: nat :: PartsAt(a, b, k)
  {
    if a == [] || b == [] || a[0] != b[0] {
      if Below(a, b) {
        assert PartsAt(a, b, 0);
      }
      if k: nat :| PartsAt(a, b, k) {
        AgreesInFront(a, b, k);
      }
    } else {
      BelowExactly(a[1..], b[1..]);
      if k: nat :| PartsAt(a[1..], b[1..], k) {
        assert a[..k + 1] == [a[0]] + a[1..][..k] && b[..k + 1] == [b[0]] + b[1..][..k];
        assert PartsAt(a, b, k + 1);
      }
      if k: nat :| PartsAt(a, b, k) {
        assert a[1..][..k - 1] == a[..k][1..] && b[1..][..k - 1] == b[..k][1..];
        assert PartsAt(a[1..], b[1..], k - 1);
      }
    }
  }

  lemma {:induction false} BelowIsTotal(a: Text, b: Text)
    ensures Below(a, b) || Below(b, a) || a == b
    ensures !(Below(a, b) && Below(b, a)) && (Below(a, b) ==> a != b)
  {
    if a != [] && b != [] && a[0] == b[0] {
      BelowIsTotal(a[1..], b[1..]);
      assert a == [a[0]] + a[1..] && b == [b[0]] + b[1..];
    }
  }

  lemma {:induction false} BelowIsTransitive(a: Text, b: Text, c: Text)
    requires Below(a, b) && Below(b, c)
    ensures Below(a, c)
  {
    if a != [] && a[0] == b[0] == c[0] {
      BelowIsTransitive(a[1..], b[1..], c[1..]);
    }
  }

  /** Strictly rising, so without repeats. */
  predicate Ascending(s: seq<Text>) {
    forall i, j :: 0 <= i < j < |s| ==> Below(s[i], s[j])
  }

  ghost predicate AllAbove(s: seq<Text>, low: Text) {
    forall x :: x in s ==> Below(low, x)
  }

  function Elements(s: seq<Text>): set<Text> {
    set x | x in s
  }

  function Insert(x: Text, s: seq<Text>): seq<Text> {
    if s == [] || Below(x, s[0]) then [x] + s else [s[0]] + Insert(x, s[1..])
  }

  function Sort(s: seq<Text>): seq<Text> {
    if s == [] then [] else Insert(s[0], Sort(s[1..]))
  }

  lemma AscendingParts(s: seq<Text>)
    requires s != []
    ensures Ascending(s) <==> AllAbove(s[1..], s[0]) && Ascending(s[1..])
  {
    var rest := s[1..];
    if Ascending(s) {
      forall x | x in rest ensures Below(s[0], x) {
        var k :| 0 <= k < |rest| && rest[k] == x;
        assert s[k + 1] == x;
      }
    }
    if AllAbove(rest, s[0]) && Ascending(rest) {
      forall i, j | 0 <= i < j < |s| ensures Below(s[i], s[j]) {
        assert s[j] == rest[j - 1] && s[j] in rest;
        if i > 0 {
          assert s[i] == rest[i - 1];
        }
      }
    }
  }

  lemma {:induction false} InsertElements(x: Text, s: seq<Text>)
    ensures Elements(Insert(x, s)) == Elements(s) + {x}
    ensures |Insert(x, s)| == |s| + 1
  {
    if s != [] && !Below(x, s[0]) {
      InsertElements(x, s[1..]);
      assert s == [s[0]] + s[1..];
      assert Elements(s) == {s[0]} + Elements(s[1..]);
      assert Elements(Insert(x, s)) == {s[0]} + Elements(Insert(x, s[1..]));
    } else {
      assert Elements([x] + s) == {x} + Elements(s);
    }
  }

  lemma {:induction false} InsertKeepsOrder(x: Text, s: seq<Text>)
    requires Ascending(s) && x !in s
    ensures Ascending(Insert(x, s))
  {
    var out := Insert(x, s);
    if s == [] {
    } else if Below(x, s[0]) {
      AscendingParts(s);
      assert out[1..] == s;
      assert s == [s[0]] + s[1..];
      forall y | y in s ensures Below(x, y) {
        if y != s[0] {
          BelowIsTransitive(x, s[0], y);
        }
      }
      AscendingParts(out);
    } else {
      var rest := s[1..];
      AscendingParts(s);
      assert s == [s[0]] + rest;
      InsertKeepsOrder(x, rest);
      InsertElements(x, rest);
      BelowIsTotal(x, s[0]);
      assert out[1..] == Insert(x, rest);
      forall y | y in out[1..] ensures Below(s[0], y) {
        assert y in Elements(out[1..]);
      }
      AscendingParts(out);
    }
  }

  /** Sorting texts without repeats puts the same texts in strict order. */
  lemma {:induction false} SortSorts(s: seq<Text>)
    requires forall i, j :: 0 <= i < j < |s| ==> s[i] != s[j]
    ensures Ascending(Sort(s)) && Elements(Sort(s)) == Elements(s) && |Sort(s)| == |s|
  {
    if s != [] {
      var rest := s[1..];
      SortSorts(rest);
      assert s == [s[0]] + rest;
      assert s[0] !in rest;
      assert s[0] !in Elements(Sort(rest));
      InsertKeepsOrder(s[0], Sort(rest));
      InsertElements(s[0], Sort(rest));
      assert Elements(s) == {s[0]} + Elements(rest);
    }
  }

  lemma NoElements(s: seq<Text>)
    ensures Elements(s) == {} <==> s == []
  {
    if s != [] {
      assert s[0] in Elements(s);
    }
  }

  lemma {:induction false} AscendingSize(s: seq<Text>)
    requires Ascending(s)
    ensures |Elements(s)| == |s|
  {
    if s != [] {
      AscendingParts(s);
      AscendingSize(s[1..]);
      BelowIsTotal(s[0], s[0]);
      assert s == [s[0]] + s[1..];
      assert Elements(s) == {s[0]} + Elements(s[1..]);
      assert s[0] !in Elements(s[1..]);
    }
  }

  /** Two strictly rising lists of the same texts are the same list: a sorted result does
      not depend on the order in which its elements were met. */
  lemma {:induction false} AscendingIsUnique(a: seq<Text>, b: seq<Text>)
    requires Ascending(a) && Ascending(b) && Elements(a) == Elements(b)
    ensures a == b
  {
    NoElements(a);
    NoElements(b);
    if a != [] {
      assert a[0] in Elements(b);
      AscendingParts(a);
      AscendingParts(b);
      assert a == [a[0]] + a[1..] && b == [b[0]] + b[1..];
      assert b[0] in Elements(a);
      BelowIsTotal(a[0], b[0]);
      assert a[0] == b[0];
      BelowIsTotal(a[0], a[0]);
      assert Elements(a) == {a[0]} + Elements(a[1..]);
      assert Elements(b) == {b[0]} + Elements(b[1..]);
      assert Elements(a[1..]) == Elements(b[1..]);
      AscendingIsUnique(a[1..], b[1..]);
    }
  }

  // ---- lists that may repeat ----

  ghost predicate NoneBelow(s: seq<Text>, low: Text) {
    forall x :: x in s ==> !Below(x, low)
  }

  ghost predicate Rising(s: seq<Text>) {
    forall i, j :: 0 <= i < j < |s| ==> !Below(s[j], s[i])
  }

  lemma RisingParts(s: seq<Text>)
    requires s != []
    ensures Rising(s) <==> NoneBelow(s[1..], s[0]) && Rising(s[1..])
  {
    var rest := s[1..];
    if Rising(s) {
      forall x | x in rest ensures !Below(x, s[0]) {
        var k :| 0 <= k < |rest| && rest[k] == x;
        assert s[k + 1] == x;
      }
    }
    if NoneBelow(rest, s[0]) && Rising(rest) {
      forall i, j | 0 <= i < j < |s| ensures !Below(s[j], s[i]) {
        assert s[j] == rest[j - 1] && s[j] in rest;
        if i > 0 {
          assert s[i] == rest[i - 1];
        }
      }
    }
  }

  lemma {:induction false} InsertKeepsRising(x: Text, s: seq<Text>)
    requires Rising(s)
    ensures Rising(Insert(x, s))
  {
    var out := Insert(x, s);
    if s == [] {
    } else if Below(x, s[0]) {
      RisingParts(s);
      assert out[1..] == s;
      assert s == [s[0]] + s[1..];
      var front := s[0];
      forall y | y in s ensures !Below(y, x) {
        BelowIsTotal(y, front);
        assert !Below(y, front);
        if Below(y, x) {
          BelowIsTransitive(y, x, front);
        }
      }
      RisingParts(out);
    } else {
      var rest := s[1..];
      RisingParts(s);
      InsertKeepsRising(x, rest);
      InsertElements(x, rest);
      assert out[1..] == Insert(x, rest);
      forall y | y in out[1..] ensures !Below(y, s[0]) {
        assert y in Elements(out[1..]);
      }
      RisingParts(out);
    }
  }

  lemma {:induction false} SortRises(s: seq<Text>)
    ensures Rising(Sort(s)) && Elements(Sort(s)) == Elements(s)
  {
    if s != [] {
      SortRises(s[1..]);
      assert s == [s[0]] + s[1..];
      InsertKeepsRising(s[0], Sort(s[1..]));
      InsertElements(s[0], Sort(s[1..]));
      assert Elements(s) == {s[0]} + Elements(s[1..]);
    }
  }
}
