/** Whole entity identities: {org}.{platform}.{system}.{domain}.{type}.{instance}. */
module Identity {
  import opened Bytes
  import opened Segments
  import opened EntityId
  import Utf8

  const MAX_ENTITY_ID := 256
  const MAX_DOMAIN := 10
  const MAX_TYPE := 12
  const MAX_AUTHORITY_PAIR := MAX_ENTITY_ID - MAX_SYSTEM_SLUG - MAX_DOMAIN - MAX_TYPE - 5 - SHORT_HASH

  /** Every dot-separated part is a segment. */
  predicate DottedSegments(t: Text)
    decreases |t|
  {
    var i := IndexOf(t, DOT);
    Segment(t[..i]) && (i < |t| ==> DottedSegments(t[i + 1..]))
  }

  datatype Authority = Authority(org: Text, platform: Text) {
    predicate Valid() {
      && DOT !in org && DOT !in platform
      && DottedSegments(org + [DOT] + platform)
      && |org| + |platform| <= MAX_AUTHORITY_PAIR
    }
  }

  /** The five segments before the instance. */
  datatype Stem = Stem(authority: Authority, system: Text, domain: Text, kind: Text) {
    function Fixed(): seq<Text> {
      [authority.org, authority.platform, system, domain, kind]
    }

    function Length(): nat {
      |authority.org| + |authority.platform| + |system| + |domain| + |kind| + 5
    }

    predicate WithinCaps() {
      |system| <= MAX_SYSTEM_SLUG && |domain| <= MAX_DOMAIN && |kind| <= MAX_TYPE
    }
  }

  function Dotted(parts: seq<Text>): Text {
    if parts == [] then []
    else if |parts| == 1 then parts[0]
    else parts[0] + [DOT] + Dotted(parts[1..])
  }

  function Whole(stem: Stem, instance: Text): Text {
    Dotted(stem.Fixed() + [instance])
  }

  function BoundInstance(d: Digest, prefixLen: nat, instance: Text): Text
    requires prefixLen + |instance| > MAX_ENTITY_ID
  {
    var suffix := ShortHash(d, instance);
    var budget := MAX_ENTITY_ID - prefixLen;
    if budget < |suffix| + 2 then suffix
    else
      var kept := TrimRight(instance[..budget - |suffix| - 1]);
      if kept == [] then suffix else kept + [DASH] + suffix
  }

  /** The instance as it stands in the assembled identity. */
  function Leaf(d: Digest, stem: Stem, instance: Text): Text {
    if stem.Length() + |instance| <= MAX_ENTITY_ID then instance
    else BoundInstance(d, stem.Length(), instance)
  }

  function Build(d: Digest, stem: Stem, instance: Text): Text {
    var id := Whole(stem, instance);
    WholeLength(stem, instance);
    if |id| <= MAX_ENTITY_ID then id
    else Whole(stem, BoundInstance(d, |id| - |instance|, instance))
  }

  /** At most `n` dot-separated parts of `t`, the last one unsplit. */
  function SplitN(t: Text, n: nat): (parts: seq<Text>)
    requires n >= 1
    ensures 1 <= |parts| <= n
  {
    var i := IndexOf(t, DOT);
    if n == 1 || i == |t| then [t] else [t[..i]] + SplitN(t[i + 1..], n - 1)
  }

  /** Domain and entity type of an identity. */
  function Parts(id: Text): (Text, Text) {
    var parts := SplitN(id, 6);
    if |parts| < 6 then ([], []) else (parts[3], parts[4])
  }

  /** The first dot-separated part, or nothing when there is no dot. */
  function OrgFromID(id: Text): Text {
    var i := IndexOf(id, DOT);
    if i == |id| then [] else id[..i]
  }

  /** The rune-by-rune search for the first dot. */
  method FindOrg(id: Text) returns (org: Text)
    ensures org == OrgFromID(id)
  {
    hide Utf8.DecodeRune;
    var i := 0;
    assert id[i..] == id;
    while i < |id|
      invariant 0 <= i <= |id|
      invariant IndexOf(id, DOT) == i + IndexOf(id[i..], DOT)
    {
      var (r, w) := Utf8.DecodeRune(id[i..]);
      RuneSkip(id[i..], DOT);
      if r == DOT {
        return id[..i];
      }
      assert id[i..][w..] == id[i + w..];
      i := i + w;
    }
    return [];
  }

  /** Decoding a rune skips no ASCII byte but the one it yields. */
  lemma RuneSkip(t: Text, c: Byte)
    requires t != [] && c < 0x80
    ensures var (r, w) := Utf8.DecodeRune(t);
            if r == c then IndexOf(t, c) == 0 else IndexOf(t, c) == w + IndexOf(t[w..], c)
  {
    var (r, w) := Utf8.DecodeRune(t);
    if t[0] < 0x80 {
      assert w == 1 && r == t[0];
    } else {
      assert r >= 0x80;
      assert forall i :: 1 <= i < w ==> t[i] >= 0x80;
      IndexSkips(t, w, c);
    }
  }

  lemma {:induction false} IndexSkips(t: Text, w: nat, c: Byte)
    requires w <= |t| && forall i :: 0 <= i < w ==> t[i] != c
    ensures IndexOf(t, c) == w + IndexOf(t[w..], c)
  {
    if w > 0 {
      IndexSkips(t[1..], w - 1, c);
      assert t[1..][w - 1..] == t[w..];
    } else {
      assert t[w..] == t;
    }
  }

  // ---- authority ----

  /** Checking the joined pair checks each half. */
  lemma AuthorityHalves(a: Authority)
    ensures a.Valid() <==> Segment(a.org) && Segment(a.platform)
                           && |a.org| + |a.platform| <= 141
  {
    if DOT !in a.org && DOT !in a.platform {
      FirstDot(a.org, a.platform);
      NoDot(a.platform);
      var t := a.org + [DOT] + a.platform;
      assert t[..|a.org|] == a.org && t[|a.org| + 1..] == a.platform;
      assert a.platform[..|a.platform|] == a.platform;
      assert DottedSegments(a.platform) <==> Segment(a.platform);
      assert DottedSegments(t) <==> Segment(a.org) && DottedSegments(a.platform);
    }
  }

  lemma {:induction false} NoDot(t: Text)
    requires DOT !in t
    ensures IndexOf(t, DOT) == |t|
  {
    if t != [] {
      NoDot(t[1..]);
    }
  }

  lemma FirstDot(a: Text, b: Text)
    requires DOT !in a
    ensures IndexOf(a + [DOT] + b, DOT) == |a|
  {
    var t := a + [DOT] + b;
    forall i | 0 <= i < |a| ensures t[i] != DOT {
      assert t[i] == a[i];
    }
    IndexSkips(t, |a|, DOT);
    assert t[|a|..][0] == DOT;
  }

  // ---- size ----

  lemma {:induction false} DottedLength(parts: seq<Text>)
    requires parts != []
    ensures |Dotted(parts)| == TotalLength(parts) + |parts| - 1
  {
    if |parts| > 1 {
      DottedLength(parts[1..]);
    }
  }

  function TotalLength(parts: seq<Text>): nat {
    if parts == [] then 0 else |parts[0]| + TotalLength(parts[1..])
  }

  lemma SixLengths(parts: seq<Text>)
    requires |parts| == 6
    ensures TotalLength(parts)
         == |parts[0]| + |parts[1]| + |parts[2]| + |parts[3]| + |parts[4]| + |parts[5]|
  {
    var p1 := parts[1..];
    var p2 := p1[1..];
    var p3 := p2[1..];
    var p4 := p3[1..];
    var p5 := p4[1..];
    assert TotalLength(p5) == |p5[0]| + TotalLength(p5[1..]) == |p5[0]|;
    assert TotalLength(p4) == |p4[0]| + TotalLength(p5);
    assert TotalLength(p3) == |p3[0]| + TotalLength(p4);
    assert TotalLength(p2) == |p2[0]| + TotalLength(p3);
  }

  lemma WholeLength(stem: Stem, instance: Text)
    ensures |Whole(stem, instance)| == stem.Length() + |instance|
  {
    var parts := stem.Fixed() + [instance];
    DottedLength(parts);
    SixLengths(parts);
  }

  lemma BuildIsWhole(d: Digest, stem: Stem, instance: Text)
    ensures Build(d, stem, instance) == Whole(stem, Leaf(d, stem, instance))
  {
    WholeLength(stem, instance);
  }

  lemma BoundInstanceFits(d: Digest, prefixLen: nat, instance: Text)
    requires prefixLen + |instance| > MAX_ENTITY_ID
    ensures var r := BoundInstance(d, prefixLen, instance);
            && (prefixLen + |r| <= MAX_ENTITY_ID <==> prefixLen <= MAX_ENTITY_ID - SHORT_HASH)
            && |r| >= SHORT_HASH && r[|r| - SHORT_HASH..] == ShortHash(d, instance)
  {
    hide Hex;
    var suffix := ShortHash(d, instance);
    var budget := MAX_ENTITY_ID - prefixLen;
    if budget >= |suffix| + 2 {
      var cut := instance[..budget - |suffix| - 1];
      var k := TrimRightIsPrefix(cut);
      var r := cut[..k] + [DASH] + suffix;
      assert r[|r| - SHORT_HASH..] == suffix;
    }
  }

  /** A bounded instance is the longest front that leaves room for a hyphen and the hash and
      ends in a letter or digit, the hyphen, and the hash of the whole; or the hash alone if
      there is no such front. */
  lemma BoundInstanceExactly(d: Digest, prefixLen: nat, instance: Text, k: nat)
    requires prefixLen + |instance| > 256 && LongestFront(instance, 256 - prefixLen - 9, k)
    ensures BoundInstance(d, prefixLen, instance)
         == if k == 0 then d(instance)[..8] else instance[..k] + [45] + d(instance)[..8]
  {
    var room := 256 - prefixLen - 9;
    if room >= 1 {
      var cut := instance[..room];
      assert forall i :: 0 <= i < room ==> cut[i] == instance[i];
      TrimRightIsLongest(cut, k);
      assert cut[..k] == instance[..k];
    }
  }

  /** So the last part of an identity that would not have fitted is. */
  lemma BuildBoundsExactly(d: Digest, stem: Stem, instance: Text, k: nat)
    requires DotFree(stem) && LongestFront(instance, 256 - stem.Length() - 9, k)
    ensures SplitN(Build(d, stem, instance), 6)
         == [stem.authority.org, stem.authority.platform, stem.system, stem.domain, stem.kind,
             if stem.Length() + |instance| <= 256 then instance
             else if k == 0 then d(instance)[..8]
             else instance[..k] + [45] + d(instance)[..8]]
  {
    hide Build, SplitN, BoundInstance, LongestFront;
    BuildSplits(d, stem, instance);
    if stem.Length() + |instance| > 256 {
      BoundInstanceExactly(d, stem.Length(), instance, k);
    }
  }

  /** An identity fits exactly when it fitted unbounded or its first five segments leave
      room for the short hash; one that fitted is not rewritten. */
  lemma BuildFitsOnlyWhen(d: Digest, stem: Stem, instance: Text)
    ensures var id, whole := Build(d, stem, instance), Whole(stem, instance);
            && (|whole| <= MAX_ENTITY_ID ==> id == whole)
            && (|id| <= MAX_ENTITY_ID
                <==> |whole| <= MAX_ENTITY_ID || |whole| - |instance| <= MAX_ENTITY_ID - SHORT_HASH)
  {
    hide Whole, BoundInstance, Hex;
    WholeLength(stem, instance);
    if stem.Length() + |instance| > MAX_ENTITY_ID {
      BoundInstanceFits(d, stem.Length(), instance);
      WholeLength(stem, BoundInstance(d, stem.Length(), instance));
    }
  }

  /** Under a valid authority, with system, domain and type inside their caps, every
      instance gives an identity that fits, rewritten only if it would not have. */
  lemma BuildFits(d: Digest, stem: Stem, instance: Text)
    requires stem.authority.Valid() && stem.WithinCaps()
    ensures var id, whole := Build(d, stem, instance), Whole(stem, instance);
            |id| <= MAX_ENTITY_ID && (id == whole <==> |whole| <= MAX_ENTITY_ID)
  {
    hide DottedSegments, Whole, Build;
    WholeLength(stem, instance);
    BuildFitsOnlyWhen(d, stem, instance);
  }

  // ---- shape ----

  lemma BoundInstanceIsSegment(d: Digest, prefixLen: nat, instance: Text)
    requires prefixLen + |instance| > MAX_ENTITY_ID
    requires Segment(instance)
    ensures Segment(BoundInstance(d, prefixLen, instance))
  {
    hide Hex, AllAllowed, Clean, Trimmed, NoPair, Alnum;
    var suffix := ShortHash(d, instance);
    ShortHashIsClean(d, instance);
    var budget := MAX_ENTITY_ID - prefixLen;
    if budget >= |suffix| + 2 {
      var n := budget - |suffix| - 1;
      var cut := instance[..n];
      var k := TrimRightIsPrefix(cut);
      assert cut[0] == instance[0];
      var kept := cut[..k];
      assert kept == instance[0..k];
      SliceKeeps(instance, 0, k);
      assert kept[0] == instance[0];
      JoinKeeps(kept, suffix);
      assert (kept + [DASH] + suffix)[0] == kept[0];
    }
  }

  lemma LeafIsSegment(d: Digest, stem: Stem, instance: Text)
    requires Segment(instance)
    ensures Segment(Leaf(d, stem, instance))
  {
    if stem.Length() + |instance| > MAX_ENTITY_ID {
      BoundInstanceIsSegment(d, stem.Length(), instance);
    }
  }

  /** Splitting what was joined gives the parts back; only the last may hold dots. */
  lemma {:induction false} SplitDotted(parts: seq<Text>)
    requires parts != []
    requires forall i :: 0 <= i < |parts| - 1 ==> DOT !in parts[i]
    ensures SplitN(Dotted(parts), |parts|) == parts
  {
    if |parts| > 1 {
      var rest := parts[1..];
      forall i | 0 <= i < |rest| - 1 ensures DOT !in rest[i] {
        assert rest[i] == parts[i + 1];
      }
      SplitDotted(rest);
      FirstDot(parts[0], Dotted(rest));
      var t := Dotted(parts);
      assert t[..|parts[0]|] == parts[0] && t[|parts[0]| + 1..] == Dotted(rest);
    }
  }

  predicate DotFree(stem: Stem) {
    forall i :: 0 <= i < 5 ==> DOT !in stem.Fixed()[i]
  }

  lemma {:induction false} BuildSplits(d: Digest, stem: Stem, instance: Text)
    requires DotFree(stem)
    ensures SplitN(Build(d, stem, instance), 6) == stem.Fixed() + [Leaf(d, stem, instance)]
  {
    hide Leaf, Build;
    BuildIsWhole(d, stem, instance);
    var parts := stem.Fixed() + [Leaf(d, stem, instance)];
    forall i | 0 <= i < |parts| - 1 ensures DOT !in parts[i] {
      assert parts[i] == stem.Fixed()[i];
    }
    SplitDotted(parts);
  }

  /** Domain, type and org are read back from the identity even when its instance was
      bounded, whatever bytes the instance holds. */
  lemma PartsRecovered(d: Digest, stem: Stem, instance: Text)
    requires DotFree(stem)
    ensures var id := Build(d, stem, instance);
            Parts(id) == (stem.domain, stem.kind) && OrgFromID(id) == stem.authority.org
  {
    hide Leaf, Build;
    BuildSplits(d, stem, instance);
    BuildIsWhole(d, stem, instance);
    var parts := stem.Fixed() + [Leaf(d, stem, instance)];
    var id := Build(d, stem, instance);
    assert parts[3] == stem.Fixed()[3] && parts[4] == stem.Fixed()[4] && parts[0] == stem.Fixed()[0];
    assert id == parts[0] + [DOT] + Dotted(parts[1..]);
    FirstDot(parts[0], Dotted(parts[1..]));
    assert id[..|parts[0]|] == parts[0];
  }

  predicate SixSegments(id: Text) {
    var parts := SplitN(id, 6);
    |parts| == 6 && forall i :: 0 <= i < 6 ==> Segment(parts[i])
  }

  /** Six valid segments go in, six come out. */
  lemma BuildKeepsGrammar(d: Digest, stem: Stem, instance: Text)
    requires forall i :: 0 <= i < 5 ==> Segment(stem.Fixed()[i])
    requires Segment(instance)
    ensures SixSegments(Build(d, stem, instance))
  {
    hide Build, Leaf, SplitN, AllAllowed;
    forall i | 0 <= i < 5 ensures DOT !in stem.Fixed()[i] {
      SegmentHasNoDot(stem.Fixed()[i]);
    }
    BuildSplits(d, stem, instance);
    LeafIsSegment(d, stem, instance);
    var parts := stem.Fixed() + [Leaf(d, stem, instance)];
    forall i | 0 <= i < 6 ensures Segment(parts[i]) {
      if i < 5 {
        assert parts[i] == stem.Fixed()[i];
      }
    }
  }

  lemma SegmentHasNoDot(t: Text)
    requires Segment(t)
    ensures DOT !in t
  {
  }

  /** Equal identities come from equal stems, and from instances that are equal, or share
      a short hash, or of which one was kept and ends in the other's hash. */
  lemma BuildCollision(d: Digest, stem: Stem, stem': Stem, a: Text, b: Text)
    requires DotFree(stem) && DotFree(stem')
    requires Build(d, stem, a) == Build(d, stem', b)
    ensures stem == stem'
    ensures stem.Length() + |a| <= MAX_ENTITY_ID && stem.Length() + |b| <= MAX_ENTITY_ID ==> a == b
    ensures stem.Length() + |a| > MAX_ENTITY_ID && stem.Length() + |b| > MAX_ENTITY_ID
            ==> ShortHash(d, a) == ShortHash(d, b)
    ensures stem.Length() + |a| <= MAX_ENTITY_ID && stem.Length() + |b| > MAX_ENTITY_ID
            ==> |a| >= SHORT_HASH && a[|a| - SHORT_HASH..] == ShortHash(d, b)
  {
    hide Build, BoundInstance, SplitN, Hex;
    BuildSplits(d, stem, a);
    BuildSplits(d, stem', b);
    var p, q := stem.Fixed() + [Leaf(d, stem, a)], stem'.Fixed() + [Leaf(d, stem', b)];
    assert p == q;
    assert stem.Fixed() == p[..5] && stem'.Fixed() == q[..5];
    assert p[5] == Leaf(d, stem, a) && q[5] == Leaf(d, stem', b);
    SameFixed(stem, stem');
    if stem.Length() + |a| > MAX_ENTITY_ID {
      BoundInstanceFits(d, stem.Length(), a);
    }
    if stem.Length() + |b| > MAX_ENTITY_ID {
      BoundInstanceFits(d, stem.Length(), b);
    }
  }

  lemma SameFixed(x: Stem, y: Stem)
    requires x.Fixed() == y.Fixed()
    ensures x == y
  {
    var p, q := x.Fixed(), y.Fixed();
    assert p[0] == q[0] && p[1] == q[1] && p[2] == q[2] && p[3] == q[3] && p[4] == q[4];
  }

  // ---- NATS keys ----

  predicate ForbiddenRune(r: int) {
    r in {32, 42, 47, 62, 92} || r < 0x21 || r > 0x7E
  }

  predicate ValidKey(id: Text) {
    id != [] && forall i :: 0 <= i < |id| ==> !ForbiddenRune(id[i])
  }

  /** The printable characters but space, asterisk, slash, greater-than and backslash. */
  lemma ValidKeyExactly(id: Text)
    ensures ValidKey(id) <==>
              id != [] && forall i :: 0 <= i < |id| ==>
                33 <= id[i] < 42 || 43 <= id[i] < 47 || 48 <= id[i] < 62 || 63 <= id[i] < 92 || 93 <= id[i] < 127
  {
  }

  /** The rune-by-rune key check accepts exactly the keys of printable, unreserved bytes. */
  method CheckKey(id: Text) returns (ok: bool)
    ensures ok <==> ValidKey(id)
  {
    hide Utf8.DecodeRune;
    if id == [] {
      return false;
    }
    var i := 0;
    while i < |id|
      invariant 0 <= i <= |id|
      invariant forall k :: 0 <= k < i ==> !ForbiddenRune(id[k])
    {
      var (r, w) := Utf8.DecodeRune(id[i..]);
      RuneOfByte(id[i..]);
      assert id[i..][0] == id[i];
      if ForbiddenRune(r) {
        return false;
      }
      i := i + w;
    }
    return true;
  }

  lemma RuneOfByte(t: Text)
    requires t != []
    ensures ForbiddenRune(Utf8.DecodeRune(t).0) <==> ForbiddenRune(t[0])
    ensures !ForbiddenRune(t[0]) ==> Utf8.DecodeRune(t).1 == 1
  {
  }

  lemma {:induction false} DottedIsKey(parts: seq<Text>)
    requires parts != [] && forall i :: 0 <= i < |parts| ==> Segment(parts[i])
    ensures ValidKey(Dotted(parts))
  {
    if |parts| > 1 {
      DottedIsKey(parts[1..]);
    }
  }

  /** An identity of valid segments is a valid NATS key. */
  lemma BuildIsKey(d: Digest, stem: Stem, instance: Text)
    requires forall i :: 0 <= i < 5 ==> Segment(stem.Fixed()[i])
    requires Segment(instance)
    ensures ValidKey(Build(d, stem, instance))
  {
    hide Build, Leaf, Segment;
    BuildIsWhole(d, stem, instance);
    LeafIsSegment(d, stem, instance);
    var parts := stem.Fixed() + [Leaf(d, stem, instance)];
    forall i | 0 <= i < 6 ensures Segment(parts[i]) {
      if i < 5 {
        assert parts[i] == stem.Fixed()[i];
      }
    }
    DottedIsKey(parts);
  }
}
