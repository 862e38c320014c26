/** Entity identities: {org}.{platform}.{system}.{domain}.{type}.{instance}. */
module EntityId {
  import opened Bytes
  import opened Segments
  import Utf8

  type Hex64 = h: Text | |h| == 64 && Hex(h) witness seq(64, i => 48)

  /** SHA-256 in hexadecimal, of which only length and alphabet are used. */
  type Digest = Text -> Hex64

  /** A URL parser: host followed by path, for a text that has a host. */
  type Parser = Text -> Option<Text>

  const DOT: Byte := 46
  const SLASH: Byte := 47

  const MAX_SYSTEM_SLUG := 80
  const MAX_INSTANCE := 60
  const SHORT_HASH := 8

  function ShortHash(d: Digest, t: Text): (h: Text)
    ensures |h| == SHORT_HASH && Hex(h)
  {
    d(t)[..SHORT_HASH]
  }

  lemma ShortHashIsClean(d: Digest, t: Text)
    ensures Clean(ShortHash(d, t)) && Segment(ShortHash(d, t))
  {
    HexIsClean(ShortHash(d, t));
  }

  // ---- system slugs ----

  function WithoutSuffix(t: Text, s: Text): Text {
    if |s| <= |t| && t[|t| - |s|..] == s then t[..|t| - |s|] else t
  }

  function WithoutPrefix(t: Text, p: Text): Text {
    if HasPrefix(t, p) then t[|p|..] else t
  }

  /** Index just past the last slash, or 0. */
  function AfterLastSlash(t: Text): (n: nat)
    ensures n <= |t|
  {
    if t == [] then 0
    else if t[|t| - 1] == SLASH then |t|
    else AfterLastSlash(t[..|t| - 1])
  }

  /** Last element of a slash-separated path. */
  function Base(t: Text): Text {
    if t == [] then [DOT]
    else
      var u := TrimRightSet(t, {SLASH});
      if u == [] then [SLASH] else u[AfterLastSlash(u)..]
  }

  /** What the parser makes of a text; one without a slash has no host. */
  function HostPath(url: Parser, t: Text): Option<Text> {
    if SLASH in t then url(t) else None
  }

  /** What is left of a canonical path before character mapping. */
  function Stripped(url: Parser, path: Text): Text {
    var p := match HostPath(url, path) case Some(hp) => hp case None => path;
    var q := WithoutPrefix(WithoutSuffix(p, Ascii(".git")), Ascii("./"));
    if HasPrefix(q, [SLASH]) then Base(q) else q
  }

  /** The slug before its length is capped. */
  function FullSlug(url: Parser, path: Text): Text {
    Slug(Stripped(url, path))
  }

  function Capped(d: Digest, slug: Text): Text {
    if |slug| > MAX_SYSTEM_SLUG
    then slug[..MAX_SYSTEM_SLUG - 7] + [DASH] + d(slug)[..6]
    else slug
  }

  function SystemSlug(d: Digest, url: Parser, path: Text): Text {
    Capped(d, FullSlug(url, path))
  }

  method MakeSystemSlug(d: Digest, url: Parser, path: Text) returns (slug: Text)
    ensures slug == SystemSlug(d, url, path)
  {
    hide Base, WithoutSuffix, WithoutPrefix, Mapped, Collapsed, Trim, Hex;
    var p := path;
    var parsed := HostPath(url, p);
    if parsed.Some? {
      p := parsed.value;
    }
    p := WithoutSuffix(p, Ascii(".git"));
    p := WithoutPrefix(p, Ascii("./"));
    if HasPrefix(p, [SLASH]) {
      p := Base(p);
    }
    slug := MapRunes(p);
    slug := CollapseRuns(slug);
    slug := Trim(slug);
    if |slug| > MAX_SYSTEM_SLUG {
      slug := slug[..MAX_SYSTEM_SLUG - 7] + [DASH] + d(slug)[..6];
    }
  }

  lemma {:induction false} SlashlessTail(dir: Text, name: Text)
    requires SLASH !in name
    ensures AfterLastSlash(dir + [SLASH] + name) == |dir| + 1
    decreases |name|
  {
    var t := dir + [SLASH] + name;
    if name != [] {
      var init := name[..|name| - 1];
      SlashlessTail(dir, init);
      assert t[..|t| - 1] == dir + [SLASH] + init;
      assert t[|t| - 1] == name[|name| - 1];
    }
  }

  /** An absolute path slugs like its last element without ".git": where a repository is
      checked out does not show. A last element that is ".git" and nothing more is dropped. */
  lemma AbsolutePathSlugsItsName(url: Parser, dir: Text, name: Text)
    requires name != [] && SLASH !in name
    requires HostPath(url, dir + [SLASH] + name) == None
    requires dir == [] || dir[0] == SLASH
    ensures FullSlug(url, dir + [SLASH] + name)
         == Slug(if name == Ascii(".git") then Base(dir + [SLASH]) else WithoutSuffix(name, Ascii(".git")))
  {
    hide Slug, WithoutPrefix;
    var t, g := dir + [SLASH] + name, Ascii(".git");
    var short := WithoutSuffix(name, g);
    SuffixOfName(dir, name);
    var q := dir + [SLASH] + short;
    assert WithoutPrefix(q, Ascii("./")) == q by { AbsoluteHasNoDot(q); }
    assert q[..1] == [SLASH];
    assert FullSlug(url, t) == Slug(Base(q));
    if name == g {
      assert q == dir + [SLASH];
    } else {
      BaseOfName(dir, short);
    }
  }

  lemma BaseOfName(dir: Text, name: Text)
    requires name != [] && SLASH !in name
    ensures Base(dir + [SLASH] + name) == name
  {
    var t := dir + [SLASH] + name;
    assert t[|t| - 1] == name[|name| - 1];
    assert TrimRightSet(t, {SLASH}) == t;
    SlashlessTail(dir, name);
    assert t[|dir| + 1..] == name;
  }

  lemma AbsoluteHasNoDot(t: Text)
    requires t != [] && t[0] == SLASH
    ensures WithoutPrefix(t, Ascii("./")) == t
  {
    if |t| >= 2 {
      assert t[..2][0] == SLASH;
    }
  }

  /** The suffix a path loses is its last element's. */
  lemma SuffixOfName(dir: Text, name: Text)
    requires SLASH !in name && name != []
    ensures var g := Ascii(".git");
            && WithoutSuffix(dir + [SLASH] + name, g) == dir + [SLASH] + WithoutSuffix(name, g)
            && SLASH !in WithoutSuffix(name, g)
            && (name != g ==> WithoutSuffix(name, g) != [])
            && (name == g ==> WithoutSuffix(name, g) == [])
  {
    var t, g := dir + [SLASH] + name, Ascii(".git");
    assert g[0] == DOT && g[1] == 103 && g[2] == 105 && g[3] == 116;
    if |name| >= 4 {
      assert t[|t| - 4..] == name[|name| - 4..];
      assert t[..|t| - 4] == dir + [SLASH] + name[..|name| - 4];
      assert |name| == 4 ==> name[0..] == name;
    } else if |t| >= 4 {
      assert t[|t| - 4..][3 - |name|] == t[|dir|] == SLASH;
      assert g[3 - |name|] != SLASH;
    }
  }

  /** The one corner: a slug over the cap that is cut right after a hyphen. */
  predicate CutAtHyphen(slug: Text) {
    |slug| > MAX_SYSTEM_SLUG && slug[MAX_SYSTEM_SLUG - 8] == DASH
  }

  lemma CappedShape(d: Digest, slug: Text)
    requires Clean(slug)
    ensures var r := Capped(d, slug);
            && |r| <= MAX_SYSTEM_SLUG && AllAllowed(r) && Trimmed(r)
            && (r == [] <==> slug == [])
            && (NoPair(r) <==> !CutAtHyphen(slug))
  {
    if |slug| > MAX_SYSTEM_SLUG {
      var head, tail := slug[..73], d(slug)[..6];
      assert slug[0..73] == head;
      SliceKeeps(slug, 0, 73);
      HexIsClean(tail);
      JoinKeeps(head, tail);
      var r := head + [DASH] + tail;
      assert r[0] == slug[0] && r[|r| - 1] == tail[5] && Alnum(tail[5]);
      assert r[72] == slug[72] && r[73] == DASH;
    }
  }

  /** A system slug is empty or a segment of at most 80 bytes. */
  lemma SystemSlugInGrammar(d: Digest, url: Parser, path: Text)
    ensures var r := SystemSlug(d, url, path);
            |r| <= MAX_SYSTEM_SLUG && (r == [] || Segment(r))
  {
    SlugIsClean(Stripped(url, path));
    CappedShape(d, FullSlug(url, path));
  }

  lemma AllowedUnstripped(url: Parser, t: Text)
    requires AllAllowed(t)
    ensures Stripped(url, t) == t
  {
    assert SLASH !in t;
    assert DOT !in t;
    if |t| >= 4 {
      assert t[|t| - 4..][0] == t[|t| - 4] != DOT;
    }
    if |t| >= 2 {
      assert t[..2][0] == t[0] != DOT;
    }
    if |t| >= 1 {
      assert t[..1][0] == t[0] != SLASH;
    }
  }

  /** Slugging a capped slug again changes it exactly when the cap cut after a hyphen,
      and a second application always settles it. */
  lemma CappedSettles(d: Digest, url: Parser, slug: Text)
    requires Clean(slug)
    ensures var r := Capped(d, slug);
            && (SystemSlug(d, url, r) == r <==> !CutAtHyphen(slug))
            && SystemSlug(d, url, SystemSlug(d, url, r)) == SystemSlug(d, url, r)
  {
    var r := Capped(d, slug);
    CappedShape(d, slug);
    AllowedUnstripped(url, r);
    SlugFixes(r);
    if CutAtHyphen(slug) {
      SlugNoLonger(r);
      var s := Slug(r);
      SlugIsClean(r);
      assert SystemSlug(d, url, r) == s != r;
      AllowedUnstripped(url, s);
      SlugFixes(s);
    }
  }

  lemma {:induction false} CollapsedNoLonger(t: Text)
    ensures |Collapsed(t)| <= |t|
  {
    if t != [] {
      CollapsedNoLonger(t[1..]);
    }
  }

  lemma SlugNoLonger(t: Text)
    requires AllAllowed(t)
    ensures |Slug(t)| <= |t|
  {
    MappedFixes(t);
    CollapsedNoLonger(t);
    var k := TrimLeftIsSuffix(Collapsed(t));
    var m := TrimRightIsPrefix(Collapsed(t)[k..]);
  }

  lemma SystemSlugIdempotence(d: Digest, url: Parser, path: Text)
    ensures var r := SystemSlug(d, url, path);
            && (SystemSlug(d, url, r) == r <==> !CutAtHyphen(FullSlug(url, path)))
            && SystemSlug(d, url, SystemSlug(d, url, r)) == SystemSlug(d, url, r)
  {
    SlugIsClean(Stripped(url, path));
    CappedSettles(d, url, FullSlug(url, path));
  }

  /** Two different slugs capped to one result share their six hash digits. */
  lemma CappedCollision(d: Digest, a: Text, b: Text)
    requires |a| > MAX_SYSTEM_SLUG && |b| > MAX_SYSTEM_SLUG
    requires Capped(d, a) == Capped(d, b)
    ensures d(a)[..6] == d(b)[..6] && a[..73] == b[..73]
  {
    var x, y := Capped(d, a), Capped(d, b);
    assert x[74..] == d(a)[..6] && y[74..] == d(b)[..6];
    assert x[..73] == a[..73] && y[..73] == b[..73];
  }

  /** The promised idempotence fails on 72 letters, a hyphen and eight more letters. */
  lemma SlugCutAfterHyphenIsRekeyed(d: Digest, url: Parser)
    ensures var path := seq(72, _ => 97) + [DASH] + seq(8, _ => 98);
            SystemSlug(d, url, SystemSlug(d, url, path)) != SystemSlug(d, url, path)
  {
    var path: Text := seq(72, _ => 97) + [DASH] + seq(8, _ => 98);
    assert |path| == 81 && path[72] == DASH && Clean(path);
    AllowedUnstripped(url, path);
    SlugFixes(path);
    SystemSlugIdempotence(d, url, path);
  }

  /** A slug joined with a qualifier, or the slug alone when there is none. Branch and
      version qualifiers are joined alike. */
  function Qualified(d: Digest, url: Parser, system: Text, qualifier: Text): Text {
    if qualifier == [] then system
    else SystemSlug(d, url, system + [DASH] + qualifier)
  }

  function ScopedSystemSlug(d: Digest, url: Parser, project: Text, version: Text): Text {
    Qualified(d, url, SystemSlug(d, url, project), SystemSlug(d, url, version))
  }

  /** The slug a scoped slug is capped from. */
  function ScopedFullSlug(d: Digest, url: Parser, project: Text, version: Text): Text {
    var v := SystemSlug(d, url, version);
    if v == [] then FullSlug(url, project)
    else FullSlug(url, SystemSlug(d, url, project) + [DASH] + v)
  }

  /** A scoped slug is empty or a segment within the cap, and slugging it again leaves it
      alone exactly when it was not cut after a hyphen. */
  lemma ScopedSlugFixed(d: Digest, url: Parser, project: Text, version: Text)
    ensures var r := ScopedSystemSlug(d, url, project, version);
            && |r| <= MAX_SYSTEM_SLUG && (r == [] || Segment(r))
            && (SystemSlug(d, url, r) == r <==> !CutAtHyphen(ScopedFullSlug(d, url, project, version)))
  {
    var v := SystemSlug(d, url, version);
    var from := if v == [] then project else SystemSlug(d, url, project) + [DASH] + v;
    SystemSlugInGrammar(d, url, from);
    SystemSlugIdempotence(d, url, from);
  }

  // ---- instances and segments ----

  function SanitizeInstance(d: Digest, s: Text): Text {
    var out := Slug(s);
    if out == [] then ShortHash(d, s)
    else if |out| <= MAX_INSTANCE then out
    else
      var prefix := TrimRight(out[..MAX_INSTANCE - SHORT_HASH - 1]);
      if prefix == [] then ShortHash(d, s) else prefix + [DASH] + ShortHash(d, s)
  }

  method MakeInstance(d: Digest, s: Text) returns (out: Text)
    ensures out == SanitizeInstance(d, s)
  {
    out := MapRunes(s);
    out := CollapseRuns(out);
    out := Trim(out);
    if out == [] {
      return ShortHash(d, s);
    }
    if |out| > MAX_INSTANCE {
      var suffix := ShortHash(d, s);
      var prefix := TrimRight(out[..MAX_INSTANCE - |suffix| - 1]);
      if prefix == [] {
        return suffix;
      }
      return prefix + [DASH] + suffix;
    }
  }

  /** An instance is always a clean segment of at most 60 bytes, and those are exactly the
      texts it leaves alone; so it is idempotent. */
  lemma SanitizeInstanceLaws(d: Digest, s: Text)
    ensures var r := SanitizeInstance(d, s);
            && Segment(r) && Clean(r) && |r| <= MAX_INSTANCE
            && (r == s <==> s != [] && Clean(s) && |s| <= MAX_INSTANCE)
            && SanitizeInstance(d, r) == r
  {
    var r := SanitizeInstance(d, s);
    InstanceIsClean(d, s);
    SlugFixes(s);
    SlugFixes(r);
  }

  lemma InstanceIsClean(d: Digest, s: Text)
    ensures var r := SanitizeInstance(d, s);
            Segment(r) && Clean(r) && |r| <= MAX_INSTANCE
  {
    var out := Slug(s);
    SlugIsClean(s);
    ShortHashIsClean(d, s);
    if |out| > MAX_INSTANCE {
      var cut := out[..51];
      assert out[0..51] == cut;
      SliceKeeps(out, 0, 51);
      var k := TrimRightIsPrefix(cut);
      var prefix := cut[..k];
      assert cut[0..k] == prefix;
      SliceKeeps(cut, 0, k);
      assert cut[0] == out[0];
      assert prefix[k - 1] == cut[k - 1] && prefix[0] == out[0];
      JoinKeeps(prefix, ShortHash(d, s));
      var r := prefix + [DASH] + ShortHash(d, s);
      assert r[0] == prefix[0] && r[|r| - 1] == ShortHash(d, s)[7];
    }
  }

  function SanitizeSegment(d: Digest, s: Text): Text {
    var out := TrimLeft(Mapped(s));
    if out == [] then ShortHash(d, s)
    else if out == s then out
    else out + [DASH] + ShortHash(d, s)
  }

  method MakeSegment(d: Digest, s: Text) returns (out: Text)
    ensures out == SanitizeSegment(d, s)
  {
    out := MapRunes(s);
    out := TrimLeft(out);
    if out == [] {
      return ShortHash(d, s);
    }
    if out == s {
      return;
    }
    out := out + [DASH] + ShortHash(d, s);
  }

  /** Every text becomes a segment; exactly the segments are left alone; so a second
      application changes nothing. */
  lemma SanitizeSegmentLaws(d: Digest, s: Text)
    ensures var r := SanitizeSegment(d, s);
            && Segment(r)
            && (r == s <==> Segment(s))
            && SanitizeSegment(d, r) == r
  {
    var r := SanitizeSegment(d, s);
    SegmentResult(d, s);
    SegmentFixed(d, r);
    if Segment(s) {
      SegmentFixed(d, s);
    }
  }

  lemma SegmentFixed(d: Digest, s: Text)
    requires Segment(s)
    ensures SanitizeSegment(d, s) == s
  {
    MappedFixes(s);
    assert TrimLeft(s) == s;
  }

  lemma SegmentResult(d: Digest, s: Text)
    ensures Segment(SanitizeSegment(d, s))
  {
    ShortHashIsClean(d, s);
    MappedIsAllowed(s);
    var m := Mapped(s);
    var k := TrimLeftIsSuffix(m);
    var out := m[k..];
    SliceKeeps(m, k, |m|);
    assert m[k..|m|] == out;
    if out != [] {
      assert out[0] == m[k];
      JoinKeeps(out, ShortHash(d, s));
      assert (out + [DASH] + ShortHash(d, s))[0] == out[0];
    }
  }

  /** Two altered inputs with one result have the same short hash. */
  lemma SegmentCollision(d: Digest, a: Text, b: Text)
    requires !Segment(a) && !Segment(b)
    requires SanitizeSegment(d, a) == SanitizeSegment(d, b)
    ensures ShortHash(d, a) == ShortHash(d, b)
  {
    AlteredEndsInHash(d, a);
    AlteredEndsInHash(d, b);
  }

  lemma AlteredEndsInHash(d: Digest, s: Text)
    requires !Segment(s)
    ensures var r := SanitizeSegment(d, s);
            |r| >= SHORT_HASH && r[|r| - SHORT_HASH..] == ShortHash(d, s)
  {
    SanitizeSegmentLaws(d, s);
    var r, h := SanitizeSegment(d, s), ShortHash(d, s);
    var out := TrimLeft(Mapped(s));
    if r == out + [DASH] + h {
      assert r[|r| - SHORT_HASH..] == h;
    } else {
      assert r == h;
    }
  }
}
