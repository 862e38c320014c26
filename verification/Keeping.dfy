/** What the slug and sanitizer steps keep of their input (entityid/entityid.go), character by
    character and step by step. */
module Keeping {
  import opened Bytes
  import opened Segments
  import opened EntityId
  import U = Utf8

  // ---- the three passes ----

  /** Letters, digits, hyphens and underscores stay; any other character, or stray byte,
      becomes one hyphen. */
  lemma MappedExactly(t: Text)
    ensures Mapped([]) == []
    ensures t != [] && t[0] < 0x80 ==>
              Mapped(t) == [if AsciiKept(t[0]) then t[0] else 45] + Mapped(t[1..])
    ensures t != [] && t[0] >= 0x80 ==>
              Mapped(t) == [45] + Mapped(t[if U.Width(t) > 0 then U.Width(t) else 1..])
  {
    if t != [] {
      KeptIs(U.DecodeRune(t).0);
    }
  }

  /** The characters 0-9, A-Z, a-z, '-' and '_'. */
  predicate AsciiKept(c: int) {
    48 <= c < 58 || 65 <= c < 91 || 97 <= c < 123 || c == 45 || c == 95
  }

  lemma KeptIs(r: nat)
    ensures Allowed(r) <==> AsciiKept(r)
  {
  }

  /** Hyphens in a row are as good as one, and nothing else is changed. */
  lemma {:induction false} CollapsedExactly(a: Text, b: Text)
    ensures Collapsed(a + [45, 45] + b) == Collapsed(a + [45] + b)
    ensures NoPair(a) ==> Collapsed(a) == a
    ensures NoPair(Collapsed(a))
    decreases |a|
  {
    CollapsedHasNoPair(a);
    if NoPair(a) {
      CollapsedFixes(a);
    }
    var x, y := a + [45, 45] + b, a + [45] + b;
    if a == [] {
      assert x[1..] == y;
    } else {
      CollapsedExactly(a[1..], b);
      assert x[1..] == a[1..] + [45, 45] + b && y[1..] == a[1..] + [45] + b;
      assert |a| > 1 ==> x[1] == y[1] == a[1];
      assert |a| == 1 ==> x[1] == y[1] == 45;
      assert x[0] == y[0] == a[0];
    }
  }

  lemma {:induction false} CollapsedHasNoPair(t: Text)
    ensures NoPair(Collapsed(t)) && (t != [] ==> Collapsed(t) != [] && Collapsed(t)[0] == t[0])
  {
    if t != [] {
      CollapsedHasNoPair(t[1..]);
    }
  }

  /** Trimming keeps everything between the first and the last letter or digit. */
  lemma TrimExactly(t: Text, i: nat, j: nat)
    requires i < j <= |t| && Alnum(t[i]) && Alnum(t[j - 1])
    requires forall k :: 0 <= k < |t| && (k < i || j <= k) ==> !Alnum(t[k])
    ensures Trim(t) == t[i..j]
  {
    var a := TrimLeftIsSuffix(t);
    assert a == i;
    var u := t[i..];
    assert forall k :: 0 <= k < |u| ==> u[k] == t[i + k];
    var b := TrimRightIsPrefix(u);
    assert b == j - i;
    assert u[..b] == t[i..j];
  }

  lemma TrimNothing(t: Text)
    requires forall k :: 0 <= k < |t| ==> !Alnum(t[k])
    ensures Trim(t) == []
  {
    var a := TrimLeftIsSuffix(t);
    assert t[a..] == [];
  }

  // ---- system slugs ----

  /** What a path is slugged from. `p` is the host and path of a URL, or the path itself; `q`
      is that without one ".git" at its end; `r` that without one "./" in front. If `r` does
      not begin with a slash it is slugged whole, else by its last element. */
  lemma SluggedExactly(url: Parser, path: Text, p: Text, q: Text, r: Text, name: Text, n: nat)
    requires p == if SLASH in path && url(path).Some? then url(path).value else path
    requires p == q + Ascii(".git") || (p == q && !EndsWith(p, Ascii(".git")))
    requires q == Ascii("./") + r || (q == r && !(Ascii("./") <= q))
    requires r != [] && r[0] == SLASH ==> EndsInElement(r, name, n)
    ensures FullSlug(url, path) == Slug(if r != [] && r[0] == SLASH then name else r)
  {
    hide Slug;
    WithoutGit(p, q);
    WithoutDot(q, r);
    if r != [] {
      assert r[..1] == [r[0]];
      if r[0] == SLASH {
        LastElement(r, name, n);
      }
    }
  }

  predicate EndsWith(t: Text, s: Text) {
    |s| <= |t| && t[|t| - |s|..] == s
  }

  /** `name` is the last element of `r`, `n` slashes aside; of a path of slashes, one slash. */
  predicate EndsInElement(r: Text, name: Text, n: nat) {
    if name == [47] then |r| == n > 0 && forall i :: 0 <= i < n ==> r[i] == 47
    else
      && name != [] && 47 !in name && |name| + n < |r|
      && r[|r| - n - |name| - 1..|r| - n] == [47] + name
      && forall i :: |r| - n <= i < |r| ==> r[i] == 47
  }

  lemma WithoutGit(p: Text, q: Text)
    requires p == q + Ascii(".git") || (p == q && !EndsWith(p, Ascii(".git")))
    ensures WithoutSuffix(p, Ascii(".git")) == q
  {
    if p == q + Ascii(".git") {
      assert p[|p| - 4..] == Ascii(".git") && p[..|p| - 4] == q;
    }
  }

  lemma WithoutDot(q: Text, r: Text)
    requires q == Ascii("./") + r || (q == r && !(Ascii("./") <= q))
    ensures WithoutPrefix(q, Ascii("./")) == r
  {
    if q == Ascii("./") + r {
      assert q[..2] == Ascii("./") && q[2..] == r;
    }
  }

  lemma {:induction false} LastElement(r: Text, name: Text, n: nat)
    requires r != [] && r[0] == 47 && EndsInElement(r, name, n)
    ensures Base(r) == name
    decreases n
  {
    if name == [47] {
      AllSlashes(r);
    } else if n > 0 {
      var u := r[..|r| - 1];
      assert EndsInElement(u, name, n - 1) by {
        assert u[|u| - (n - 1) - |name| - 1..|u| - (n - 1)] == r[|r| - n - |name| - 1..|r| - n];
      }
      LastElement(u, name, n - 1);
      assert TrimRightSet(r, {SLASH}) == TrimRightSet(u, {SLASH});
    } else {
      var dir := r[..|r| - |name| - 1];
      var tail := r[|r| - |name| - 1..|r|];
      assert r == dir + tail && tail == [47] + name;
      assert r == dir + [SLASH] + name;
      BaseOfName(dir, name);
    }
  }

  lemma {:induction false} AllSlashes(r: Text)
    requires r != [] && forall i :: 0 <= i < |r| ==> r[i] == 47
    ensures TrimRightSet(r, {SLASH}) == [] && Base(r) == [47]
  {
    if |r| > 1 {
      AllSlashes(r[..|r| - 1]);
    }
  }

  /** A slug over eighty bytes keeps its first 73, then a hyphen and six digits of its hash. */
  lemma CappedExactly(d: Digest, url: Parser, path: Text)
    ensures var s := FullSlug(url, path);
            SystemSlug(d, url, path) == if |s| <= 80 then s else s[..73] + [45] + d(s)[..6]
  {
    hide FullSlug;
  }

  /** A version joins its project with a hyphen, both of them slugs, and is slugged again; one
      that slugs to nothing is left out. */
  lemma ScopedExactly(d: Digest, url: Parser, project: Text, version: Text)
    ensures var p, v := SystemSlug(d, url, project), SystemSlug(d, url, version);
            ScopedSystemSlug(d, url, project, version) == if v == [] then p else SystemSlug(d, url, p + [45] + v)
  {
    hide SystemSlug;
  }

  // ---- sanitizers ----

  /** An instance is its slug if that is not empty and within sixty bytes; the longest front
      of at most 51 bytes of the slug that ends in a letter or digit, a hyphen and the hash if
      it is over; and the hash alone if the slug is empty. */
  lemma InstanceExactly(d: Digest, s: Text, k: nat)
    requires LongestFront(Slug(s), 51, k)
    ensures var out := Slug(s);
            SanitizeInstance(d, s) == if out == [] then d(s)[..8]
                                      else if |out| <= 60 then out
                                      else out[..k] + [45] + d(s)[..8]
    ensures |Slug(s)| > 60 ==> k > 0
  {
    hide Slug;
    var out := Slug(s);
    if |out| > 60 {
      var cut := out[..51];
      assert forall i :: 0 <= i < 51 ==> cut[i] == out[i];
      TrimRightIsLongest(cut, k);
      assert cut[..k] == out[..k];
      SlugIsClean(s);
      assert Alnum(out[0]);
    }
  }

  /** A segment is the mapped text from its first letter or digit on, with the hash after a
      hyphen if that is not the text itself; the hash alone if it has none. */
  lemma SegmentExactly(d: Digest, s: Text, k: nat)
    requires k <= |Mapped(s)| && (forall i :: 0 <= i < k ==> !Alnum(Mapped(s)[i]))
    requires k < |Mapped(s)| ==> Alnum(Mapped(s)[k])
    ensures var out := Mapped(s)[k..];
            SanitizeSegment(d, s) == if out == [] then d(s)[..8]
                                     else if out == s then s
                                     else out + [45] + d(s)[..8]
  {
    hide Mapped;
    var m := TrimLeftIsSuffix(Mapped(s));
    assert m == k;
  }
}
