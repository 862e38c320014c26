/** Which way a section is divided (handler/doc/splitter.go), in the text's own terms: what a
    KEY=VALUE line is, when a block is a list of them, when fences are set apart. */
module Strategies {
  import opened Bytes
  import opened Utf8
  import opened Spans
  import opened Lines
  import opened Blocks
  import opened Cuts
  import opened Oversized
  import opened KeyGroups
  import opened Sections
  import opened Weaving
  import opened Subdivision
  import opened Coverage
  import opened SizeLaws
  import opened Exceeding
  import opened Structure

  // ---- KEY=VALUE lines ----

  function RunesOf(t: Text): seq<nat>
    decreases |t|
  {
    if t == [] then [] else [DecodeRune(t).0] + RunesOf(t[DecodeRune(t).1..])
  }

  predicate AllWord(rs: seq<nat>, u: Tables) {
    forall k :: 0 <= k < |rs| ==> rs[k] == 95 || u.isLetter(rs[k]) || u.isDigit(rs[k])
  }

  /** Letters, digits and underscores, no digit first. */
  predicate Identifier(key: Text, u: Tables) {
    var rs := RunesOf(key);
    AllWord(rs, u) && (rs != [] ==> !u.isDigit(rs[0]))
  }

  predicate Assigns(t: Text, key: Text, value: Text, u: Tables) {
    t == key + [61] + value && key != [] && 61 !in key && Identifier(key, u)
  }

  /** The key up to its first underscore, or all of a key that has none or begins with one. */
  predicate TokenOf(key: Text, token: Text) {
    if 95 in key && key[0] != 95 then token != [] && 95 !in token && token + [95] <= key
    else token == key
  }

  lemma {:induction false} IndexOfIs(t: Text, c: Byte)
    ensures c !in t[..IndexOf(t, c)] && (IndexOf(t, c) < |t| ==> t[IndexOf(t, c)] == c)
  {
    if t != [] && t[0] != c {
      IndexOfIs(t[1..], c);
      assert t[..IndexOf(t, c)] == [t[0]] + t[1..][..IndexOf(t[1..], c)];
    }
  }

  lemma {:induction false} IndexOfAfter(a: Text, c: Byte, b: Text)
    requires c !in a
    ensures IndexOf(a + [c] + b, c) == |a|
  {
    if a != [] {
      assert a[0] != c;
      assert (a + [c] + b)[1..] == a[1..] + [c] + b;
      IndexOfAfter(a[1..], c, b);
    } else {
      assert (a + [c] + b)[0] == c;
    }
  }

  lemma AllWordCons(r: nat, rest: seq<nat>, u: Tables)
    ensures AllWord([r] + rest, u) <==> (r == 95 || u.isLetter(r) || u.isDigit(r)) && AllWord(rest, u)
  {
    var rs := [r] + rest;
    assert forall k :: 0 <= k < |rest| ==> rs[k + 1] == rest[k];
    assert rs[0] == r;
  }

  lemma {:induction false} ValidKeyIs(key: Text, u: Tables, first: bool)
    ensures ValidKey(key, u, first) <==>
              AllWord(RunesOf(key), u) && (first && key != [] ==> !u.isDigit(RunesOf(key)[0]))
    decreases |key|
  {
    hide AllWord;
    AllWordNone(u);
    if key != [] {
      var (r, w) := DecodeRune(key);
      ValidKeyIs(key[w..], u, false);
      AllWordCons(r, RunesOf(key[w..]), u);
    }
  }

  lemma AllWordNone(u: Tables)
    ensures AllWord([], u)
  {
  }

  lemma TokenIsFront(key: Text, token: Text, under: nat)
    requires 0 < under < |key| && 95 !in key[..under] && key[under] == 95
    ensures token != [] && 95 !in token && token + [95] <= key <==> token == key[..under]
  {
    if token == key[..under] {
      assert token + [95] == key[..under + 1];
    }
    if token != [] && 95 !in token && token + [95] <= key {
      var n := |token|;
      assert key[..n + 1] == token + [95];
      assert key[n] == (token + [95])[n] == 95;
      assert key[..n] == key[..n + 1][..n] == token;
      NoneBefore(key, n);
      NoneBefore(key, under);
    }
  }

  lemma NoneBefore(key: Text, n: nat)
    requires n <= |key| && 95 !in key[..n]
    ensures forall i :: 0 <= i < n ==> key[i] != 95
  {
    forall i | 0 <= i < n ensures key[i] != 95 {
      assert key[i] == key[..n][i];
    }
  }

  lemma TokenIs(key: Text, token: Text)
    requires key != []
    ensures var under := IndexOf(key, 95);
            TokenOf(key, token) <==> token == if 0 < under < |key| then key[..under] else key
  {
    hide IndexOf;
    var under := IndexOf(key, 95);
    IndexOfIs(key, 95);
    FirstIs(key, under);
    if 0 < under < |key| {
      assert key[under] in key;
      TokenIsFront(key, token, under);
    }
  }

  lemma FirstIs(key: Text, under: nat)
    requires key != [] && under <= |key| && 95 !in key[..under] && (under < |key| ==> key[under] == 95)
    ensures under == 0 <==> key[0] == 95
    ensures under == |key| <==> 95 !in key
  {
    if under == |key| {
      assert key[..under] == key;
    }
    if under > 0 {
      assert key[0] == key[..under][0];
    }
  }

  /** A line is an assignment with this token if and only if it is an identifier, an equals
      sign and anything at all, and the token is the identifier up to its first underscore. */
  lemma AssignmentExactly(t: Text, u: Tables, token: Text)
    ensures AssignmentPrefix(t, u) == Some(token) <==>
              exists key, value :: Assigns(t, key, value, u) && TokenOf(key, token)
  {
    hide Identifier, TokenOf, ValidKey;
    var eq := IndexOf(t, 61);
    IndexOfIs(t, 61);
    if AssignmentPrefix(t, u) == Some(token) {
      var key, value := t[..eq], t[eq + 1..];
      KeyIs(key, u);
      TokenIs(key, token);
      assert t == key + [61] + value;
      assert Assigns(t, key, value, u) && TokenOf(key, token);
    }
    if key, value :| Assigns(t, key, value, u) && TokenOf(key, token) {
      IndexOfAfter(key, 61, value);
      assert t[..eq] == key;
      KeyIs(key, u);
      TokenIs(key, token);
    }
  }

  lemma KeyIs(key: Text, u: Tables)
    ensures Identifier(key, u) <==> ValidKey(key, u, true)
  {
    ValidKeyIs(key, u, true);
    assert key != [] ==> RunesOf(key) != [];
    assert key == [] ==> RunesOf(key) == [];
  }

  // ---- lists of them ----

  /** The block's lines before `n` that hold anything but a fence delimiter. */
  ghost function ContentLines(lines: seq<Line>, blk: Span, n: nat): set<nat>
    requires n <= |lines|
  {
    set i: nat | i < n && blk.start <= lines[i].start && lines[i].end <= blk.end
                 && TrimSpace(lines[i].text) != [] && !Delimits(lines[i])
  }

  ghost function AssignmentLines(lines: seq<Line>, blk: Span, u: Tables, n: nat): set<nat>
    requires n <= |lines|
  {
    set i: nat | i in ContentLines(lines, blk, n) && AssignmentPrefix(TrimSpace(lines[i].text), u).Some?
  }

  /** One line more is a content line, or is not. */
  lemma ContentStep(lines: seq<Line>, blk: Span, u: Tables, n: nat)
    requires n < |lines|
    ensures ContentLines(lines, blk, n + 1)
         == ContentLines(lines, blk, n) + if In(lines, blk, n) && IsContent(lines[n]) then {n} else {}
    ensures AssignmentLines(lines, blk, u, n + 1)
         == AssignmentLines(lines, blk, u, n)
            + if In(lines, blk, n) && IsContent(lines[n]) && LineKey(lines[n], u).Some? then {n} else {}
    ensures n !in ContentLines(lines, blk, n) && n !in AssignmentLines(lines, blk, u, n)
  {
    hide TrimSpace, AssignmentPrefix, Delimits, IsFence;
    FenceIs(lines[n]);
  }

  /** So their numbers grow by one, or by none. */
  lemma ContentGrows(lines: seq<Line>, blk: Span, u: Tables, n: nat)
    requires n < |lines|
    ensures |ContentLines(lines, blk, n + 1)|
         == |ContentLines(lines, blk, n)| + if In(lines, blk, n) && IsContent(lines[n]) then 1 else 0
    ensures |AssignmentLines(lines, blk, u, n + 1)|
         == |AssignmentLines(lines, blk, u, n)|
            + if In(lines, blk, n) && IsContent(lines[n]) && LineKey(lines[n], u).Some? then 1 else 0
  {
    hide ContentLines, AssignmentLines, IsContent, LineKey, In;
    ContentStep(lines, blk, u, n);
    OneMore(ContentLines(lines, blk, n), n);
    OneMore(AssignmentLines(lines, blk, u, n), n);
  }

  lemma NoContent(lines: seq<Line>, blk: Span, u: Tables)
    ensures ContentLines(lines, blk, 0) == {} && AssignmentLines(lines, blk, u, 0) == {}
  {
  }

  lemma ItemsOneMore(lines: seq<Line>, blk: Span, u: Tables, n: nat)
    requires n < |lines|
    ensures var x, y := Items(lines, blk, u, n), Items(lines, blk, u, n + 1);
            if In(lines, blk, n) && IsContent(lines[n])
            then |y| == |x| + 1 && Assignments(y) == Assignments(x) + if LineKey(lines[n], u).Some? then 1 else 0
            else y == x
  {
    hide IsContent, LineKey, In, Assignments;
    TallyStep(Items(lines, blk, u, n), Item(n, LineKey(lines[n], u)));
  }

  lemma OneMore(s: set<nat>, n: nat)
    requires n !in s
    ensures |s + {n}| == |s| + 1 && s + {} == s
  {
  }

  lemma {:induction false} ItemsCount(lines: seq<Line>, blk: Span, u: Tables, n: nat)
    requires n <= |lines|
    ensures |Items(lines, blk, u, n)| == |ContentLines(lines, blk, n)|
    ensures Assignments(Items(lines, blk, u, n)) == |AssignmentLines(lines, blk, u, n)|
  {
    hide ContentLines, AssignmentLines, IsContent, LineKey, In, Items, Assignments;
    if n > 0 {
      ItemsCount(lines, blk, u, n - 1);
      ContentGrows(lines, blk, u, n - 1);
      ItemsOneMore(lines, blk, u, n - 1);
    } else {
      NoContent(lines, blk, u);
      NoItemsCount(lines, blk, u);
    }
  }

  lemma NoItemsCount(lines: seq<Line>, blk: Span, u: Tables)
    ensures Items(lines, blk, u, 0) == [] && Assignments([]) == 0
  {
  }

  /** A block is a list of settings if and only if a line of it is protected, its assignments
      make three groups or more, and they are six tenths of its content lines or more. */
  lemma QualifiesExactly(lines: seq<Line>, blk: Span, u: Tables)
    ensures Qualifies(lines, blk, u) <==>
              && (exists i :: 0 <= i < |lines| && blk.start <= lines[i].start && lines[i].end <= blk.end && lines[i].isProtected)
              && |Runs(Items(lines, blk, u, |lines|))| >= 3
              && 10 * |AssignmentLines(lines, blk, u, |lines|)| >= 6 * |ContentLines(lines, blk, |lines|)|
  {
    hide Items, Assignments, ContentLines, AssignmentLines;
    ItemsCount(lines, blk, u, |lines|);
    if exists i :: 0 <= i < |lines| && blk.start <= lines[i].start && lines[i].end <= blk.end && lines[i].isProtected {
      var i :| 0 <= i < |lines| && blk.start <= lines[i].start && lines[i].end <= blk.end && lines[i].isProtected;
      assert In(lines, blk, i);
    }
    if Fenced(lines, blk) {
      var i :| 0 <= i < |lines| && In(lines, blk, i) && lines[i].isProtected;
      assert blk.start <= lines[i].start && lines[i].end <= blk.end;
    }
  }

  // ---- the three strategies ----

  lemma {:induction false} QualifyingIff(lines: seq<Line>, blocks: seq<Span>, u: Tables)
    ensures QualifyingGroups(lines, blocks, u) != [] <==> exists j :: 0 <= j < |blocks| && Qualifies(lines, blocks[j], u)
    decreases |blocks|
  {
    hide Items, GroupsOf, Assignments, Fenced;
    if blocks != [] {
      QualifyingIff(lines, blocks[1..], u);
      if j :| 0 <= j < |blocks| && Qualifies(lines, blocks[j], u) {
        if j > 0 {
          assert blocks[1..][j - 1] == blocks[j];
        }
      }
    }
  }

  /** The bytes of the blocks that are not fenced. */
  ghost function ProseBytes(lines: seq<Line>, blocks: seq<Span>): int {
    if blocks == [] then 0
    else ProseBytes(lines, blocks[1..]) + if Fenced(lines, blocks[0]) then 0 else blocks[0].end - blocks[0].start
  }

  lemma {:induction false} ProseAndFences(lines: seq<Line>, blocks: seq<Span>, lo: nat, hi: nat)
    requires Tiles(blocks, lo, hi)
    ensures FencedBytes(FencedChunks(lines, blocks)) + ProseBytes(lines, blocks) == hi - lo
    ensures FencedChunks(lines, blocks) != [] <==> exists j :: 0 <= j < |blocks| && Fenced(lines, blocks[j])
    decreases |blocks|
  {
    hide Fenced;
    if blocks != [] {
      TilesTail(blocks, lo, hi);
      ProseAndFences(lines, blocks[1..], blocks[0].end, hi);
      var rest := FencedChunks(lines, blocks[1..]);
      assert ([[blocks[0]]] + rest)[1..] == rest;
      if j :| 0 <= j < |blocks| && Fenced(lines, blocks[j]) {
        if j > 0 {
          assert blocks[1..][j - 1] == blocks[j];
        }
      }
    }
  }

  ghost predicate HasSettings(lines: seq<Line>, s: Span, u: Tables) {
    exists j :: 0 <= j < |BlocksOf(lines, s)| && Qualifies(lines, BlocksOf(lines, s)[j], u)
  }

  /** The section has a fence, and prose of the floor or more around its fences. */
  ghost predicate SetsApart(lines: seq<Line>, s: Span, b: Bounds) {
    && (exists j :: 0 <= j < |BlocksOf(lines, s)| && Fenced(lines, BlocksOf(lines, s)[j]))
    && ProseBytes(lines, BlocksOf(lines, s)) >= b.floor
  }

  lemma StrategyIs(content: Text, lines: seq<Line>, s: Span, b: Bounds, u: Tables)
    requires Lies(content, lines, s)
    ensures Homogeneous(lines, s, u).Some? <==> HasSettings(lines, s, u)
    ensures Isolated(lines, s, b).Some? <==> SetsApart(lines, s, b)
  {
    hide Lies, BlocksOf, Qualifies, Fenced, QualifyingGroups, FencedChunks, FencedBytes, ProseBytes, Weave, Tiles;
    BlocksLie(content, lines, s);
    QualifyingIff(lines, BlocksOf(lines, s), u);
    ProseAndFences(lines, BlocksOf(lines, s), s.start, s.end);
  }

  lemma GroupNonEmpty(content: Text, lines: seq<Line>, s: Span, u: Tables, j: nat, x: Span)
    requires Lies(content, lines, s) && j < |BlocksOf(lines, s)|
    requires x in KeyValueGroups(lines, BlocksOf(lines, s)[j], u)
    ensures NonEmpty(x)
  {
    hide BlocksOf, GroupsOf, Items, Lies, Chain, Assignments, Fenced;
    BlocksLie(content, lines, s);
    BlockInside(BlocksOf(lines, s), s.start, s.end, j);
    GroupsInOrder(lines, |content|, BlocksOf(lines, s)[j], u);
  }

  lemma GroupIsSpan(content: Text, lines: seq<Line>, s: Span, u: Tables, j: nat, x: Span)
    requires Lies(content, lines, s) && Homogeneous(lines, s, u).Some? && j < |BlocksOf(lines, s)|
    requires x in KeyValueGroups(lines, BlocksOf(lines, s)[j], u)
    ensures x in Homogeneous(lines, s, u).value
  {
    hide Lies, BlocksOf, KeyValueGroups, QualifyingGroups, Weave, InSomeChunk;
    GroupsAreChunks(lines, BlocksOf(lines, s), u, x);
    GroupNonEmpty(content, lines, s, u, j, x);
    WeaveMembers(s.start, QualifyingGroups(lines, BlocksOf(lines, s), u), s.end, x);
  }

  lemma FenceIsSpan(content: Text, lines: seq<Line>, s: Span, b: Bounds, j: nat)
    requires Lies(content, lines, s) && Isolated(lines, s, b).Some? && j < |BlocksOf(lines, s)| && Fenced(lines, BlocksOf(lines, s)[j])
    ensures BlocksOf(lines, s)[j] in Isolated(lines, s, b).value
  {
    hide Lies, BlocksOf, Fenced, FencedChunks, Weave, InSomeChunk;
    BlocksLie(content, lines, s);
    BlockInside(BlocksOf(lines, s), s.start, s.end, j);
    FencesAreChunks(lines, BlocksOf(lines, s), BlocksOf(lines, s)[j]);
    WeaveMembers(s.start, FencedChunks(lines, BlocksOf(lines, s)), s.end, BlocksOf(lines, s)[j]);
  }

  /** A section with a list of settings is divided at every group of it; failing that, one
      with enough prose has each fence set apart; failing that, one within the ceiling stays
      whole; and only what is left is divided by size. */
  lemma SubdivideExactly(content: Text, lines: seq<Line>, s: Span, b: Bounds, u: Tables)
    requires Lies(content, lines, s)
    ensures InText(content, BlocksOf(lines, s))
    ensures var r := Subdivide(content, lines, s, b, u);
            if HasSettings(lines, s, u) then
              r.Done? && forall j, x :: 0 <= j < |BlocksOf(lines, s)| && x in KeyValueGroups(lines, BlocksOf(lines, s)[j], u)
                                        ==> x in r.value
            else if SetsApart(lines, s, b) then
              r.Done? && forall j :: 0 <= j < |BlocksOf(lines, s)| && Fenced(lines, BlocksOf(lines, s)[j])
                                     ==> BlocksOf(lines, s)[j] in r.value
            else if s.end - s.start <= b.ceiling then r == Done([s])
            else r == BySize(content, lines, s, b)
  {
    hide Lies, BlocksOf, Fenced, Weave, BySize, KeyValueGroups, Homogeneous, Isolated, SetsApart, HasSettings;
    BlocksLie(content, lines, s);
    StrategyIs(content, lines, s, b, u);
    var blocks := BlocksOf(lines, s);
    if HasSettings(lines, s, u) {
      forall j, x | 0 <= j < |blocks| && x in KeyValueGroups(lines, blocks[j], u)
        ensures x in Homogeneous(lines, s, u).value
      {
        GroupIsSpan(content, lines, s, u, j, x);
      }
    } else if SetsApart(lines, s, b) {
      forall j | 0 <= j < |blocks| && Fenced(lines, blocks[j]) ensures blocks[j] in Isolated(lines, s, b).value {
        FenceIsSpan(content, lines, s, b, j);
      }
    }
  }
}
