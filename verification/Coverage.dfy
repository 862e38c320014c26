/** What subdividing a section covers (handler/doc/splitter.go): everything, except the
    lines of a homogeneous block that fall between two of its key groups. */
module Coverage {
  import opened Bytes
  import Utf8
  import opened Spans
  import opened Lines
  import opened Blocks
  import opened Cuts
  import opened Oversized
  import opened KeyGroups
  import opened Sections
  import opened Weaving
  import opened Subdivision

  /** A non-empty range of whole lines of the document. */
  ghost predicate Lies(content: Text, lines: seq<Line>, s: Span) {
    && lines == ScanLines(content)
    && NonEmpty(s) && s.end <= |content|
    && WholeLines(lines, s)
  }

  ghost predicate InLine(lines: seq<Line>, i: nat, p: nat) {
    i < |lines| && lines[i].start <= p < lines[i].end
  }

  /** Every byte of the document is in a line. */
  lemma {:induction false} LineHolding(lines: seq<Line>, off: nat, total: nat, p: nat) returns (i: nat)
    requires Chain(lines, off, total) && off <= p < total
    ensures InLine(lines, i, p)
    decreases |lines|
  {
    if p < lines[0].end {
      i := 0;
    } else {
      var rest := lines[1..];
      assert Chain(rest, lines[0].end, total) by {
        if rest != [] { assert lines[0].end == lines[1].start; }
      }
      i := LineHolding(rest, lines[0].end, total, p);
      assert rest[i] == lines[i + 1];
      i := i + 1;
    }
  }

  // ---- Blocks of a section ----

  lemma BlocksLie(content: Text, lines: seq<Line>, s: Span)
    requires Lies(content, lines, s)
    ensures Chain(lines, 0, |content|)
    ensures InText(content, BlocksOf(lines, s))
    ensures Tiles(BlocksOf(lines, s), s.start, s.end)
  {
    ScanPartitions(content);
    BlocksTile(lines, |content|, s);
  }

  /** Each block of a section is itself a range of whole lines. */
  lemma BlockLies(content: Text, lines: seq<Line>, s: Span, k: nat)
    requires Lies(content, lines, s) && k < |BlocksOf(lines, s)|
    ensures Lies(content, lines, BlocksOf(lines, s)[k])
  {
    hide Tiles, BlockStarts, OnLines, Chain;
    BlocksLie(content, lines, s);
    BlockInside(BlocksOf(lines, s), s.start, s.end, k);
    var lo: nat, hi: nat :| OnLines(lines, s, lo, hi);
    if BlockStarts(lines, s, |lines|) != [] {
      BlockOnLines(lines, |content|, s, lo, hi, k);
    }
  }

  lemma BlockOnLines(lines: seq<Line>, total: nat, s: Span, lo: nat, hi: nat, k: nat)
    requires Chain(lines, 0, total) && OnLines(lines, s, lo, hi) && k < |BlockStarts(lines, s, |lines|)|
    ensures var st := BlockStarts(lines, s, |lines|);
            OnLines(lines, BlockAt(lines, s, st, k), if k == 0 then lo else st[k], if k + 1 < |st| then st[k + 1] else hi)
  {
    hide BlockStarts, StartsBlock;
    var st := BlockStarts(lines, s, |lines|);
    if k > 0 {
      StartInRange(lines, total, s, lo, hi, k);
    }
    if k + 1 < |st| {
      StartInRange(lines, total, s, lo, hi, k + 1);
      assert lines[st[k + 1] - 1].end == lines[st[k + 1]].start;
    }
  }

  lemma BlockInside(blocks: seq<Span>, lo: nat, hi: nat, k: nat)
    requires Tiles(blocks, lo, hi) && k < |blocks|
    ensures NonEmpty(blocks[k]) && lo <= blocks[k].start && blocks[k].end <= hi
  {
  }

  lemma StartInRange(lines: seq<Line>, total: nat, s: Span, lo: nat, hi: nat, k: nat)
    requires Chain(lines, 0, total) && OnLines(lines, s, lo, hi)
    requires 0 < k < |BlockStarts(lines, s, |lines|)|
    ensures var st := BlockStarts(lines, s, |lines|);
            lo <= st[k - 1] < st[k] < hi
  {
    hide Blank, TextBefore, BlockStarts;
    var st := BlockStarts(lines, s, |lines|);
    StartsAreStarts(lines, s, |lines|, k);
    StartsAreStarts(lines, s, |lines|, k - 1);
    StartsClimb(lines, s, |lines|, k - 1, k);
    InRange(lines, total, s, lo, hi, st[k]);
    InRange(lines, total, s, lo, hi, st[k - 1]);
  }

  // ---- Gaps, as positions and as lines ----

  /** A position missed between the first and the last of some ordered spans lies between
      two neighbours. */
  lemma {:induction false} MissedBetween(spans: seq<Span>, lo: nat, hi: nat, p: nat) returns (k: nat)
    requires Ordered(spans, lo, hi) && GapIn(spans, p)
    ensures k + 1 < |spans| && spans[k].end <= p < spans[k + 1].start
    decreases |spans|
  {
    var last := |spans| - 1;
    var front := spans[..last];
    assert p < spans[last].start;
    assert last > 0;
    if p >= spans[last - 1].end {
      k := last - 1;
    } else {
      CoveredConcat(front, [spans[last]], p);
      assert front + [spans[last]] == spans;
      k := MissedBetween(front, lo, hi, p);
    }
  }

  lemma BetweenIsMissed(spans: seq<Span>, lo: nat, hi: nat, k: nat, p: nat)
    requires Ordered(spans, lo, hi) && k + 1 < |spans| && spans[k].end <= p < spans[k + 1].start
    ensures GapIn(spans, p)
  {
    forall j | 0 <= j < |spans|
      ensures !(spans[j].start <= p < spans[j].end)
    {
      assert j <= k || k + 1 <= j;
    }
  }

  /** The positions a qualifying block's groups miss are the bytes of its gap lines. */
  lemma GapsAreGapLines(content: Text, lines: seq<Line>, blk: Span, u: Tables, p: nat)
    requires Lies(content, lines, blk) && Qualifies(lines, blk, u)
    ensures GapIn(KeyValueGroups(lines, blk, u), p) <==> exists i: nat :: GapLine(lines, blk, u, i) && InLine(lines, i, p)
  {
    hide Qualifies, Items, Runs, GapAt, Ordered, Chain;
    ScanPartitions(content);
    var items := Items(lines, blk, u, |lines|);
    GroupsInOrder(lines, |content|, blk, u);
    var groups := GroupsOf(lines, items);
    if GapIn(groups, p) {
      var k := MissedBetween(groups, blk.start, blk.end, p);
      var i := GapLineAt(content, lines, blk, u, k, p);
    }
    if i: nat :| GapLine(lines, blk, u, i) && InLine(lines, i, p) {
      var k: nat :| GapAt(items, k, i);
      GapLineMissed(content, lines, blk, u, k, i, p);
      BetweenIsMissed(groups, blk.start, blk.end, k, p);
    }
  }

  lemma GapLineAt(content: Text, lines: seq<Line>, blk: Span, u: Tables, k: nat, p: nat) returns (i: nat)
    requires Chain(lines, 0, |content|) && Qualifies(lines, blk, u) && Placed(lines, Items(lines, blk, u, |lines|))
    requires var groups := GroupsOf(lines, Items(lines, blk, u, |lines|));
             k + 1 < |groups| && groups[k].end <= p < groups[k + 1].start
    ensures GapLine(lines, blk, u, i) && InLine(lines, i, p)
  {
    hide Qualifies, Items, Runs, Chain;
    var items := Items(lines, blk, u, |lines|);
    GroupLines(lines, blk, u, k);
    GroupLines(lines, blk, u, k + 1);
    var a, z := LastLine(items, k), FirstLine(items, k + 1);
    ChainBounds(lines, 0, |content|, z);
    i := LineHolding(lines, 0, |content|, p);
    LineAfter(lines, |content|, a, i, p);
    LineBefore(lines, |content|, i, z, p);
    assert GapAt(items, k, i);
  }

  lemma LineAfter(lines: seq<Line>, total: nat, a: nat, i: nat, p: nat)
    requires Chain(lines, 0, total) && a < |lines| && InLine(lines, i, p) && lines[a].end <= p
    ensures a < i
  {
    ChainBounds(lines, 0, total, a);
    if i < a {
      ChainOrder(lines, 0, total, i, a);
    }
  }

  lemma LineBefore(lines: seq<Line>, total: nat, i: nat, z: nat, p: nat)
    requires Chain(lines, 0, total) && z < |lines| && InLine(lines, i, p) && p < lines[z].start
    ensures i < z
  {
    ChainBounds(lines, 0, total, z);
    if z < i {
      ChainOrder(lines, 0, total, z, i);
    }
  }

  lemma GapLineMissed(content: Text, lines: seq<Line>, blk: Span, u: Tables, k: nat, i: nat, p: nat)
    requires Chain(lines, 0, |content|) && Placed(lines, Items(lines, blk, u, |lines|))
    requires GapAt(Items(lines, blk, u, |lines|), k, i) && InLine(lines, i, p)
    ensures var groups := GroupsOf(lines, Items(lines, blk, u, |lines|));
            k + 1 < |groups| && groups[k].end <= p < groups[k + 1].start
  {
    hide Items, Runs, Chain;
    var items := Items(lines, blk, u, |lines|);
    GroupLines(lines, blk, u, k);
    GroupLines(lines, blk, u, k + 1);
    ChainOrder(lines, 0, |content|, LastLine(items, k), i);
    ChainOrder(lines, 0, |content|, i, FirstLine(items, k + 1));
  }

  // ---- A section's missing positions ----

  /** Position `p` is in a gap line of one of the blocks. */
  ghost predicate MissingIn(lines: seq<Line>, blocks: seq<Span>, u: Tables, p: nat) {
    exists j :: 0 <= j < |blocks| && MissingFrom(lines, blocks[j], u, p)
  }

  ghost predicate MissingFrom(lines: seq<Line>, blk: Span, u: Tables, p: nat) {
    exists i: nat :: GapLine(lines, blk, u, i) && InLine(lines, i, p)
  }

  /** The chunks of the qualifying blocks lie in order, and their gaps are the blocks'. */
  lemma {:induction false} QualifyingChunked(content: Text, lines: seq<Line>, blocks: seq<Span>, u: Tables, lo: nat, hi: nat)
    requires Tiles(blocks, lo, hi) && lines == ScanLines(content)
    requires forall k :: 0 <= k < |blocks| ==> Lies(content, lines, blocks[k])
    ensures Chunked(QualifyingGroups(lines, blocks, u), lo, hi)
    decreases |blocks|
  {
    hide Lies, KeyValueGroups;
    if blocks != [] {
      var groups := KeyValueGroups(lines, blocks[0], u);
      TilesTail(blocks, lo, hi);
      QualifyingChunked(content, lines, blocks[1..], u, blocks[0].end, hi);
      var rest := QualifyingGroups(lines, blocks[1..], u);
      if groups == [] {
        ChunkedWiden(rest, blocks[0].end, lo, hi);
      } else {
        KeyGroupsOrdered(content, lines, blocks[0], u);
        OrderedToLast(groups, blocks[0].start, blocks[0].end);
        ChunkedWiden(rest, blocks[0].end, LastEnd(groups), hi);
        assert ([groups] + rest)[1..] == rest;
      }
    }
  }

  lemma KeyGroupsOrdered(content: Text, lines: seq<Line>, blk: Span, u: Tables)
    requires Lies(content, lines, blk)
    ensures Ordered(KeyValueGroups(lines, blk, u), blk.start, blk.end)
  {
    hide Qualifies, Items, GroupsOf;
    ScanPartitions(content);
    GroupsInOrder(lines, |content|, blk, u);
  }

  lemma OrderedToLast(spans: seq<Span>, lo: nat, hi: nat)
    requires spans != [] && Ordered(spans, lo, hi)
    ensures Ordered(spans, lo, LastEnd(spans)) && LastEnd(spans) <= hi
  {
  }

  lemma {:induction false} QualifyingGaps(content: Text, lines: seq<Line>, blocks: seq<Span>, u: Tables, p: nat)
    requires forall k :: 0 <= k < |blocks| ==> Lies(content, lines, blocks[k])
    ensures GapInSome(QualifyingGroups(lines, blocks, u), p) <==> MissingIn(lines, blocks, u, p)
    decreases |blocks|
  {
    hide Lies, KeyValueGroups, GapIn, MissingFrom;
    if blocks != [] {
      var groups := KeyValueGroups(lines, blocks[0], u);
      var rest := QualifyingGroups(lines, blocks[1..], u);
      QualifyingGaps(content, lines, blocks[1..], u, p);
      BlockGaps(content, lines, blocks[0], u, p);
      GapCons(groups, rest, p);
      MissingCons(lines, blocks, u, p);
    }
  }

  lemma BlockGaps(content: Text, lines: seq<Line>, blk: Span, u: Tables, p: nat)
    requires Lies(content, lines, blk)
    ensures GapIn(KeyValueGroups(lines, blk, u), p) <==> MissingFrom(lines, blk, u, p)
  {
    hide Lies;
    if Qualifies(lines, blk, u) {
      GapsAreGapLines(content, lines, blk, u, p);
    }
  }

  lemma GapCons(groups: seq<Span>, rest: seq<seq<Span>>, p: nat)
    ensures GapInSome([groups] + rest, p) <==> GapIn(groups, p) || GapInSome(rest, p)
    ensures groups == [] ==> !GapIn(groups, p)
  {
    var all := [groups] + rest;
    if GapIn(groups, p) { assert GapIn(all[0], p); }
    if GapInSome(rest, p) {
      var c :| 0 <= c < |rest| && GapIn(rest[c], p);
      assert GapIn(all[c + 1], p);
    }
  }

  lemma MissingCons(lines: seq<Line>, blocks: seq<Span>, u: Tables, p: nat)
    requires blocks != []
    ensures MissingIn(lines, blocks, u, p) <==> MissingFrom(lines, blocks[0], u, p) || MissingIn(lines, blocks[1..], u, p)
  {
    hide MissingFrom;
    if MissingIn(lines, blocks[1..], u, p) {
      var j :| 0 <= j < |blocks[1..]| && MissingFrom(lines, blocks[1..][j], u, p);
      assert MissingFrom(lines, blocks[j + 1], u, p);
    }
    if MissingIn(lines, blocks, u, p) {
      var j :| 0 <= j < |blocks| && MissingFrom(lines, blocks[j], u, p);
      if j > 0 { assert MissingFrom(lines, blocks[1..][j - 1], u, p); }
    }
  }

  // ---- The three strategies ----

  /** The spans lie in order over [lo, hi) and miss exactly the bytes of gap lines. */
  ghost predicate CoversBut(lines: seq<Line>, spans: seq<Span>, s: Span, u: Tables) {
    && Ordered(spans, s.start, s.end)
    && forall p :: s.start <= p < s.end ==> (Covered(spans, p) <==> !MissingIn(lines, BlocksOf(lines, s), u, p))
  }

  lemma SectionBlocksLie(content: Text, lines: seq<Line>, s: Span)
    requires Lies(content, lines, s)
    ensures forall k :: 0 <= k < |BlocksOf(lines, s)| ==> Lies(content, lines, BlocksOf(lines, s)[k])
  {
    forall k | 0 <= k < |BlocksOf(lines, s)|
      ensures Lies(content, lines, BlocksOf(lines, s)[k])
    {
      BlockLies(content, lines, s, k);
    }
  }

  lemma HomogeneousCovers(content: Text, lines: seq<Line>, s: Span, u: Tables)
    requires Lies(content, lines, s) && Homogeneous(lines, s, u).Some?
    ensures CoversBut(lines, Homogeneous(lines, s, u).value, s, u)
  {
    hide Lies, QualifyingGroups, BlocksOf, Ordered, Covered, MissingIn, Weave;
    var blocks := BlocksOf(lines, s);
    BlocksLie(content, lines, s);
    SectionBlocksLie(content, lines, s);
    LiesFacts(content, lines, s);
    QualifyingChunked(content, lines, blocks, u, s.start, s.end);
    var chunks := QualifyingGroups(lines, blocks, u);
    WeaveOrdered(s.start, chunks, s.end);
    forall p | s.start <= p < s.end
      ensures Covered(Weave(s.start, chunks, s.end), p) <==> !MissingIn(lines, blocks, u, p)
    {
      WeaveCovers(s.start, chunks, s.end, p);
      QualifyingGaps(content, lines, blocks, u, p);
    }
  }

  lemma LiesFacts(content: Text, lines: seq<Line>, s: Span)
    requires Lies(content, lines, s)
    ensures lines == ScanLines(content) && NonEmpty(s) && s.end <= |content|
  {
  }

  /** A section with no qualifying block misses nothing. */
  lemma {:induction false} NothingMissing(lines: seq<Line>, blocks: seq<Span>, u: Tables, p: nat)
    requires QualifyingGroups(lines, blocks, u) == []
    ensures !MissingIn(lines, blocks, u, p)
    decreases |blocks|
  {
    hide Qualifies, GroupsOf;
    if blocks != [] {
      NothingMissing(lines, blocks[1..], u, p);
      MissingCons(lines, blocks, u, p);
      QualifyingHasGroups(lines, blocks[0], u);
    }
  }

  lemma QualifyingHasGroups(lines: seq<Line>, blk: Span, u: Tables)
    ensures Qualifies(lines, blk, u) <==> KeyValueGroups(lines, blk, u) != []
  {
    hide Items, GroupsOf, Fenced, Assignments;
  }

  lemma TilesCoverBut(lines: seq<Line>, spans: seq<Span>, s: Span, u: Tables)
    requires Tiles(spans, s.start, s.end) && QualifyingGroups(lines, BlocksOf(lines, s), u) == []
    ensures CoversBut(lines, spans, s, u)
  {
    hide Covered, MissingIn, QualifyingGroups, BlocksOf;
    forall p | s.start <= p < s.end
      ensures Covered(spans, p) <==> !MissingIn(lines, BlocksOf(lines, s), u, p)
    {
      TilesCover(spans, s.start, s.end, p);
      NothingMissing(lines, BlocksOf(lines, s), u, p);
    }
  }

  /** Fenced blocks, each a chunk, lie in order and have no gaps. */
  lemma {:induction false} FencedChunked(lines: seq<Line>, blocks: seq<Span>, lo: nat, hi: nat)
    requires Tiles(blocks, lo, hi)
    ensures Chunked(FencedChunks(lines, blocks), lo, hi) && AllAbutting(FencedChunks(lines, blocks))
    decreases |blocks|
  {
    hide Fenced;
    if blocks != [] {
      TilesTail(blocks, lo, hi);
      FencedChunked(lines, blocks[1..], blocks[0].end, hi);
      var rest := FencedChunks(lines, blocks[1..]);
      ChunkedWiden(rest, blocks[0].end, lo, hi);
      assert ([[blocks[0]]] + rest)[1..] == rest;
      assert Ordered([blocks[0]], lo, blocks[0].end);
    }
  }

  lemma IsolatedTiles(content: Text, lines: seq<Line>, s: Span, b: Bounds)
    requires Lies(content, lines, s) && Isolated(lines, s, b).Some?
    ensures Tiles(Isolated(lines, s, b).value, s.start, s.end)
  {
    hide Lies, FencedChunks, BlocksOf, Tiles, Weave;
    BlocksLie(content, lines, s);
    FencedChunked(lines, BlocksOf(lines, s), s.start, s.end);
    WeaveTiles(s.start, FencedChunks(lines, BlocksOf(lines, s)), s.end);
  }

  /** An oversized block is tiled by its pieces. */
  lemma OversizedTiles(content: Text, lines: seq<Line>, blk: Span, b: Bounds)
    requires Lies(content, lines, blk)
    ensures var r := SplitOversized(content, lines, blk, b);
            r.Done? ==> Tiles(r.value, blk.start, blk.end)
  {
    hide Fenced, CutOnLines, CutOnSentences;
    ScanPartitions(content);
    if Fenced(lines, blk) {
      if blk.end - blk.start > b.hardMax {
        CutOnLinesTiles(lines, |content|, blk, b.hardMax);
      }
    } else {
      BlockEdgesAreBoundaries(content, lines, blk);
      CutOnSentencesTiles(content, blk, b);
    }
  }

  /** In well-formed text a range of whole lines starts and ends at character boundaries. */
  lemma BlockEdgesAreBoundaries(content: Text, lines: seq<Line>, blk: Span)
    requires Lies(content, lines, blk)
    ensures Utf8.WellFormed(content) ==> Utf8.Boundary(content, blk.start) && Utf8.Boundary(content, blk.end)
  {
    hide ScanLines;
    if Utf8.WellFormed(content) {
      var lo: nat, hi: nat :| OnLines(lines, blk, lo, hi);
      ScanPartitions(content);
      assert LineFinish(lines, lines[hi - 1].end);
      LineFinishIsBoundary(content, blk.end);
      ChainBounds(lines, 0, |content|, lo);
      if lo > 0 {
        assert lines[lo - 1].end == lines[lo].start;
        assert LineFinish(lines, lines[lo - 1].end);
        LineFinishIsBoundary(content, blk.start);
      }
    }
  }

  /** The size path tiles from the start of the open passage on. */
  lemma {:induction false} SizeCutsTile(content: Text, lines: seq<Line>, blocks: seq<Span>, cur: Span, hi: nat, b: Bounds)
    requires forall k :: 0 <= k < |blocks| ==> Lies(content, lines, blocks[k])
    requires InText(content, blocks)
    requires Tiles(blocks, cur.end, hi) && cur.start <= cur.end
    ensures var r := SizeCuts(content, lines, blocks, cur, b);
            r.Done? ==> Tiles(r.value, cur.start, hi)
    decreases |blocks|
  {
    hide Lies, Tiles, SplitOversized;
    KeptTiles(cur);
    if blocks == [] {
      TilesEmpty(cur.end, hi);
    } else if SizeCuts(content, lines, blocks, cur, b).Done? {
      var blk := blocks[0];
      TilesTail(blocks, cur.end, hi);
      TilesHead(blocks, cur.end, hi);
      var pre := if Full(cur, blk, b) then [cur] else [];
      var open := if Full(cur, blk, b) then Span(blk.start, blk.start) else cur;
      KeptTiles(open);
      PreTiles(cur, blk, b);
      if blk.end - blk.start > b.ceiling {
        var pieces := SplitOversized(content, lines, blk, b).value;
        OversizedTiles(content, lines, blk, b);
        var rest := Span(blk.end, blk.end);
        SizeCutsTile(content, lines, blocks[1..], rest, hi, b);
        TilesConcat(pre, cur.start, open.start, Kept(open), open.end);
        TilesConcat(pre + Kept(open), cur.start, open.end, pieces, blk.end);
        TilesConcat(pre + Kept(open) + pieces, cur.start, blk.end,
                    SizeCuts(content, lines, blocks[1..], rest, b).value, hi);
      } else {
        var rest := Span(open.start, blk.end);
        SizeCutsTile(content, lines, blocks[1..], rest, hi, b);
        TilesConcat(pre, cur.start, open.start, SizeCuts(content, lines, blocks[1..], rest, b).value, hi);
      }
    }
  }

  lemma KeptTiles(cur: Span)
    requires cur.start <= cur.end
    ensures Tiles(Kept(cur), cur.start, cur.end)
  {
  }

  lemma TilesEmpty(lo: nat, hi: nat)
    requires Tiles([], lo, hi)
    ensures lo == hi
  {
  }

  lemma TilesHead(spans: seq<Span>, lo: nat, hi: nat)
    requires Tiles(spans, lo, hi) && spans != []
    ensures spans[0].start == lo && NonEmpty(spans[0]) && spans[0].end <= hi
  {
  }

  lemma PreTiles(cur: Span, blk: Span, b: Bounds)
    requires cur.start <= cur.end && blk.start == cur.end
    ensures var pre := if Full(cur, blk, b) then [cur] else [];
            var open := if Full(cur, blk, b) then Span(blk.start, blk.start) else cur;
            Tiles(pre, cur.start, open.start) && open.start <= open.end == cur.end
  {
    KeptTiles(cur);
  }

  lemma BySizeTiles(content: Text, lines: seq<Line>, s: Span, b: Bounds)
    requires Lies(content, lines, s) && InText(content, BlocksOf(lines, s))
    ensures var r := BySize(content, lines, s, b);
            r.Done? ==> Tiles(r.value, s.start, s.end)
  {
    hide Lies, SizeCuts, BlocksOf;
    BlocksLie(content, lines, s);
    SectionBlocksLie(content, lines, s);
    LiesFacts(content, lines, s);
    SizeCutsTile(content, lines, BlocksOf(lines, s), Span(s.start, s.start), s.end, b);
  }

  /** Whatever strategy divides a section, its spans lie in order inside it and miss exactly
      the bytes of its gap lines. */
  lemma SubdivideCovers(content: Text, lines: seq<Line>, s: Span, b: Bounds, u: Tables)
    requires Lies(content, lines, s)
    ensures InText(content, BlocksOf(lines, s))
    ensures var r := Subdivide(content, lines, s, b, u);
            r.Done? ==> CoversBut(lines, r.value, s, u)
  {
    hide Lies, CoversBut, BlocksOf, Weave, QualifyingGroups, FencedChunks, BySize, Tiles, Isolated;
    BlocksLie(content, lines, s);
    if Homogeneous(lines, s, u).Some? {
      HomogeneousCovers(content, lines, s, u);
    } else if Isolated(lines, s, b).Some? {
      IsolatedTiles(content, lines, s, b);
      TilesCoverBut(lines, Isolated(lines, s, b).value, s, u);
    } else if s.end - s.start <= b.ceiling {
      LiesFacts(content, lines, s);
      KeptTiles(s);
      TilesCoverBut(lines, [s], s, u);
    } else if BySize(content, lines, s, b).Done? {
      BySizeTiles(content, lines, s, b);
      TilesCoverBut(lines, BySize(content, lines, s, b).value, s, u);
    }
  }
}
