/** Where passages may begin and end (handler/doc/splitter.go): fences are cut only in
    key/value lists and in blocks over the hard maximum, and characters never. */
module Edges {
  import opened Bytes
  import opened Utf8
  import opened Spans
  import opened Lines
  import opened Blocks
  import opened Cuts
  import opened Oversized
  import opened KeyGroups
  import opened Sections
  import opened Weaving
  import opened Subdivision
  import opened Coverage
  import opened SizeLaws

  /** `q` is where a block of the section begins or ends. */
  ghost predicate BlockEdge(blocks: seq<Span>, q: nat) {
    exists j :: 0 <= j < |blocks| && (blocks[j].start == q || blocks[j].end == q)
  }

  /** A block the strategies may cut inside: prose, a key/value list, or one over the hard
      maximum. */
  ghost predicate MayCut(lines: seq<Line>, blk: Span, b: Bounds, u: Tables) {
    !Fenced(lines, blk) || Qualifies(lines, blk, u) || blk.end - blk.start > b.hardMax
  }

  ghost predicate InnerEdge(lines: seq<Line>, blocks: seq<Span>, b: Bounds, u: Tables, q: nat) {
    exists j :: 0 <= j < |blocks| && CutInside(lines, blocks[j], b, u, q)
  }

  ghost predicate CutInside(lines: seq<Line>, blk: Span, b: Bounds, u: Tables, q: nat) {
    blk.start <= q <= blk.end && MayCut(lines, blk, b, u)
  }

  /** An edge a passage of this section may have. */
  ghost predicate GoodEdge(content: Text, lines: seq<Line>, blocks: seq<Span>, b: Bounds, u: Tables, q: nat) {
    && (BlockEdge(blocks, q) || InnerEdge(lines, blocks, b, u, q))
    && (WellFormed(content) ==> Boundary(content, q))
  }

  ghost predicate GoodEdges(content: Text, lines: seq<Line>, blocks: seq<Span>, b: Bounds, u: Tables, spans: seq<Span>) {
    forall k :: 0 <= k < |spans| ==>
      GoodEdge(content, lines, blocks, b, u, spans[k].start) && GoodEdge(content, lines, blocks, b, u, spans[k].end)
  }

  lemma BlockEdgeIsGood(content: Text, lines: seq<Line>, blocks: seq<Span>, b: Bounds, u: Tables, j: nat)
    requires j < |blocks| && Lies(content, lines, blocks[j])
    ensures GoodEdge(content, lines, blocks, b, u, blocks[j].start)
    ensures GoodEdge(content, lines, blocks, b, u, blocks[j].end)
  {
    hide Lies, WellFormed, Boundary;
    BlockEdgesAreBoundaries(content, lines, blocks[j]);
    assert BlockEdge(blocks, blocks[j].start) && BlockEdge(blocks, blocks[j].end);
  }

  lemma InnerEdgeIsGood(content: Text, lines: seq<Line>, blocks: seq<Span>, b: Bounds, u: Tables, j: nat, q: nat)
    requires j < |blocks| && CutInside(lines, blocks[j], b, u, q)
    requires WellFormed(content) ==> Boundary(content, q)
    ensures GoodEdge(content, lines, blocks, b, u, q)
  {
    hide CutInside, WellFormed, Boundary;
    assert InnerEdge(lines, blocks, b, u, q);
  }

  // ---- Woven spans ----

  /** All chunks' spans have good edges. */
  ghost predicate GoodChunks(content: Text, lines: seq<Line>, blocks: seq<Span>, b: Bounds, u: Tables, chunks: seq<seq<Span>>) {
    forall c :: 0 <= c < |chunks| ==> GoodEdges(content, lines, blocks, b, u, chunks[c])
  }

  lemma GoodConcat(content: Text, lines: seq<Line>, blocks: seq<Span>, b: Bounds, u: Tables, x: seq<Span>, y: seq<Span>)
    requires GoodEdges(content, lines, blocks, b, u, x) && GoodEdges(content, lines, blocks, b, u, y)
    ensures GoodEdges(content, lines, blocks, b, u, x + y)
  {
    hide GoodEdge;
  }

  lemma {:induction false} WeaveEdges(content: Text, lines: seq<Line>, blocks: seq<Span>, b: Bounds, u: Tables,
                                      lo: nat, chunks: seq<seq<Span>>, hi: nat)
    requires NoneEmpty(chunks) && GoodChunks(content, lines, blocks, b, u, chunks)
    requires GoodEdge(content, lines, blocks, b, u, lo) && GoodEdge(content, lines, blocks, b, u, hi)
    ensures GoodEdges(content, lines, blocks, b, u, Weave(lo, chunks, hi))
    decreases |chunks|
  {
    hide GoodEdge;
    if chunks != [] {
      var first := chunks[0];
      assert GoodEdges(content, lines, blocks, b, u, first);
      var rest := Weave(LastEnd(first), chunks[1..], hi);
      WeaveEdges(content, lines, blocks, b, u, LastEnd(first), chunks[1..], hi);
      GoodConcat(content, lines, blocks, b, u, Before(lo, first), first);
      GoodConcat(content, lines, blocks, b, u, Before(lo, first) + first, rest);
    }
  }

  /** The groups of a qualifying block cut only inside it, between its lines. */
  lemma GroupEdgesGood(content: Text, lines: seq<Line>, blocks: seq<Span>, b: Bounds, u: Tables, j: nat)
    requires j < |blocks| && Lies(content, lines, blocks[j])
    ensures GoodEdges(content, lines, blocks, b, u, KeyValueGroups(lines, blocks[j], u))
  {
    hide Lies, Qualifies, Items, Runs, GoodEdge;
    ScanPartitions(content);
    LiesFacts(content, lines, blocks[j]);
    var groups := KeyValueGroups(lines, blocks[j], u);
    forall k | 0 <= k < |groups|
      ensures GoodEdge(content, lines, blocks, b, u, groups[k].start) && GoodEdge(content, lines, blocks, b, u, groups[k].end)
    {
      GroupEdgeGood(content, lines, blocks, b, u, j, k);
    }
  }

  lemma GroupEdgeGood(content: Text, lines: seq<Line>, blocks: seq<Span>, b: Bounds, u: Tables, j: nat, k: nat)
    requires j < |blocks| && Chain(lines, 0, |content|) && lines == ScanLines(content)
    requires Qualifies(lines, blocks[j], u) && k < |KeyValueGroups(lines, blocks[j], u)|
    ensures var g := KeyValueGroups(lines, blocks[j], u)[k];
            GoodEdge(content, lines, blocks, b, u, g.start) && GoodEdge(content, lines, blocks, b, u, g.end)
  {
    hide Qualifies, Items, Runs, GoodEdge, WellFormed, Boundary, Chain, ScanLines;
    var blk := blocks[j];
    var g, items := KeyValueGroups(lines, blk, u)[k], Items(lines, blk, u, |lines|);
    GroupLines(lines, blk, u, k);
    GroupWithin(lines, |content|, blk, u, k);
    LineEdgesAreBoundaries(content, lines, FirstLine(items, k));
    LineEdgesAreBoundaries(content, lines, LastLine(items, k));
    InnerEdgeIsGood(content, lines, blocks, b, u, j, g.start);
    InnerEdgeIsGood(content, lines, blocks, b, u, j, g.end);
  }

  lemma LineEdgesAreBoundaries(content: Text, lines: seq<Line>, i: nat)
    requires lines == ScanLines(content) && i < |lines| && Chain(lines, 0, |content|)
    ensures WellFormed(content) ==> Boundary(content, lines[i].start) && Boundary(content, lines[i].end)
  {
    hide WellFormed, Boundary, ScanLines;
    var s := SpanOf(lines[i]);
    ChainBounds(lines, 0, |content|, i);
    assert OnLines(lines, s, i, i + 1);
    BlockEdgesAreBoundaries(content, lines, s);
  }

  lemma {:induction false} QualifyingEdges(content: Text, lines: seq<Line>, blocks: seq<Span>, b: Bounds, u: Tables, i: nat)
    requires i <= |blocks| && forall k :: 0 <= k < |blocks| ==> Lies(content, lines, blocks[k])
    ensures GoodChunks(content, lines, blocks, b, u, QualifyingGroups(lines, blocks[i..], u))
    decreases |blocks| - i
  {
    hide Lies, KeyValueGroups, GoodEdges;
    if i < |blocks| {
      QualifyingStep(lines, blocks, u, i);
      QualifyingEdges(content, lines, blocks, b, u, i + 1);
      GroupEdgesGood(content, lines, blocks, b, u, i);
    }
  }

  lemma {:induction false} FencedEdges(content: Text, lines: seq<Line>, blocks: seq<Span>, b: Bounds, u: Tables, i: nat)
    requires i <= |blocks| && forall k :: 0 <= k < |blocks| ==> Lies(content, lines, blocks[k])
    ensures GoodChunks(content, lines, blocks, b, u, FencedChunks(lines, blocks[i..]))
    decreases |blocks| - i
  {
    hide Lies, Fenced, GoodEdge;
    if i < |blocks| {
      assert blocks[i..][0] == blocks[i] && blocks[i..][1..] == blocks[i + 1..];
      FencedEdges(content, lines, blocks, b, u, i + 1);
      BlockEdgeIsGood(content, lines, blocks, b, u, i);
    }
  }

  // ---- Size path ----

  lemma BySizeEdges(content: Text, lines: seq<Line>, s: Span, b: Bounds, u: Tables)
    requires Lies(content, lines, s) && InText(content, BlocksOf(lines, s))
    requires BySize(content, lines, s, b).Done?
    ensures GoodEdges(content, lines, BlocksOf(lines, s), b, u, BySize(content, lines, s, b).value)
  {
    hide Lies, BlocksOf, BySize, FromBlocks, GoodEdge;
    BySizeOrigin(content, lines, s, b);
    SectionBlocksLie(content, lines, s);
    var blocks, spans := BlocksOf(lines, s), BySize(content, lines, s, b).value;
    forall k | 0 <= k < |spans|
      ensures GoodEdge(content, lines, blocks, b, u, spans[k].start) && GoodEdge(content, lines, blocks, b, u, spans[k].end)
    {
      OriginEdges(content, lines, blocks, b, u, spans[k]);
    }
  }

  lemma OriginEdges(content: Text, lines: seq<Line>, blocks: seq<Span>, b: Bounds, u: Tables, s: Span)
    requires InText(content, blocks) && FromBlocks(content, lines, blocks, b, s)
    requires forall k :: 0 <= k < |blocks| ==> Lies(content, lines, blocks[k])
    ensures GoodEdge(content, lines, blocks, b, u, s.start) && GoodEdge(content, lines, blocks, b, u, s.end)
  {
    hide Lies, PieceOf, GoodEdge, BlockUnion;
    if j :| 0 <= j < |blocks| && PieceOf(content, lines, blocks[j], b, s) {
      PieceOfEdges(content, lines, blocks, b, u, s, j);
    } else {
      var a: nat, c: nat :| BlockUnion(blocks, s, a, c, b);
      UnionEdges(blocks, s, a, c, b);
      BlockEdgeIsGood(content, lines, blocks, b, u, a);
      BlockEdgeIsGood(content, lines, blocks, b, u, c);
    }
  }

  lemma UnionEdges(blocks: seq<Span>, s: Span, a: nat, c: nat, b: Bounds)
    requires BlockUnion(blocks, s, a, c, b)
    ensures a <= c < |blocks| && s.start == blocks[a].start && s.end == blocks[c].end
  {
  }

  lemma PieceOfEdges(content: Text, lines: seq<Line>, blocks: seq<Span>, b: Bounds, u: Tables, s: Span, j: nat)
    requires InText(content, blocks) && j < |blocks| && PieceOf(content, lines, blocks[j], b, s)
    requires Lies(content, lines, blocks[j])
    ensures GoodEdge(content, lines, blocks, b, u, s.start) && GoodEdge(content, lines, blocks, b, u, s.end)
  {
    hide Lies, GoodEdge, Fenced, Qualifies, CutOnLines, CutOnSentences, WellFormed, Boundary, IsLine;
    var blk := blocks[j];
    PieceSize(content, lines, blk, b, s);
    PieceNonEmpty(content, lines, blk, b, s);
    if MayCut(lines, blk, b, u) {
      InnerEdgeIsGood(content, lines, blocks, b, u, j, s.start);
      InnerEdgeIsGood(content, lines, blocks, b, u, j, s.end);
    } else {
      assert s == blk;
      BlockEdgeIsGood(content, lines, blocks, b, u, j);
    }
  }

  lemma PieceNonEmpty(content: Text, lines: seq<Line>, blk: Span, b: Bounds, s: Span)
    requires Lies(content, lines, blk) && PieceOf(content, lines, blk, b, s)
    ensures NonEmpty(s)
  {
    hide Lies, SplitOversized;
    OversizedTiles(content, lines, blk, b);
  }

  // ---- Any strategy ----

  /** The first and last block edges are the section's own. */
  lemma SectionEdges(content: Text, lines: seq<Line>, s: Span, b: Bounds, u: Tables)
    requires Lies(content, lines, s)
    ensures GoodEdge(content, lines, BlocksOf(lines, s), b, u, s.start)
    ensures GoodEdge(content, lines, BlocksOf(lines, s), b, u, s.end)
  {
    hide Lies, BlocksOf, GoodEdge;
    BlocksLie(content, lines, s);
    SectionBlocksLie(content, lines, s);
    LiesFacts(content, lines, s);
    var blocks := BlocksOf(lines, s);
    TilesNonEmpty(blocks, s.start, s.end);
    BlockEdgeIsGood(content, lines, blocks, b, u, 0);
    BlockEdgeIsGood(content, lines, blocks, b, u, |blocks| - 1);
  }

  /** Whatever strategy divides a section, every passage edge is a block edge, or lies in a
      block that may be cut; and in well-formed text it is a character boundary. */
  lemma SubdivideEdges(content: Text, lines: seq<Line>, s: Span, b: Bounds, u: Tables)
    requires Lies(content, lines, s) && InText(content, BlocksOf(lines, s))
    requires Subdivide(content, lines, s, b, u).Done?
    ensures GoodEdges(content, lines, BlocksOf(lines, s), b, u, Subdivide(content, lines, s, b, u).value)
  {
    hide Lies, BlocksOf, BySize, QualifyingGroups, FencedChunks, Weave, GoodEdge, GoodChunks, FencedBytes;
    var blocks := BlocksOf(lines, s);
    SectionBlocksLie(content, lines, s);
    SectionEdges(content, lines, s, b, u);
    assert blocks[0..] == blocks;
    if Homogeneous(lines, s, u).Some? {
      QualifyingEdges(content, lines, blocks, b, u, 0);
      WeaveEdges(content, lines, blocks, b, u, s.start, QualifyingGroups(lines, blocks, u), s.end);
    } else if Isolated(lines, s, b).Some? {
      FencedEdges(content, lines, blocks, b, u, 0);
      WeaveEdges(content, lines, blocks, b, u, s.start, FencedChunks(lines, blocks), s.end);
    } else if s.end - s.start > b.ceiling {
      BySizeEdges(content, lines, s, b, u);
    }
  }

  // ---- Fences ----

  /** Lines a..c are all protected, and `q` falls strictly inside them. */
  ghost predicate InsideFence(lines: seq<Line>, a: nat, c: nat, q: nat) {
    && a <= c < |lines|
    && lines[a].start < q < lines[c].end
    && forall i :: a <= i <= c ==> lines[i].isProtected
  }

  /** A position strictly inside protected lines is no block edge of a section that starts
      clean: blocks meet at an unprotected blank line. */
  lemma FenceHoldsNoBlockEdge(content: Text, lines: seq<Line>, s: Span, a: nat, c: nat, q: nat)
    requires Lies(content, lines, s) && InsideFence(lines, a, c, q) && s.start < q < s.end
    ensures !BlockEdge(BlocksOf(lines, s), q)
  {
    hide Lies, BlocksOf, TrimSpace, Tiles;
    BlocksLie(content, lines, s);
    LiesFacts(content, lines, s);
    var blocks := BlocksOf(lines, s);
    if BlockEdge(blocks, q) {
      var k := CutIndex(blocks, s.start, s.end, q);
      var i := BlocksMeetAtBlanks(lines, |content|, s, k);
      MeetsOutside(lines, |content|, a, c, i);
    }
  }

  lemma CutIndex(blocks: seq<Span>, lo: nat, hi: nat, q: nat) returns (k: nat)
    requires Tiles(blocks, lo, hi) && BlockEdge(blocks, q) && lo < q < hi
    ensures 0 < k < |blocks| && blocks[k].start == q
  {
    var j :| 0 <= j < |blocks| && (blocks[j].start == q || blocks[j].end == q);
    if blocks[j].start == q {
      k := j;
    } else {
      assert j + 1 < |blocks|;
      assert blocks[j].end == blocks[j + 1].start;
      k := j + 1;
    }
  }

  /** A line that follows an unprotected one does not start strictly inside protected lines. */
  lemma MeetsOutside(lines: seq<Line>, total: nat, a: nat, c: nat, i: nat)
    requires Chain(lines, 0, total) && 0 < i < |lines| && !lines[i - 1].isProtected
    requires a <= c < |lines| && forall j :: a <= j <= c ==> lines[j].isProtected
    ensures !(lines[a].start < lines[i].start < lines[c].end)
  {
    ChainBounds(lines, 0, total, i);
    ChainBounds(lines, 0, total, a);
    if i < a {
      ChainOrder(lines, 0, total, i, a);
    } else if c < i {
      ChainOrder(lines, 0, total, c, i);
    }
  }

  /** Hence a passage edge strictly inside protected lines lies in a key/value list or in a
      block over the hard maximum. */
  lemma FenceCutOnlyWhere(content: Text, lines: seq<Line>, s: Span, b: Bounds, u: Tables, a: nat, c: nat, q: nat)
    returns (j: nat)
    requires Lies(content, lines, s) && InsideFence(lines, a, c, q) && s.start < q < s.end
    requires GoodEdge(content, lines, BlocksOf(lines, s), b, u, q)
    ensures j < |BlocksOf(lines, s)|
    ensures var blk := BlocksOf(lines, s)[j];
            && blk.start < q < blk.end
            && (Qualifies(lines, blk, u) || blk.end - blk.start > b.hardMax)
  {
    hide Lies, BlocksOf, Qualifies, WellFormed, Boundary;
    FenceHoldsNoBlockEdge(content, lines, s, a, c, q);
    var blocks := BlocksOf(lines, s);
    j :| 0 <= j < |blocks| && CutInside(lines, blocks[j], b, u, q);
    NotAnEdge(blocks, j, q);
    if !Fenced(lines, blocks[j]) {
      FenceInBlock(content, lines, s, a, c, q, j);
    }
  }

  lemma NotAnEdge(blocks: seq<Span>, j: nat, q: nat)
    requires !BlockEdge(blocks, q) && j < |blocks|
    ensures blocks[j].start != q && blocks[j].end != q
  {
  }

  /** The block around such a position holds a protected line. */
  lemma FenceInBlock(content: Text, lines: seq<Line>, s: Span, a: nat, c: nat, q: nat, j: nat)
    requires Lies(content, lines, s) && InsideFence(lines, a, c, q)
    requires j < |BlocksOf(lines, s)| && BlocksOf(lines, s)[j].start < q < BlocksOf(lines, s)[j].end
    ensures Fenced(lines, BlocksOf(lines, s)[j])
  {
    hide BlocksOf, Lies;
    BlocksLie(content, lines, s);
    BlockLies(content, lines, s, j);
    LiesFacts(content, lines, BlocksOf(lines, s)[j]);
    var blk := BlocksOf(lines, s)[j];
    var i := LineHolding(lines, 0, |content|, q);
    ChainBounds(lines, 0, |content|, a);
    LineAfterStart(lines, |content|, a, i, q);
    LineBeforeEnd(lines, |content|, c, i, q);
    HoldingLineInside(content, lines, blk, i, q);
    assert lines[i].isProtected;
  }

  lemma LineAfterStart(lines: seq<Line>, total: nat, a: nat, i: nat, q: nat)
    requires Chain(lines, 0, total) && a < |lines| && InLine(lines, i, q) && lines[a].start < q
    ensures a <= i
  {
    if i < a {
      ChainOrder(lines, 0, total, i, a);
    }
  }

  lemma LineBeforeEnd(lines: seq<Line>, total: nat, c: nat, i: nat, q: nat)
    requires Chain(lines, 0, total) && c < |lines| && InLine(lines, i, q) && q < lines[c].end
    ensures i <= c
  {
    if c < i {
      ChainOrder(lines, 0, total, c, i);
    }
  }

  lemma HoldingLineInside(content: Text, lines: seq<Line>, blk: Span, i: nat, q: nat)
    requires Lies(content, lines, blk) && InLine(lines, i, q) && blk.start <= q < blk.end
    ensures In(lines, blk, i)
  {
    hide ScanLines;
    ScanPartitions(content);
    var lo: nat, hi: nat :| OnLines(lines, blk, lo, hi);
    InRange(lines, |content|, blk, lo, hi, i);
    if i < lo {
      ChainOrder(lines, 0, |content|, i, lo);
    } else if hi - 1 < i {
      ChainOrder(lines, 0, |content|, hi - 1, i);
    }
  }
}
