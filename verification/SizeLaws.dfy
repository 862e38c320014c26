/** What the strategies promise about passage sizes and passage edges
    (handler/doc/splitter.go). */
module SizeLaws {
  import opened Bytes
  import opened Utf8
  import opened Spans
  import opened Lines
  import opened Blocks
  import opened Cuts
  import opened Oversized
  import opened KeyGroups
  import opened Sections
  import opened Weaving
  import opened Subdivision
  import opened Coverage

  // ---- Where a span of the size path comes from ----

  /** The span is the union of blocks a..c and within the ceiling. */
  ghost predicate BlockUnion(blocks: seq<Span>, s: Span, a: nat, c: nat, b: Bounds) {
    && a <= c < |blocks|
    && s.start == blocks[a].start && s.end == blocks[c].end
    && s.end - s.start <= b.ceiling
  }

  /** The span is a piece of a block that is over the ceiling. */
  ghost predicate PieceOf(content: Text, lines: seq<Line>, blk: Span, b: Bounds, s: Span)
    requires blk.start <= blk.end <= |content|
  {
    && blk.end - blk.start > b.ceiling
    && SplitOversized(content, lines, blk, b).Done?
    && s in SplitOversized(content, lines, blk, b).value
  }

  ghost predicate FromBlocks(content: Text, lines: seq<Line>, blocks: seq<Span>, b: Bounds, s: Span)
    requires InText(content, blocks)
  {
    || (exists a: nat, c: nat :: BlockUnion(blocks, s, a, c, b))
    || (exists j :: 0 <= j < |blocks| && PieceOf(content, lines, blocks[j], b, s))
  }

  ghost predicate AllFromBlocks(content: Text, lines: seq<Line>, blocks: seq<Span>, b: Bounds, spans: seq<Span>)
    requires InText(content, blocks)
  {
    forall k :: 0 <= k < |spans| ==> FromBlocks(content, lines, blocks, b, spans[k])
  }

  lemma AllFromConcat(content: Text, lines: seq<Line>, blocks: seq<Span>, b: Bounds, x: seq<Span>, y: seq<Span>)
    requires InText(content, blocks)
    requires AllFromBlocks(content, lines, blocks, b, x) && AllFromBlocks(content, lines, blocks, b, y)
    ensures AllFromBlocks(content, lines, blocks, b, x + y)
  {
    hide FromBlocks;
  }

  /** The open passage is empty, or the union of the blocks from `a` up to the next one. */
  ghost predicate OpenUnion(blocks: seq<Span>, cur: Span, a: nat, i: nat, b: Bounds) {
    if NonEmpty(cur) then i > 0 && BlockUnion(blocks, cur, a, i - 1, b)
    else i < |blocks| ==> cur.start == blocks[i].start
  }

  lemma UnionIsFromBlocks(content: Text, lines: seq<Line>, blocks: seq<Span>, b: Bounds, cur: Span, a: nat, i: nat)
    requires InText(content, blocks) && OpenUnion(blocks, cur, a, i, b)
    ensures AllFromBlocks(content, lines, blocks, b, Kept(cur))
  {
    if NonEmpty(cur) {
      assert BlockUnion(blocks, cur, a, i - 1, b);
    }
  }

  lemma PiecesAreFromBlocks(content: Text, lines: seq<Line>, blocks: seq<Span>, b: Bounds, j: nat)
    requires InText(content, blocks) && j < |blocks| && blocks[j].end - blocks[j].start > b.ceiling
    requires SplitOversized(content, lines, blocks[j], b).Done?
    ensures AllFromBlocks(content, lines, blocks, b, SplitOversized(content, lines, blocks[j], b).value)
  {
    hide SplitOversized;
    var pieces := SplitOversized(content, lines, blocks[j], b).value;
    forall k | 0 <= k < |pieces|
      ensures FromBlocks(content, lines, blocks, b, pieces[k])
    {
      assert PieceOf(content, lines, blocks[j], b, pieces[k]);
    }
  }

  lemma {:induction false} SizeCutsOrigin(content: Text, lines: seq<Line>, blocks: seq<Span>, i: nat, cur: Span, a: nat, b: Bounds)
    requires InText(content, blocks) && i <= |blocks| && Abutting(blocks)
    requires forall k :: 0 <= k < |blocks| ==> NonEmpty(blocks[k])
    requires OpenUnion(blocks, cur, a, i, b) && cur.start <= cur.end
    ensures InText(content, blocks[i..])
    ensures var r := SizeCuts(content, lines, blocks[i..], cur, b);
            r.Done? ==> AllFromBlocks(content, lines, blocks, b, r.value)
    decreases |blocks| - i
  {
    hide SplitOversized, AllFromBlocks, FromBlocks, BlockUnion;
    UnionIsFromBlocks(content, lines, blocks, b, cur, a, i);
    if i < |blocks| && SizeCuts(content, lines, blocks[i..], cur, b).Done? {
      var blk := blocks[i];
      assert blocks[i..][0] == blk && blocks[i..][1..] == blocks[i + 1..];
      var full := Full(cur, blk, b);
      var pre := if full then [cur] else [];
      var open := if full then Span(blk.start, blk.start) else cur;
      NothingIsFromBlocks(content, lines, blocks, b);
      if blk.end - blk.start > b.ceiling {
        var rest := Span(blk.end, blk.end);
        NextOpen(blocks, i, b);
        SizeCutsOrigin(content, lines, blocks, i + 1, rest, 0, b);
        PiecesAreFromBlocks(content, lines, blocks, b, i);
        var pieces, tail := SplitOversized(content, lines, blk, b).value, SizeCuts(content, lines, blocks[i + 1..], rest, b).value;
        AllFromConcat(content, lines, blocks, b, pre, Kept(open));
        AllFromConcat(content, lines, blocks, b, pre + Kept(open), pieces);
        AllFromConcat(content, lines, blocks, b, pre + Kept(open) + pieces, tail);
      } else {
        var rest := Span(open.start, blk.end);
        var from := if NonEmpty(open) then a else i;
        GrownOpen(blocks, cur, a, i, b);
        SizeCutsOrigin(content, lines, blocks, i + 1, rest, from, b);
        AllFromConcat(content, lines, blocks, b, pre, SizeCuts(content, lines, blocks[i + 1..], rest, b).value);
      }
    }
  }

  lemma NothingIsFromBlocks(content: Text, lines: seq<Line>, blocks: seq<Span>, b: Bounds)
    requires InText(content, blocks)
    ensures AllFromBlocks(content, lines, blocks, b, [])
  {
  }

  lemma NextOpen(blocks: seq<Span>, i: nat, b: Bounds)
    requires i < |blocks| && Abutting(blocks)
    ensures OpenUnion(blocks, Span(blocks[i].end, blocks[i].end), 0, i + 1, b)
  {
  }

  lemma GrownOpen(blocks: seq<Span>, cur: Span, a: nat, i: nat, b: Bounds)
    requires i < |blocks| && Abutting(blocks) && OpenUnion(blocks, cur, a, i, b) && cur.start <= cur.end
    requires NonEmpty(blocks[i]) && blocks[i].end - blocks[i].start <= b.ceiling
    ensures var open := if Full(cur, blocks[i], b) then Span(blocks[i].start, blocks[i].start) else cur;
            var from := if NonEmpty(open) then a else i;
            && open.start <= blocks[i].end
            && OpenUnion(blocks, Span(open.start, blocks[i].end), from, i + 1, b)
  {
    if NonEmpty(cur) {
      assert blocks[i - 1].end == blocks[i].start;
    }
  }

  /** Every span of the size path is a union of blocks within the ceiling, or a piece of one
      block that is over it. */
  lemma BySizeOrigin(content: Text, lines: seq<Line>, s: Span, b: Bounds)
    requires Lies(content, lines, s)
    ensures InText(content, BlocksOf(lines, s))
    ensures var r := BySize(content, lines, s, b);
            r.Done? ==> AllFromBlocks(content, lines, BlocksOf(lines, s), b, r.value)
  {
    hide Lies, AllFromBlocks, BlocksOf, SizeCuts;
    BlocksLie(content, lines, s);
    SectionBlocksLie(content, lines, s);
    LiesFacts(content, lines, s);
    var blocks, start := BlocksOf(lines, s), Span(s.start, s.start);
    TilesNonEmpty(blocks, s.start, s.end);
    assert blocks[0..] == blocks;
    SizeCutsOrigin(content, lines, blocks, 0, start, 0, b);
    if SizeCuts(content, lines, blocks, start, b).Done? {
      SizeCutsTile(content, lines, blocks, start, s.end, b);
    }
  }

  lemma TilesNonEmpty(spans: seq<Span>, lo: nat, hi: nat)
    requires Tiles(spans, lo, hi) && lo < hi
    ensures spans != [] && Abutting(spans) && spans[0].start == lo
    ensures forall k :: 0 <= k < |spans| ==> NonEmpty(spans[k])
  {
  }

  // ---- Sizes ----

  /** A piece of an oversized block lies inside it and is at most the hard maximum; only a
      single line of a fenced block is ever more. */
  lemma PieceSize(content: Text, lines: seq<Line>, blk: Span, b: Bounds, s: Span)
    requires Lies(content, lines, blk) && PieceOf(content, lines, blk, b, s)
    ensures blk.start <= s.start && s.end <= blk.end
    ensures s.end - s.start <= b.hardMax || (Fenced(lines, blk) && IsLine(lines, s))
    ensures WellFormed(content) ==> Boundary(content, s.start) && Boundary(content, s.end)
  {
    hide Fenced, CutOnLines, CutOnSentences, IsLine, WellFormed, Boundary;
    ScanPartitions(content);
    LiesFacts(content, lines, blk);
    BlockEdgesAreBoundaries(content, lines, blk);
    var pieces := SplitOversized(content, lines, blk, b).value;
    var k :| 0 <= k < |pieces| && pieces[k] == s;
    OversizedTiles(content, lines, blk, b);
    BlockInside(pieces, blk.start, blk.end, k);
    if Fenced(lines, blk) {
      if blk.end - blk.start > b.hardMax {
        CutOnLinesTiles(lines, |content|, blk, b.hardMax);
        LineEdges(content, lines, pieces, blk, k);
      }
    } else {
      CutOnSentencesTiles(content, blk, b);
      PieceEdges(content, pieces, blk.start, blk.end, k);
    }
  }

  lemma PieceEdges(content: Text, spans: seq<Span>, lo: nat, hi: nat, k: nat)
    requires Tiles(spans, lo, hi) && k < |spans|
    requires WellFormed(content) ==> Boundary(content, lo) && EndAtBoundaries(content, spans)
    ensures WellFormed(content) ==> Boundary(content, spans[k].start) && Boundary(content, spans[k].end)
  {
    hide WellFormed, Boundary;
    if k > 0 {
      assert spans[k - 1].end == spans[k].start;
    }
  }

  lemma LineEdges(content: Text, lines: seq<Line>, spans: seq<Span>, blk: Span, k: nat)
    requires lines == ScanLines(content) && Tiles(spans, blk.start, blk.end) && k < |spans|
    requires EndOnLines(lines, spans) && (WellFormed(content) ==> Boundary(content, blk.start))
    ensures WellFormed(content) ==> Boundary(content, spans[k].start) && Boundary(content, spans[k].end)
  {
    hide WellFormed, Boundary, ScanLines;
    if WellFormed(content) {
      LineFinishIsBoundary(content, spans[k].end);
      if k > 0 {
        assert spans[k - 1].end == spans[k].start;
        LineFinishIsBoundary(content, spans[k - 1].end);
      }
    }
  }

  ghost predicate InsideOne(blocks: seq<Span>, s: Span) {
    exists j :: 0 <= j < |blocks| && blocks[j].start <= s.start && s.end <= blocks[j].end
  }

  /** The span is one line of one of the blocks, and that block is fenced. */
  ghost predicate LineOfFence(lines: seq<Line>, blocks: seq<Span>, s: Span) {
    exists i, j :: 0 <= i < |lines| && 0 <= j < |blocks|
      && s == SpanOf(lines[i]) && In(lines, blocks[j], i) && Fenced(lines, blocks[j])
  }

  lemma FencedLine(lines: seq<Line>, blocks: seq<Span>, s: Span, j: nat)
    requires j < |blocks| && Fenced(lines, blocks[j]) && IsLine(lines, s)
    requires blocks[j].start <= s.start && s.end <= blocks[j].end
    ensures LineOfFence(lines, blocks, s)
  {
    hide Fenced;
    var i :| 0 <= i < |lines| && s == SpanOf(lines[i]);
    assert In(lines, blocks[j], i);
  }

  /** What the size path promises of one span: within the hard maximum unless it is a single
      line of a fenced block, and over the ceiling only inside one block. */
  ghost predicate Sized(lines: seq<Line>, blocks: seq<Span>, b: Bounds, s: Span) {
    && (s.end - s.start > b.ceiling ==> InsideOne(blocks, s))
    && (s.end - s.start > b.hardMax ==> LineOfFence(lines, blocks, s))
  }

  lemma BySizeSized(content: Text, lines: seq<Line>, s: Span, b: Bounds, k: nat)
    requires Lies(content, lines, s) && InText(content, BlocksOf(lines, s)) && b.ceiling <= b.hardMax
    requires BySize(content, lines, s, b).Done? && k < |BySize(content, lines, s, b).value|
    ensures Sized(lines, BlocksOf(lines, s), b, BySize(content, lines, s, b).value[k])
  {
    hide Lies, BlocksOf, BySize, BlockUnion, PieceOf, IsLine, Fenced, LineOfFence;
    BySizeOrigin(content, lines, s, b);
    SectionBlocksLie(content, lines, s);
    var blocks, span := BlocksOf(lines, s), BySize(content, lines, s, b).value[k];
    assert FromBlocks(content, lines, blocks, b, span);
    if j :| 0 <= j < |blocks| && PieceOf(content, lines, blocks[j], b, span) {
      PieceSize(content, lines, blocks[j], b, span);
      if span.end - span.start > b.hardMax {
        FencedLine(lines, blocks, span, j);
      }
    } else {
      var a: nat, c: nat :| BlockUnion(blocks, span, a, c, b);
      UnionSize(blocks, span, a, c, b);
    }
  }

  lemma UnionSize(blocks: seq<Span>, s: Span, a: nat, c: nat, b: Bounds)
    requires BlockUnion(blocks, s, a, c, b)
    ensures s.end - s.start <= b.ceiling
  {
  }

  /** A section with no protected line takes neither structural path. */
  lemma {:induction false} NoFenceNoChunks(lines: seq<Line>, blocks: seq<Span>, u: Tables)
    requires forall i :: 0 <= i < |blocks| ==> !Fenced(lines, blocks[i])
    ensures QualifyingGroups(lines, blocks, u) == [] && FencedChunks(lines, blocks) == []
    decreases |blocks|
  {
    hide Fenced, Items, GroupsOf, Assignments;
    if blocks != [] {
      NoFenceNoChunks(lines, blocks[1..], u);
      assert !Fenced(lines, blocks[0]);
    }
  }

  /** No line of the section is protected. */
  ghost predicate Unprotected(lines: seq<Line>, s: Span) {
    forall i :: 0 <= i < |lines| && In(lines, s, i) ==> !lines[i].isProtected
  }

  lemma UnprotectedBlocks(content: Text, lines: seq<Line>, s: Span, j: nat)
    requires Lies(content, lines, s) && Unprotected(lines, s) && j < |BlocksOf(lines, s)|
    ensures !Fenced(lines, BlocksOf(lines, s)[j])
  {
    hide BlocksOf, Lies;
    BlocksLie(content, lines, s);
    BlockInside(BlocksOf(lines, s), s.start, s.end, j);
    var blk := BlocksOf(lines, s)[j];
    forall i | 0 <= i < |lines| && In(lines, blk, i)
      ensures !lines[i].isProtected
    {
      assert In(lines, s, i);
    }
  }

  /** A section with no protected line yields only spans within the hard maximum, and one
      over the ceiling lies inside a single block. */
  lemma UnprotectedSized(content: Text, lines: seq<Line>, s: Span, b: Bounds, u: Tables, k: nat)
    requires Lies(content, lines, s) && InText(content, BlocksOf(lines, s)) && b.ceiling <= b.hardMax
    requires Unprotected(lines, s)
    requires Subdivide(content, lines, s, b, u).Done? && k < |Subdivide(content, lines, s, b, u).value|
    ensures var span := Subdivide(content, lines, s, b, u).value[k];
            && span.end - span.start <= b.hardMax
            && (span.end - span.start > b.ceiling ==> InsideOne(BlocksOf(lines, s), span))
  {
    hide Lies, BlocksOf, BySize, QualifyingGroups, FencedChunks, Fenced, IsLine;
    var blocks := BlocksOf(lines, s);
    forall j | 0 <= j < |blocks|
      ensures !Fenced(lines, blocks[j])
    {
      UnprotectedBlocks(content, lines, s, j);
    }
    NoFenceNoChunks(lines, blocks, u);
    if s.end - s.start > b.ceiling {
      BySizeSized(content, lines, s, b, k);
    }
  }
}
