/** The greedy loops (handler/doc/splitter.go): what shares a passage does so up to the bound,
    so each cut stands where the next unit would have passed it. */
module Packing {
  import opened Bytes
  import opened Utf8
  import opened Spans
  import opened Lines
  import opened Blocks
  import opened Headings
  import opened Cuts
  import opened Oversized
  import opened KeyGroups
  import opened Sections
  import opened Merging
  import opened Subdivision
  import opened Coverage
  import opened SizeLaws
  import opened Splitter
  import opened Exceeding
  import opened Finishing

  // ---- blocks on the size path ----

  /** If the span is a union of blocks, the block after it would take it past the ceiling. */
  ghost predicate Packed(blocks: seq<Span>, x: Span, b: Bounds) {
    forall a: nat, c: nat :: BlockUnion(blocks, x, a, c, b) && c + 1 < |blocks| ==>
      (x.end - x.start) + (blocks[c + 1].end - blocks[c + 1].start) > b.ceiling
  }

  ghost predicate AllPacked(blocks: seq<Span>, spans: seq<Span>, b: Bounds) {
    forall k :: 0 <= k < |spans| ==> Packed(blocks, spans[k], b)
  }

  ghost predicate Solid(blocks: seq<Span>) {
    Abutting(blocks) && forall k :: 0 <= k < |blocks| ==> NonEmpty(blocks[k])
  }

  lemma {:induction false} EndsRise(blocks: seq<Span>, i: nat, j: nat)
    requires Solid(blocks) && i < j < |blocks|
    ensures blocks[i].end <= blocks[j].start < blocks[j].end
    decreases j - i
  {
    if i + 1 < j {
      EndsRise(blocks, i, j - 1);
    }
    assert blocks[j - 1].end == blocks[j].start;
  }

  lemma PackedConcat(blocks: seq<Span>, x: seq<Span>, y: seq<Span>, b: Bounds)
    requires AllPacked(blocks, x, b) && AllPacked(blocks, y, b)
    ensures AllPacked(blocks, x + y, b)
  {
    hide Packed;
  }

  /** The open passage before block `i`, which would not fit, or before no block at all. */
  lemma KeptIsPacked(blocks: seq<Span>, cur: Span, i: nat, b: Bounds)
    requires Solid(blocks) && i <= |blocks|
    requires NonEmpty(cur) ==> i > 0 && cur.end == blocks[i - 1].end
    requires i < |blocks| ==> (cur.end - cur.start) + (blocks[i].end - blocks[i].start) > b.ceiling
    ensures AllPacked(blocks, Kept(cur), b)
  {
    if NonEmpty(cur) {
      forall a: nat, c: nat | BlockUnion(blocks, cur, a, c, b) && c + 1 < |blocks|
        ensures (cur.end - cur.start) + (blocks[c + 1].end - blocks[c + 1].start) > b.ceiling
      {
        if c < i - 1 {
          EndsRise(blocks, c, i - 1);
        } else if i - 1 < c {
          EndsRise(blocks, i - 1, c);
        }
      }
    }
  }

  /** A piece of a block over the ceiling is no union of blocks within it. */
  lemma PieceIsPacked(blocks: seq<Span>, j: nat, x: Span, b: Bounds)
    requires Solid(blocks) && j < |blocks| && blocks[j].end - blocks[j].start > b.ceiling
    requires NonEmpty(x) && blocks[j].start <= x.start && x.end <= blocks[j].end
    ensures Packed(blocks, x, b)
  {
    forall a: nat, c: nat | BlockUnion(blocks, x, a, c, b) ensures false {
      if a < j {
        EndsRise(blocks, a, j);
      } else if j < a {
        EndsRise(blocks, j, a);
      }
      if c < j {
        EndsRise(blocks, c, j);
      } else if j < c {
        EndsRise(blocks, j, c);
      }
    }
  }

  lemma PiecesArePacked(content: Text, lines: seq<Line>, blocks: seq<Span>, j: nat, b: Bounds)
    requires Solid(blocks) && InText(content, blocks) && j < |blocks| && blocks[j].end - blocks[j].start > b.ceiling
    requires Lies(content, lines, blocks[j]) && SplitOversized(content, lines, blocks[j], b).Done?
    ensures AllPacked(blocks, SplitOversized(content, lines, blocks[j], b).value, b)
  {
    hide SplitOversized, Packed, Lies;
    var pieces := SplitOversized(content, lines, blocks[j], b).value;
    OversizedTiles(content, lines, blocks[j], b);
    forall k | 0 <= k < |pieces| ensures Packed(blocks, pieces[k], b) {
      BlockInside(pieces, blocks[j].start, blocks[j].end, k);
      PieceIsPacked(blocks, j, pieces[k], b);
    }
  }

  lemma {:induction false} SizeCutsPack(content: Text, lines: seq<Line>, blocks: seq<Span>, i: nat, cur: Span, b: Bounds)
    requires InText(content, blocks) && i <= |blocks| && Solid(blocks)
    requires forall k :: 0 <= k < |blocks| ==> Lies(content, lines, blocks[k])
    requires cur.start <= cur.end && (NonEmpty(cur) ==> i > 0 && cur.end == blocks[i - 1].end)
    requires !NonEmpty(cur) && i < |blocks| ==> cur.start == blocks[i].start
    ensures InText(content, blocks[i..])
    ensures var r := SizeCuts(content, lines, blocks[i..], cur, b);
            r.Done? ==> AllPacked(blocks, r.value, b)
    decreases |blocks| - i
  {
    hide SplitOversized, AllPacked, Lies;
    PackedNothing(blocks, b);
    if i == |blocks| {
      KeptIsPacked(blocks, cur, i, b);
    } else if SizeCuts(content, lines, blocks[i..], cur, b).Done? {
      var blk := blocks[i];
      assert blocks[i..][0] == blk && blocks[i..][1..] == blocks[i + 1..];
      assert i > 0 ==> blocks[i - 1].end == blk.start;
      assert i + 1 < |blocks| ==> blk.end == blocks[i + 1].start;
      var over := (cur.end - cur.start) + (blk.end - blk.start) > b.ceiling;
      if over {
        KeptIsPacked(blocks, cur, i, b);
      }
      var full := Full(cur, blk, b);
      var pre := if full then [cur] else [];
      var open := if full then Span(blk.start, blk.start) else cur;
      if blk.end - blk.start > b.ceiling {
        var rest := Span(blk.end, blk.end);
        SizeCutsPack(content, lines, blocks, i + 1, rest, b);
        PiecesArePacked(content, lines, blocks, i, b);
        var pieces, tail := SplitOversized(content, lines, blk, b).value, SizeCuts(content, lines, blocks[i + 1..], rest, b).value;
        PackedConcat(blocks, pre, Kept(open), b);
        PackedConcat(blocks, pre + Kept(open), pieces, b);
        PackedConcat(blocks, pre + Kept(open) + pieces, tail, b);
      } else {
        var rest := Span(open.start, blk.end);
        SizeCutsPack(content, lines, blocks, i + 1, rest, b);
        PackedConcat(blocks, pre, SizeCuts(content, lines, blocks[i + 1..], rest, b).value, b);
      }
    }
  }

  lemma PackedNothing(blocks: seq<Span>, b: Bounds)
    ensures AllPacked(blocks, [], b)
  {
  }

  /** On the size path a passage that ends before a block could not have taken that block in. */
  lemma BySizePacks(content: Text, lines: seq<Line>, s: Span, b: Bounds, x: Span, a: nat, c: nat)
    requires Lies(content, lines, s) && InText(content, BlocksOf(lines, s))
    requires BySize(content, lines, s, b).Done? && x in BySize(content, lines, s, b).value
    requires BlockUnion(BlocksOf(lines, s), x, a, c, b) && c + 1 < |BlocksOf(lines, s)|
    ensures var next := BlocksOf(lines, s)[c + 1]; (x.end - x.start) + (next.end - next.start) > b.ceiling
  {
    hide Lies, BlocksOf, SizeCuts;
    BlocksLie(content, lines, s);
    SectionBlocksLie(content, lines, s);
    LiesFacts(content, lines, s);
    var blocks, start := BlocksOf(lines, s), Span(s.start, s.start);
    TilesNonEmpty(blocks, s.start, s.end);
    assert blocks[0..] == blocks;
    SizeCutsPack(content, lines, blocks, 0, start, b);
    SizeCutsTile(content, lines, blocks, start, s.end, b);
    assert SizeCuts(content, lines, blocks, start, b).value != [];
    var spans := BySize(content, lines, s, b).value;
    var k :| 0 <= k < |spans| && spans[k] == x;
    assert Packed(blocks, spans[k], b);
  }

  lemma {:induction false} SectionsRise(ss: seq<Section>, lo: nat, hi: nat, i: nat, j: nat)
    requires Consecutive(ss, lo, hi) && i < j < |ss|
    ensures ss[i].end <= ss[j].start
    decreases j - i
  {
    if i + 1 < j {
      SectionsRise(ss, lo, hi, i, j - 1);
    }
    assert ss[j - 1].end == ss[j].start;
  }

  lemma SameSection(ss: seq<Section>, lo: nat, hi: nat, i: nat, j: nat, p: nat)
    requires Consecutive(ss, lo, hi) && i < |ss| && j < |ss|
    requires ss[i].start <= p < ss[i].end && ss[j].start <= p < ss[j].end
    ensures i == j
  {
    if i < j {
      SectionsRise(ss, lo, hi, i, j);
    } else if j < i {
      SectionsRise(ss, lo, hi, j, i);
    }
  }

  lemma SpanOfSectionInside(content: Text, lines: seq<Line>, s: Span, b: Bounds, u: Tables, x: Span)
    requires Lies(content, lines, s) && InText(content, BlocksOf(lines, s)) && SpanOfSection(content, lines, s, b, u, x)
    ensures s.start <= x.start < x.end <= s.end
  {
    hide Lies, BlocksOf, Subdivide;
    SubdivideCovers(content, lines, s, b, u);
  }

  /** In a section divided by size, a passage made of whole blocks could not have taken in the
      block that follows it. */
  lemma PassagesPack(content: Text, b: Bounds, f: DocFormat, u: Tables, i: nat, x: Span, a: nat, c: nat)
    requires content != [] && Passages(content, b, f, u).Done?
    requires x in PassageSpans(Passages(content, b, f, u).value)
    requires i < |DocumentSections(content, b, f)|
    requires var s := Extent(DocumentSections(content, b, f)[i]);
             && OnSizePath(ScanLines(content), s, b, u)
             && BlockUnion(BlocksOf(ScanLines(content), s), x, a, c, b) && c + 1 < |BlocksOf(ScanLines(content), s)|
    ensures var next := BlocksOf(ScanLines(content), Extent(DocumentSections(content, b, f)[i]))[c + 1];
            (x.end - x.start) + (next.end - next.start) > b.ceiling
  {
    hide PassagesFrom, DocumentSections, ScanLines, Lies, BlocksOf, Homogeneous, Isolated, BySize, CleanStart;
    var lines, ss := ScanLines(content), DocumentSections(content, b, f);
    SectionsLie(content, b, f);
    DocumentSectionsRun(content, b, f);
    LieInText(content, lines, ss, b, u);
    PassagesAreSectionSpans(content, lines, ss, 0, b, u, x);
    var j: nat :| j < |ss| && SpanOfSection(content, lines, Extent(ss[j]), b, u, x);
    SpanOfSectionInside(content, lines, Extent(ss[j]), b, u, x);
    BlocksLie(content, lines, Extent(ss[i]));
    BlockInside(BlocksOf(lines, Extent(ss[i])), ss[i].start, ss[i].end, a);
    BlockInside(BlocksOf(lines, Extent(ss[i])), ss[i].start, ss[i].end, c);
    SameSection(ss, 0, |content|, i, j, x.start);
    BySizePacks(content, lines, Extent(ss[i]), b, x, a, c);
  }

  /** Every passage is of a run of sections that were merged because each but the last found
      what was there below the floor, and stands under the first one's heading and path. */
  lemma PassagesOfRuns(content: Text, b: Bounds, f: DocFormat, u: Tables, k: nat) returns (i: nat, j: nat)
    requires Passages(content, b, f, u).Done? && k < |Passages(content, b, f, u).value|
    ensures var ss, p := SectionsOf(ScanLines(content), |content|, f), Passages(content, b, f, u).value[k];
            && TakesIn(ss, i, j, b) && p.heading == ss[i].heading && p.path == ss[i].path
            && ss[i].start <= p.start < p.end <= ss[j - 1].end
  {
    hide PassagesFrom, DocumentSections, ScanLines, Lies, BlocksOf, Subdivide, SectionsOf, TakesIn, Consecutive;
    SectionsLie(content, b, f);
    var lines, ms := ScanLines(content), DocumentSections(content, b, f);
    var p := Passages(content, b, f, u).value[k];
    var m, n := PassageOrigin(content, lines, ms, 0, b, u, k);
    SubdivideCovers(content, lines, Extent(ms[m]), b, u);
    i, j := MergedSection(content, b, f, m);
  }

  lemma MergedSection(content: Text, b: Bounds, f: DocFormat, m: nat) returns (i: nat, j: nat)
    requires m < |DocumentSections(content, b, f)|
    ensures var ss, s := SectionsOf(ScanLines(content), |content|, f), DocumentSections(content, b, f)[m];
            TakesIn(ss, i, j, b) && s == ss[i].(end := ss[j - 1].end)
  {
    hide ScanLines, SectionsOf;
    i, j := MergedSectionIsUnion(SectionsOf(ScanLines(content), |content|, f), b, m);
  }
}
