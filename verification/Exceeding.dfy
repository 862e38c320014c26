/** Where the hard maximum is exceeded (handler/doc/splitter.go): the passages over it are
    exactly the units of text that no size bounds. */
module Exceeding {
  import opened Bytes
  import opened Utf8
  import opened Spans
  import opened Lines
  import opened Headings
  import opened Blocks
  import opened Cuts
  import opened Oversized
  import opened KeyGroups
  import opened Sections
  import opened Weaving
  import opened Subdivision
  import opened Coverage
  import opened SizeLaws
  import opened Splitter

  predicate Over(x: Span, max: nat) {
    x.end - x.start > max
  }

  /** The units a section is divided into without regard to size. Under key groups these are
      the groups and the stretches of text around them; under isolation the fenced blocks and
      the stretches between them; under size the single lines of fenced blocks. */
  ghost predicate Unmeasured(lines: seq<Line>, s: Span, b: Bounds, u: Tables, x: Span) {
    var blocks := BlocksOf(lines, s);
    if Homogeneous(lines, s, u).Some? then
      || (exists j :: 0 <= j < |blocks| && x in KeyValueGroups(lines, blocks[j], u))
      || IsStretch(s.start, QualifyingGroups(lines, blocks, u), s.end, x)
    else if Isolated(lines, s, b).Some? then
      || (exists j :: 0 <= j < |blocks| && Fenced(lines, blocks[j]) && x == blocks[j])
      || IsStretch(s.start, FencedChunks(lines, blocks), s.end, x)
    else LineOfFence(lines, blocks, x)
  }

  // ---- Structural divisions ----

  lemma {:induction false} GroupsAreChunks(lines: seq<Line>, blocks: seq<Span>, u: Tables, x: Span)
    ensures InSomeChunk(QualifyingGroups(lines, blocks, u), x)
            <==> exists j :: 0 <= j < |blocks| && x in KeyValueGroups(lines, blocks[j], u)
    decreases |blocks|
  {
    hide KeyValueGroups;
    if blocks != [] {
      var groups, rest := KeyValueGroups(lines, blocks[0], u), blocks[1..];
      GroupsAreChunks(lines, rest, u, x);
      InSomeTail([groups] + QualifyingGroups(lines, rest, u), x);
      assert ([groups] + QualifyingGroups(lines, rest, u))[1..] == QualifyingGroups(lines, rest, u);
      if j :| 0 <= j < |rest| && x in KeyValueGroups(lines, rest[j], u) {
        assert blocks[j + 1] == rest[j];
      }
      if j :| 0 < j < |blocks| && x in KeyValueGroups(lines, blocks[j], u) {
        assert rest[j - 1] == blocks[j];
      }
    }
  }

  lemma {:induction false} FencesAreChunks(lines: seq<Line>, blocks: seq<Span>, x: Span)
    ensures InSomeChunk(FencedChunks(lines, blocks), x)
            <==> exists j :: 0 <= j < |blocks| && Fenced(lines, blocks[j]) && x == blocks[j]
    decreases |blocks|
  {
    hide Fenced;
    if blocks != [] {
      var rest := blocks[1..];
      FencesAreChunks(lines, rest, x);
      InSomeTail([[blocks[0]]] + FencedChunks(lines, rest), x);
      assert ([[blocks[0]]] + FencedChunks(lines, rest))[1..] == FencedChunks(lines, rest);
      if j :| 0 <= j < |rest| && Fenced(lines, rest[j]) && x == rest[j] {
        assert blocks[j + 1] == rest[j];
      }
      if j :| 0 < j < |blocks| && Fenced(lines, blocks[j]) && x == blocks[j] {
        assert rest[j - 1] == blocks[j];
      }
    }
  }

  // ---- The size path ----

  /** A line of a fenced block that is over the hard maximum is a piece of its own. */
  lemma LongLineIsPiece(content: Text, lines: seq<Line>, blk: Span, b: Bounds, i: nat)
    requires Lies(content, lines, blk) && Fenced(lines, blk)
    requires i < |lines| && In(lines, blk, i) && Over(SpanOf(lines[i]), b.hardMax)
    ensures blk.start <= blk.end <= |content|
    ensures var r := SplitOversized(content, lines, blk, b); r.Done? && SpanOf(lines[i]) in r.value
  {
    hide Fenced, CutOnSentences, CutOnLines, Chain, Tiles, IsLine, LineFinish, WholeLines, ScanLines;
    ScanPartitions(content);
    LiesFacts(content, lines, blk);
    CutOnLinesTiles(lines, |content|, blk, b.hardMax);
    var pieces, x := CutOnLines(lines, blk, b.hardMax), SpanOf(lines[i]);
    var k := PieceAt(pieces, blk.start, blk.end, x.start);
    PieceHoldsLine(lines, |content|, pieces, k, i);
    assert pieces[k].end - pieces[k].start <= b.hardMax || IsLine(lines, pieces[k]);
    SameLine(lines, |content|, pieces[k], i);
  }

  lemma PieceAt(pieces: seq<Span>, lo: nat, hi: nat, p: nat) returns (k: nat)
    requires Tiles(pieces, lo, hi) && lo <= p < hi
    ensures k < |pieces| && pieces[k].start <= p < pieces[k].end
  {
    hide Tiles;
    TilesCover(pieces, lo, hi, p);
    k :| k < |pieces| && pieces[k].start <= p < pieces[k].end;
  }

  lemma PieceHoldsLine(lines: seq<Line>, total: nat, pieces: seq<Span>, k: nat, i: nat)
    requires Chain(lines, 0, total) && EndOnLines(lines, pieces) && k < |pieces| && i < |lines|
    requires lines[i].start < pieces[k].end
    ensures lines[i].end <= pieces[k].end
  {
    assert LineFinish(lines, pieces[k].end);
    var m :| 0 <= m < |lines| && lines[m].end == pieces[k].end;
    if m < i {
      ChainOrder(lines, 0, total, m, i);
    } else if i < m {
      ChainOrder(lines, 0, total, i, m);
      ChainBounds(lines, 0, total, m);
    }
  }

  /** A line that holds the first byte of line `i` is line `i`. */
  lemma SameLine(lines: seq<Line>, total: nat, x: Span, i: nat)
    requires Chain(lines, 0, total) && i < |lines| && x.start <= lines[i].start < x.end
    ensures IsLine(lines, x) ==> x == SpanOf(lines[i])
  {
    ChainBounds(lines, 0, total, i);
    if m: nat :| m < |lines| && x == SpanOf(lines[m]) {
      if m < i {
        ChainOrder(lines, 0, total, m, i);
      } else if i < m {
        ChainOrder(lines, 0, total, i, m);
      }
    }
  }

  /** What a block over the ceiling is split into is in the output. */
  lemma {:induction false} PiecesAreKept(content: Text, lines: seq<Line>, blocks: seq<Span>, cur: Span, b: Bounds, j: nat, x: Span)
    requires InText(content, blocks) && j < |blocks| && blocks[j].end - blocks[j].start > b.ceiling
    requires var r := SplitOversized(content, lines, blocks[j], b); r.Done? && x in r.value
    ensures var r := SizeCuts(content, lines, blocks, cur, b); r.Done? ==> x in r.value
    decreases |blocks|
  {
    hide SplitOversized;
    var blk := blocks[0];
    if j > 0 {
      assert blocks[1..][j - 1] == blocks[j];
      var open := if Full(cur, blk, b) then Span(blk.start, blk.start) else cur;
      PiecesAreKept(content, lines, blocks[1..], Span(blk.end, blk.end), b, j - 1, x);
      PiecesAreKept(content, lines, blocks[1..], Span(open.start, blk.end), b, j - 1, x);
    }
  }

  /** On the size path the spans over the hard maximum are the over-long lines of fenced
      blocks. */
  lemma LongOnSizePath(content: Text, lines: seq<Line>, s: Span, b: Bounds, x: Span)
    requires Lies(content, lines, s) && InText(content, BlocksOf(lines, s)) && b.ceiling <= b.hardMax
    requires BySize(content, lines, s, b).Done? && Over(x, b.hardMax)
    ensures x in BySize(content, lines, s, b).value <==> LineOfFence(lines, BlocksOf(lines, s), x)
  {
    hide Lies, BlocksOf, LineOfFence, BySize;
    var blocks, spans := BlocksOf(lines, s), BySize(content, lines, s, b).value;
    if x in spans {
      var k :| 0 <= k < |spans| && spans[k] == x;
      BySizeSized(content, lines, s, b, k);
    }
    if LineOfFence(lines, blocks, x) {
      LongLineIsCut(content, lines, s, b, x);
    }
  }

  lemma LongLineIsCut(content: Text, lines: seq<Line>, s: Span, b: Bounds, x: Span)
    requires Lies(content, lines, s) && InText(content, BlocksOf(lines, s)) && b.ceiling <= b.hardMax
    requires BySize(content, lines, s, b).Done? && Over(x, b.hardMax)
    requires LineOfFence(lines, BlocksOf(lines, s), x)
    ensures x in BySize(content, lines, s, b).value
  {
    hide Lies, BlocksOf, SizeCuts, SplitOversized, Fenced;
    var blocks := BlocksOf(lines, s);
    var i: nat, j: nat :| i < |lines| && j < |blocks|
      && x == SpanOf(lines[i]) && In(lines, blocks[j], i) && Fenced(lines, blocks[j]);
    SectionBlocksLie(content, lines, s);
    LongLineIsPiece(content, lines, blocks[j], b, i);
    PiecesAreKept(content, lines, blocks, Span(s.start, s.start), b, j, x);
  }

  // ---- Sections and documents ----

  lemma FenceLineInSection(content: Text, lines: seq<Line>, s: Span, x: Span)
    requires Lies(content, lines, s) && LineOfFence(lines, BlocksOf(lines, s), x)
    ensures s.start <= x.start && x.end <= s.end
  {
    hide Lies, BlocksOf, Fenced;
    var blocks := BlocksOf(lines, s);
    BlocksLie(content, lines, s);
    var i: nat, j: nat :| i < |lines| && j < |blocks|
      && x == SpanOf(lines[i]) && In(lines, blocks[j], i) && Fenced(lines, blocks[j]);
    BlockInside(blocks, s.start, s.end, j);
  }

  /** A section within the ceiling holds no line over the hard maximum. */
  lemma SmallSectionHasNone(content: Text, lines: seq<Line>, s: Span, b: Bounds, x: Span)
    requires Lies(content, lines, s) && s.end - s.start <= b.ceiling <= b.hardMax && Over(x, b.hardMax)
    ensures !LineOfFence(lines, BlocksOf(lines, s), x)
  {
    hide Lies, BlocksOf, LineOfFence;
    if LineOfFence(lines, BlocksOf(lines, s), x) {
      FenceLineInSection(content, lines, s, x);
    }
  }

  /** The spans of a section that are over the hard maximum are exactly its over-long
      unmeasured units. */
  lemma LongSpans(content: Text, lines: seq<Line>, s: Span, b: Bounds, u: Tables, x: Span)
    requires Lies(content, lines, s) && InText(content, BlocksOf(lines, s)) && b.ceiling <= b.hardMax
    requires Subdivide(content, lines, s, b, u).Done? && Over(x, b.hardMax)
    ensures x in Subdivide(content, lines, s, b, u).value <==> Unmeasured(lines, s, b, u, x)
  {
    hide Lies, BlocksOf, QualifyingGroups, FencedChunks, KeyValueGroups, BySize, LineOfFence, IsStretch, InSomeChunk, Fenced, Weave;
    var blocks := BlocksOf(lines, s);
    GroupsAreChunks(lines, blocks, u, x);
    FencesAreChunks(lines, blocks, x);
    WeaveMembers(s.start, QualifyingGroups(lines, blocks, u), s.end, x);
    WeaveMembers(s.start, FencedChunks(lines, blocks), s.end, x);
    if Homogeneous(lines, s, u).None? && Isolated(lines, s, b).None? {
      if s.end - s.start <= b.ceiling {
        SmallSectionHasNone(content, lines, s, b, x);
      } else {
        LongOnSizePath(content, lines, s, b, x);
      }
    }
  }

  /** Some section has this span. */
  ghost predicate FromSection(content: Text, lines: seq<Line>, ss: seq<Section>, b: Bounds, u: Tables, x: Span)
    requires AllInText(content, lines, ss)
  {
    exists i :: 0 <= i < |ss| && SpanOfSection(content, lines, Extent(ss[i]), b, u, x)
  }

  ghost predicate SpanOfSection(content: Text, lines: seq<Line>, s: Span, b: Bounds, u: Tables, x: Span)
    requires InText(content, BlocksOf(lines, s))
  {
    var r := Subdivide(content, lines, s, b, u);
    r.Done? && x in r.value
  }

  lemma FromSectionTail(content: Text, lines: seq<Line>, ss: seq<Section>, b: Bounds, u: Tables, x: Span)
    requires AllInText(content, lines, ss) && ss != []
    ensures AllInText(content, lines, ss[1..])
    ensures FromSection(content, lines, ss, b, u, x) <==>
              SpanOfSection(content, lines, Extent(ss[0]), b, u, x) || FromSection(content, lines, ss[1..], b, u, x)
  {
    hide SpanOfSection, BlocksOf, InText;
    var rest := ss[1..];
    assert forall i :: 0 <= i < |rest| ==> rest[i] == ss[i + 1];
    if i :| 0 <= i < |rest| && SpanOfSection(content, lines, Extent(rest[i]), b, u, x) {
      assert ss[i + 1] == rest[i];
    }
    if i :| 0 < i < |ss| && SpanOfSection(content, lines, Extent(ss[i]), b, u, x) {
      assert rest[i - 1] == ss[i];
    }
  }

  /** The spans of the passages are the spans of the sections. */
  lemma {:induction false} PassagesAreSectionSpans(content: Text, lines: seq<Line>, ss: seq<Section>, n: nat,
                                                   b: Bounds, u: Tables, x: Span)
    requires AllLie(content, lines, ss) && AllInText(content, lines, ss)
    requires PassagesFrom(content, lines, ss, n, b, u).Done?
    ensures x in PassageSpans(PassagesFrom(content, lines, ss, n, b, u).value)
            <==> FromSection(content, lines, ss, b, u, x)
    decreases |ss|
  {
    hide Lies, BlocksOf, Subdivide, FromSection, PassageSpans, SectionPassages;
    if ss == [] {
      NothingFromNoSection(content, lines, b, u, x);
    } else {
      var s := Extent(ss[0]);
      SubdivideInContent(content, lines, s, b, u);
      FromSectionTail(content, lines, ss, b, u, x);
      var spans := Subdivide(content, lines, s, b, u).value;
      var here := SectionPassages(content, ss[0], spans, n);
      var there := PassagesFrom(content, lines, ss[1..], n + |spans|, b, u).value;
      PassagesAreSectionSpans(content, lines, ss[1..], n + |spans|, b, u, x);
      SpansOfPassages(content, ss[0], spans, n, there);
    }
  }

  lemma SpansOfPassages(content: Text, s: Section, spans: seq<Span>, n: nat, there: seq<Passage>)
    requires InContent(content, spans)
    ensures PassageSpans(SectionPassages(content, s, spans, n) + there) == spans + PassageSpans(there)
  {
  }

  lemma NothingFromNoSection(content: Text, lines: seq<Line>, b: Bounds, u: Tables, x: Span)
    ensures AllInText(content, lines, []) && !FromSection(content, lines, [], b, u, x)
    ensures PassageSpans([]) == []
  {
  }

  ghost predicate UnmeasuredSomewhere(lines: seq<Line>, ss: seq<Section>, b: Bounds, u: Tables, x: Span) {
    exists i :: 0 <= i < |ss| && Unmeasured(lines, Extent(ss[i]), b, u, x)
  }

  /** The passages over the hard maximum are exactly the over-long units that no size bounds;
      so the maximum holds if and only if every such unit is within it. */
  lemma OverHardMaxExactlyWhere(content: Text, b: Bounds, f: DocFormat, u: Tables, x: Span)
    requires content != [] && b.ceiling <= b.hardMax && Passages(content, b, f, u).Done? && Over(x, b.hardMax)
    ensures x in PassageSpans(Passages(content, b, f, u).value)
            <==> UnmeasuredSomewhere(ScanLines(content), DocumentSections(content, b, f), b, u, x)
  {
    hide PassagesFrom, DocumentSections, ScanLines, Lies, BlocksOf, Unmeasured, Subdivide;
    var lines, ss := ScanLines(content), DocumentSections(content, b, f);
    SectionsLie(content, b, f);
    LieInText(content, lines, ss, b, u);
    PassagesAreSectionSpans(content, lines, ss, 0, b, u, x);
    forall i | 0 <= i < |ss|
      ensures SpanOfSection(content, lines, Extent(ss[i]), b, u, x) <==> Unmeasured(lines, Extent(ss[i]), b, u, x)
    {
      SectionFinishes(content, lines, ss, 0, b, u, i);
      LongSpans(content, lines, Extent(ss[i]), b, u, x);
    }
  }

  /** The hard maximum is exceeded if and only if some unmeasured unit exceeds it. */
  lemma HardMaxExceededOnlyBy(content: Text, b: Bounds, f: DocFormat, u: Tables)
    requires content != [] && b.ceiling <= b.hardMax && Passages(content, b, f, u).Done?
    ensures var ps := Passages(content, b, f, u).value;
            (exists k :: 0 <= k < |ps| && |ps[k].body| > b.hardMax)
            <==> exists x :: Over(x, b.hardMax)
                   && UnmeasuredSomewhere(ScanLines(content), DocumentSections(content, b, f), b, u, x)
  {
    hide Passages, DocumentSections, ScanLines, UnmeasuredSomewhere;
    var ps := Passages(content, b, f, u).value;
    var spans := PassageSpans(ps);
    if k :| 0 <= k < |ps| && |ps[k].body| > b.hardMax {
      var i := PassagesAreSlices(content, b, f, u, k);
      assert spans[k] in spans;
      OverHardMaxExactlyWhere(content, b, f, u, spans[k]);
    }
    if x :| Over(x, b.hardMax) && UnmeasuredSomewhere(ScanLines(content), DocumentSections(content, b, f), b, u, x) {
      OverHardMaxExactlyWhere(content, b, f, u, x);
      var k :| 0 <= k < |spans| && spans[k] == x;
      var i := PassagesAreSlices(content, b, f, u, k);
    }
  }

  /** When the splitter returns, every section's division did. */
  lemma {:induction false} SectionFinishes(content: Text, lines: seq<Line>, ss: seq<Section>, n: nat, b: Bounds, u: Tables, i: nat)
    requires AllLie(content, lines, ss) && AllInText(content, lines, ss) && i < |ss|
    requires PassagesFrom(content, lines, ss, n, b, u).Done?
    ensures Subdivide(content, lines, Extent(ss[i]), b, u).Done?
    decreases |ss|
  {
    hide Lies, BlocksOf, Subdivide;
    if i > 0 {
      SubdivideInContent(content, lines, Extent(ss[0]), b, u);
      var rest := ss[1..];
      assert forall k :: 0 <= k < |rest| ==> rest[k] == ss[k + 1];
      SectionFinishes(content, lines, rest, n + |Subdivide(content, lines, Extent(ss[0]), b, u).value|, b, u, i - 1);
    }
  }
}
