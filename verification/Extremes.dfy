/** Two documents at the edge of the splitter (handler/doc/splitter.go): one with a passage
    over the hard maximum, and one on which it never returns. */
module Extremes {
  import opened Bytes
  import opened Utf8
  import opened Spans
  import opened Lines
  import opened Headings
  import opened Blocks
  import opened Cuts
  import opened Oversized
  import opened KeyGroups
  import opened Sections
  import opened Weaving
  import opened Subdivision
  import opened Coverage
  import opened SizeLaws
  import opened Splitter
  import opened Documents
  import opened Finishing
  import opened Exceeding

  // ---- One long line in a fence ----

  const LETTER: Byte := 120

  function Repeated(c: Byte, n: nat): Text {
    seq(n, _ => c)
  }

  /** A fence around one line of `n` letters. */
  function LongLine(n: nat): Text {
    FencedDocument([Repeated(LETTER, n)])
  }

  lemma LetterLineFences(n: nat)
    requires n > 0
    ensures Fenceable([Repeated(LETTER, n)])
  {
    var t := Repeated(LETTER, n);
    assert SpaceAtFront(t) == 0 && SpaceAtBack(t) == 0;
    assert TrimSpace(t) == t;
    if n >= 3 {
      assert t[..3][0] == LETTER;
    }
  }

  lemma LongLineLines(n: nat)
    requires n > 0
    ensures FencedLines([Repeated(LETTER, n)])
            == [Line(0, 4, FENCE, true), Line(4, n + 5, Repeated(LETTER, n), true), Line(n + 5, n + 9, FENCE, true)]
  {
    hide Repeated;
    var t := Repeated(LETTER, n);
    assert |t| == n by { RepeatedSize(n); }
    assert FenceTexts([t]) == [FENCE, t, FENCE];
    assert LinesAt([FENCE], n + 5) == [Line(n + 5, n + 9, FENCE, false)] + LinesAt([], n + 9) by { assert [FENCE][1..] == []; }
    assert LinesAt([t, FENCE], 4) == [Line(4, n + 5, t, false)] + LinesAt([FENCE], n + 5);
    assert LinesAt([FENCE, t, FENCE], 0) == [Line(0, 4, FENCE, false)] + LinesAt([t, FENCE], 4);
  }

  lemma RepeatedSize(n: nat)
    ensures |Repeated(LETTER, n)| == n
  {
  }

  /** Its one content line is no setting, so the block is no key/value list. */
  lemma LongLineIsNoList(n: nat, u: Tables, total: nat)
    requires n > 0
    ensures var lines := FencedLines([Repeated(LETTER, n)]);
            BlocksOf(lines, Span(0, total)) == [Span(0, total)] ==> Homogeneous(lines, Span(0, total), u).None?
  {
    hide Items, BlocksOf, Fenced, TrimSpace;
    var lines := FencedLines([Repeated(LETTER, n)]);
    var whole := Span(0, total);
    LongLineLines(n);
    FewItems(lines, whole, u);
    FewRuns(Items(lines, whole, u, 3));
    assert |GroupsOf(lines, Items(lines, whole, u, |lines|))| <= 1;
    assert KeyValueGroups(lines, whole, u) == [];
    NoGroupsNoChunks(lines, whole, u);
  }

  lemma NoGroupsNoChunks(lines: seq<Line>, blk: Span, u: Tables)
    requires KeyValueGroups(lines, blk, u) == []
    ensures QualifyingGroups(lines, [blk], u) == []
  {
    hide KeyValueGroups;
    assert [blk][1..] == [];
    assert QualifyingGroups(lines, [], u) == [];
  }

  lemma FewItems(lines: seq<Line>, blk: Span, u: Tables)
    requires |lines| == 3 && lines[0].text == FENCE && lines[2].text == FENCE
    ensures |Items(lines, blk, u, 3)| <= 1
  {
    hide LineKey, TrimSpace;
    FenceIsDelimiter();
    assert Items(lines, blk, u, 0) == [];
    assert Items(lines, blk, u, 1) == [];
    assert |Items(lines, blk, u, 2)| <= 1;
  }

  lemma FewRuns(items: seq<Item>)
    requires |items| <= 1
    ensures |Runs(items)| <= 1
  {
    if |items| == 1 {
      assert items[..0] == [];
    }
  }

  /** A fence around one line over the hard maximum: some passage is over it, for all bounds
      with the ceiling inside the maximum and in either format. */
  lemma LongLineExceedsHardMax(b: Bounds, f: DocFormat, u: Tables)
    requires b.ceiling <= b.hardMax
    ensures var r := Passages(LongLine(b.hardMax + 1), b, f, u);
            r.Done? && exists k :: 0 <= k < |r.value| && |r.value[k].body| > b.hardMax
  {
    hide Passages, ScanLines, DocumentSections, BlocksOf, Chain, Homogeneous, Fenced, LineOfFence, KeyValueGroups, Repeated;
    var n := b.hardMax + 1;
    var inner := [Repeated(LETTER, n)];
    var content, lines := LongLine(n), FencedLines(inner);
    LetterLineFences(n);
    FencedDocumentIsOneBlock(inner, b, f);
    LongLineLines(n);
    LongLineIsNoList(n, u, |content|);
    ChainBounds(lines, 0, |content|, 2);
    var whole, ss := Span(0, |content|), [Section([], [], 0, |content|)];
    FencedBlockFinishes(content, lines, b, f, u);
    var x := if Isolated(lines, whole, b).Some? then whole else SpanOf(lines[1]);
    assert In(lines, whole, 1);
    if Isolated(lines, whole, b).None? {
      assert LineOfFence(lines, [whole], x) by { OneFencedLine(lines, whole, 1); }
    }
    assert Extent(ss[0]) == whole;
    assert Over(x, b.hardMax);
    assert Unmeasured(lines, whole, b, u, x) by {
      if Isolated(lines, whole, b).Some? {
        assert BlocksOf(lines, whole)[0] == x;
      }
    }
    assert UnmeasuredSomewhere(lines, ss, b, u, x);
    HardMaxExceededOnlyBy(content, b, f, u);
  }

  lemma OneFencedLine(lines: seq<Line>, blk: Span, i: nat)
    requires i < |lines| && In(lines, blk, i) && Fenced(lines, blk)
    ensures LineOfFence(lines, [blk], SpanOf(lines[i]))
  {
    hide Fenced;
    assert [blk][0] == blk;
  }

  /** A document whose blocks are all fenced is split in finitely many steps. */
  lemma FencedBlockFinishes(content: Text, lines: seq<Line>, b: Bounds, f: DocFormat, u: Tables)
    requires content != [] && lines == ScanLines(content)
    requires DocumentSections(content, b, f) == [Section([], [], 0, |content|)]
    requires BlocksOf(lines, Span(0, |content|)) == [Span(0, |content|)] && Fenced(lines, Span(0, |content|))
    ensures Passages(content, b, f, u).Done?
  {
    hide Passages, ScanLines, DocumentSections, BlocksOf, Fenced, OnSizePath, CutOnSentences;
    SplitterLoopsWhere(content, b, f, u);
    var ss := [Section([], [], 0, |content|)];
    assert Extent(ss[0]) == Span(0, |content|);
    assert !SectionLoops(content, lines, Extent(ss[0]), b, u);
  }

  // ---- Continuation bytes and nothing else ----

  const STRAY: Byte := 0x80

  /** One line of `n` stray continuation bytes. */
  function StrayBytes(n: nat): Text {
    Repeated(STRAY, n)
  }

  lemma {:induction false} NoNewlineAhead(content: Text, off: nat)
    requires off <= |content| && NEWLINE !in content
    ensures LineEnd(content, off) == |content|
    decreases |content| - off
  {
    if off < |content| {
      NoNewlineAhead(content, off + 1);
    }
  }

  lemma StrayIsNotTrimmed(n: nat)
    requires n > 0
    ensures TrimSpace(StrayBytes(n)) == StrayBytes(n)
    ensures TrimRightSet(StrayBytes(n), {CARRIAGE_RETURN, NEWLINE}) == StrayBytes(n)
  {
    assert SpaceAtFront(StrayBytes(n)) == 0 && SpaceAtBack(StrayBytes(n)) == 0;
  }

  lemma StrayLine(n: nat)
    requires n > 0
    ensures ScanLines(StrayBytes(n)) == [Line(0, n, StrayBytes(n), false)]
  {
    hide TrimSpace, TrimRightSet, LineEnd;
    var content := StrayBytes(n);
    NoNewlineAhead(content, 0);
    StrayIsNotTrimmed(n);
    assert content[0..n] == content;
    assert RawLines(content, n) == [];
    var raw := RawLines(content, 0);
    assert raw == [Line(0, n, content, false)];
    assert !IsRule(raw[0]) by { assert content[0] != [HYPHEN, HYPHEN, HYPHEN][0]; }
    assert !IsFence(raw[0]) by { StrayIsNoFence(n); }
    assert FenceCount(raw, 0, 0) == 0;
    assert !Protected(raw, 0);
  }

  lemma StrayIsNoFence(n: nat)
    requires n > 0
    ensures !IsFenceDelimiter(StrayBytes(n))
  {
    if n >= 3 {
      assert StrayBytes(n)[..3][0] == STRAY;
    }
  }

  lemma StrayIsNoHeading(lines: seq<Line>, n: nat, f: DocFormat)
    requires n > 0 && lines == [Line(0, n, StrayBytes(n), false)]
    ensures HeadingAt(lines, 0, f).None?
  {
    hide TrimSpace;
    StrayIsNotTrimmed(n);
  }

  lemma {:induction false} StrayHasNoEnds(content: Text, blk: Span, i: nat)
    requires i <= blk.end <= |content| && forall q :: 0 <= q < |content| ==> content[q] == STRAY
    ensures EndsFrom(content, blk, i) == []
    decreases blk.end - i
  {
    if i < blk.end {
      StrayHasNoEnds(content, blk, i + 1);
    }
  }

  /** One line of stray continuation bytes, one more than the hard maximum: the splitter never
      returns, for all bounds with the ceiling inside the maximum and in either format. */
  lemma StrayBytesLoopForever(b: Bounds, f: DocFormat, u: Tables)
    requires b.ceiling <= b.hardMax
    ensures Passages(StrayBytes(b.hardMax + 1), b, f, u).Loops?
  {
    hide Passages, ScanLines, DocumentSections, BlocksOf, Chain, TrimSpace, SentenceEnds;
    var n := b.hardMax + 1;
    var content, lines, whole := StrayBytes(n), [Line(0, n, StrayBytes(n), false)], Span(0, n);
    StrayLine(n);
    StrayIsNoHeading(lines, n, f);
    ScanPartitions(content);
    StrayIsNotTrimmed(n);
    NoHeadingOneSection(content, b, f);
    NoBlankOneBlock(lines, n);
    SplitterFinishesUnlessStuck(content, b, f, u);
    var ss := [Section([], [], 0, n)];
    assert Extent(ss[0]) == whole;
    assert Stuck(content, whole, b.hardMax) by { StrayIsStuck(n, whole); }
    NoFenceNoChunks(lines, [whole], u);
    assert StuckBlock(content, lines, whole, 0, b, u);
  }

  lemma StrayIsStuck(n: nat, whole: Span)
    requires n > 0 && whole == Span(0, n)
    ensures Stuck(StrayBytes(n), whole, n - 1)
  {
    StrayHasNoEnds(StrayBytes(n), whole, 0);
    assert StuckAt(StrayBytes(n), whole, 0, n - 1);
  }
}
