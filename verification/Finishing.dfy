/** When the splitter returns (handler/doc/splitter.go): exactly where malformed bytes keep its
    hard cuts from making progress, it does not. */
module Finishing {
  import opened Bytes
  import opened Utf8
  import opened Spans
  import opened Lines
  import opened Headings
  import opened Blocks
  import opened Cuts
  import opened Oversized
  import opened KeyGroups
  import opened Sections
  import opened Subdivision
  import opened Coverage
  import opened Splitter

  /** A prose block the size path hands to the sentence cutter. */
  ghost predicate CutOnProse(lines: seq<Line>, blk: Span, b: Bounds) {
    !Fenced(lines, blk) && blk.end - blk.start > b.ceiling
  }

  /** Some block handed to the sentence cutter keeps it from returning. */
  ghost predicate SomeLoops(content: Text, lines: seq<Line>, blocks: seq<Span>, b: Bounds)
    requires InText(content, blocks)
  {
    exists j :: 0 <= j < |blocks| && CutOnProse(lines, blocks[j], b) && CutOnSentences(content, blocks[j], b).Loops?
  }

  lemma SomeLoopsTail(content: Text, lines: seq<Line>, blocks: seq<Span>, b: Bounds)
    requires InText(content, blocks) && blocks != []
    ensures SomeLoops(content, lines, blocks, b) <==>
              (CutOnProse(lines, blocks[0], b) && CutOnSentences(content, blocks[0], b).Loops?)
              || SomeLoops(content, lines, blocks[1..], b)
  {
    hide CutOnProse, CutOnSentences;
    var rest := blocks[1..];
    if j :| 0 <= j < |rest| && CutOnProse(lines, rest[j], b) && CutOnSentences(content, rest[j], b).Loops? {
      assert blocks[j + 1] == rest[j];
    }
    if j :| 0 < j < |blocks| && CutOnProse(lines, blocks[j], b) && CutOnSentences(content, blocks[j], b).Loops? {
      assert rest[j - 1] == blocks[j];
    }
  }

  lemma {:induction false} SizeCutsLoopWhere(content: Text, lines: seq<Line>, blocks: seq<Span>, cur: Span, b: Bounds)
    requires InText(content, blocks)
    ensures SizeCuts(content, lines, blocks, cur, b).Loops? <==> SomeLoops(content, lines, blocks, b)
    decreases |blocks|
  {
    hide Fenced, CutOnLines, CutOnSentences, SomeLoops;
    if blocks == [] {
      NoneLoops(content, lines, b);
    } else {
      var blk := blocks[0];
      SomeLoopsTail(content, lines, blocks, b);
      var open := if Full(cur, blk, b) then Span(blk.start, blk.start) else cur;
      SizeCutsLoopWhere(content, lines, blocks[1..], Span(blk.end, blk.end), b);
      SizeCutsLoopWhere(content, lines, blocks[1..], Span(open.start, blk.end), b);
    }
  }

  lemma NoneLoops(content: Text, lines: seq<Line>, b: Bounds)
    ensures !SomeLoops(content, lines, [], b)
  {
  }

  /** The section is divided by size. */
  ghost predicate OnSizePath(lines: seq<Line>, s: Span, b: Bounds, u: Tables) {
    Homogeneous(lines, s, u).None? && Isolated(lines, s, b).None? && s.end - s.start > b.ceiling
  }

  ghost predicate SectionLoops(content: Text, lines: seq<Line>, s: Span, b: Bounds, u: Tables)
    requires InText(content, BlocksOf(lines, s))
  {
    OnSizePath(lines, s, b, u) && SomeLoops(content, lines, BlocksOf(lines, s), b)
  }

  lemma SubdivideLoopsWhere(content: Text, lines: seq<Line>, s: Span, b: Bounds, u: Tables)
    requires InText(content, BlocksOf(lines, s))
    ensures Subdivide(content, lines, s, b, u).Loops? <==> SectionLoops(content, lines, s, b, u)
  {
    hide BlocksOf, Homogeneous, Isolated, SizeCuts, SomeLoops;
    SizeCutsLoopWhere(content, lines, BlocksOf(lines, s), Span(s.start, s.start), b);
  }

  ghost predicate AnySectionLoops(content: Text, lines: seq<Line>, ss: seq<Section>, b: Bounds, u: Tables)
    requires AllInText(content, lines, ss)
  {
    exists i :: 0 <= i < |ss| && SectionLoops(content, lines, Extent(ss[i]), b, u)
  }

  lemma AnySectionTail(content: Text, lines: seq<Line>, ss: seq<Section>, b: Bounds, u: Tables)
    requires AllInText(content, lines, ss) && ss != []
    ensures AllInText(content, lines, ss[1..])
    ensures AnySectionLoops(content, lines, ss, b, u) <==>
              SectionLoops(content, lines, Extent(ss[0]), b, u) || AnySectionLoops(content, lines, ss[1..], b, u)
  {
    hide SectionLoops, BlocksOf, InText;
    var rest := ss[1..];
    assert forall i :: 0 <= i < |rest| ==> rest[i] == ss[i + 1];
    if i :| 0 <= i < |rest| && SectionLoops(content, lines, Extent(rest[i]), b, u) {
      assert ss[i + 1] == rest[i];
    }
    if i :| 0 < i < |ss| && SectionLoops(content, lines, Extent(ss[i]), b, u) {
      assert rest[i - 1] == ss[i];
    }
  }

  lemma {:induction false} PassagesFromLoopWhere(content: Text, lines: seq<Line>, ss: seq<Section>, n: nat, b: Bounds, u: Tables)
    requires AllLie(content, lines, ss) && AllInText(content, lines, ss)
    ensures PassagesFrom(content, lines, ss, n, b, u).Loops? <==> AnySectionLoops(content, lines, ss, b, u)
    decreases |ss|
  {
    hide Lies, BlocksOf, Subdivide, SectionLoops;
    if ss != [] {
      var s := Extent(ss[0]);
      SubdivideInContent(content, lines, s, b, u);
      SubdivideLoopsWhere(content, lines, s, b, u);
      AnySectionTail(content, lines, ss, b, u);
      var r := Subdivide(content, lines, s, b, u);
      if r.Done? {
        PassagesFromLoopWhere(content, lines, ss[1..], n + |r.value|, b, u);
      }
    }
  }

  /** The splitter fails to return exactly when, in some section divided by size, the
      sentence cutter fails to return on a prose block over the ceiling. */
  lemma SplitterLoopsWhere(content: Text, b: Bounds, f: DocFormat, u: Tables)
    requires content != []
    ensures AllInText(content, ScanLines(content), DocumentSections(content, b, f))
    ensures Passages(content, b, f, u).Loops?
            <==> AnySectionLoops(content, ScanLines(content), DocumentSections(content, b, f), b, u)
  {
    hide PassagesFrom, DocumentSections, ScanLines, Lies, AnySectionLoops;
    SectionsLie(content, b, f);
    LieInText(content, ScanLines(content), DocumentSections(content, b, f), b, u);
    PassagesFromLoopWhere(content, ScanLines(content), DocumentSections(content, b, f), 0, b, u);
  }

  /** A prose block over the ceiling, in a section divided by size, holds `hardMax`
      continuation bytes in a row that no sentence end lets the cutter past. */
  ghost predicate StuckBlock(content: Text, lines: seq<Line>, s: Span, j: nat, b: Bounds, u: Tables)
    requires InText(content, BlocksOf(lines, s))
  {
    && OnSizePath(lines, s, b, u) && j < |BlocksOf(lines, s)|
    && CutOnProse(lines, BlocksOf(lines, s)[j], b) && Stuck(content, BlocksOf(lines, s)[j], b.hardMax)
  }

  ghost predicate HasStuckBlock(content: Text, lines: seq<Line>, ss: seq<Section>, b: Bounds, u: Tables)
    requires AllInText(content, lines, ss)
  {
    exists i, j: nat :: 0 <= i < |ss| && StuckBlock(content, lines, Extent(ss[i]), j, b, u)
  }

  lemma SectionStuck(content: Text, lines: seq<Line>, s: Span, b: Bounds, u: Tables)
    requires InText(content, BlocksOf(lines, s)) && b.ceiling <= b.hardMax
    ensures SectionLoops(content, lines, s, b, u) <==> exists j: nat :: StuckBlock(content, lines, s, j, b, u)
  {
    hide BlocksOf, OnSizePath, CutOnProse, CutOnSentences, Stuck;
    var blocks := BlocksOf(lines, s);
    if SectionLoops(content, lines, s, b, u) {
      var j: nat :| j < |blocks| && CutOnProse(lines, blocks[j], b) && CutOnSentences(content, blocks[j], b).Loops?;
      CutOnSentencesFinishesUnlessStuck(content, blocks[j], b);
      assert StuckBlock(content, lines, s, j, b, u);
    }
    if j: nat :| StuckBlock(content, lines, s, j, b, u) {
      CutOnSentencesFinishesUnlessStuck(content, blocks[j], b);
    }
  }

  /** With the ceiling inside the hard maximum the splitter returns exactly on the documents
      with no stuck block. */
  lemma SplitterFinishesUnlessStuck(content: Text, b: Bounds, f: DocFormat, u: Tables)
    requires content != [] && b.ceiling <= b.hardMax
    ensures AllInText(content, ScanLines(content), DocumentSections(content, b, f))
    ensures Passages(content, b, f, u).Done?
            <==> !HasStuckBlock(content, ScanLines(content), DocumentSections(content, b, f), b, u)
  {
    hide Passages, DocumentSections, ScanLines, SectionLoops, StuckBlock;
    var lines, ss := ScanLines(content), DocumentSections(content, b, f);
    SplitterLoopsWhere(content, b, f, u);
    forall i | 0 <= i < |ss|
      ensures SectionLoops(content, lines, Extent(ss[i]), b, u)
              <==> exists j: nat :: StuckBlock(content, lines, Extent(ss[i]), j, b, u)
    {
      SectionStuck(content, lines, Extent(ss[i]), b, u);
    }
  }

  /** Nowhere in the content do `hardMax` continuation bytes follow a byte. */
  ghost predicate NoLongRun(content: Text, hardMax: nat) {
    NeverStalls(content, Span(0, |content|), hardMax)
  }

  lemma NoLongRunAnywhere(content: Text, blk: Span, hardMax: nat)
    requires NoLongRun(content, hardMax) && blk.end <= |content|
    ensures NeverStalls(content, blk, hardMax)
  {
    forall p: nat
      ensures !Stalls(content, blk, p, hardMax)
    {
      assert !Stalls(content, Span(0, |content|), p, hardMax);
    }
  }

  /** Whatever the bounds, splitting finishes on every document without `hardMax`
      continuation bytes in a row; so, with a hard maximum of at least four bytes, on every
      well-formed one. */
  lemma SplitterFinishes(content: Text, b: Bounds, f: DocFormat, u: Tables)
    requires NoLongRun(content, b.hardMax) || (WellFormed(content) && b.hardMax >= 4)
    ensures Passages(content, b, f, u).Done?
  {
    hide PassagesFrom, DocumentSections, ScanLines, Lies, NeverStalls, WellFormed, OnSizePath, CutOnProse, BlocksOf;
    if WellFormed(content) && b.hardMax >= 4 {
      WellFormedNeverStalls(content, Span(0, |content|), b.hardMax);
    }
    if content != [] {
      var lines, ss := ScanLines(content), DocumentSections(content, b, f);
      SplitterLoopsWhere(content, b, f, u);
      forall i | 0 <= i < |ss|
        ensures !SectionLoops(content, lines, Extent(ss[i]), b, u)
      {
        NoRunNoLoop(content, lines, Extent(ss[i]), b, u);
      }
    }
  }

  lemma NoRunNoLoop(content: Text, lines: seq<Line>, s: Span, b: Bounds, u: Tables)
    requires InText(content, BlocksOf(lines, s)) && NoLongRun(content, b.hardMax)
    ensures !SectionLoops(content, lines, s, b, u)
  {
    hide BlocksOf, NeverStalls, CutOnSentences, CutOnProse, OnSizePath;
    var blocks := BlocksOf(lines, s);
    forall j | 0 <= j < |blocks| ensures CutOnSentences(content, blocks[j], b).Done? {
      NoLongRunAnywhere(content, blocks[j], b.hardMax);
      CutOnSentencesFinishes(content, blocks[j], b);
    }
  }
}
