/** Documents given by their lines, and the plainest of them: one fence from the first line to
    the last. */
module Documents {
  import opened Bytes
  import opened Spans
  import opened Lines
  import opened Headings
  import opened Blocks
  import opened Oversized
  import opened Sections
  import opened Merging
  import opened Splitter

  const FENCE: Text := [96, 96, 96]

  /** A text that can stand on one line. */
  predicate OneLine(t: Text) {
    NEWLINE !in t && CARRIAGE_RETURN !in t
  }

  /** The document with these lines, each with its newline. */
  function Joined(texts: seq<Text>): Text {
    if texts == [] then [] else texts[0] + [NEWLINE] + Joined(texts[1..])
  }

  /** The lines of that document, from offset `off` on, before any is marked. */
  function LinesAt(texts: seq<Text>, off: nat): seq<Line> {
    if texts == [] then []
    else [Line(off, off + |texts[0]| + 1, texts[0], false)] + LinesAt(texts[1..], off + |texts[0]| + 1)
  }

  lemma {:induction false} LineEndAfter(content: Text, off: nat, n: nat)
    requires off + n < |content| && content[off + n] == NEWLINE
    requires forall q :: off <= q < off + n ==> content[q] != NEWLINE
    ensures LineEnd(content, off) == off + n + 1
    decreases n
  {
    if n > 0 {
      LineEndAfter(content, off + 1, n - 1);
    }
  }

  lemma LineKeepsText(t: Text)
    requires OneLine(t)
    ensures TrimRightSet(t + [NEWLINE], {CARRIAGE_RETURN, NEWLINE}) == t
  {
    assert (t + [NEWLINE])[..|t|] == t;
    assert t != [] ==> t[|t| - 1] in t;
  }

  lemma {:induction false} RawLinesOfJoined(pre: Text, texts: seq<Text>)
    requires forall k :: 0 <= k < |texts| ==> OneLine(texts[k])
    ensures RawLines(pre + Joined(texts), |pre|) == LinesAt(texts, |pre|)
    decreases |texts|
  {
    hide LineEnd, TrimRightSet;
    var content := pre + Joined(texts);
    if texts != [] {
      var t, rest := texts[0], texts[1..];
      var next := pre + t + [NEWLINE];
      assert content == next + Joined(rest);
      forall q | |pre| <= q < |pre| + |t| ensures content[q] != NEWLINE {
        assert content[q] == t[q - |pre|];
      }
      LineEndAfter(content, |pre|, |t|);
      assert content[|pre|..|pre| + |t| + 1] == t + [NEWLINE];
      LineKeepsText(t);
      RawLinesOfJoined(next, rest);
      assert |next| == |pre| + |t| + 1;
    }
  }

  lemma {:induction false} LinesAtFacts(texts: seq<Text>, off: nat, k: nat)
    requires k < |texts|
    ensures |LinesAt(texts, off)| == |texts| && LinesAt(texts, off)[k].text == texts[k]
    ensures LinesAt(texts, off)[k].end == LinesAt(texts, off)[k].start + |texts[k]| + 1
    decreases |texts|
  {
    var rest := off + |texts[0]| + 1;
    if k > 0 {
      LinesAtFacts(texts[1..], rest, k - 1);
    } else if |texts| > 1 {
      LinesAtFacts(texts[1..], rest, 0);
    }
  }

  // ---- One fence around everything ----

  /** The lines of a document that is one fence. */
  function FenceTexts(inner: seq<Text>): seq<Text> {
    [FENCE] + inner + [FENCE]
  }

  /** Lines that can stand inside a fence. */
  ghost predicate Fenceable(inner: seq<Text>) {
    forall k :: 0 <= k < |inner| ==> OneLine(inner[k]) && !IsFenceDelimiter(TrimSpace(inner[k]))
  }

  function FencedDocument(inner: seq<Text>): Text {
    Joined(FenceTexts(inner))
  }

  function AllProtected(lines: seq<Line>): seq<Line> {
    seq(|lines|, k requires 0 <= k < |lines| => lines[k].(isProtected := true))
  }

  function FencedLines(inner: seq<Text>): seq<Line> {
    AllProtected(LinesAt(FenceTexts(inner), 0))
  }

  lemma FenceIsDelimiter()
    ensures TrimSpace(FENCE) == FENCE && IsFenceDelimiter(FENCE) && OneLine(FENCE)
  {
    assert SpaceAtFront(FENCE) == 0 && SpaceAtBack(FENCE) == 0;
    assert FENCE[..3] == FENCE;
  }

  lemma {:induction false} OneOpenFence(lines: seq<Line>, n: nat)
    requires 1 <= n <= |lines| && IsFence(lines[0])
    requires forall k :: 1 <= k < n ==> !IsFence(lines[k])
    ensures FenceCount(lines, 0, n) == 1
  {
    hide IsFence;
    if n > 1 {
      OneOpenFence(lines, n - 1);
    } else {
      assert FenceCount(lines, 0, 0) == 0;
    }
  }

  /** Every line of such a document is scanned, whole and protected. */
  lemma FencedDocumentScans(inner: seq<Text>)
    requires Fenceable(inner)
    ensures ScanLines(FencedDocument(inner)) == FencedLines(inner)
  {
    hide TrimSpace, IsFenceDelimiter, RawLines, FenceCount, Protected, FrontMatter;
    var texts := FenceTexts(inner);
    FenceIsDelimiter();
    forall k | 0 <= k < |texts| ensures OneLine(texts[k]) {
      if 0 < k < |texts| - 1 {
        assert texts[k] == inner[k - 1];
      }
    }
    RawLinesOfJoined([], texts);
    assert [] + Joined(texts) == Joined(texts);
    var raw := LinesAt(texts, 0);
    forall k | 0 <= k < |texts| ensures k < |raw| && Protected(raw, k) {
      FencedLineProtected(inner, k);
    }
    LinesAtFacts(texts, 0, 0);
  }

  lemma FencedLineProtected(inner: seq<Text>, k: nat)
    requires Fenceable(inner) && k < |FenceTexts(inner)|
    ensures var raw := LinesAt(FenceTexts(inner), 0); k < |raw| && Protected(raw, k)
  {
    hide TrimSpace, IsFenceDelimiter, FenceCount;
    var texts := FenceTexts(inner);
    var raw := LinesAt(texts, 0);
    FenceIsDelimiter();
    LinesAtFacts(texts, 0, 0);
    LinesAtFacts(texts, 0, k);
    assert IsFence(raw[0]);
    assert FrontMatter(raw) == 0 by {
      assert FENCE[0] != [HYPHEN, HYPHEN, HYPHEN][0];
    }
    if 0 < k < |texts| - 1 {
      forall j | 1 <= j < k ensures !IsFence(raw[j]) {
        LinesAtFacts(texts, 0, j);
        assert texts[j] == inner[j - 1];
      }
      OneOpenFence(raw, k);
    }
  }

  // ---- One section, one block ----

  lemma {:induction false} NoMarks(lines: seq<Line>, f: DocFormat, n: nat)
    requires n <= |lines| && forall k :: 0 <= k < n ==> HeadingAt(lines, k, f).None?
    ensures Marks(lines, f, n) == []
  {
    hide HeadingAt;
    if n > 0 {
      NoMarks(lines, f, n - 1);
    }
  }

  /** A document without a heading is one section. */
  lemma NoHeadingOneSection(content: Text, b: Bounds, f: DocFormat)
    requires var lines := ScanLines(content); forall k :: 0 <= k < |lines| ==> HeadingAt(lines, k, f).None?
    ensures DocumentSections(content, b, f) == [Section([], [], 0, |content|)]
  {
    hide HeadingAt, ScanLines, Marks;
    var lines := ScanLines(content);
    NoMarks(lines, f, |lines|);
    var whole := Section([], [], 0, |content|);
    assert SectionsOf(lines, |content|, f) == [whole];
    assert [whole][1..] == [];
  }

  lemma ProtectedHasNoHeading(lines: seq<Line>, f: DocFormat, k: nat)
    requires k < |lines| && lines[k].isProtected
    ensures HeadingAt(lines, k, f).None?
  {
    hide HeadingAt;
    if HeadingAt(lines, k, f).Some? {
      HeadingIsUnprotected(lines, k, f);
    }
  }

  /** Up to line `n` a section without blank lines has one block. */
  lemma {:induction false} OneBlockSoFar(lines: seq<Line>, total: nat, n: nat)
    requires Chain(lines, 0, total) && 1 <= n <= |lines|
    requires forall k :: 0 <= k < |lines| ==> !Blank(lines[k])
    ensures BlockStarts(lines, Span(0, total), n) == [0] && TextBefore(lines, Span(0, total), n)
  {
    hide Blank, Chain;
    ChainBounds(lines, 0, total, n - 1);
    if n > 1 {
      OneBlockSoFar(lines, total, n - 1);
    } else {
      assert BlockStarts(lines, Span(0, total), 0) == [];
    }
  }

  /** A document without a blank line is one block. */
  lemma NoBlankOneBlock(lines: seq<Line>, total: nat)
    requires Chain(lines, 0, total) && lines != []
    requires forall k :: 0 <= k < |lines| ==> !Blank(lines[k])
    ensures BlocksOf(lines, Span(0, total)) == [Span(0, total)]
  {
    hide Blank, BlockStarts;
    OneBlockSoFar(lines, total, |lines|);
  }

  /** A fenced document is one section and one fenced block, whatever the bounds. */
  lemma FencedDocumentIsOneBlock(inner: seq<Text>, b: Bounds, f: DocFormat)
    requires Fenceable(inner)
    ensures var content, lines := FencedDocument(inner), FencedLines(inner);
            && content != [] && ScanLines(content) == lines && Chain(lines, 0, |content|)
            && DocumentSections(content, b, f) == [Section([], [], 0, |content|)]
            && BlocksOf(lines, Span(0, |content|)) == [Span(0, |content|)]
            && Fenced(lines, Span(0, |content|))
  {
    hide ScanLines, HeadingAt, TrimSpace, BlocksOf, Chain, LinesAt, Joined;
    var content, lines := FencedDocument(inner), FencedLines(inner);
    FencedDocumentScans(inner);
    ScanPartitions(content);
    LinesAtFacts(FenceTexts(inner), 0, 0);
    FenceOpens(inner);
    forall k | 0 <= k < |lines| ensures HeadingAt(lines, k, f).None? && !Blank(lines[k]) {
      ProtectedHasNoHeading(lines, f, k);
    }
    NoHeadingOneSection(content, b, f);
    NoBlankOneBlock(lines, |content|);
    ChainBounds(lines, 0, |content|, 0);
    assert In(lines, Span(0, |content|), 0);
  }

  lemma FenceOpens(inner: seq<Text>)
    ensures FencedDocument(inner) != []
  {
  }
}
