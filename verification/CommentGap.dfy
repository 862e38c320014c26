/** A fenced list of settings with a comment in it: its passages leave the comment out
    (handler/doc/splitter.go). */
module CommentGap {
  import opened Bytes
  import opened Utf8
  import opened Spans
  import opened Lines
  import opened Blocks
  import opened Oversized
  import opened KeyGroups
  import opened Weaving
  import opened Headings
  import opened Sections
  import opened Subdivision
  import opened Coverage
  import opened Splitter
  import opened Documents

  const A1: Text := [65, 61, 49]
  const NOTE: Text := [35, 32, 110, 111, 116, 101]
  const B2: Text := [66, 61, 50]
  const C3: Text := [67, 61, 51]

  /** A fence around "A=1", "# note", "B=2" and "C=3": the document, and its lines. */
  const Content: Text := FencedDocument([A1, NOTE, B2, C3])

  const Settings: seq<Line> := [
    Line(0, 4, FENCE, true), Line(4, 8, A1, true), Line(8, 15, NOTE, true),
    Line(15, 19, B2, true), Line(19, 23, C3, true), Line(23, 27, FENCE, true)]

  const Whole := Span(0, 27)

  /** A text between visible ASCII bytes is not trimmed. */
  lemma NothingToTrim(t: Text)
    requires t != [] && 33 <= t[0] < 127 && 33 <= t[|t| - 1] < 127
    ensures TrimSpace(t) == t
  {
    assert SpaceAtFront(t) == 0 && SpaceAtBack(t) == 0 by { NoSpaceAtEdges(t); }
    hide SpaceAtFront, SpaceAtBack;
  }

  lemma NoSpaceAtEdges(t: Text)
    requires t != [] && 33 <= t[0] < 127 && 33 <= t[|t| - 1] < 127
    ensures SpaceAtFront(t) == 0 && SpaceAtBack(t) == 0
  {
  }

  /** A one-letter setting groups under its letter. */
  lemma SettingKey(c: Byte, v: Byte, u: Tables)
    requires 65 <= c <= 90 && 33 <= v < 127 && u.isLetter(c) && !u.isDigit(c)
    ensures TrimSpace([c, ASSIGN, v]) == [c, ASSIGN, v]
    ensures AssignmentPrefix([c, ASSIGN, v], u) == Some([c])
  {
    var t: Text := [c, ASSIGN, v];
    NothingToTrim(t);
    assert t[1..][0] == ASSIGN;
    assert IndexOf(t, ASSIGN) == 1;
    var key := t[..1];
    assert key == [c];
    assert DecodeRune(key) == (c as nat, 1);
    assert key[1..] == [];
    assert ValidKey(key, u, true);
    assert IndexOf(key, UNDERSCORE) == 1 by {
      assert IndexOf(key[1..], UNDERSCORE) == 0;
    }
  }

  lemma NoteKey(u: Tables)
    ensures TrimSpace(NOTE) == NOTE && AssignmentPrefix(NOTE, u) == None && !IsFenceDelimiter(NOTE)
  {
    hide TrimSpace;
    NothingToTrim(NOTE);
    NoAssign(NOTE);
    assert NOTE[..3][0] == 35;
  }

  lemma {:induction false} NoAssign(t: Text)
    requires ASSIGN !in t
    ensures IndexOf(t, ASSIGN) == |t|
  {
    if t != [] {
      NoAssign(t[1..]);
    }
  }

  lemma InWhole(i: nat)
    requires i < 6
    ensures In(Settings, Whole, i) && Settings[i].isProtected
    ensures Settings[i].start >= Whole.start && Settings[i].end <= Whole.end
  {
  }

  lemma TextOf(i: nat)
    requires i < 6
    ensures Settings[i].text == [FENCE, A1, NOTE, B2, C3, FENCE][i]
  {
  }

  lemma ItemHere(u: Tables, i: nat, items: seq<Item>, key: Option<Text>)
    requires i < 6 && Items(Settings, Whole, u, i) == items
    requires var t := Settings[i].text;
             TrimSpace(t) == t != [] && !IsFenceDelimiter(t) && AssignmentPrefix(t, u) == key
    ensures Items(Settings, Whole, u, i + 1) == items + [Item(i, key)]
  {
    hide TrimSpace, AssignmentPrefix, IsFenceDelimiter, Items;
    ItemsStep(Settings, Whole, u, i);
    InWhole(i);
  }

  lemma NoItemHere(u: Tables, i: nat, items: seq<Item>)
    requires i < 6 && Items(Settings, Whole, u, i) == items
    requires TrimSpace(Settings[i].text) == Settings[i].text && IsFenceDelimiter(Settings[i].text)
    ensures Items(Settings, Whole, u, i + 1) == items
  {
    hide TrimSpace, AssignmentPrefix, IsFenceDelimiter, Items;
    ItemsStep(Settings, Whole, u, i);
  }

  lemma SettingHere(u: Tables, i: nat, items: seq<Item>, c: Byte, v: Byte)
    requires i < 6 && Items(Settings, Whole, u, i) == items && Settings[i].text == [c, ASSIGN, v]
    requires 65 <= c <= 90 && 33 <= v < 127 && u.isLetter(c) && !u.isDigit(c)
    ensures Items(Settings, Whole, u, i + 1) == items + [Item(i, Some([c]))]
  {
    hide TrimSpace, AssignmentPrefix, IsFenceDelimiter, Items;
    SettingKey(c, v, u);
    SettingIsNoFence(c, v);
    ItemHere(u, i, items, Some([c]));
  }

  lemma SettingsItems(u: Tables)
    requires forall c :: 65 <= c <= 67 ==> u.isLetter(c) && !u.isDigit(c)
    ensures Items(Settings, Whole, u, 6)
         == [Item(1, Some([65])), Item(2, None), Item(3, Some([66])), Item(4, Some([67]))]
  {
    hide TrimSpace, AssignmentPrefix, IsFenceDelimiter, Items;
    NoItems(Settings, Whole, u);
    NothingToTrim(FENCE);
    FenceDelimits();
    NoteKey(u);
    TextOf(0);
    NoItemHere(u, 0, []);
    TextOf(1);
    SettingHere(u, 1, [], 65, 49);
    TextOf(2);
    ItemHere(u, 2, [] + [Item(1, Some([65]))], None);
    TextOf(3);
    SettingHere(u, 3, [] + [Item(1, Some([65]))] + [Item(2, None)], 66, 50);
    TextOf(4);
    SettingHere(u, 4, [] + [Item(1, Some([65]))] + [Item(2, None)] + [Item(3, Some([66]))], 67, 51);
    TextOf(5);
    NoItemHere(u, 5, [] + [Item(1, Some([65]))] + [Item(2, None)] + [Item(3, Some([66]))] + [Item(4, Some([67]))]);
  }

  lemma FenceDelimits()
    ensures IsFenceDelimiter(FENCE)
  {
    assert FENCE[..3] == FENCE;
  }

  lemma SettingIsNoFence(c: Byte, v: Byte)
    requires 65 <= c <= 90
    ensures !IsFenceDelimiter([c, ASSIGN, v])
  {
    var t: Text := [c, ASSIGN, v];
    assert t[..3][0] == c;
  }

  lemma SettingsPlaced()
    ensures Placed(Settings, [Item(1, Some([65])), Item(2, None), Item(3, Some([66])), Item(4, Some([67]))])
    ensures SpanOf(Settings[1]) == Span(4, 8) && SpanOf(Settings[3]) == Span(15, 19) && SpanOf(Settings[4]) == Span(19, 23)
  {
  }

  lemma PlacedPrefix(lines: seq<Line>, items: seq<Item>, x: Item)
    requires Placed(lines, items + [x])
    ensures Placed(lines, items)
  {
    assert forall k :: 0 <= k < |items| ==> (items + [x])[k] == items[k];
  }

  /** The three settings are three groups: the comment parts the first two. */
  lemma SettingsGroups(u: Tables)
    requires forall c :: 65 <= c <= 67 ==> u.isLetter(c) && !u.isDigit(c)
    ensures KeyValueGroups(Settings, Whole, u) == [Span(4, 8), Span(15, 19), Span(19, 23)]
  {
    hide Items, GroupsOf, Assignments, Placed, In, LastToken, SpanOf;
    var a, n, b, c := Item(1, Some([65])), Item(2, None), Item(3, Some([66])), Item(4, Some([67]));
    SettingsItems(u);
    SettingsPlaced();
    assert [] + [a] + [n] + [b] + [c] == [a, n, b, c];
    PlacedPrefix(Settings, [] + [a] + [n] + [b], c);
    PlacedPrefix(Settings, [] + [a] + [n], b);
    PlacedPrefix(Settings, [] + [a], n);
    NoItems(Settings, Whole, u);
    GroupStep(Settings, [], a);
    GroupStep(Settings, [] + [a], n);
    GroupStep(Settings, [] + [a] + [n], b);
    GroupStep(Settings, [] + [a] + [n] + [b], c);
    assert Fenced(Settings, Whole) by { InWhole(0); }
  }

  /** The settings are the scan of a document of 27 bytes, which is one section and one
      block. */
  lemma SettingsAreScanned(b: Bounds, f: DocFormat)
    ensures |Content| == 27 && Content[8..15] == NOTE + [NEWLINE]
    ensures ScanLines(Content) == Settings && Chain(Settings, 0, 27)
    ensures DocumentSections(Content, b, f) == [Section([], [], 0, 27)]
    ensures BlocksOf(Settings, Whole) == [Whole]
  {
    hide TrimSpace, IsFenceDelimiter, ScanLines, BlocksOf, Chain, DocumentSections;
    var inner := [A1, NOTE, B2, C3];
    SettingKeyless(65, 49);
    SettingKeyless(66, 50);
    SettingKeyless(67, 51);
    NothingToTrim(NOTE);
    assert NOTE[..3][0] == 35;
    NoteIsNoFence();
    assert Fenceable(inner);
    FencedDocumentIsOneBlock(inner, b, f);
    SettingsLines();
    SettingsBytes();
  }

  lemma SettingKeyless(c: Byte, v: Byte)
    requires 65 <= c <= 90 && 33 <= v < 127
    ensures TrimSpace([c, ASSIGN, v]) == [c, ASSIGN, v] && !IsFenceDelimiter([c, ASSIGN, v])
  {
    NothingToTrim([c, ASSIGN, v]);
    SettingIsNoFence(c, v);
  }

  lemma NoteIsNoFence()
    ensures !IsFenceDelimiter(NOTE)
  {
    assert NOTE[..3][0] == 35;
  }

  lemma SettingsLines()
    ensures FencedLines([A1, NOTE, B2, C3]) == Settings
  {
    var texts := FenceTexts([A1, NOTE, B2, C3]);
    assert texts == [FENCE, A1, NOTE, B2, C3, FENCE];
    assert LinesAt([], 27) == [];
    assert LinesAt([FENCE], 23) == [Line(23, 27, FENCE, false)] + [] by { assert [FENCE][1..] == []; }
    assert LinesAt([C3, FENCE], 19) == [Line(19, 23, C3, false)] + LinesAt([FENCE], 23);
    assert LinesAt([B2, C3, FENCE], 15) == [Line(15, 19, B2, false)] + LinesAt([C3, FENCE], 19);
    assert LinesAt([NOTE, B2, C3, FENCE], 8) == [Line(8, 15, NOTE, false)] + LinesAt([B2, C3, FENCE], 15);
    assert LinesAt([A1, NOTE, B2, C3, FENCE], 4) == [Line(4, 8, A1, false)] + LinesAt([NOTE, B2, C3, FENCE], 8);
    assert LinesAt(texts, 0) == [Line(0, 4, FENCE, false)] + LinesAt([A1, NOTE, B2, C3, FENCE], 4);
  }

  lemma SettingsBytes()
    ensures |Content| == 27 && Content[8..15] == NOTE + [NEWLINE]
  {
    assert FenceTexts([A1, NOTE, B2, C3]) == [FENCE, A1, NOTE, B2, C3, FENCE];
    var tail := Joined([B2, C3, FENCE]);
    assert Joined([FENCE]) == FENCE + [NEWLINE] + [] by { assert [FENCE][1..] == []; }
    assert Joined([C3, FENCE]) == C3 + [NEWLINE] + Joined([FENCE]);
    assert tail == B2 + [NEWLINE] + Joined([C3, FENCE]);
    assert Joined([NOTE, B2, C3, FENCE]) == NOTE + [NEWLINE] + tail;
    assert Joined([A1, NOTE, B2, C3, FENCE]) == A1 + [NEWLINE] + Joined([NOTE, B2, C3, FENCE]);
    assert Content == FENCE + [NEWLINE] + Joined([A1, NOTE, B2, C3, FENCE]);
  }

  /** The comment is in no span: the section is not tiled. */
  lemma CommentIsInNoSpan(u: Tables)
    requires forall c :: 65 <= c <= 67 ==> u.isLetter(c) && !u.isDigit(c)
    ensures var spans := [Span(0, 4), Span(4, 8), Span(15, 19), Span(19, 23), Span(23, 27)];
            && Chain(Settings, 0, 27)
            && Homogeneous(Settings, Whole, u) == Some(spans)
            && !Tiles(spans, 0, 27)
            && forall p :: 8 <= p < 15 ==> !Covered(spans, p)
  {
    hide KeyValueGroups, BlocksOf, Covered, Tiles, Chain, ScanLines, DocumentSections;
    var groups := [Span(4, 8), Span(15, 19), Span(19, 23)];
    SettingsGroups(u);
    SettingsAreScanned(Bounds(0, 0, 0), Markdown);
    assert QualifyingGroups(Settings, [], u) == [];
    assert QualifyingGroups(Settings, [Whole], u) == [groups] by { assert [Whole][1..] == []; }
    assert Weave(23, [], 27) == [Span(23, 27)];
    assert Weave(0, [groups], 27) == [Span(0, 4)] + groups + [Span(23, 27)];
    assert [Span(0, 4)] + groups + [Span(23, 27)]
        == [Span(0, 4), Span(4, 8), Span(15, 19), Span(19, 23), Span(23, 27)];
    assert Homogeneous(Settings, Whole, u) == Some(Weave(0, [groups], 27));
    NoteIsMissed();
  }

  /** The document's passages leave the comment out, and so do not concatenate to it, for all
      bounds and in either format. */
  lemma CommentIsInNoPassage(b: Bounds, f: DocFormat, u: Tables)
    requires forall c :: 65 <= c <= 67 ==> u.isLetter(c) && !u.isDigit(c)
    ensures |Content| == 27 && Content[8..15] == NOTE + [NEWLINE] && ScanLines(Content) == Settings
    ensures var r := Passages(Content, b, f, u);
            && r.Done?
            && PassageSpans(r.value) == [Span(0, 4), Span(4, 8), Span(15, 19), Span(19, 23), Span(23, 27)]
            && (forall p :: 8 <= p < 15 ==> !Covered(PassageSpans(r.value), p))
            && Concatenated(r.value) != Content
  {
    hide ScanLines, DocumentSections, BlocksOf, Covered, Homogeneous, Lies, Tiles, Chain;
    SettingsAreScanned(b, f);
    CommentIsInNoSpan(u);
    SectionsLie(Content, b, f);
    var ss := [Section([], [], 0, 27)];
    var spans := [Span(0, 4), Span(4, 8), Span(15, 19), Span(19, 23), Span(23, 27)];
    OneSectionPassages(Content, Settings, ss[0], b, u, spans);
    PassagesCoverExactly(Content, b, f, u);
    ReproducesUnlessLost(Content, b, f, u);
    assert Lost(Settings, ss, u, 8);
  }

  lemma OneSectionPassages(content: Text, lines: seq<Line>, s: Section, b: Bounds, u: Tables, spans: seq<Span>)
    requires AllLie(content, lines, [s]) && Homogeneous(lines, Extent(s), u) == Some(spans)
    ensures var r := PassagesFrom(content, lines, [s], 0, b, u);
            r.Done? && PassageSpans(r.value) == spans
  {
    hide Lies, BlocksOf, Homogeneous;
    assert [s][0] == s;
    SubdivideInContent(content, lines, Extent(s), b, u);
    assert [s][1..] == [];
    assert PassageSpans(SectionPassages(content, s, spans, 0) + []) == spans;
  }

  lemma NoteIsMissed()
    ensures var spans := [Span(0, 4), Span(4, 8), Span(15, 19), Span(19, 23), Span(23, 27)];
            !Tiles(spans, 0, 27) && forall p :: 8 <= p < 15 ==> !Covered(spans, p)
  {
    var spans := [Span(0, 4), Span(4, 8), Span(15, 19), Span(19, 23), Span(23, 27)];
    if Tiles(spans, 0, 27) {
      TilesCover(spans, 0, 27, 8);
    }
  }
}
