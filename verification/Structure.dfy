/** The document's structure in the text's own terms (handler/doc/splitter.go): which lines are
    protected, which are headings, where blocks and sentences end, what a key/value line is. */
module Structure {
  import opened Bytes
  import opened Utf8
  import opened Spans
  import opened Lines
  import opened Headings
  import opened Blocks
  import opened Cuts
  import opened Oversized
  import opened KeyGroups

  // ---- protected lines ----

  /** The line, trimmed, is three hyphens. */
  predicate Ruled(ln: Line) {
    TrimSpace(ln.text) == [45, 45, 45]
  }

  /** The line, trimmed, begins with three backticks or three tildes. */
  predicate Delimits(ln: Line) {
    var t := TrimSpace(ln.text);
    |t| >= 3 && t[0] == t[1] == t[2] && t[0] in {96, 126}
  }

  /** The line belongs to front matter: the first line is a rule, and none stands between. */
  ghost predicate InFrontMatter(lines: seq<Line>, i: nat)
    requires i < |lines|
  {
    Ruled(lines[0]) && forall k :: 0 < k < i ==> !Ruled(lines[k])
  }

  /** The fence delimiters before line `i`, front matter aside. */
  ghost function DelimitersBefore(lines: seq<Line>, i: nat): set<nat>
    requires i <= |lines|
  {
    set j: nat | j < i && !InFrontMatter(lines, j) && Delimits(lines[j])
  }

  lemma FrontMatterIs(lines: seq<Line>, i: nat)
    requires i < |lines|
    ensures i < FrontMatter(lines) <==> InFrontMatter(lines, i)
  {
    hide TrimSpace;
    if Ruled(lines[0]) && i >= FrontMatter(lines) {
      var close := NextRule(lines, 1);
      assert Ruled(lines[close]) && 0 < close < i;
    }
  }

  lemma FenceIs(ln: Line)
    ensures IsFence(ln) <==> Delimits(ln)
  {
    hide TrimSpace;
    var t := TrimSpace(ln.text);
    if |t| >= 3 {
      assert t[..3][0] == t[0] && t[..3][1] == t[1] && t[..3][2] == t[2];
      assert t[..3] == [t[0], t[1], t[2]];
    }
  }

  lemma {:induction false} FenceCountIs(lines: seq<Line>, i: nat)
    requires FrontMatter(lines) <= i <= |lines|
    ensures FenceCount(lines, FrontMatter(lines), i) == |DelimitersBefore(lines, i)|
    decreases i
  {
    hide FrontMatter, InFrontMatter, Delimits, IsFence;
    var body := FrontMatter(lines);
    if i == body {
      forall j: nat | j < i ensures j !in DelimitersBefore(lines, i) {
        FrontMatterIs(lines, j);
      }
      assert DelimitersBefore(lines, i) == {};
    } else {
      FenceCountIs(lines, i - 1);
      FrontMatterIs(lines, i - 1);
      FenceIs(lines[i - 1]);
      var before := DelimitersBefore(lines, i - 1);
      assert DelimitersBefore(lines, i) == if Delimits(lines[i - 1]) then before + {i - 1} else before;
    }
  }

  lemma ProtectedMeans(lines: seq<Line>, i: nat)
    requires i < |lines|
    ensures Protected(lines, i) <==>
              InFrontMatter(lines, i) || Delimits(lines[i]) || |DelimitersBefore(lines, i)| % 2 == 1
  {
    hide FrontMatter, InFrontMatter, Delimits, IsFence, FenceCount, DelimitersBefore;
    FrontMatterIs(lines, i);
    FenceIs(lines[i]);
    if i >= FrontMatter(lines) {
      FenceCountIs(lines, i);
    }
  }

  lemma SameTexts(a: seq<Line>, b: seq<Line>, i: nat)
    requires |a| == |b| && (forall k :: 0 <= k < |a| ==> a[k].text == b[k].text) && i < |a|
    ensures InFrontMatter(a, i) <==> InFrontMatter(b, i)
    ensures DelimitersBefore(a, i) == DelimitersBefore(b, i)
    ensures Delimits(a[i]) <==> Delimits(b[i])
  {
    hide TrimSpace;
    forall j: nat | j <= i ensures InFrontMatter(a, j) <==> InFrontMatter(b, j) {
      assert forall k :: 0 <= k < j ==> Ruled(a[k]) == Ruled(b[k]);
    }
  }

  /** A scanned line is protected if and only if it is front matter, a fence delimiter, or
      has an odd number of delimiters before it, those in front matter not counting. */
  lemma ProtectedExactly(content: Text, i: nat)
    requires i < |ScanLines(content)|
    ensures var lines := ScanLines(content);
            lines[i].isProtected <==>
              InFrontMatter(lines, i) || Delimits(lines[i]) || |DelimitersBefore(lines, i)| % 2 == 1
  {
    hide Protected, InFrontMatter, DelimitersBefore, Delimits, RawLines;
    var raw, lines := RawLines(content, 0), ScanLines(content);
    ProtectedMeans(raw, i);
    SameTexts(raw, lines, i);
  }

  // ---- headings ----

  /** `t` is `n` markers, and then text that does not go on with one. */
  predicate Opens(t: Text, n: nat, c: Byte, rest: Text) {
    t == seq(n, _ => c) + rest && (rest != [] ==> rest[0] != c)
  }

  lemma {:induction false} RunIs(t: Text, c: Byte)
    ensures Opens(t, LeadingRun(t, c), c, t[LeadingRun(t, c)..])
  {
    if t != [] && t[0] == c {
      RunIs(t[1..], c);
      var n := LeadingRun(t[1..], c);
      assert t[1..][n..] == t[n + 1..];
      assert t == [c] + t[1..];
      assert [c] + seq(n, _ => c) == seq(n + 1, _ => c);
    } else {
      assert seq(0, _ => c) == [];
    }
  }

  lemma {:induction false} RunIsUnique(t: Text, n: nat, c: Byte, rest: Text)
    requires Opens(t, n, c, rest)
    ensures LeadingRun(t, c) == n && t[n..] == rest
  {
    if n > 0 {
      assert t[0] == c;
      assert t[1..] == seq(n - 1, _ => c) + rest;
      RunIsUnique(t[1..], n - 1, c, rest);
      assert t[1..][n - 1..] == t[n..];
    } else {
      assert t == rest;
    }
  }

  /** An AsciiDoc title is one to six equals signs, a space, and the title's text. */
  lemma AdocExactly(ln: Line, h: Heading)
    ensures AdocHeading(ln) == Some(h) <==>
              && !ln.isProtected && 1 <= h.level <= 6
              && exists rest :: Opens(TrimSpace(ln.text), h.level, 61, rest)
                                && rest != [] && rest[0] == 32 && TrimSpace(rest) == h.text
  {
    hide TrimSpace, LeadingRun;
    var t := TrimSpace(ln.text);
    RunIs(t, 61);
    var n := LeadingRun(t, 61);
    StartsWith(t[n..], 32);
    if AdocHeading(ln) == Some(h) {
      assert Opens(t, h.level, 61, t[n..]);
    }
    if rest :| Opens(t, h.level, 61, rest) && rest != [] && rest[0] == 32 && TrimSpace(rest) == h.text {
      RunIsUnique(t, h.level, 61, rest);
    }
  }

  lemma StartsWith(t: Text, c: Byte)
    ensures HasPrefix(t, [c]) <==> t != [] && t[0] == c
  {
    if t != [] {
      assert t[..1] == [t[0]];
    }
  }

  /** The text before a closing run of hashes. */
  ghost predicate Unclosed(rest: Text, words: Text) {
    exists m: nat :: Closes(rest, words, m)
  }

  predicate Closes(rest: Text, words: Text, m: nat) {
    m <= |rest| && rest == words + seq(m, _ => 35) && (words != [] ==> words[|words| - 1] != 35)
  }

  lemma {:induction false} ClosingIs(rest: Text) returns (m: nat)
    ensures Closes(rest, TrimRightSet(rest, {35}), m)
  {
    var n := |rest|;
    if n > 0 && rest[n - 1] == 35 {
      var m' := ClosingIs(rest[..n - 1]);
      m := m' + 1;
      assert rest == rest[..n - 1] + [35];
      assert seq(m', _ => 35) + [35] == seq(m, _ => 35);
    } else {
      m := 0;
      assert rest == rest + seq(0, _ => 35);
    }
  }

  lemma {:induction false} ClosingIsUnique(rest: Text, words: Text, m: nat)
    requires Closes(rest, words, m)
    ensures TrimRightSet(rest, {35}) == words
    decreases m
  {
    if m > 0 {
      assert rest[|rest| - 1] == 35;
      assert rest[..|rest| - 1] == words + seq(m - 1, _ => 35);
      ClosingIsUnique(rest[..|rest| - 1], words, m - 1);
    } else {
      assert rest == words;
    }
  }

  /** A hashed heading is one to six hashes, then nothing, or a space and the heading's text
      with any closing hashes. */
  lemma AtxExactly(ln: Line, h: Heading)
    ensures AtxHeading(ln) == Some(h) <==>
              && !ln.isProtected && 1 <= h.level <= 6
              && exists rest, words :: Opens(TrimSpace(ln.text), h.level, 35, rest)
                                       && (rest == [] || rest[0] == 32) && Unclosed(rest, words)
                                       && TrimSpace(words) == h.text
  {
    hide TrimSpace, LeadingRun, TrimRightSet, Closes;
    var t := TrimSpace(ln.text);
    RunIs(t, 35);
    var n := LeadingRun(t, 35);
    StartsWith(t[n..], 32);
    if AtxHeading(ln) == Some(h) {
      var m := ClosingIs(t[n..]);
      assert Opens(t, h.level, 35, t[n..]) && Unclosed(t[n..], TrimRightSet(t[n..], {35}));
    }
    if rest, words :| Opens(t, h.level, 35, rest) && (rest == [] || rest[0] == 32) && Unclosed(rest, words)
                      && TrimSpace(words) == h.text {
      RunIsUnique(t, h.level, 35, rest);
      var m: nat :| Closes(rest, words, m);
      ClosingIsUnique(rest, words, m);
    }
  }

  /** An underlined heading is a line of prose over a line of two or more equals signs, or of
      hyphens, neither of them protected. */
  lemma SetextExactly(lines: seq<Line>, i: nat, h: Heading)
    requires i < |lines|
    ensures SetextHeading(lines, i) == Some(h) <==>
              && i + 1 < |lines| && !lines[i].isProtected && !lines[i + 1].isProtected
              && h.text == TrimSpace(lines[i].text) && h.text != []
              && h.text[0] !in {35, 45, 42, 43, 62, 124, 61}
              && h.level in {1, 2}
              && exists n: nat :: n >= 2 && TrimSpace(lines[i + 1].text) == Underline(h.level, n)
  {
    hide TrimSpace;
    if i + 1 < |lines| {
      var under := TrimSpace(lines[i + 1].text);
      if SetextHeading(lines, i) == Some(h) {
        assert under == Underline(h.level, |under|);
      }
      if h.level in {1, 2} && exists n: nat :: n >= 2 && under == Underline(h.level, n) {
        var n: nat :| n >= 2 && under == Underline(h.level, n);
        assert |under| == n && forall k :: 0 <= k < n ==> under[k] == under[0];
      }
    }
  }

  function Underline(level: nat, n: nat): Text {
    seq(n, _ => if level == 1 then 61 else 45)
  }

  /** In Markdown a line that could be either is a hashed heading; no other syntax counts. */
  lemma HeadingExactly(lines: seq<Line>, i: nat, f: DocFormat, h: Heading)
    requires i < |lines|
    ensures f.AsciiDoc? ==> (HeadingAt(lines, i, f) == Some(h) <==> AdocHeading(lines[i]) == Some(h))
    ensures f.Markdown? ==> (HeadingAt(lines, i, f) == Some(h) <==>
                               AtxHeading(lines[i]) == Some(h) || SetextHeading(lines, i) == Some(h))
  {
    hide TrimSpace, TrimRightSet;
    if AtxHeading(lines[i]).Some? {
      var t := TrimSpace(lines[i].text);
      assert t[0] == 35;
    }
  }

  // ---- blocks ----

  /** Neither blank nor unprotected. */
  predicate HoldsText(ln: Line) {
    TrimSpace(ln.text) != [] || ln.isProtected
  }

  lemma {:induction false} StartsListed(lines: seq<Line>, s: Span, n: nat, i: nat)
    requires n <= |lines| && i < n
    ensures i in BlockStarts(lines, s, n) <==> StartsBlock(lines, s, i)
    decreases n
  {
    hide StartsBlock;
    if i < n - 1 {
      StartsListed(lines, s, n - 1, i);
    } else {
      var before := BlockStarts(lines, s, n - 1);
      assert i !in before;
    }
  }

  /** A text line of the section is in a block that starts no later. */
  lemma {:induction false} TextHasStart(lines: seq<Line>, s: Span, j: nat) returns (i: nat)
    requires j < |lines| && In(lines, s, j) && !Blank(lines[j])
    ensures i <= j && StartsBlock(lines, s, i)
    decreases j
  {
    hide Blank, In;
    if TextBefore(lines, s, j) {
      var k := LastText(lines, s, j);
      i := TextHasStart(lines, s, k);
    } else {
      i := j;
    }
  }

  lemma {:induction false} LastText(lines: seq<Line>, s: Span, n: nat) returns (k: nat)
    requires n <= |lines| && TextBefore(lines, s, n)
    ensures k < n && In(lines, s, k) && !Blank(lines[k])
    decreases n
  {
    hide Blank, In;
    if In(lines, s, n - 1) {
      k := n - 1;
    } else {
      k := LastText(lines, s, n - 1);
    }
  }

  /** A new block begins at a line of the section if and only if the line holds text, the one
      before it is blank, and some line before that holds text. */
  lemma BlocksCutExactly(lines: seq<Line>, total: nat, s: Span, i: nat)
    requires Chain(lines, 0, total) && NonEmpty(s) && WholeLines(lines, s)
    requires i < |lines| && In(lines, s, i) && s.start < lines[i].start
    ensures (exists k :: 0 < k < |BlocksOf(lines, s)| && BlocksOf(lines, s)[k].start == lines[i].start)
            <==> i > 0 && HoldsText(lines[i]) && !HoldsText(lines[i - 1])
                 && exists j :: 0 <= j < i && In(lines, s, j) && HoldsText(lines[j])
  {
    hide TrimSpace, BlockStarts, Chain, WholeLines, BlocksOf;
    if k :| 0 < k < |BlocksOf(lines, s)| && BlocksOf(lines, s)[k].start == lines[i].start {
      CutHasBlank(lines, total, s, i, k);
    }
    if i > 0 && HoldsText(lines[i]) && !HoldsText(lines[i - 1])
       && exists j :: 0 <= j < i && In(lines, s, j) && HoldsText(lines[j]) {
      var j: nat :| j < i && In(lines, s, j) && HoldsText(lines[j]);
      BlankCuts(lines, total, s, i, j);
    }
  }

  lemma LineBeforeIn(lines: seq<Line>, total: nat, s: Span, i: nat)
    requires Chain(lines, 0, total) && WholeLines(lines, s)
    requires i < |lines| && In(lines, s, i) && s.start < lines[i].start
    ensures i > 0 && In(lines, s, i - 1)
  {
    var lo: nat, hi: nat :| OnLines(lines, s, lo, hi);
    InRange(lines, total, s, lo, hi, i);
    assert i != lo;
    InRange(lines, total, s, lo, hi, i - 1);
  }

  lemma CutHasBlank(lines: seq<Line>, total: nat, s: Span, i: nat, k: nat)
    requires Chain(lines, 0, total) && NonEmpty(s) && WholeLines(lines, s) && i < |lines|
    requires In(lines, s, i) && s.start < lines[i].start
    requires 0 < k < |BlocksOf(lines, s)| && BlocksOf(lines, s)[k].start == lines[i].start
    ensures i > 0 && HoldsText(lines[i]) && !HoldsText(lines[i - 1])
    ensures exists j :: 0 <= j < i && In(lines, s, j) && HoldsText(lines[j])
  {
    hide TrimSpace, BlockStarts, Chain, WholeLines, BlocksOf, TextBefore;
    BlockAtStart(lines, s, k);
    var st := BlockStarts(lines, s, |lines|);
    StartsAreStarts(lines, s, |lines|, k);
    StartsAreStarts(lines, s, |lines|, 0);
    StartsClimb(lines, s, |lines|, 0, k);
    SameLine(lines, total, st[k], i);
    LineBeforeIn(lines, total, s, i);
    NoTextIsBlank(lines, s, i);
    assert HoldsText(lines[st[0]]);
  }

  lemma SameLine(lines: seq<Line>, total: nat, i: nat, j: nat)
    requires Chain(lines, 0, total) && i < |lines| && j < |lines| && lines[i].start == lines[j].start
    ensures i == j
  {
    ChainBounds(lines, 0, total, i);
    ChainBounds(lines, 0, total, j);
    if i < j {
      ChainOrder(lines, 0, total, i, j);
    } else if j < i {
      ChainOrder(lines, 0, total, j, i);
    }
  }

  lemma BlankCuts(lines: seq<Line>, total: nat, s: Span, i: nat, j: nat)
    requires Chain(lines, 0, total) && WholeLines(lines, s) && j < i < |lines|
    requires In(lines, s, i) && s.start < lines[i].start
    requires HoldsText(lines[i]) && !HoldsText(lines[i - 1]) && In(lines, s, j) && HoldsText(lines[j])
    ensures exists k :: 0 < k < |BlocksOf(lines, s)| && BlocksOf(lines, s)[k].start == lines[i].start
  {
    hide TrimSpace, BlockStarts, Chain, WholeLines;
    LineBeforeIn(lines, total, s, i);
    assert StartsBlock(lines, s, i);
    var a := TextHasStart(lines, s, j);
    StartsListed(lines, s, |lines|, i);
    StartsListed(lines, s, |lines|, a);
    var st := BlockStarts(lines, s, |lines|);
    var k :| 0 <= k < |st| && st[k] == i;
    var k0 :| 0 <= k0 < |st| && st[k0] == a;
    if k == 0 && k0 > 0 {
      StartsClimb(lines, s, |lines|, k, k0);
    }
    assert BlocksOf(lines, s)[k].start == lines[i].start;
  }

  // ---- sentences ----

  /** A sentence ends at `j`: just past a full stop, exclamation or question mark, and past
      one closing quote or bracket if one follows; at the block's end or before white space. */
  predicate EndsSentence(content: Text, blk: Span, i: nat, j: nat)
    requires i < blk.end <= |content|
  {
    && content[i] in {46, 33, 63}
    && (if i + 1 < blk.end && content[i + 1] in {34, 39, 41} then j == i + 2 else j == i + 1)
    && (j < blk.end ==> content[j] in {9, 10, 11, 12, 13, 32, 0x85, 0xA0})
  }

  lemma {:induction false} EndsFromExactly(content: Text, blk: Span, i: nat, j: nat)
    requires i <= blk.end <= |content|
    ensures j in EndsFrom(content, blk, i) <==> exists k :: i <= k < blk.end && EndsSentence(content, blk, k, j)
    decreases blk.end - i
  {
    if i < blk.end {
      EndsFromExactly(content, blk, i + 1, j);
      assert SentenceEndAt(content, blk, i) == Some(j) <==> EndsSentence(content, blk, i, j);
    }
  }

  lemma SentenceEndsExactly(content: Text, blk: Span, j: nat)
    requires blk.start <= blk.end <= |content|
    ensures j in SentenceEnds(content, blk) <==> exists i :: blk.start <= i < blk.end && EndsSentence(content, blk, i, j)
  {
    hide EndsSentence, EndsFrom;
    EndsFromExactly(content, blk, blk.start, j);
  }
}
