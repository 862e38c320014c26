/** Heading recognition (handler/doc/splitter.go): which lines are headings, in either
    document format, and at what level. */
module Headings {
  import opened Bytes
  import opened Lines

  const HASH: Byte := 35
  const EQUALS: Byte := 61
  const SPACE: Byte := 32

  datatype DocFormat = Markdown | AsciiDoc

  datatype Heading = Heading(text: Text, level: nat)

  function HeadingAt(lines: seq<Line>, i: nat, f: DocFormat): Option<Heading>
    requires i < |lines|
  {
    match f
    case AsciiDoc => AdocHeading(lines[i])
    case Markdown =>
      var atx := AtxHeading(lines[i]);
      if atx.Some? then atx else SetextHeading(lines, i)
  }

  function AdocHeading(ln: Line): Option<Heading> {
    var t := TrimSpace(ln.text);
    var equals := LeadingRun(t, EQUALS);
    var rest := t[equals..];
    if ln.isProtected || equals == 0 || equals > 6 || !HasPrefix(rest, [SPACE]) then None
    else Some(Heading(TrimSpace(rest), equals))
  }

  function AtxHeading(ln: Line): Option<Heading> {
    var t := TrimSpace(ln.text);
    var hashes := LeadingRun(t, HASH);
    var rest := t[hashes..];
    if ln.isProtected || hashes == 0 || hashes > 6 || (rest != [] && !HasPrefix(rest, [SPACE])) then None
    else Some(Heading(TrimSpace(TrimRightSet(rest, {HASH})), hashes))
  }

  /** The first bytes "-*+>|=" that keep a text line from being underlined. */
  const NOT_PROSE: set<Byte> := {45, 42, 43, 62, 124, 61}

  function SetextHeading(lines: seq<Line>, i: nat): Option<Heading>
    requires i < |lines|
  {
    if lines[i].isProtected || i + 1 >= |lines| || lines[i + 1].isProtected then None
    else
      var text := TrimSpace(lines[i].text);
      var under := TrimSpace(lines[i + 1].text);
      if text == [] || text[0] == HASH || text[0] in NOT_PROSE then None
      else if |under| < 2 || (under[0] != EQUALS && under[0] != HYPHEN) then None
      else if exists k :: 0 <= k < |under| && under[k] != under[0] then None
      else Some(Heading(text, if under[0] == HYPHEN then 2 else 1))
  }

  /** Headings are never protected lines, and their levels are those of six markers. */
  lemma HeadingIsUnprotected(lines: seq<Line>, i: nat, f: DocFormat)
    requires i < |lines| && HeadingAt(lines, i, f).Some?
    ensures !lines[i].isProtected
    ensures 1 <= HeadingAt(lines, i, f).value.level <= 6
  {
    hide TrimSpace, TrimRightSet;
  }

  /** The same number of markers makes the same heading in either format: a title line of
      `level` equals signs and its twin of `level` hashes agree on level, and on the text
      unless it ends in a hash, which only the hashed form drops. */
  lemma FormatsAgree(level: nat, words: Text, start: nat, end: nat)
    requires 1 <= level <= 6 && words != [] && TrimSpace(words) == words
    ensures AdocHeading(Line(start, end, Marked(level, EQUALS, words), false)) == Some(Heading(words, level))
    ensures AdocHeading(Line(start, end, Marked(level, EQUALS, words), false))
            == AtxHeading(Line(start, end, Marked(level, HASH, words), false))
            <==> words[|words| - 1] != HASH
  {
    hide TrimSpace, LeadingRun, Marked, TrimRightSet;
    AtxOfMarked(level, words, start, end);
    MarkerRun(level, EQUALS, words);
    AfterMarkers(level, EQUALS, words);
    MarkedIsTrimmed(level, EQUALS, words);
    LeadingSpaceGoes(words);
    AtxText(words);
  }

  /** What a hashed title reads as. */
  lemma AtxOfMarked(level: nat, words: Text, start: nat, end: nat)
    requires 1 <= level <= 6 && words != [] && TrimSpace(words) == words
    ensures AtxHeading(Line(start, end, Marked(level, HASH, words), false))
            == Some(Heading(TrimSpace(TrimRightSet([SPACE] + words, {HASH})), level))
  {
    hide TrimSpace, LeadingRun, Marked, TrimRightSet;
    MarkerRun(level, HASH, words);
    AfterMarkers(level, HASH, words);
    MarkedIsTrimmed(level, HASH, words);
  }

  /** A hashed title reads as its words exactly when they do not end in a hash. */
  lemma AtxText(words: Text)
    requires words != [] && TrimSpace(words) == words
    ensures TrimSpace(TrimRightSet([SPACE] + words, {HASH})) == words <==> words[|words| - 1] != HASH
  {
    hide TrimSpace, TrimRightSet;
    if words[|words| - 1] != HASH {
      KeepsTitle(words);
      LeadingSpaceGoes(words);
    } else {
      ClosingHashesGo(words);
    }
  }

  lemma ClosingHashesGo(words: Text)
    requires words != [] && words[|words| - 1] == HASH
    ensures |TrimSpace(TrimRightSet([SPACE] + words, {HASH}))| < |words|
  {
    hide TrimSpace;
    var t := [SPACE] + words;
    assert t[..|t| - 1] != [] && t[..|t| - 1][0] == SPACE;
    TrimRightKeepsFront(t[..|t| - 1], {HASH});
    var r := TrimRightSet(t, {HASH});
    assert r == TrimRightSet(t[..|t| - 1], {HASH});
    SpaceInFrontGoes(r);
    TrimNoLonger(r[1..]);
  }

  lemma {:induction false} TrimRightKeepsFront(t: Text, cut: set<Byte>)
    requires t != [] && t[0] !in cut
    ensures var r := TrimRightSet(t, cut); r != [] && r[0] == t[0] && |r| <= |t|
  {
    if t[|t| - 1] in cut {
      TrimRightKeepsFront(t[..|t| - 1], cut);
    }
  }

  lemma {:induction false} TrimNoLonger(t: Text)
    ensures |TrimSpace(t)| <= |t|
    decreases |t|
  {
    var front, back := SpaceAtFront(t), SpaceAtBack(t);
    if front > 0 {
      TrimNoLonger(t[front..]);
    } else if back > 0 {
      TrimNoLonger(t[..|t| - back]);
    }
  }

  lemma {:induction false} TrimTwice(t: Text)
    ensures TrimSpace(TrimSpace(t)) == TrimSpace(t)
    decreases |t|
  {
    var front, back := SpaceAtFront(t), SpaceAtBack(t);
    if front > 0 {
      TrimTwice(t[front..]);
    } else if back > 0 {
      TrimTwice(t[..|t| - back]);
    }
  }

  /** A text that trimming leaves alone has no white space at either end. */
  lemma TrimmedEnds(t: Text)
    ensures TrimSpace(t) == t <==> SpaceAtFront(t) == 0 && SpaceAtBack(t) == 0
  {
    var front, back := SpaceAtFront(t), SpaceAtBack(t);
    hide SpaceAtFront, SpaceAtBack;
    if front > 0 {
      TrimNoLonger(t[front..]);
    } else if back > 0 {
      TrimNoLonger(t[..|t| - back]);
    }
  }

  /** Markers and a space in front of trimmed words leave nothing to trim. */
  lemma MarkedIsTrimmed(level: nat, c: Byte, words: Text)
    requires level > 0 && c in {EQUALS, HASH} && words != [] && TrimSpace(words) == words
    ensures TrimSpace(Marked(level, c, words)) == Marked(level, c, words)
  {
    hide TrimSpace;
    TrimmedEnds(words);
    var t := Marked(level, c, words);
    TrimmedEnds(t);
    assert t[0] == c;
    var n := |words|;
    assert |t| == level + 1 + n && t[|t| - 1] == words[n - 1];
    assert t[|t| - 2] == if n >= 2 then words[n - 2] else SPACE;
    assert t[|t| - 3] == if n >= 3 then words[n - 3] else if n == 2 then SPACE else c;
  }

  /** A text line underlined by equals signs, or by hyphens, is the heading that the same
      words make after one hash, or two, unless they end in a hash. */
  lemma UnderlineAgrees(lines: seq<Line>, i: nat, words: Text, c: Byte, n: nat, start: nat, end: nat)
    requires i + 1 < |lines| && !lines[i].isProtected && !lines[i + 1].isProtected
    requires TrimSpace(lines[i].text) == words && words != []
    requires words[0] != HASH && words[0] !in NOT_PROSE
    requires c in {EQUALS, HYPHEN} && n >= 2 && TrimSpace(lines[i + 1].text) == seq(n, _ => c)
    ensures SetextHeading(lines, i) == Some(Heading(words, if c == EQUALS then 1 else 2))
    ensures SetextHeading(lines, i)
            == AtxHeading(Line(start, end, Marked(if c == EQUALS then 1 else 2, HASH, words), false))
            <==> words[|words| - 1] != HASH
  {
    hide TrimSpace, LeadingRun, Marked, TrimRightSet;
    TrimTwice(lines[i].text);
    AtxOfMarked(if c == EQUALS then 1 else 2, words, start, end);
    AtxText(words);
  }

  lemma SpaceInFrontGoes(t: Text)
    requires t != [] && t[0] == SPACE
    ensures TrimSpace(t) == TrimSpace(t[1..])
  {
    assert SpaceAtFront(t) == 1;
  }

  lemma LeadingSpaceGoes(words: Text)
    requires TrimSpace(words) == words
    ensures TrimSpace([SPACE] + words) == words
  {
    hide TrimSpace;
    var t := [SPACE] + words;
    SpaceInFrontGoes(t);
    assert t[1..] == words;
  }

  lemma AfterMarkers(level: nat, c: Byte, words: Text)
    ensures |Marked(level, c, words)| == level + 1 + |words|
    ensures Marked(level, c, words)[level..] == [SPACE] + words
  {
  }

  /** Closing hashes are trimmed from a title that ends in none. */
  lemma KeepsTitle(words: Text)
    requires words != [] && words[|words| - 1] != HASH
    ensures TrimRightSet([SPACE] + words, {HASH}) == [SPACE] + words
  {
  }

  function Marked(level: nat, c: Byte, words: Text): Text {
    seq(level, _ => c) + [SPACE] + words
  }

  lemma {:induction false} MarkerRun(level: nat, c: Byte, words: Text)
    requires c != SPACE
    ensures LeadingRun(Marked(level, c, words), c) == level
  {
    if level > 0 {
      MarkerRun(level - 1, c, words);
      assert Marked(level, c, words)[1..] == Marked(level - 1, c, words);
    }
  }
}
