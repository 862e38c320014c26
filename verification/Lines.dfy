/** The line scanner (handler/doc/splitter.go): physical lines with their byte spans, and
    which of them are protected from hosting a heading. */
module Lines {
  import opened Bytes
  import opened Spans

  const NEWLINE: Byte := 10
  const CARRIAGE_RETURN: Byte := 13
  const BACKTICK: Byte := 96
  const TILDE: Byte := 126
  const HYPHEN: Byte := 45

  datatype Line = Line(start: nat, end: nat, text: Text, isProtected: bool)

  function SpanOf(ln: Line): Span {
    Span(ln.start, ln.end)
  }

  /** The lines partition [off, total): non-empty, each starting where the last one ended. */
  ghost predicate Chain(lines: seq<Line>, off: nat, total: nat) {
    if lines == [] then off == total
    else
      && lines[0].start == off
      && lines[|lines| - 1].end == total
      && (forall i :: 0 <= i < |lines| ==> lines[i].start < lines[i].end)
      && (forall i, j :: 0 <= i < j < |lines| && j == i + 1 ==> lines[i].end == lines[j].start)
  }

  lemma {:induction false} ChainOrder(lines: seq<Line>, off: nat, total: nat, i: nat, j: nat)
    requires Chain(lines, off, total) && i < j < |lines|
    ensures lines[i].end <= lines[j].start
    decreases j - i
  {
    if i + 1 < j {
      ChainOrder(lines, off, total, i, j - 1);
    }
    assert lines[j - 1].end == lines[j].start;
  }

  lemma ChainBounds(lines: seq<Line>, off: nat, total: nat, i: nat)
    requires Chain(lines, off, total) && i < |lines|
    ensures off <= lines[i].start < lines[i].end <= total
  {
    ChainFrom(lines, off, total, i);
    ChainTo(lines, off, total, i);
  }

  lemma {:induction false} ChainFrom(lines: seq<Line>, off: nat, total: nat, i: nat)
    requires Chain(lines, off, total) && i < |lines|
    ensures off <= lines[i].start
  {
    if i > 0 {
      ChainFrom(lines, off, total, i - 1);
      assert lines[i - 1].end == lines[i].start;
    }
  }

  lemma {:induction false} ChainTo(lines: seq<Line>, off: nat, total: nat, i: nat)
    requires Chain(lines, off, total) && i < |lines|
    ensures lines[i].end <= total
    decreases |lines| - i
  {
    if i + 1 < |lines| {
      ChainTo(lines, off, total, i + 1);
      assert lines[i].end == lines[i + 1].start;
    }
  }

  /** Just past the newline that ends the line containing offset `off`, or the end. */
  function LineEnd(content: Text, off: nat): (end: nat)
    requires off <= |content|
    ensures off <= end <= |content|
    ensures off < |content| ==> off < end
    decreases |content| - off
  {
    if off == |content| then off
    else if content[off] == NEWLINE then off + 1
    else LineEnd(content, off + 1)
  }

  /** The bytes of a line without its line ending. */
  function LineText(content: Text, off: nat, end: nat): Text
    requires off <= end <= |content|
  {
    TrimRightSet(content[off..end], {CARRIAGE_RETURN, NEWLINE})
  }

  function RawLine(content: Text, off: nat): Line
    requires off < |content|
  {
    var end := LineEnd(content, off);
    Line(off, end, LineText(content, off, end), false)
  }

  /** The physical lines from offset `off` on, before any is marked. */
  function RawLines(content: Text, off: nat): seq<Line>
    requires off <= |content|
    decreases |content| - off
  {
    if off == |content| then []
    else [RawLine(content, off)] + RawLines(content, LineEnd(content, off))
  }

  predicate IsFenceDelimiter(trimmed: Text) {
    HasPrefix(trimmed, [BACKTICK, BACKTICK, BACKTICK]) || HasPrefix(trimmed, [TILDE, TILDE, TILDE])
  }

  predicate IsFence(ln: Line) {
    IsFenceDelimiter(TrimSpace(ln.text))
  }

  predicate IsRule(ln: Line) {
    TrimSpace(ln.text) == [HYPHEN, HYPHEN, HYPHEN]
  }

  /** First line at or after `i` that is a "---" rule, or the number of lines. */
  function NextRule(lines: seq<Line>, i: nat): (n: nat)
    requires i <= |lines|
    ensures i <= n <= |lines|
    ensures forall k :: i <= k < n ==> !IsRule(lines[k])
    ensures n < |lines| ==> IsRule(lines[n])
    decreases |lines| - i
  {
    if i == |lines| || IsRule(lines[i]) then i else NextRule(lines, i + 1)
  }

  /** How many lines leading front matter takes: its opening rule up to and including the
      closing one, or the whole document when it never closes. */
  function FrontMatter(lines: seq<Line>): (n: nat)
    ensures n <= |lines|
  {
    if lines == [] || !IsRule(lines[0]) then 0
    else
      var close := NextRule(lines, 1);
      if close < |lines| then close + 1 else close
  }

  /** Fence delimiters among lines[lo..hi]. */
  function FenceCount(lines: seq<Line>, lo: nat, hi: nat): nat
    requires lo <= hi <= |lines|
    decreases hi - lo
  {
    if lo == hi then 0
    else FenceCount(lines, lo, hi - 1) + if IsFence(lines[hi - 1]) then 1 else 0
  }

  /** A line is protected when it is front matter, a fence delimiter, or preceded (after the
      front matter) by an odd number of delimiters. */
  predicate Protected(lines: seq<Line>, i: nat)
    requires i < |lines|
  {
    var body := FrontMatter(lines);
    i < body || IsFence(lines[i]) || FenceCount(lines, body, i) % 2 == 1
  }

  function ScanLines(content: Text): (lines: seq<Line>) {
    var raw := RawLines(content, 0);
    seq(|raw|, i requires 0 <= i < |raw| => raw[i].(isProtected := Protected(raw, i)))
  }

  lemma LineEndStep(content: Text, end: nat)
    requires end < |content|
    ensures LineEnd(content, end) == if content[end] == NEWLINE then end + 1 else LineEnd(content, end + 1)
    ensures LineEnd(content, |content|) == |content|
  {
  }

  lemma RawLinesStep(content: Text, off: nat, before: seq<Line>)
    requires off < |content|
    ensures before + RawLines(content, off)
            == before + [RawLine(content, off)] + RawLines(content, LineEnd(content, off))
  {
    hide LineEnd, LineText;
  }

  method Scan(content: Text) returns (lines: seq<Line>)
    ensures lines == ScanLines(content)
  {
    hide LineText, LineEnd, RawLines, Protected;
    lines := [];
    var off := 0;
    while off < |content|
      invariant off <= |content|
      invariant lines + RawLines(content, off) == RawLines(content, 0)
    {
      RawLinesStep(content, off, lines);
      var end := off;
      while end < |content| && content[end] != NEWLINE
        invariant off <= end <= |content|
        invariant LineEnd(content, end) == LineEnd(content, off)
      {
        LineEndStep(content, end);
        end := end + 1;
      }
      LineEndStep(content, off);
      if end < |content| {
        LineEndStep(content, end);
        end := end + 1;
      }
      lines := lines + [Line(off, end, LineText(content, off, end), false)];
      off := end;
    }
    NothingLeft(content);
    assert lines + [] == lines;
    lines := MarkProtected(lines);
  }

  lemma NothingLeft(content: Text)
    ensures RawLines(content, |content|) == []
  {
  }

  /** How the scanner's two flags change over line `i`: front matter ends with the line
      before `FrontMatter`, and every delimiter after it opens or closes a fence. */
  lemma FlagStep(raw: seq<Line>, i: nat)
    requires i < |raw|
    ensures var body := FrontMatter(raw);
            && (body == 0 || IsRule(raw[0]))
            && (i < body && i > 0 && i + 1 < |raw| ==> (IsRule(raw[i]) <==> i + 1 == body))
            && (i == 0 && i < body && i + 1 < |raw| ==> i + 1 < body)
            && (i >= body ==> InFence(raw, i + 1) == (InFence(raw, i) != IsFence(raw[i])))
            && !InFence(raw, body)
  {
    hide IsRule, IsFence;
  }

  /** An odd number of fence delimiters separates line `i` from the front matter. */
  ghost predicate InFence(lines: seq<Line>, i: nat)
    requires i <= |lines|
  {
    FrontMatter(lines) <= i && FenceCount(lines, FrontMatter(lines), i) % 2 == 1
  }

  /** The marking pass of the scanner, which sets each line's flag in place. */
  method MarkProtected(raw: seq<Line>) returns (lines: seq<Line>)
    ensures |lines| == |raw|
    ensures forall k :: 0 <= k < |raw| ==> lines[k] == raw[k].(isProtected := Protected(raw, k))
  {
    hide TrimSpace, HasPrefix, FrontMatter, FenceCount;
    lines := raw;
    var inFence := false;
    var inFrontMatter := |lines| > 0 && TrimSpace(lines[0].text) == [HYPHEN, HYPHEN, HYPHEN];
    ghost var body := FrontMatter(raw);
    FrontMatterOpens(raw);
    for i := 0 to |lines|
      invariant |lines| == |raw|
      invariant forall k :: 0 <= k < i ==> lines[k] == raw[k].(isProtected := Protected(raw, k))
      invariant forall k :: i <= k < |lines| ==> lines[k] == raw[k]
      invariant i < |lines| ==> (inFrontMatter <==> i < body)
      invariant inFence <==> InFence(raw, i)
    {
      FlagStep(raw, i);
      var trimmed := TrimSpace(lines[i].text);
      if inFrontMatter {
        lines := lines[i := lines[i].(isProtected := true)];
        if i > 0 && trimmed == [HYPHEN, HYPHEN, HYPHEN] {
          inFrontMatter := false;
        }
      } else if IsFenceDelimiter(trimmed) {
        inFence := !inFence;
        lines := lines[i := lines[i].(isProtected := true)];
      } else {
        lines := lines[i := lines[i].(isProtected := inFence)];
      }
    }
  }

  lemma FrontMatterOpens(raw: seq<Line>)
    ensures |raw| > 0 ==> (IsRule(raw[0]) <==> 0 < FrontMatter(raw))
    ensures !InFence(raw, 0)
  {
    hide IsRule, IsFence;
  }

  lemma {:induction false} RawLinesChain(content: Text, off: nat)
    requires off <= |content|
    ensures Chain(RawLines(content, off), off, |content|)
    decreases |content| - off
  {
    hide LineEnd, LineText, Chain;
    if off < |content| {
      RawLinesChain(content, LineEnd(content, off));
      ChainCons(RawLine(content, off), RawLines(content, LineEnd(content, off)), |content|);
    } else {
      NoChain(off);
    }
  }

  lemma ChainCons(ln: Line, rest: seq<Line>, total: nat)
    requires ln.start < ln.end && Chain(rest, ln.end, total)
    ensures Chain([ln] + rest, ln.start, total)
  {
  }

  lemma NoChain(off: nat)
    ensures Chain([], off, off)
  {
  }

  lemma {:induction false} RawLinesText(content: Text, off: nat, i: nat)
    requires off <= |content| && i < |RawLines(content, off)|
    ensures var ln := RawLines(content, off)[i];
            ln.start < |content| && ln == RawLine(content, ln.start)
    decreases |content| - off
  {
    if i > 0 {
      RawLinesText(content, LineEnd(content, off), i - 1);
    }
  }

  /** Scanning loses nothing: the lines partition the content. */
  lemma ScanPartitions(content: Text)
    ensures Chain(ScanLines(content), 0, |content|)
  {
    RawLinesChain(content, 0);
  }

  /** A scanned line is cut exactly after its own newline, and its text is its bytes
      without the line ending. */
  lemma ScanText(content: Text, i: nat)
    requires i < |ScanLines(content)|
    ensures var ln := ScanLines(content)[i];
            && ln.start < |content|
            && ln.end == LineEnd(content, ln.start)
            && ln.text == LineText(content, ln.start, ln.end)
  {
    RawLinesText(content, 0, i);
  }
}
