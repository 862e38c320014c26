/** Oversized blocks (handler/doc/splitter.go): a fenced block stays whole up to the hard
    maximum and is then cut on lines; prose is cut on sentences. */
module Oversized {
  import opened Bytes
  import opened Utf8
  import opened Spans
  import opened Lines
  import opened Blocks
  import opened Cuts
  import opened Sections

  /** Some line of the block is protected. */
  predicate Fenced(lines: seq<Line>, blk: Span) {
    exists i :: 0 <= i < |lines| && In(lines, blk, i) && lines[i].isProtected
  }

  method BlockIsFenced(lines: seq<Line>, blk: Span) returns (fenced: bool)
    ensures fenced == Fenced(lines, blk)
  {
    for i := 0 to |lines|
      invariant forall k :: 0 <= k < i ==> !(In(lines, blk, k) && lines[k].isProtected)
    {
      if lines[i].start >= blk.start && lines[i].end <= blk.end && lines[i].isProtected {
        return true;
      }
    }
    return false;
  }

  /** The span runs from the start of line `lo` to the end of line `hi - 1`. */
  ghost predicate OnLines(lines: seq<Line>, s: Span, lo: nat, hi: nat) {
    lo < hi <= |lines| && lines[lo].start == s.start && lines[hi - 1].end == s.end
  }

  /** The span starts and ends at line boundaries. */
  ghost predicate WholeLines(lines: seq<Line>, s: Span) {
    exists lo: nat, hi: nat :: OnLines(lines, s, lo, hi)
  }

  /** The lines inside such a span are exactly the lines from `lo` to `hi`. */
  lemma InRange(lines: seq<Line>, total: nat, s: Span, lo: nat, hi: nat, i: nat)
    requires Chain(lines, 0, total) && OnLines(lines, s, lo, hi) && i < |lines|
    ensures In(lines, s, i) <==> lo <= i < hi
  {
    ChainBounds(lines, 0, total, i);
    ChainBounds(lines, 0, total, lo);
    ChainBounds(lines, 0, total, hi - 1);
    if i < lo {
      ChainOrder(lines, 0, total, i, lo);
    } else {
      if lo < i { ChainOrder(lines, 0, total, lo, i); }
      if i < hi - 1 { ChainOrder(lines, 0, total, i, hi - 1); }
      if hi - 1 < i { ChainOrder(lines, 0, total, hi - 1, i); }
    }
  }

  function LineCuts(lines: seq<Line>, blk: Span, i: nat, cur: Span, hardMax: nat): seq<Span>
    requires i <= |lines|
    decreases |lines| - i
  {
    if i == |lines| then if NonEmpty(cur) then [cur] else []
    else if !In(lines, blk, i) then LineCuts(lines, blk, i + 1, cur, hardMax)
    else if NonEmpty(cur) && lines[i].end - cur.start > hardMax then
      [cur] + LineCuts(lines, blk, i + 1, SpanOf(lines[i]), hardMax)
    else LineCuts(lines, blk, i + 1, Span(cur.start, lines[i].end), hardMax)
  }

  function CutOnLines(lines: seq<Line>, blk: Span, hardMax: nat): seq<Span> {
    LineCuts(lines, blk, 0, Span(blk.start, blk.start), hardMax)
  }

  method CutLines(lines: seq<Line>, blk: Span, b: Bounds) returns (out: seq<Span>)
    ensures out == CutOnLines(lines, blk, b.hardMax)
  {
    out := [];
    var cur := Span(blk.start, blk.start);
    for i := 0 to |lines|
      invariant out + LineCuts(lines, blk, i, cur, b.hardMax) == CutOnLines(lines, blk, b.hardMax)
    {
      var ln := lines[i];
      if ln.start < blk.start || ln.end > blk.end {
        continue;
      }
      if cur.end > cur.start && ln.end - cur.start > b.hardMax {
        out := out + [cur];
        cur := Span(ln.start, ln.end);
        continue;
      }
      cur := cur.(end := ln.end);
    }
    if cur.end > cur.start {
      out := out + [cur];
    }
  }

  /** Every span is within `max`, or is a single line. */
  ghost predicate LineSized(lines: seq<Line>, spans: seq<Span>, max: nat) {
    forall k :: 0 <= k < |spans| ==> spans[k].end - spans[k].start <= max || IsLine(lines, spans[k])
  }

  ghost predicate IsLine(lines: seq<Line>, s: Span) {
    exists i :: 0 <= i < |lines| && s == SpanOf(lines[i])
  }

  /** Every span ends at the end of a line. */
  ghost predicate EndOnLines(lines: seq<Line>, spans: seq<Span>) {
    forall k :: 0 <= k < |spans| ==> LineFinish(lines, spans[k].end)
  }

  ghost predicate LineFinish(lines: seq<Line>, p: nat) {
    exists i :: 0 <= i < |lines| && lines[i].end == p
  }

  ghost predicate LinePieces(lines: seq<Line>, spans: seq<Span>, lo: nat, hi: nat, max: nat) {
    Tiles(spans, lo, hi) && LineSized(lines, spans, max) && EndOnLines(lines, spans)
  }

  lemma LinePiecesCons(lines: seq<Line>, first: Span, rest: seq<Span>, hi: nat, max: nat)
    requires NonEmpty(first) && LineFinish(lines, first.end)
    requires first.end - first.start <= max || IsLine(lines, first)
    requires LinePieces(lines, rest, first.end, hi, max)
    ensures LinePieces(lines, [first] + rest, first.start, hi, max)
  {
    hide IsLine, LineFinish;
    TilesCons(first, rest, hi);
  }

  lemma OneLinePiece(lines: seq<Line>, s: Span, max: nat)
    requires NonEmpty(s) && LineFinish(lines, s.end)
    requires s.end - s.start <= max || IsLine(lines, s)
    ensures LinePieces(lines, [s], s.start, s.end, max)
  {
  }

  /** With lines before `i` consumed up to `cur.end`, the cutter's remaining pieces tile the
      rest of the block and only a single line is ever over the hard maximum. */
  lemma {:induction false} LineCutsTile(lines: seq<Line>, total: nat, blk: Span, lo: nat, hi: nat, i: nat, cur: Span, hardMax: nat)
    requires Chain(lines, 0, total) && OnLines(lines, blk, lo, hi) && i <= |lines|
    requires cur.start <= cur.end
    requires cur.end == if i <= lo then blk.start else if i < hi then lines[i].start else blk.end
    requires NonEmpty(cur) <==> lo < i
    requires NonEmpty(cur) ==> LineFinish(lines, cur.end)
    requires cur.end - cur.start <= hardMax || IsLine(lines, cur)
    ensures LinePieces(lines, LineCuts(lines, blk, i, cur, hardMax), cur.start, blk.end, hardMax)
    decreases |lines| - i
  {
    hide IsLine, LineFinish, LinePieces;
    if i == |lines| {
      OneLinePiece(lines, cur, hardMax);
    } else {
      InRange(lines, total, blk, lo, hi, i);
      ChainBounds(lines, 0, total, i);
      LineIsLine(lines, i);
      if lo <= i < hi {
        assert i + 1 < hi ==> lines[i].end == lines[i + 1].start;
        var grown := Span(cur.start, lines[i].end);
        if NonEmpty(cur) && lines[i].end - cur.start > hardMax {
          LineCutsTile(lines, total, blk, lo, hi, i + 1, SpanOf(lines[i]), hardMax);
          LinePiecesCons(lines, cur, LineCuts(lines, blk, i + 1, SpanOf(lines[i]), hardMax), blk.end, hardMax);
        } else {
          assert i == lo ==> grown == SpanOf(lines[i]);
          LineCutsTile(lines, total, blk, lo, hi, i + 1, grown, hardMax);
        }
      } else {
        LineCutsTile(lines, total, blk, lo, hi, i + 1, cur, hardMax);
      }
    }
  }

  lemma LineIsLine(lines: seq<Line>, i: nat)
    requires i < |lines|
    ensures IsLine(lines, SpanOf(lines[i])) && LineFinish(lines, lines[i].end)
  {
  }

  /** The line cutter tiles its block, cutting only between lines; a piece is over the hard
      maximum only when it is a single line. */
  lemma CutOnLinesTiles(lines: seq<Line>, total: nat, blk: Span, hardMax: nat)
    requires Chain(lines, 0, total) && WholeLines(lines, blk)
    ensures LinePieces(lines, CutOnLines(lines, blk, hardMax), blk.start, blk.end, hardMax)
  {
    hide LinePieces;
    var lo: nat, hi: nat :| OnLines(lines, blk, lo, hi);
    LineCutsTile(lines, total, blk, lo, hi, 0, Span(blk.start, blk.start), hardMax);
  }

  function SplitOversized(content: Text, lines: seq<Line>, blk: Span, b: Bounds): Outcome<seq<Span>>
    requires blk.start <= blk.end <= |content|
  {
    if Fenced(lines, blk) then
      if blk.end - blk.start <= b.hardMax then Done([blk])
      else Done(CutOnLines(lines, blk, b.hardMax))
    else CutOnSentences(content, blk, b)
  }

  method Split(content: Text, lines: seq<Line>, blk: Span, b: Bounds) returns (r: Outcome<seq<Span>>)
    requires blk.start <= blk.end <= |content|
    ensures r == SplitOversized(content, lines, blk, b)
  {
    hide CutOnSentences;
    var fenced := BlockIsFenced(lines, blk);
    if fenced {
      if blk.end - blk.start <= b.hardMax {
        return Done([blk]);
      }
      var pieces := CutLines(lines, blk, b);
      return Done(pieces);
    }
    r := CutSentences(content, blk, b);
  }

  // ---- Lines are where characters may be cut ----

  lemma {:induction false} LineEndsInNewline(content: Text, off: nat)
    requires off < |content|
    ensures var end := LineEnd(content, off);
            end < |content| ==> content[end - 1] == NEWLINE
    decreases |content| - off
  {
    if content[off] != NEWLINE && off + 1 < |content| {
      LineEndsInNewline(content, off + 1);
    }
  }

  /** In well-formed text every line ends at a character boundary. */
  lemma LineFinishIsBoundary(content: Text, p: nat)
    requires WellFormed(content) && LineFinish(ScanLines(content), p)
    ensures p <= |content| && Boundary(content, p)
  {
    hide ScanLines, WellFormed, LineEnd, LineText;
    var lines := ScanLines(content);
    var i :| 0 <= i < |lines| && lines[i].end == p;
    ScanText(content, i);
    LineEndsInNewline(content, lines[i].start);
    if p < |content| {
      AfterAscii(content, p - 1);
    }
  }
}
