/** How full the pieces of an oversized block are (handler/doc/splitter.go): the line cutter
    and the sentence cutter stop only where the next unit would pass the bound. */
module Filling {
  import opened Bytes
  import opened Utf8
  import opened Spans
  import opened Lines
  import opened Blocks
  import opened Cuts
  import opened Oversized
  import opened Sections

  // ---- lines ----

  /** A line begins where the piece ends, and would take it past the hard maximum. */
  ghost predicate NextLinePasses(lines: seq<Line>, x: Span, hardMax: nat) {
    exists i :: 0 <= i < |lines| && lines[i].start == x.end && lines[i].end - x.start > hardMax
  }

  ghost predicate LinesFill(lines: seq<Line>, spans: seq<Span>, hardMax: nat) {
    forall k :: 0 <= k < |spans| - 1 ==> NextLinePasses(lines, spans[k], hardMax)
  }

  lemma LinesFillCons(lines: seq<Line>, first: Span, rest: seq<Span>, hardMax: nat)
    requires LinesFill(lines, rest, hardMax) && NextLinePasses(lines, first, hardMax)
    ensures LinesFill(lines, [first] + rest, hardMax)
  {
    hide NextLinePasses;
  }

  lemma {:induction false} LineCutsFill(lines: seq<Line>, total: nat, blk: Span, lo: nat, hi: nat, i: nat, cur: Span, hardMax: nat)
    requires Chain(lines, 0, total) && OnLines(lines, blk, lo, hi) && i <= |lines|
    requires cur.end == if i <= lo then blk.start else if i < hi then lines[i].start else blk.end
    ensures LinesFill(lines, LineCuts(lines, blk, i, cur, hardMax), hardMax)
    decreases |lines| - i
  {
    hide LinesFill, NextLinePasses;
    if i == |lines| {
      OneFills(lines, LineCuts(lines, blk, i, cur, hardMax), hardMax);
    } else {
      InRange(lines, total, blk, lo, hi, i);
      if lo <= i < hi {
        assert i + 1 < hi ==> lines[i].end == lines[i + 1].start;
        if NonEmpty(cur) && lines[i].end - cur.start > hardMax {
          LineCutsFill(lines, total, blk, lo, hi, i + 1, SpanOf(lines[i]), hardMax);
          PassesAt(lines, cur, i, hardMax);
          LinesFillCons(lines, cur, LineCuts(lines, blk, i + 1, SpanOf(lines[i]), hardMax), hardMax);
        } else {
          LineCutsFill(lines, total, blk, lo, hi, i + 1, Span(cur.start, lines[i].end), hardMax);
        }
      } else {
        LineCutsFill(lines, total, blk, lo, hi, i + 1, cur, hardMax);
      }
    }
  }

  lemma OneFills(lines: seq<Line>, spans: seq<Span>, hardMax: nat)
    requires |spans| <= 1
    ensures LinesFill(lines, spans, hardMax)
  {
  }

  lemma PassesAt(lines: seq<Line>, x: Span, i: nat, hardMax: nat)
    requires i < |lines| && lines[i].start == x.end && lines[i].end - x.start > hardMax
    ensures NextLinePasses(lines, x, hardMax)
  {
  }

  /** The line cutter takes in every line that fits: each piece but the last is followed by a
      line that would take it past the hard maximum. */
  lemma CutOnLinesFills(lines: seq<Line>, total: nat, blk: Span, hardMax: nat, k: nat)
    requires Chain(lines, 0, total) && WholeLines(lines, blk)
    requires k + 1 < |CutOnLines(lines, blk, hardMax)|
    ensures NextLinePasses(lines, CutOnLines(lines, blk, hardMax)[k], hardMax)
  {
    hide NextLinePasses, LineCuts;
    var lo: nat, hi: nat :| OnLines(lines, blk, lo, hi);
    LineCutsFill(lines, total, blk, lo, hi, 0, Span(blk.start, blk.start), hardMax);
  }

  // ---- sentences ----

  /** The piece ends at the last rune start within the hard maximum. */
  ghost predicate HardEnd(content: Text, x: Span, hardMax: nat) {
    && x.start < x.end <= x.start + hardMax && x.end < |content| && RuneStart(content[x.end])
    && forall q :: x.end < q <= x.start + hardMax && q < |content| ==> !RuneStart(content[q])
  }

  /** No sentence end lies strictly between. */
  ghost predicate NoneBetween(ends: seq<nat>, p: nat, q: nat) {
    forall e :: e in ends ==> !(p < e < q)
  }

  /** The piece ends at a sentence end, and the next one would take it past the ceiling. It
      is itself past the ceiling only as one sentence. */
  ghost predicate EndsFull(ends: seq<nat>, x: Span, b: Bounds) {
    && (exists m :: 0 < m < |ends| && ends[m - 1] == x.end && ends[m] - x.start > b.ceiling)
    && (x.end - x.start <= b.ceiling || NoneBetween(ends, x.start, x.end))
  }

  /** The piece is a hard cut on the way to a sentence end that is too far off: the next one,
      or one still within the ceiling. */
  ghost predicate CutShort(content: Text, ends: seq<nat>, x: Span, b: Bounds) {
    && HardEnd(content, x, b.hardMax)
    && exists m :: 0 <= m < |ends| && ends[m] - x.start > b.hardMax
                   && (ends[m] - x.start <= b.ceiling || NoneBetween(ends, x.start, ends[m]))
  }

  /** Of the first `n` sentence ends, those past the piece's start need no cut before them. */
  ghost predicate Fits(ends: seq<nat>, n: nat, start: nat, b: Bounds) {
    forall m :: 0 < m < n <= |ends| && ends[m - 1] > start ==> ends[m] - start <= b.ceiling
  }

  ghost predicate AllNear(ends: seq<nat>, start: nat, b: Bounds) {
    forall e :: e in ends ==> e - start <= b.hardMax
  }

  /** The piece is of what follows the last cut for a sentence end: a hard cut of it, or its
      rest. */
  ghost predicate OfTail(content: Text, blk: Span, ends: seq<nat>, x: Span, b: Bounds) {
    && Fits(ends, |ends|, x.start, b) && AllNear(ends, x.start, b)
    && (if blk.end - x.start > b.hardMax then HardEnd(content, x, b.hardMax) else x.end == blk.end)
  }

  /** Where the sentence cutter ends a piece. */
  ghost predicate Filled(content: Text, blk: Span, ends: seq<nat>, x: Span, b: Bounds) {
    EndsFull(ends, x, b) || CutShort(content, ends, x, b) || OfTail(content, blk, ends, x, b)
  }

  ghost predicate AllFilled(content: Text, blk: Span, ends: seq<nat>, spans: seq<Span>, b: Bounds) {
    forall k :: 0 <= k < |spans| ==> Filled(content, blk, ends, spans[k], b)
  }

  lemma FilledConcat(content: Text, blk: Span, ends: seq<nat>, x: seq<Span>, y: seq<Span>, b: Bounds)
    requires AllFilled(content, blk, ends, x, b) && AllFilled(content, blk, ends, y, b)
    ensures AllFilled(content, blk, ends, x + y, b)
  {
    hide Filled;
  }

  /** Hard cuts end where they must, and only while more than a maximum is left. */
  lemma {:induction false} HardCutsEnd(content: Text, start: nat, end: nat, hardMax: nat, k: nat)
    requires start <= end <= |content| && HardCuts(content, start, end, hardMax).Done?
    requires k < |HardCuts(content, start, end, hardMax).value.spans|
    ensures var x := HardCuts(content, start, end, hardMax).value.spans[k];
            start <= x.start && end - x.start > hardMax && HardEnd(content, x, hardMax)
    decreases end - start
  {
    var cut := RuneBoundary(content, start + hardMax);
    RuneBoundaryIsNearest(content, start + hardMax);
    if k > 0 {
      HardCutsEnd(content, cut, end, hardMax, k - 1);
    }
  }

  lemma HardCutsAreShort(content: Text, blk: Span, ends: seq<nat>, m: nat, from: nat, b: Bounds)
    requires m < |ends| && from <= ends[m] <= |content| && HardCuts(content, from, ends[m], b.hardMax).Done?
    requires ends[m] - from <= b.ceiling || NoneBetween(ends, from, ends[m])
    ensures AllFilled(content, blk, ends, HardCuts(content, from, ends[m], b.hardMax).value.spans, b)
  {
    hide HardCuts, HardEnd, EndsFull, OfTail;
    var spans := HardCuts(content, from, ends[m], b.hardMax).value.spans;
    forall k | 0 <= k < |spans| ensures Filled(content, blk, ends, spans[k], b) {
      HardCutsEnd(content, from, ends[m], b.hardMax, k);
      assert CutShort(content, ends, spans[k], b);
    }
  }

  lemma {:induction false} SentenceCutsFill(content: Text, blk: Span, ends: seq<nat>, n: nat, start: nat, last: nat, b: Bounds)
    requires blk.start <= blk.end <= |content| && Climbing(ends, blk.start, blk.end) && n <= |ends|
    requires blk.start <= start <= last == if n == 0 then blk.start else ends[n - 1]
    requires last - start <= b.hardMax && Fits(ends, n, start, b)
    ensures Climbing(ends[n..], last, |content|)
    ensures var r := SentenceCuts(content, ends[n..], start, last, b);
            r.Done? ==> && AllFilled(content, blk, ends, r.value.spans, b)
                        && Fits(ends, |ends|, r.value.next, b) && AllNear(ends, r.value.next, b)
    decreases |ends| - n
  {
    hide HardCuts, AllFilled, Filled, Fits, AllNear;
    ClimbFrom(ends, blk.start, blk.end, n);
    ClimbWiden(ends[n..], last, blk.end, |content|);
    NoneFilled(content, blk, ends, b);
    if n == |ends| {
      EndsAreNear(ends, blk, start, last, b);
    } else if SentenceCuts(content, ends[n..], start, last, b).Done? {
      assert ends[n..][0] == ends[n] && ends[n..][1..] == ends[n + 1..];
      var end := ends[n];
      var pre := Closed(start, last, end, b);
      var from := if pre == [] then start else last;
      if pre != [] {
        ClosedIsFull(content, blk, ends, n, start, b);
      }
      NotClosedFits(ends, blk, n, start, last, b);
      HardCutsAreShort(content, blk, ends, n, from, b);
      HardCutsTile(content, from, end, b.hardMax);
      var hard := HardCuts(content, from, end, b.hardMax).value;
      StillFits(ends, blk, n, start, last, hard.next, b);
      SentenceCutsFill(content, blk, ends, n + 1, hard.next, end, b);
      var rest := SentenceCuts(content, ends[n + 1..], hard.next, end, b).value;
      FilledConcat(content, blk, ends, pre, hard.spans, b);
      FilledConcat(content, blk, ends, pre + hard.spans, rest.spans, b);
    }
  }

  lemma NoneFilled(content: Text, blk: Span, ends: seq<nat>, b: Bounds)
    ensures AllFilled(content, blk, ends, [], b)
  {
  }

  lemma EndsAreNear(ends: seq<nat>, blk: Span, start: nat, last: nat, b: Bounds)
    requires Climbing(ends, blk.start, blk.end) && blk.start <= start
    requires last == (if ends == [] then blk.start else ends[|ends| - 1]) && last - start <= b.hardMax
    ensures AllNear(ends, start, b)
  {
    forall e | e in ends ensures e - start <= b.hardMax {
      var k :| 0 <= k < |ends| && ends[k] == e;
      assert k < |ends| - 1 ==> ends[k] < ends[|ends| - 1];
    }
  }

  lemma BetweenNeighbours(ends: seq<nat>, blk: Span, n: nat, p: nat)
    requires Climbing(ends, blk.start, blk.end) && n < |ends|
    requires n > 0 ==> ends[n - 1] <= p
    ensures NoneBetween(ends, p, ends[n])
  {
    forall e | e in ends ensures !(p < e < ends[n]) {
      var k :| 0 <= k < |ends| && ends[k] == e;
      if k < n - 1 {
        assert ends[k] < ends[n - 1];
      } else if n < k {
        assert ends[n] < ends[k];
      }
    }
  }

  /** A piece closed before sentence end number `n` was full. */
  lemma ClosedIsFull(content: Text, blk: Span, ends: seq<nat>, n: nat, start: nat, b: Bounds)
    requires Climbing(ends, blk.start, blk.end) && 0 < n < |ends| && blk.start <= start < ends[n - 1]
    requires ends[n] - start > b.ceiling && Fits(ends, n, start, b)
    ensures AllFilled(content, blk, ends, [Span(start, ends[n - 1])], b)
  {
    hide CutShort, OfTail;
    var x := Span(start, ends[n - 1]);
    if x.end - x.start > b.ceiling {
      if n > 1 {
        assert ends[n - 2] <= start;
      }
      BetweenNeighbours(ends, blk, n - 1, start);
    }
    assert EndsFull(ends, x, b);
  }

  lemma NotClosedFits(ends: seq<nat>, blk: Span, n: nat, start: nat, last: nat, b: Bounds)
    requires Climbing(ends, blk.start, blk.end) && n < |ends| && blk.start <= start <= last
    requires last == if n == 0 then blk.start else ends[n - 1]
    ensures var from := if Closed(start, last, ends[n], b) == [] then start else last;
            from <= ends[n] && (ends[n] - from <= b.ceiling || NoneBetween(ends, from, ends[n]))
  {
    var from := if Closed(start, last, ends[n], b) == [] then start else last;
    assert n > 0 ==> ends[n - 1] < ends[n];
    if ends[n] - from > b.ceiling {
      BetweenNeighbours(ends, blk, n, from);
    }
  }

  lemma StillFits(ends: seq<nat>, blk: Span, n: nat, start: nat, last: nat, next: nat, b: Bounds)
    requires Climbing(ends, blk.start, blk.end) && n < |ends| && blk.start <= start <= last
    requires last == if n == 0 then blk.start else ends[n - 1]
    requires Fits(ends, n, start, b)
    requires next >= if Closed(start, last, ends[n], b) == [] then start else last
    ensures Fits(ends, n + 1, next, b)
  {
    forall m | 0 < m < n + 1 <= |ends| && ends[m - 1] > next ensures ends[m] - next <= b.ceiling {
      if m < n {
        assert ends[m] - start <= b.ceiling;
      }
    }
  }

  lemma TailIsFilled(content: Text, blk: Span, ends: seq<nat>, start: nat, b: Bounds)
    requires start < blk.end <= |content| && HardCuts(content, start, blk.end, b.hardMax).Done?
    requires Fits(ends, |ends|, start, b) && AllNear(ends, start, b)
    ensures var tail := HardCuts(content, start, blk.end, b.hardMax).value;
            AllFilled(content, blk, ends, tail.spans + [Span(tail.next, blk.end)], b)
  {
    hide HardCuts, HardEnd, EndsFull, CutShort, Pieces;
    var tail := HardCuts(content, start, blk.end, b.hardMax).value;
    HardCutsTile(content, start, blk.end, b.hardMax);
    var spans := tail.spans + [Span(tail.next, blk.end)];
    forall k | 0 <= k < |spans| ensures Filled(content, blk, ends, spans[k], b) {
      if k < |tail.spans| {
        HardCutsEnd(content, start, blk.end, b.hardMax, k);
      }
      LaterFits(ends, start, spans[k].start, b);
      assert OfTail(content, blk, ends, spans[k], b);
    }
  }

  lemma LaterFits(ends: seq<nat>, start: nat, later: nat, b: Bounds)
    requires Fits(ends, |ends|, start, b) && AllNear(ends, start, b) && start <= later
    ensures Fits(ends, |ends|, later, b) && AllNear(ends, later, b)
  {
    forall m | 0 < m < |ends| && ends[m - 1] > later ensures ends[m] - later <= b.ceiling {
      assert ends[m] - start <= b.ceiling;
    }
  }

  /** The sentence cutter takes in every sentence that fits: each of its pieces ends at the
      last sentence end before one past the ceiling, or is a hard cut at the last rune start
      within the maximum, where no sentence end would do, or is of the tail after them all. */
  lemma CutOnSentencesFills(content: Text, blk: Span, b: Bounds, k: nat)
    requires blk.start < blk.end <= |content| && CutOnSentences(content, blk, b).Done?
    requires k < |CutOnSentences(content, blk, b).value|
    ensures Filled(content, blk, SentenceEnds(content, blk), CutOnSentences(content, blk, b).value[k], b)
  {
    hide HardCuts, SentenceCuts, EndsFrom, Filled, Fits, AllNear;
    EndsClimbAll(content, blk);
    var ends := SentenceEnds(content, blk);
    assert ends[0..] == ends;
    FitsNone(ends, blk.start, b);
    SentenceCutsFill(content, blk, ends, 0, blk.start, blk.start, b);
    var body := SentenceCuts(content, ends, blk.start, blk.start, b).value;
    if blk.end > body.next {
      TailIsFilled(content, blk, ends, body.next, b);
      var tail := HardCuts(content, body.next, blk.end, b.hardMax).value;
      FilledConcat(content, blk, ends, body.spans, tail.spans + [Span(tail.next, blk.end)], b);
      assert body.spans + (tail.spans + [Span(tail.next, blk.end)]) == body.spans + tail.spans + [Span(tail.next, blk.end)];
    }
  }

  lemma FitsNone(ends: seq<nat>, start: nat, b: Bounds)
    ensures Fits(ends, 0, start, b)
  {
  }
}
