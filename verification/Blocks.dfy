/** Paragraph blocks (handler/doc/splitter.go): a section cut at its blank lines, a blank
    line inside a fence not counting as one. */
module Blocks {
  import opened Bytes
  import opened Spans
  import opened Lines

  predicate In(lines: seq<Line>, s: Span, i: nat)
    requires i < |lines|
  {
    s.start <= lines[i].start && lines[i].end <= s.end
  }

  predicate Blank(ln: Line) {
    TrimSpace(ln.text) == [] && !ln.isProtected
  }

  /** Of the lines before `n`, the last one inside the section is not blank. */
  predicate TextBefore(lines: seq<Line>, s: Span, n: nat)
    requires n <= |lines|
  {
    n > 0 && if In(lines, s, n - 1) then !Blank(lines[n - 1]) else TextBefore(lines, s, n - 1)
  }

  /** A block starts at a text line with no text line directly before it in the section. */
  predicate StartsBlock(lines: seq<Line>, s: Span, i: nat)
    requires i < |lines|
  {
    In(lines, s, i) && !Blank(lines[i]) && !TextBefore(lines, s, i)
  }

  function BlockStarts(lines: seq<Line>, s: Span, n: nat): (st: seq<nat>)
    requires n <= |lines|
    ensures forall k :: 0 <= k < |st| ==> st[k] < n
  {
    if n == 0 then []
    else
      var before := BlockStarts(lines, s, n - 1);
      if StartsBlock(lines, s, n - 1) then before + [n - 1] else before
  }

  /** Every listed start is one. */
  lemma {:induction false} StartsAreStarts(lines: seq<Line>, s: Span, n: nat, k: nat)
    requires n <= |lines| && k < |BlockStarts(lines, s, n)|
    ensures StartsBlock(lines, s, BlockStarts(lines, s, n)[k])
  {
    hide Blank, TextBefore;
    if k < |BlockStarts(lines, s, n - 1)| {
      StartsAreStarts(lines, s, n - 1, k);
    }
  }

  /** Starts are listed in line order. */
  lemma {:induction false} StartsClimb(lines: seq<Line>, s: Span, n: nat, j: nat, k: nat)
    requires n <= |lines| && j < k < |BlockStarts(lines, s, n)|
    ensures BlockStarts(lines, s, n)[j] < BlockStarts(lines, s, n)[k]
  {
    hide StartsBlock;
    if k < |BlockStarts(lines, s, n - 1)| {
      StartsClimb(lines, s, n - 1, j, k);
    }
  }

  /** The section cut at its block starts; leading blank lines belong to the first block, and
      every other blank line to the block it follows. */
  function BlocksOf(lines: seq<Line>, s: Span): seq<Span> {
    var st := BlockStarts(lines, s, |lines|);
    if st == [] then [s] else seq(|st|, k requires 0 <= k < |st| => BlockAt(lines, s, st, k))
  }

  function BlockAt(lines: seq<Line>, s: Span, st: seq<nat>, k: nat): Span
    requires k < |st| && forall j :: 0 <= j < |st| ==> st[j] < |lines|
  {
    Span(if k == 0 then s.start else lines[st[k]].start,
         if k + 1 < |st| then lines[st[k + 1]].start else s.end)
  }

  /** End of the last section line before `n`. */
  ghost function Reach(lines: seq<Line>, s: Span, n: nat): nat
    requires n <= |lines|
  {
    if n == 0 then 0
    else if In(lines, s, n - 1) then lines[n - 1].end
    else Reach(lines, s, n - 1)
  }

  /** The blocks as far as line `n`, the last one still growing. */
  ghost function Partial(lines: seq<Line>, s: Span, n: nat): seq<Span>
    requires n <= |lines|
  {
    PartialOf(lines, BlockStarts(lines, s, n), Reach(lines, s, n))
  }

  ghost function PartialOf(lines: seq<Line>, st: seq<nat>, reach: nat): seq<Span>
    requires forall k :: 0 <= k < |st| ==> st[k] < |lines|
  {
    seq(|st|, k requires 0 <= k < |st| =>
      Span(lines[st[k]].start, if k + 1 < |st| then lines[st[k + 1]].start else reach))
  }

  /** The next section line starts where the last one ended. */
  lemma {:induction false} ReachMeets(lines: seq<Line>, total: nat, s: Span, n: nat, i: nat)
    requires Chain(lines, 0, total) && n <= i < |lines| && In(lines, s, i)
    requires forall k :: n <= k < i ==> !In(lines, s, k)
    requires BlockStarts(lines, s, n) != []
    ensures Reach(lines, s, n) == lines[i].start
  {
    hide Blank;
    if In(lines, s, n - 1) {
      if n < i {
        assert !In(lines, s, n);
        ChainOrder(lines, 0, total, n - 1, n);
        ChainBounds(lines, 0, total, n);
        ChainOrder(lines, 0, total, n, i);
      }
    } else {
      ReachMeets(lines, total, s, n - 1, i);
    }
  }

  lemma PartialAppend(lines: seq<Line>, st: seq<nat>, n: nat, end: nat)
    requires n < |lines| && forall k :: 0 <= k < |st| ==> st[k] < |lines|
    ensures PartialOf(lines, st + [n], end) == PartialOf(lines, st, lines[n].start) + [Span(lines[n].start, end)]
  {
  }

  lemma PartialGrow(lines: seq<Line>, st: seq<nat>, reach: nat, end: nat)
    requires st != [] && forall k :: 0 <= k < |st| ==> st[k] < |lines|
    ensures var p := PartialOf(lines, st, reach);
            PartialOf(lines, st, end) == p[|p| - 1 := p[|p| - 1].(end := end)]
  {
  }

  /** What one more line does to the growing blocks. */
  lemma PartialStep(lines: seq<Line>, total: nat, s: Span, n: nat)
    requires Chain(lines, 0, total) && n < |lines|
    ensures var now, next := Partial(lines, s, n), Partial(lines, s, n + 1);
            if !In(lines, s, n) then next == now
            else if StartsBlock(lines, s, n) then next == now + [Span(lines[n].start, lines[n].end)]
            else if now == [] then next == []
            else next == now[|now| - 1 := now[|now| - 1].(end := lines[n].end)]
  {
    hide Blank, TextBefore, PartialOf;
    var st := BlockStarts(lines, s, n);
    if In(lines, s, n) {
      if StartsBlock(lines, s, n) {
        PartialAppend(lines, st, n, lines[n].end);
        if st == [] {
          PartialEmpty(lines, Reach(lines, s, n), lines[n].start);
        } else {
          ReachMeets(lines, total, s, n, n);
        }
      } else if st != [] {
        PartialGrow(lines, st, Reach(lines, s, n), lines[n].end);
      }
    }
    PartialEmpty(lines, Reach(lines, s, n), Reach(lines, s, n + 1));
    PartialSize(lines, st, Reach(lines, s, n));
  }

  lemma PartialEmpty(lines: seq<Line>, a: nat, b: nat)
    ensures PartialOf(lines, [], a) == PartialOf(lines, [], b) == []
  {
  }

  lemma PartialSize(lines: seq<Line>, st: seq<nat>, reach: nat)
    requires forall k :: 0 <= k < |st| ==> st[k] < |lines|
    ensures |PartialOf(lines, st, reach)| == |st|
  {
  }

  method CutBlocks(lines: seq<Line>, s: Span, ghost total: nat) returns (out: seq<Span>)
    requires Chain(lines, 0, total)
    ensures out == BlocksOf(lines, s)
  {
    hide Blank, BlockStarts, Reach, PartialOf, Partial, Chain, BlocksOf;
    out := [];
    var cur: Option<Span> := None;
    PartialStart(lines, s);
    for i := 0 to |lines|
      invariant cur.Some? <==> TextBefore(lines, s, i)
      invariant out + (if cur.Some? then [cur.value] else []) == Partial(lines, s, i)
    {
      PartialStep(lines, total, s, i);
      var ln := lines[i];
      if ln.start < s.start || ln.end > s.end {
        continue;
      }
      if Blank(ln) {
        if cur.Some? {
          out := out + [cur.value.(end := ln.end)];
          cur := None;
        } else if |out| > 0 {
          out := out[|out| - 1 := out[|out| - 1].(end := ln.end)];
        }
        continue;
      }
      if cur.None? {
        cur := Some(Span(ln.start, ln.end));
      } else {
        cur := Some(cur.value.(end := ln.end));
      }
    }
    if cur.Some? {
      out := out + [cur.value];
    }
    PartialDone(lines, s);
    if |out| == 0 {
      return [s];
    }
    out := out[0 := out[0].(start := s.start)];
    out := out[|out| - 1 := out[|out| - 1].(end := s.end)];
  }

  lemma PartialStart(lines: seq<Line>, s: Span)
    ensures Partial(lines, s, 0) == []
  {
  }

  lemma PartialDone(lines: seq<Line>, s: Span)
    ensures var p := Partial(lines, s, |lines|);
            BlocksOf(lines, s) == if p == [] then [s]
              else p[0 := p[0].(start := s.start)][|p| - 1 := (p[0 := p[0].(start := s.start)])[|p| - 1].(end := s.end)]
  {
    hide BlockStarts, Reach, StartsBlock;
    var st, p := BlockStarts(lines, s, |lines|), Partial(lines, s, |lines|);
    PartialSize(lines, st, Reach(lines, s, |lines|));
    if st != [] {
      var first := p[0 := p[0].(start := s.start)];
      var q := first[|p| - 1 := first[|p| - 1].(end := s.end)];
      forall k | 0 <= k < |st| ensures q[k] == BlockAt(lines, s, st, k) {
      }
    }
  }

  lemma StartsIncrease(lines: seq<Line>, total: nat, s: Span, j: nat, k: nat)
    requires Chain(lines, 0, total) && j <= k < |BlockStarts(lines, s, |lines|)|
    ensures var st := BlockStarts(lines, s, |lines|);
            && s.start <= lines[st[j]].start <= lines[st[k]].start < s.end
            && (j < k ==> lines[st[j]].start < lines[st[k]].start)
  {
    hide Blank, TextBefore, BlockStarts;
    var st := BlockStarts(lines, s, |lines|);
    StartsAreStarts(lines, s, |lines|, j);
    StartsAreStarts(lines, s, |lines|, k);
    ChainBounds(lines, 0, total, st[j]);
    ChainBounds(lines, 0, total, st[k]);
    if j < k {
      StartsClimb(lines, s, |lines|, j, k);
      ChainOrder(lines, 0, total, st[j], st[k]);
    }
  }

  /** Blocks tile their section. */
  lemma BlocksTile(lines: seq<Line>, total: nat, s: Span)
    requires Chain(lines, 0, total) && NonEmpty(s)
    ensures Tiles(BlocksOf(lines, s), s.start, s.end)
    ensures BlocksOf(lines, s) != []
  {
    hide BlockStarts, StartsBlock, Tiles;
    var st, blocks := BlockStarts(lines, s, |lines|), BlocksOf(lines, s);
    if st == [] {
      AbuttingTiles(blocks);
    } else {
      forall k | 0 <= k < |st|
        ensures NonEmpty(BlockAt(lines, s, st, k))
      {
        BlockNonEmpty(lines, total, s, k);
      }
      AbuttingTiles(blocks);
    }
  }

  lemma BlockNonEmpty(lines: seq<Line>, total: nat, s: Span, k: nat)
    requires Chain(lines, 0, total) && k < |BlockStarts(lines, s, |lines|)|
    ensures NonEmpty(BlockAt(lines, s, BlockStarts(lines, s, |lines|), k))
  {
    hide BlockStarts, StartsBlock;
    StartsIncrease(lines, total, s, k, k);
    if k + 1 < |BlockStarts(lines, s, |lines|)| {
      StartsIncrease(lines, total, s, k, k + 1);
    }
  }

  /** Two blocks meet exactly where an unprotected blank line is followed, inside the
      section, by a line that is not blank -- the leading blank lines excepted. */
  lemma BlocksMeetAtBlanks(lines: seq<Line>, total: nat, s: Span, k: nat) returns (i: nat)
    requires Chain(lines, 0, total) && 0 < k < |BlocksOf(lines, s)|
    ensures 0 < i < |lines| && lines[i].start == BlocksOf(lines, s)[k].start
    ensures In(lines, s, i - 1) && In(lines, s, i) && Blank(lines[i - 1]) && !Blank(lines[i])
  {
    hide Blank, BlockStarts, TextBefore, Chain, BlocksOf;
    BlockAtStart(lines, s, k);
    var st := BlockStarts(lines, s, |lines|);
    i := st[k];
    var a: nat := st[k - 1];
    StartsAreStarts(lines, s, |lines|, k);
    StartsAreStarts(lines, s, |lines|, k - 1);
    StartsClimb(lines, s, |lines|, k - 1, k);
    if a < i - 1 {
      ChainOrder(lines, 0, total, a, i - 1);
    }
    ChainBounds(lines, 0, total, i - 1);
    ChainBounds(lines, 0, total, a);
    ChainOrder(lines, 0, total, i - 1, i);
    ChainBounds(lines, 0, total, i);
    assert In(lines, s, i - 1);
    NoTextIsBlank(lines, s, i);
  }

  lemma BlockAtStart(lines: seq<Line>, s: Span, k: nat)
    requires 0 < k < |BlocksOf(lines, s)|
    ensures var st := BlockStarts(lines, s, |lines|);
            k < |st| && BlocksOf(lines, s)[k].start == lines[st[k]].start
  {
    hide BlockStarts;
  }

  lemma NoTextIsBlank(lines: seq<Line>, s: Span, n: nat)
    requires 0 < n <= |lines| && In(lines, s, n - 1) && !TextBefore(lines, s, n)
    ensures Blank(lines[n - 1])
  {
    hide Blank;
  }
}
