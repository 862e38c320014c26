/** Cutting a block that is larger than the ceiling (handler/doc/splitter.go): prose on
    sentence ends and, as a last resort, on characters; fenced code on lines. */
module Cuts {
  import opened Bytes
  import opened Utf8
  import opened Spans
  import opened Lines
  import opened Blocks
  import opened Sections

  /** What a possibly non-terminating computation does. `Loops` stands for a run that
      never ends: on malformed input the hard-cut loop can stop making progress. */
  datatype Outcome<+T> = Done(value: T) | Loops {
    predicate IsFailure() { Loops? }
    function PropagateFailure<U>(): Outcome<U> requires Loops? { Loops }
    function Extract(): T requires Done? { value }
  }

  /** Spans cut so far, and where the next one starts. */
  datatype Progress = Progress(spans: seq<Span>, next: nat)

  function Prepend(out: seq<Span>, p: Outcome<Progress>): Outcome<Progress> {
    match p
    case Loops => Loops
    case Done(q) => Done(Progress(out + q.spans, q.next))
  }

  // ---- Sentence ends ----

  predicate IsTerminator(b: Byte) {
    b == 46 || b == 33 || b == 63
  }

  predicate IsCloser(b: Byte) {
    b == 34 || b == 39 || b == 41
  }

  /** White space as the sentence rule sees it: one byte, read as a code point. */
  predicate IsByteSpace(b: Byte) {
    IsAsciiSpace(b) || b == 0x85 || b == 0xA0
  }

  function SentenceEndAt(content: Text, blk: Span, i: nat): Option<nat>
    requires i < blk.end <= |content|
  {
    var j := if i + 1 < blk.end && IsCloser(content[i + 1]) then i + 2 else i + 1;
    if IsTerminator(content[i]) && (j >= blk.end || IsByteSpace(content[j])) then Some(j) else None
  }

  function EndsFrom(content: Text, blk: Span, i: nat): seq<nat>
    requires i <= blk.end <= |content|
    decreases blk.end - i
  {
    if i == blk.end then []
    else
      var rest := EndsFrom(content, blk, i + 1);
      var e := SentenceEndAt(content, blk, i);
      if e.Some? then [e.value] + rest else rest
  }

  function SentenceEnds(content: Text, blk: Span): seq<nat>
    requires blk.start <= blk.end <= |content|
  {
    EndsFrom(content, blk, blk.start)
  }

  method FindSentenceEnds(content: Text, blk: Span) returns (ends: seq<nat>)
    requires blk.start <= blk.end <= |content|
    ensures ends == SentenceEnds(content, blk)
  {
    ends := [];
    for i := blk.start to blk.end
      invariant ends + EndsFrom(content, blk, i) == SentenceEnds(content, blk)
    {
      if content[i] == 46 || content[i] == 33 || content[i] == 63 {
        var j := i + 1;
        if j < blk.end && (content[j] == 34 || content[j] == 39 || content[j] == 41) {
          j := j + 1;
        }
        if j >= blk.end || IsByteSpace(content[j]) {
          ends := ends + [j];
        }
      }
    }
  }

  /** The ends climb strictly from above `lo`, none past `hi`. */
  ghost predicate Climbing(ends: seq<nat>, lo: nat, hi: nat) {
    && (forall k :: 0 <= k < |ends| ==> lo < ends[k] <= hi)
    && (forall j, k :: 0 <= j < k < |ends| ==> ends[j] < ends[k])
  }

  /** Sentence ends strictly increase: a closing quote is never a terminator, so an end that
      steps over one is not found twice. */
  lemma {:induction false} EndsClimb(content: Text, blk: Span, i: nat)
    requires i <= blk.end <= |content|
    ensures Climbing(EndsFrom(content, blk, i), i, blk.end)
    decreases blk.end - i
  {
    if i < blk.end {
      EndsClimb(content, blk, i + 1);
      var e := SentenceEndAt(content, blk, i);
      if e.Some? && e.value == i + 2 {
        assert SentenceEndAt(content, blk, i + 1).None?;
        EndsClimb(content, blk, i + 2);
      }
    }
  }

  /** A sentence ends just after an ASCII byte, at the block's end or before white space. */
  lemma {:induction false} EndsFollowAscii(content: Text, blk: Span, i: nat, k: nat)
    requires i <= blk.end <= |content| && k < |EndsFrom(content, blk, i)|
    ensures var j := EndsFrom(content, blk, i)[k];
            && i < j <= blk.end && content[j - 1] < 0x80
            && (j < blk.end ==> IsByteSpace(content[j]))
    decreases blk.end - i
  {
    if SentenceEndAt(content, blk, i).Some? {
      if k > 0 {
        EndsFollowAscii(content, blk, i + 1, k - 1);
      }
    } else {
      EndsFollowAscii(content, blk, i + 1, k);
    }
  }

  // ---- Hard cuts ----

  function RuneBoundary(content: Text, i: nat): (p: nat)
    ensures p <= |content| && p <= i
  {
    if i >= |content| then |content|
    else if i > 0 && !RuneStart(content[i]) then RuneBoundary(content, i - 1)
    else i
  }

  method BackOff(content: Text, at: nat) returns (i: nat)
    ensures i == RuneBoundary(content, at)
  {
    if at >= |content| {
      return |content|;
    }
    i := at;
    while i > 0 && !RuneStart(content[i])
      invariant i < |content|
      invariant RuneBoundary(content, i) == RuneBoundary(content, at)
    {
      i := i - 1;
    }
  }

  /** The boundary backs off over continuation bytes only, and stops at a character start
      or at 0. */
  lemma {:induction false} RuneBoundaryIsNearest(content: Text, i: nat)
    requires i < |content|
    ensures var p := RuneBoundary(content, i);
            && p <= i
            && (p == 0 || RuneStart(content[p]))
            && forall q :: p < q <= i ==> Continuation(content[q])
  {
    if i > 0 && !RuneStart(content[i]) {
      RuneBoundaryIsNearest(content, i - 1);
    }
  }

  /** Cut [start, end) into pieces of at most `hardMax` bytes, leaving the last piece open. */
  function HardCuts(content: Text, start: nat, end: nat, hardMax: nat): Outcome<Progress>
    requires start <= end <= |content|
    decreases end - start
  {
    if end - start <= hardMax then Done(Progress([], start))
    else
      var cut := RuneBoundary(content, start + hardMax);
      if cut <= start then Loops
      else Prepend([Span(start, cut)], HardCuts(content, cut, end, hardMax))
  }

  // ---- Why a hard cut that stops making progress never ends ----

  /** Where the hard-cut loop stands after `n` turns, if its guard let it take them. */
  function Turn(content: Text, start: nat, hardMax: nat, n: nat): nat
    decreases n
  {
    if n == 0 then start else Turn(content, RuneBoundary(content, start + hardMax), hardMax, n - 1)
  }

  /** After every number of turns the loop's guard still holds. */
  ghost predicate NeverExits(content: Text, start: nat, end: nat, hardMax: nat) {
    forall n: nat :: end - Turn(content, start, hardMax, n) > hardMax
  }

  /** A turn that does not move forward leads to a position the next one stays at. */
  lemma NoProgressIsFixed(content: Text, start: nat, hardMax: nat)
    requires start + hardMax < |content| && RuneBoundary(content, start + hardMax) <= start
    ensures var cut := RuneBoundary(content, start + hardMax);
            RuneBoundary(content, cut + hardMax) <= cut
  {
    var cut := RuneBoundary(content, start + hardMax);
    RuneBoundaryIsNearest(content, start + hardMax);
    RuneBoundaryIsNearest(content, cut + hardMax);
  }

  /** Once a turn makes no progress the guard holds after every number of turns. */
  lemma {:induction false} NoProgressForever(content: Text, start: nat, end: nat, hardMax: nat, n: nat)
    requires end <= |content| && end - start > hardMax
    requires RuneBoundary(content, start + hardMax) <= start
    ensures end - Turn(content, start, hardMax, n) > hardMax
    decreases n
  {
    if n > 0 {
      NoProgressIsFixed(content, start, hardMax);
      NoProgressForever(content, RuneBoundary(content, start + hardMax), end, hardMax, n - 1);
    }
  }

  /** `Loops` is the truth about the source's loop: the model answers it exactly when the
      loop's guard holds after every number of turns. */
  lemma {:induction false} LoopsMeansNeverExits(content: Text, start: nat, end: nat, hardMax: nat)
    requires start <= end <= |content|
    ensures HardCuts(content, start, end, hardMax).Loops? <==> NeverExits(content, start, end, hardMax)
    decreases end - start
  {
    if end - start <= hardMax {
      assert Turn(content, start, hardMax, 0) == start;
    } else {
      var cut := RuneBoundary(content, start + hardMax);
      if cut <= start {
        forall n: nat ensures end - Turn(content, start, hardMax, n) > hardMax {
          NoProgressForever(content, start, end, hardMax, n);
        }
      } else {
        LoopsMeansNeverExits(content, cut, end, hardMax);
        OneTurnLess(content, start, end, hardMax);
      }
    }
  }

  lemma OneTurnLess(content: Text, start: nat, end: nat, hardMax: nat)
    requires end - start > hardMax
    ensures NeverExits(content, start, end, hardMax)
            <==> NeverExits(content, RuneBoundary(content, start + hardMax), end, hardMax)
  {
    hide RuneBoundary;
    var cut := RuneBoundary(content, start + hardMax);
    if NeverExits(content, start, end, hardMax) {
      forall n: nat ensures end - Turn(content, cut, hardMax, n) > hardMax {
        assert Turn(content, start, hardMax, n + 1) == Turn(content, cut, hardMax, n);
      }
    }
    if NeverExits(content, cut, end, hardMax) {
      forall n: nat ensures end - Turn(content, start, hardMax, n) > hardMax {
        if n > 0 {
          assert Turn(content, start, hardMax, n) == Turn(content, cut, hardMax, n - 1);
        }
      }
    }
  }

  method HardCut(content: Text, from: nat, end: nat, hardMax: nat) returns (r: Outcome<Progress>)
    requires from <= end <= |content|
    ensures r == HardCuts(content, from, end, hardMax)
  {
    var out: seq<Span> := [];
    var start := from;
    PrependPrepend([], [], HardCuts(content, from, end, hardMax));
    while end - start > hardMax
      invariant start <= end
      invariant Prepend(out, HardCuts(content, start, end, hardMax)) == HardCuts(content, from, end, hardMax)
      decreases end - start
    {
      var cut := BackOff(content, start + hardMax);
      if cut <= start {
        return Loops;
      }
      PrependPrepend(out, [Span(start, cut)], HardCuts(content, cut, end, hardMax));
      out := out + [Span(start, cut)];
      start := cut;
    }
    assert out + [] == out;
    return Done(Progress(out, start));
  }

  lemma PrependPrepend(a: seq<Span>, b: seq<Span>, p: Outcome<Progress>)
    ensures Prepend(a, Prepend(b, p)) == Prepend(a + b, p)
    ensures Prepend([], p) == p
  {
    if p.Done? {
      assert a + (b + p.value.spans) == a + b + p.value.spans;
      assert [] + p.value.spans == p.value.spans;
    }
  }

  /** Every span has at most `max` bytes. */
  ghost predicate AtMost(spans: seq<Span>, max: nat) {
    forall k :: 0 <= k < |spans| ==> spans[k].end - spans[k].start <= max
  }

  /** Every span ends at a position `p` where the text may be cut. */
  ghost predicate EndAtBoundaries(content: Text, spans: seq<Span>) {
    forall k :: 0 <= k < |spans| ==> Boundary(content, spans[k].end)
  }

  /** The spans tile [lo, hi), none is over `max`, and in well-formed text each ends at a
      character boundary. */
  ghost predicate Pieces(content: Text, spans: seq<Span>, lo: nat, hi: nat, max: nat) {
    Tiles(spans, lo, hi) && AtMost(spans, max) && (WellFormed(content) ==> EndAtBoundaries(content, spans))
  }

  lemma PiecesConcat(content: Text, a: seq<Span>, lo: nat, mid: nat, b: seq<Span>, hi: nat, max: nat)
    requires Pieces(content, a, lo, mid, max) && Pieces(content, b, mid, hi, max)
    ensures Pieces(content, a + b, lo, hi, max)
  {
    hide Tiles, Boundary, WellFormed;
    TilesConcat(a, lo, mid, b, hi);
  }

  lemma OnePiece(content: Text, lo: nat, hi: nat, max: nat)
    requires lo < hi <= lo + max && (WellFormed(content) ==> Boundary(content, hi))
    ensures Pieces(content, [Span(lo, hi)], lo, hi, max)
  {
  }

  lemma NoPiece(content: Text, lo: nat, max: nat)
    ensures Pieces(content, [], lo, lo, max)
  {
  }

  ghost predicate EndAtRuneStarts(content: Text, spans: seq<Span>) {
    forall k :: 0 <= k < |spans| ==> spans[k].end < |content| && RuneStart(content[spans[k].end])
  }

  /** Every hard cut lands on the first byte of a character, whatever the bytes are. */
  lemma {:induction false} HardCutsOnRuneStarts(content: Text, start: nat, end: nat, hardMax: nat)
    requires start <= end <= |content|
    ensures var r := HardCuts(content, start, end, hardMax);
            r.Done? ==> EndAtRuneStarts(content, r.value.spans)
    decreases end - start
  {
    if end - start > hardMax {
      var cut := RuneBoundary(content, start + hardMax);
      RuneBoundaryIsNearest(content, start + hardMax);
      if cut > start {
        HardCutsOnRuneStarts(content, cut, end, hardMax);
      }
    }
  }

  /** The pieces of a hard cut tile the range up to the open piece; none, the open one
      included, is over the hard maximum. */
  lemma {:induction false} HardCutsTile(content: Text, start: nat, end: nat, hardMax: nat)
    requires start <= end <= |content|
    ensures var r := HardCuts(content, start, end, hardMax);
            r.Done? ==>
              && Pieces(content, r.value.spans, start, r.value.next, hardMax)
              && start <= r.value.next <= end <= r.value.next + hardMax
              && (start < end ==> r.value.next < end)
    decreases end - start
  {
    hide Pieces;
    NoPiece(content, start, hardMax);
    if end - start > hardMax {
      var cut := RuneBoundary(content, start + hardMax);
      RuneBoundaryIsNearest(content, start + hardMax);
      if cut > start {
        HardCutsTile(content, cut, end, hardMax);
        var r := HardCuts(content, cut, end, hardMax);
        if r.Done? {
          OnePiece(content, start, cut, hardMax);
          PiecesConcat(content, [Span(start, cut)], start, cut, r.value.spans, r.value.next, hardMax);
        }
      }
    }
  }

  // ---- Sentences ----

  /** The piece that the sentence ending at `end` closes, when it would pass the ceiling. */
  function Closed(start: nat, last: nat, end: nat, b: Bounds): seq<Span>
    requires start <= last
  {
    if end - start > b.ceiling && last > start then [Span(start, last)] else []
  }

  function SentenceCuts(content: Text, ends: seq<nat>, start: nat, last: nat, b: Bounds): Outcome<Progress>
    requires start <= last && Climbing(ends, last, |content|)
    decreases |ends|
  {
    if ends == [] then Done(Progress([], start))
    else
      var end := ends[0];
      var pre := Closed(start, last, end, b);
      var from := if pre == [] then start else last;
      var hard := HardCuts(content, from, end, b.hardMax);
      if hard.Loops? then Loops
      else
        HardCutsTile(content, from, end, b.hardMax);
        Prepend(pre + hard.value.spans, SentenceCuts(content, ends[1..], hard.value.next, end, b))
  }

  function CutOnSentences(content: Text, blk: Span, b: Bounds): Outcome<seq<Span>>
    requires blk.start <= blk.end <= |content|
  {
    EndsClimb(content, blk, blk.start);
    var body :- SentenceCuts(content, SentenceEnds(content, blk), blk.start, blk.start, b);
    if blk.end > body.next then
      var tail :- HardCuts(content, body.next, blk.end, b.hardMax);
      Done(body.spans + tail.spans + [Span(tail.next, blk.end)])
    else Done(body.spans)
  }

  method CutSentences(content: Text, blk: Span, b: Bounds) returns (r: Outcome<seq<Span>>)
    requires blk.start <= blk.end <= |content|
    ensures r == CutOnSentences(content, blk, b)
  {
    hide HardCuts, Pieces, Climbing, EndsFrom, Prepend;
    EndsClimb(content, blk, blk.start);
    ClimbWiden(SentenceEnds(content, blk), blk.start, blk.end, |content|);
    var ends := FindSentenceEnds(content, blk);
    var body := AccumulateSentences(content, ends, blk, b);
    if body.Loops? {
      return Loops;
    }
    var out := body.value.spans;
    if blk.end > body.value.next {
      var tail := HardCut(content, body.value.next, blk.end, b.hardMax);
      if tail.Loops? {
        return Loops;
      }
      out := out + tail.value.spans + [Span(tail.value.next, blk.end)];
    }
    return Done(out);
  }

  /** The loop over the sentence ends. */
  method AccumulateSentences(content: Text, ends: seq<nat>, blk: Span, b: Bounds) returns (r: Outcome<Progress>)
    requires Climbing(ends, blk.start, |content|)
    ensures r == SentenceCuts(content, ends, blk.start, blk.start, b)
  {
    hide HardCuts, Pieces, Climbing, Prepend;
    var out: seq<Span> := [];
    var start: nat, last: nat := blk.start, blk.start;
    PrependPrepend([], [], SentenceCuts(content, ends, start, last, b));
    for k := 0 to |ends|
      invariant start <= last
      invariant Climbing(ends[k..], last, |content|)
      invariant Prepend(out, SentenceCuts(content, ends[k..], start, last, b))
             == SentenceCuts(content, ends, blk.start, blk.start, b)
    {
      var end := ends[k];
      assert ends[k..][0] == end && ends[k..][1..] == ends[k + 1..];
      ClimbTail(ends[k..], last, |content|);
      ghost var before := out;
      ghost var pre := Closed(start, last, end, b);
      if end - start > b.ceiling && last > start {
        out := out + [Span(start, last)];
        start := last;
      }
      assert out == before + pre;
      var hard := HardCut(content, start, end, b.hardMax);
      if hard.Loops? {
        PrependLoops(before);
        return Loops;
      }
      HardCutsTile(content, start, end, b.hardMax);
      PrependPrepend(before, pre + hard.value.spans, SentenceCuts(content, ends[k + 1..], hard.value.next, end, b));
      assert before + (pre + hard.value.spans) == out + hard.value.spans;
      out := out + hard.value.spans;
      start := hard.value.next;
      last := end;
    }
    assert ends[|ends|..] == [];
    PrependDone(out, start);
    return Done(Progress(out, start));
  }

  lemma PrependLoops(out: seq<Span>)
    ensures Prepend(out, Loops).Loops?
  {
  }

  lemma PrependDone(out: seq<Span>, next: nat)
    ensures Prepend(out, Done(Progress([], next))) == Done(Progress(out, next))
  {
    assert out + [] == out;
  }

  lemma ClimbWiden(ends: seq<nat>, lo: nat, hi: nat, wider: nat)
    requires Climbing(ends, lo, hi) && hi <= wider
    ensures Climbing(ends, lo, wider)
  {
  }

  lemma ClimbTail(ends: seq<nat>, lo: nat, hi: nat)
    requires ends != [] && Climbing(ends, lo, hi)
    ensures lo < ends[0] <= hi && Climbing(ends[1..], ends[0], hi)
  {
  }

  /** Sentence pieces tile the block up to the open piece. None is over the hard maximum;
      and where every sentence end is a character boundary, so is every cut. */
  lemma {:induction false} SentenceCutsTile(content: Text, ends: seq<nat>, start: nat, last: nat, hi: nat, b: Bounds)
    requires start <= last <= hi <= |content| && Climbing(ends, last, hi)
    requires last - start <= b.hardMax
    requires WellFormed(content) ==> Boundary(content, last) && forall k :: 0 <= k < |ends| ==> Boundary(content, ends[k])
    ensures var r := SentenceCuts(content, ends, start, last, b);
            r.Done? ==> Pieces(content, r.value.spans, start, r.value.next, b.hardMax) && r.value.next <= hi
    decreases |ends|
  {
    hide HardCuts, Boundary, Pieces, WellFormed;
    NoPiece(content, start, b.hardMax);
    if ends != [] && SentenceCuts(content, ends, start, last, b).Done? {
      var end := ends[0];
      var pre := Closed(start, last, end, b);
      var from := if pre == [] then start else last;
      HardCutsTile(content, from, end, b.hardMax);
      var hard := HardCuts(content, from, end, b.hardMax).value;
      SentenceCutsTile(content, ends[1..], hard.next, end, hi, b);
      var rest := SentenceCuts(content, ends[1..], hard.next, end, b).value;
      if pre != [] {
        OnePiece(content, start, last, b.hardMax);
      }
      PiecesConcat(content, pre, start, from, hard.spans, hard.next, b.hardMax);
      PiecesConcat(content, pre + hard.spans, start, hard.next, rest.spans, rest.next, b.hardMax);
    }
  }

  /** The sentence cutter tiles its block with pieces of at most the hard maximum, cut on
      character boundaries -- whenever it finishes. */
  lemma CutOnSentencesTiles(content: Text, blk: Span, b: Bounds)
    requires blk.start < blk.end <= |content|
    requires WellFormed(content) ==> Boundary(content, blk.start) && Boundary(content, blk.end)
    ensures var r := CutOnSentences(content, blk, b);
            r.Done? ==> Pieces(content, r.value, blk.start, blk.end, b.hardMax)
  {
    hide HardCuts, Boundary, SentenceCuts, Pieces, EndsFrom, WellFormed;
    if WellFormed(content) {
      forall k | 0 <= k < |SentenceEnds(content, blk)|
        ensures Boundary(content, SentenceEnds(content, blk)[k])
      {
        SentenceEndsAreBoundaries(content, blk, k);
      }
    }
    if CutOnSentences(content, blk, b).Done? {
      EndsClimb(content, blk, blk.start);
      SentenceCutsTile(content, SentenceEnds(content, blk), blk.start, blk.start, blk.end, b);
      var body := SentenceCuts(content, SentenceEnds(content, blk), blk.start, blk.start, b).value;
      if blk.end > body.next {
        HardCutsTile(content, body.next, blk.end, b.hardMax);
        var tail := HardCuts(content, body.next, blk.end, b.hardMax).value;
        OnePiece(content, tail.next, blk.end, b.hardMax);
        PiecesConcat(content, body.spans, blk.start, body.next, tail.spans, tail.next, b.hardMax);
        PiecesConcat(content, body.spans + tail.spans, blk.start, tail.next, [Span(tail.next, blk.end)], blk.end, b.hardMax);
      }
    }
  }

  /** On well-formed text every sentence end is a character boundary. */
  lemma SentenceEndsAreBoundaries(content: Text, blk: Span, k: nat)
    requires WellFormed(content) && blk.start <= blk.end <= |content| && Boundary(content, blk.end)
    requires k < |SentenceEnds(content, blk)|
    ensures Boundary(content, SentenceEnds(content, blk)[k])
  {
    EndsFollowAscii(content, blk, blk.start, k);
    AfterAscii(content, SentenceEnds(content, blk)[k] - 1);
  }

  // ---- When the cutter finishes ----

  /** `hardMax` continuation bytes follow position `p` inside the block, so a hard cut that
      starts at `p` backs off all the way to `p`. */
  ghost predicate Stalls(content: Text, blk: Span, p: nat, hardMax: nat)
    requires blk.end <= |content|
  {
    && blk.start <= p && p + hardMax < blk.end
    && forall q :: p < q <= p + hardMax ==> Continuation(content[q])
  }

  ghost predicate NeverStalls(content: Text, blk: Span, hardMax: nat)
    requires blk.end <= |content|
  {
    forall p :: !Stalls(content, blk, p, hardMax)
  }

  /** The cutter comes to stand at or before `p` with the bytes after `p` still to be cut: no
      sentence ends right after `p`, or none ends later. */
  ghost predicate StuckAt(content: Text, blk: Span, p: nat, hardMax: nat)
    requires blk.start <= blk.end <= |content|
  {
    var ends := SentenceEnds(content, blk);
    Stalls(content, blk, p, hardMax) && (p + 1 !in ends || p + 1 == ends[|ends| - 1])
  }

  ghost predicate Stuck(content: Text, blk: Span, hardMax: nat)
    requires blk.start <= blk.end <= |content|
  {
    exists p: nat :: StuckAt(content, blk, p, hardMax)
  }

  /** A hard cut that starts at or before a stall and must pass it never ends. */
  lemma {:induction false} StallStopsHardCuts(content: Text, blk: Span, p: nat, start: nat, end: nat, hardMax: nat)
    requires blk.end <= |content| && Stalls(content, blk, p, hardMax)
    requires start <= p && p + hardMax < end <= |content|
    ensures HardCuts(content, start, end, hardMax).Loops?
    decreases end - start
  {
    var cut := RuneBoundary(content, start + hardMax);
    RuneBoundaryIsNearest(content, start + hardMax);
    if cut > start {
      assert cut <= p;
      StallStopsHardCuts(content, blk, p, cut, end, hardMax);
    }
  }

  /** A hard cut that never ends has come to a stall. */
  lemma {:induction false} LoopsAtStall(content: Text, blk: Span, start: nat, end: nat, hardMax: nat) returns (p: nat)
    requires blk.start <= start <= end <= blk.end <= |content|
    requires HardCuts(content, start, end, hardMax).Loops?
    ensures start <= p && p + hardMax < end && Stalls(content, blk, p, hardMax)
    decreases end - start
  {
    var cut := RuneBoundary(content, start + hardMax);
    RuneBoundaryIsNearest(content, start + hardMax);
    p := start;
    if cut > start {
      p := LoopsAtStall(content, blk, cut, end, hardMax);
    }
  }

  /** Up to sentence end number `n`, none of them past the stall, the cutter stays at or
      before it. */
  lemma {:induction false} SentencesStayBefore(content: Text, blk: Span, p: nat, ends: seq<nat>, start: nat, last: nat, b: Bounds)
    requires blk.end <= |content| && Stalls(content, blk, p, b.hardMax)
    requires start <= p && start <= last && Climbing(ends, last, blk.end)
    requires last <= p || ends == []
    requires forall k :: 0 <= k < |ends| ==>
      ends[k] <= p || ends[k] > p + b.hardMax || (ends[k] == p + 1 && k == |ends| - 1)
    ensures var r := SentenceCuts(content, ends, start, last, b);
            r.Loops? || r.value.next <= p
    decreases |ends|
  {
    hide HardCuts, Stalls;
    if ends != [] && SentenceCuts(content, ends, start, last, b).Done? {
      var end := ends[0];
      var from := if end - start > b.ceiling && last > start then last else start;
      HardCutsTile(content, from, end, b.hardMax);
      if end > p + b.hardMax {
        StallStopsHardCuts(content, blk, p, from, end, b.hardMax);
      }
      SentencesStayBefore(content, blk, p, ends[1..], HardCuts(content, from, end, b.hardMax).value.next, end, b);
    }
  }

  /** No sentence ends among the continuation bytes of a stall but right at their start. */
  lemma NoEndInStall(content: Text, blk: Span, p: nat, hardMax: nat, k: nat)
    requires blk.start <= blk.end <= |content| && Stalls(content, blk, p, hardMax)
    requires k < |SentenceEnds(content, blk)|
    ensures var e := SentenceEnds(content, blk)[k]; e <= p + 1 || e > p + hardMax
  {
    EndsFollowAscii(content, blk, blk.start, k);
  }

  lemma StuckMeetsEnds(content: Text, blk: Span, p: nat, hardMax: nat)
    requires blk.start <= blk.end <= |content| && StuckAt(content, blk, p, hardMax)
    ensures var ends := SentenceEnds(content, blk);
            forall k :: 0 <= k < |ends| ==>
              ends[k] <= p || ends[k] > p + hardMax || (ends[k] == p + 1 && k == |ends| - 1)
  {
    hide SentenceEnds;
    var ends := SentenceEnds(content, blk);
    EndsClimbAll(content, blk);
    forall k | 0 <= k < |ends|
      ensures ends[k] <= p || ends[k] > p + hardMax || (ends[k] == p + 1 && k == |ends| - 1)
    {
      NoEndInStall(content, blk, p, hardMax, k);
    }
  }

  lemma EndsClimbAll(content: Text, blk: Span)
    requires blk.start <= blk.end <= |content|
    ensures Climbing(SentenceEnds(content, blk), blk.start, blk.end)
  {
    EndsClimb(content, blk, blk.start);
  }

  /** At a stall that no sentence end lets it over the cutter never returns, whatever the
      bounds. */
  lemma StuckLoopsForever(content: Text, blk: Span, p: nat, b: Bounds)
    requires blk.start <= blk.end <= |content| && StuckAt(content, blk, p, b.hardMax)
    ensures CutOnSentences(content, blk, b).Loops?
  {
    hide HardCuts, SentenceCuts, EndsFrom;
    EndsClimbAll(content, blk);
    var ends := SentenceEnds(content, blk);
    StuckMeetsEnds(content, blk, p, b.hardMax);
    SentencesStayBefore(content, blk, p, ends, blk.start, blk.start, b);
    var body := SentenceCuts(content, ends, blk.start, blk.start, b);
    if body.Done? {
      StallStopsHardCuts(content, blk, p, body.value.next, blk.end, b.hardMax);
    }
  }
  /** With no byte allowed per piece, any text at all is stuck. */
  lemma NoRoomIsStuck(content: Text, blk: Span)
    requires blk.start < blk.end <= |content|
    ensures Stuck(content, blk, 0)
  {
    hide SentenceEnds;
    EndsClimbAll(content, blk);
    var ends := SentenceEnds(content, blk);
    var p: nat := if ends == [] then blk.start else ends[|ends| - 1] - 1;
    assert StuckAt(content, blk, p, 0);
  }

  /** A stall the cutter would have to pass from its present place has a sentence end right
      after it that the cutter is already past. */
  lemma StallIsBehind(content: Text, blk: Span, p: nat, hardMax: nat, k: nat)
    requires blk.start < blk.end <= |content| && !Stuck(content, blk, hardMax)
    requires Stalls(content, blk, p, hardMax)
    requires k < |SentenceEnds(content, blk)| && p + hardMax < SentenceEnds(content, blk)[k]
    ensures k > 0 && p + 1 <= SentenceEnds(content, blk)[k - 1]
  {
    hide SentenceEnds, Stalls;
    EndsClimbAll(content, blk);
    var ends := SentenceEnds(content, blk);
    if hardMax == 0 {
      NoRoomIsStuck(content, blk);
    }
    assert !StuckAt(content, blk, p, hardMax);
    var m :| 0 <= m < |ends| && ends[m] == p + 1;
  }

  lemma HardCutToEndFinishes(content: Text, blk: Span, k: nat, start: nat, last: nat, b: Bounds)
    requires blk.start <= start <= last <= blk.end <= |content| && b.ceiling <= b.hardMax
    requires !Stuck(content, blk, b.hardMax) && k < |SentenceEnds(content, blk)|
    requires last == if k == 0 then blk.start else SentenceEnds(content, blk)[k - 1]
    requires last < SentenceEnds(content, blk)[k] <= blk.end
    ensures var end := SentenceEnds(content, blk)[k];
            var from := if end - start > b.ceiling && last > start then last else start;
            HardCuts(content, from, end, b.hardMax).Done?
  {
    hide SentenceEnds, Stuck;
    var end := SentenceEnds(content, blk)[k];
    var from := if end - start > b.ceiling && last > start then last else start;
    if HardCuts(content, from, end, b.hardMax).Loops? {
      var p := LoopsAtStall(content, blk, from, end, b.hardMax);
      StallIsBehind(content, blk, p, b.hardMax, k);
    }
  }

  lemma {:induction false} SentencesFinishUnlessStuck(content: Text, blk: Span, k: nat, start: nat, last: nat, b: Bounds)
    requires blk.start <= start <= last <= blk.end <= |content| && b.ceiling <= b.hardMax
    requires !Stuck(content, blk, b.hardMax) && k <= |SentenceEnds(content, blk)|
    requires last == (if k == 0 then blk.start else SentenceEnds(content, blk)[k - 1]) && last - start <= b.hardMax
    ensures Climbing(SentenceEnds(content, blk)[k..], last, blk.end)
    ensures var r := SentenceCuts(content, SentenceEnds(content, blk)[k..], start, last, b);
            var ends := SentenceEnds(content, blk);
            && r.Done? && blk.start <= r.value.next
            && (if ends == [] then blk.start else ends[|ends| - 1]) - r.value.next <= b.hardMax
    decreases |SentenceEnds(content, blk)| - k
  {
    hide SentenceEnds, Stuck, HardCuts, Pieces, Climbing;
    EndsClimbAll(content, blk);
    var ends := SentenceEnds(content, blk);
    ClimbFrom(ends, blk.start, blk.end, k);
    if k < |ends| {
      var end := ends[k];
      var from := if end - start > b.ceiling && last > start then last else start;
      assert ends[k..][0] == end && ends[k..][1..] == ends[k + 1..];
      HardCutToEndFinishes(content, blk, k, start, last, b);
      HardCutsTile(content, from, end, b.hardMax);
      SentencesFinishUnlessStuck(content, blk, k + 1, HardCuts(content, from, end, b.hardMax).value.next, end, b);
    }
  }

  lemma ClimbFrom(ends: seq<nat>, lo: nat, hi: nat, k: nat)
    requires Climbing(ends, lo, hi) && k <= |ends|
    ensures Climbing(ends[k..], if k == 0 then lo else ends[k - 1], hi)
  {
  }

  /** With the ceiling inside the hard maximum, the cutter returns exactly when its block is
      not stuck. */
  lemma CutOnSentencesFinishesUnlessStuck(content: Text, blk: Span, b: Bounds)
    requires blk.start <= blk.end <= |content| && b.ceiling <= b.hardMax
    ensures CutOnSentences(content, blk, b).Done? <==> !Stuck(content, blk, b.hardMax)
  {
    hide HardCuts, SentenceCuts, SentenceEnds, StuckAt;
    if p: nat :| StuckAt(content, blk, p, b.hardMax) {
      StuckLoopsForever(content, blk, p, b);
    } else {
      SentencesFinishUnlessStuck(content, blk, 0, blk.start, blk.start, b);
      var ends := SentenceEnds(content, blk);
      assert ends[0..] == ends;
      var body := SentenceCuts(content, ends, blk.start, blk.start, b).value;
      if blk.end > body.next && HardCuts(content, body.next, blk.end, b.hardMax).Loops? {
        var p := LoopsAtStall(content, blk, body.next, blk.end, b.hardMax);
        LastStallIsStuck(content, blk, p, b.hardMax);
      }
    }
  }

  /** A stall from which every sentence end lies at most a maximum away is stuck. */
  lemma LastStallIsStuck(content: Text, blk: Span, p: nat, hardMax: nat)
    requires blk.start <= blk.end <= |content| && Stalls(content, blk, p, hardMax)
    requires var ends := SentenceEnds(content, blk); ends == [] || ends[|ends| - 1] - p <= hardMax
    ensures StuckAt(content, blk, p, hardMax)
  {
    hide SentenceEnds;
    EndsClimbAll(content, blk);
    var ends := SentenceEnds(content, blk);
    if m :| 0 <= m < |ends| && ends[m] == p + 1 {
      NoEndInStall(content, blk, p, hardMax, |ends| - 1);
      assert ends[m] <= ends[|ends| - 1];
    }
  }

  /** Whatever the bounds, the cutter returns on a block without a stall. */
  lemma CutOnSentencesFinishes(content: Text, blk: Span, b: Bounds)
    requires blk.start <= blk.end <= |content| && NeverStalls(content, blk, b.hardMax)
    ensures CutOnSentences(content, blk, b).Done?
  {
    hide HardCuts, SentenceCuts, SentenceEnds, NeverStalls;
    EndsClimbAll(content, blk);
    SentenceCutsFinish(content, blk, SentenceEnds(content, blk), blk.start, blk.start, b);
    var body := SentenceCuts(content, SentenceEnds(content, blk), blk.start, blk.start, b).value;
    if blk.end > body.next {
      HardCutsFinish(content, blk, body.next, blk.end, b.hardMax);
    }
  }

  lemma HardCutsFinish(content: Text, blk: Span, start: nat, end: nat, hardMax: nat)
    requires blk.start <= start <= end <= blk.end <= |content| && NeverStalls(content, blk, hardMax)
    ensures HardCuts(content, start, end, hardMax).Done?
  {
    hide HardCuts, Stalls;
    if HardCuts(content, start, end, hardMax).Loops? {
      var p := LoopsAtStall(content, blk, start, end, hardMax);
    }
  }

  lemma {:induction false} SentenceCutsFinish(content: Text, blk: Span, ends: seq<nat>, start: nat, last: nat, b: Bounds)
    requires blk.start <= start <= last <= blk.end <= |content| && Climbing(ends, last, blk.end)
    requires NeverStalls(content, blk, b.hardMax)
    ensures SentenceCuts(content, ends, start, last, b).Done?
    ensures SentenceCuts(content, ends, start, last, b).value.next >= blk.start
    decreases |ends|
  {
    hide HardCuts, NeverStalls;
    if ends != [] {
      var end := ends[0];
      var from := if end - start > b.ceiling && last > start then last else start;
      HardCutsFinish(content, blk, from, end, b.hardMax);
      HardCutsTile(content, from, end, b.hardMax);
      SentenceCutsFinish(content, blk, ends[1..], HardCuts(content, from, end, b.hardMax).value.next, end, b);
    }
  }

  /** Well-formed text never stalls a hard maximum of at least four bytes. */
  lemma WellFormedNeverStalls(content: Text, blk: Span, hardMax: nat)
    requires WellFormed(content) && blk.end <= |content| && hardMax >= 4
    ensures NeverStalls(content, blk, hardMax)
  {
    forall p: nat
      ensures !Stalls(content, blk, p, hardMax)
    {
      if blk.start <= p && p + hardMax < blk.end {
        var r := RuneStartNearby(content, p + hardMax);
        assert p < r <= p + hardMax && RuneStart(content[r]);
      }
    }
  }
}
