/** Weaving (handler/doc/splitter.go): chosen spans of a section become spans of their own,
    and the text around them tiles alongside. Both structural strategies emit this shape. */
module Weaving {
  import opened Bytes
  import opened Spans

  function LastEnd(chunk: seq<Span>): nat
    requires chunk != []
  {
    chunk[|chunk| - 1].end
  }

  ghost predicate NoneEmpty(chunks: seq<seq<Span>>) {
    forall c :: 0 <= c < |chunks| ==> chunks[c] != []
  }

  /** What precedes the first span of a chunk. */
  function Before(cursor: nat, chunk: seq<Span>): seq<Span>
    requires chunk != []
  {
    if chunk[0].start > cursor then [Span(cursor, chunk[0].start)] else []
  }

  function Rest(cursor: nat, end: nat): seq<Span> {
    if cursor < end then [Span(cursor, end)] else []
  }

  function Weave(cursor: nat, chunks: seq<seq<Span>>, end: nat): seq<Span>
    requires NoneEmpty(chunks)
    decreases |chunks|
  {
    if chunks == [] then Rest(cursor, end)
    else Before(cursor, chunks[0]) + chunks[0] + Weave(LastEnd(chunks[0]), chunks[1..], end)
  }

  /** The chunks lie one after another in [lo, hi), each in order inside itself. */
  ghost predicate Chunked(chunks: seq<seq<Span>>, lo: nat, hi: nat)
    decreases |chunks|
  {
    if chunks == [] then lo <= hi
    else
      && chunks[0] != []
      && Ordered(chunks[0], lo, LastEnd(chunks[0]))
      && Chunked(chunks[1..], LastEnd(chunks[0]), hi)
  }

  lemma {:induction false} ChunkedFacts(chunks: seq<seq<Span>>, lo: nat, hi: nat)
    requires Chunked(chunks, lo, hi)
    ensures NoneEmpty(chunks) && lo <= hi
    decreases |chunks|
  {
    if chunks != [] {
      ChunkedFacts(chunks[1..], LastEnd(chunks[0]), hi);
    }
  }

  lemma ChunkedWiden(chunks: seq<seq<Span>>, lo: nat, lower: nat, hi: nat)
    requires Chunked(chunks, lo, hi) && lower <= lo
    ensures Chunked(chunks, lower, hi)
  {
  }

  lemma ChunkSplit(chunk: seq<Span>, lo: nat)
    requires chunk != [] && Ordered(chunk, lo, LastEnd(chunk))
    ensures Ordered(chunk, chunk[0].start, LastEnd(chunk)) && lo <= chunk[0].start
    ensures Tiles(Before(lo, chunk), lo, chunk[0].start)
  {
    if chunk[0].start > lo {
      assert Tiles([Span(lo, chunk[0].start)], lo, chunk[0].start);
    }
  }

  /** Weaving keeps every span in order and inside the section. */
  lemma {:induction false} WeaveOrdered(lo: nat, chunks: seq<seq<Span>>, hi: nat)
    requires Chunked(chunks, lo, hi) && NoneEmpty(chunks)
    ensures Ordered(Weave(lo, chunks, hi), lo, hi)
    decreases |chunks|
  {
    hide Ordered;
    if chunks == [] {
      RestTiles(lo, hi);
    } else {
      var mid := LastEnd(chunks[0]);
      WeaveOrdered(mid, chunks[1..], hi);
      ChunkSplit(chunks[0], lo);
      OrderedConcat(Before(lo, chunks[0]), lo, chunks[0][0].start, chunks[0], mid);
      OrderedConcat(Before(lo, chunks[0]) + chunks[0], lo, mid, Weave(mid, chunks[1..], hi), hi);
    }
  }

  lemma RestTiles(lo: nat, hi: nat)
    requires lo <= hi
    ensures Tiles(Rest(lo, hi), lo, hi)
  {
  }

  ghost predicate AllAbutting(chunks: seq<seq<Span>>) {
    forall c :: 0 <= c < |chunks| ==> Abutting(chunks[c])
  }

  /** When every chunk is gapless, weaving tiles the section. */
  lemma {:induction false} WeaveTiles(lo: nat, chunks: seq<seq<Span>>, hi: nat)
    requires Chunked(chunks, lo, hi) && NoneEmpty(chunks) && AllAbutting(chunks)
    ensures Tiles(Weave(lo, chunks, hi), lo, hi)
    decreases |chunks|
  {
    hide Ordered, Abutting;
    if chunks == [] {
      RestTiles(lo, hi);
    } else {
      var mid := LastEnd(chunks[0]);
      WeaveTiles(mid, chunks[1..], hi);
      ChunkSplit(chunks[0], lo);
      TilesConcat(Before(lo, chunks[0]), lo, chunks[0][0].start, chunks[0], mid);
      TilesConcat(Before(lo, chunks[0]) + chunks[0], lo, mid, Weave(mid, chunks[1..], hi), hi);
    }
  }

  /** `p` lies between the first and the last span of the chunk, but in none of them. */
  ghost predicate GapIn(chunk: seq<Span>, p: nat) {
    chunk != [] && chunk[0].start <= p < LastEnd(chunk) && !Covered(chunk, p)
  }

  ghost predicate GapInSome(chunks: seq<seq<Span>>, p: nat) {
    exists c :: 0 <= c < |chunks| && GapIn(chunks[c], p)
  }

  lemma {:induction false} ChunksFrom(chunks: seq<seq<Span>>, lo: nat, hi: nat, c: nat)
    requires Chunked(chunks, lo, hi) && NoneEmpty(chunks) && c < |chunks|
    ensures lo <= chunks[c][0].start && LastEnd(chunks[c]) <= hi && Ordered(chunks[c], lo, LastEnd(chunks[c]))
    decreases |chunks|
  {
    ChunkedFacts(chunks[1..], LastEnd(chunks[0]), hi);
    if c > 0 {
      ChunksFrom(chunks[1..], LastEnd(chunks[0]), hi, c - 1);
      assert chunks[1..][c - 1] == chunks[c];
    }
  }

  /** The woven spans miss exactly the positions in a gap of some chunk. */
  lemma {:induction false} WeaveCovers(lo: nat, chunks: seq<seq<Span>>, hi: nat, p: nat)
    requires Chunked(chunks, lo, hi) && NoneEmpty(chunks) && lo <= p < hi
    ensures Covered(Weave(lo, chunks, hi), p) <==> !GapInSome(chunks, p)
    decreases |chunks|
  {
    hide Ordered, Covered, GapIn;
    if chunks == [] {
      RestTiles(lo, hi);
      TilesCover(Rest(lo, hi), lo, hi, p);
    } else {
      var first, mid := chunks[0], LastEnd(chunks[0]);
      var tail := Weave(mid, chunks[1..], hi);
      ChunkSplit(first, lo);
      ChunkedFacts(chunks[1..], mid, hi);
      CoveredConcat(Before(lo, first) + first, tail, p);
      CoveredConcat(Before(lo, first), first, p);
      TilesCover(Before(lo, first), lo, first[0].start, p);
      GapSplit(chunks, lo, hi, p);
      if p < mid {
        WeaveOrdered(mid, chunks[1..], hi);
        NotCoveredBefore(tail, mid, hi, p);
        GapOfFirst(first, lo, p);
      } else {
        WeaveCovers(mid, chunks[1..], hi, p);
        NotCoveredAfter(first, lo, mid, p);
      }
    }
  }

  lemma NotCoveredBefore(spans: seq<Span>, lo: nat, hi: nat, p: nat)
    requires Ordered(spans, lo, hi) && p < lo
    ensures !Covered(spans, p)
  {
  }

  lemma NotCoveredAfter(spans: seq<Span>, lo: nat, hi: nat, p: nat)
    requires Ordered(spans, lo, hi) && p >= hi
    ensures !Covered(spans, p)
  {
  }

  lemma GapOfFirst(first: seq<Span>, lo: nat, p: nat)
    requires first != [] && Ordered(first, lo, LastEnd(first)) && p < LastEnd(first)
    ensures GapIn(first, p) <==> first[0].start <= p && !Covered(first, p)
    ensures p < first[0].start ==> !Covered(first, p)
  {
  }

  /** Before the end of the first chunk only the first chunk can have a gap, and after it
      only the others can. */
  lemma GapSplit(chunks: seq<seq<Span>>, lo: nat, hi: nat, p: nat)
    requires chunks != [] && Chunked(chunks, lo, hi) && NoneEmpty(chunks)
    ensures p < LastEnd(chunks[0]) ==> (GapInSome(chunks, p) <==> GapIn(chunks[0], p))
    ensures p >= LastEnd(chunks[0]) ==> (GapInSome(chunks, p) <==> GapInSome(chunks[1..], p))
  {
    hide Covered;
    var rest := chunks[1..];
    if GapInSome(chunks, p) {
      var c :| 0 <= c < |chunks| && GapIn(chunks[c], p);
      if c > 0 {
        ChunkedFacts(rest, LastEnd(chunks[0]), hi);
        ChunksFrom(rest, LastEnd(chunks[0]), hi, c - 1);
        assert rest[c - 1] == chunks[c];
      }
    }
    if GapInSome(rest, p) {
      var c :| 0 <= c < |rest| && GapIn(rest[c], p);
      assert chunks[c + 1] == rest[c];
    }
  }

  // ---- Which spans are woven ----

  /** Stretch number `c` of the text around the chunks: from the end of the chunk before it,
      or the start of the section, to the next chunk, or the end of the section. */
  function Stretch(cursor: nat, chunks: seq<seq<Span>>, end: nat, c: nat): Span
    requires NoneEmpty(chunks) && c <= |chunks|
  {
    Span(if c == 0 then cursor else LastEnd(chunks[c - 1]),
         if c == |chunks| then end else chunks[c][0].start)
  }

  ghost predicate InSomeChunk(chunks: seq<seq<Span>>, x: Span) {
    exists c :: 0 <= c < |chunks| && x in chunks[c]
  }

  ghost predicate IsStretch(cursor: nat, chunks: seq<seq<Span>>, end: nat, x: Span)
    requires NoneEmpty(chunks)
  {
    exists c: nat :: c <= |chunks| && x == Stretch(cursor, chunks, end, c)
  }

  /** A span that holds text is woven exactly when it is one of the chosen spans or a stretch
      of the text around them. */
  lemma {:induction false} WeaveMembers(cursor: nat, chunks: seq<seq<Span>>, end: nat, x: Span)
    requires NoneEmpty(chunks) && NonEmpty(x)
    ensures x in Weave(cursor, chunks, end) <==> InSomeChunk(chunks, x) || IsStretch(cursor, chunks, end, x)
    decreases |chunks|
  {
    if chunks == [] {
      assert Stretch(cursor, chunks, end, 0) == Span(cursor, end);
    } else {
      hide Stretch;
      var first, rest := chunks[0], chunks[1..];
      WeaveMembers(LastEnd(first), rest, end, x);
      InSomeTail(chunks, x);
      StretchTail(cursor, chunks, end, x);
      assert Weave(cursor, chunks, end) == Before(cursor, first) + first + Weave(LastEnd(first), rest, end);
    }
  }

  lemma InSomeTail(chunks: seq<seq<Span>>, x: Span)
    requires chunks != []
    ensures InSomeChunk(chunks, x) <==> x in chunks[0] || InSomeChunk(chunks[1..], x)
  {
    var rest := chunks[1..];
    if c :| 0 <= c < |rest| && x in rest[c] {
      assert chunks[c + 1] == rest[c];
    }
    if c :| 0 < c < |chunks| && x in chunks[c] {
      assert rest[c - 1] == chunks[c];
    }
  }

  lemma StretchTail(cursor: nat, chunks: seq<seq<Span>>, end: nat, x: Span)
    requires NoneEmpty(chunks) && chunks != [] && NonEmpty(x)
    ensures IsStretch(cursor, chunks, end, x)
            <==> x in Before(cursor, chunks[0]) || IsStretch(LastEnd(chunks[0]), chunks[1..], end, x)
  {
    var rest, from := chunks[1..], LastEnd(chunks[0]);
    if x in Before(cursor, chunks[0]) {
      assert x == Stretch(cursor, chunks, end, 0);
    }
    if c: nat :| c <= |rest| && x == Stretch(from, rest, end, c) {
      assert x == Stretch(cursor, chunks, end, c + 1);
    }
    if c: nat :| c <= |chunks| && x == Stretch(cursor, chunks, end, c) {
      if c > 0 {
        assert x == Stretch(from, rest, end, c - 1);
      }
    }
  }
}
