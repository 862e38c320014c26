/** Half-open byte spans, and sequences of them that lie in order or tile a range. */
module Spans {
  import opened Bytes

  datatype Span = Span(start: nat, end: nat)

  predicate NonEmpty(s: Span) {
    s.start < s.end
  }

  /** The spans are non-empty, in order, disjoint, and inside [lo, hi). */
  ghost predicate Ordered(spans: seq<Span>, lo: nat, hi: nat) {
    && lo <= hi
    && (forall k :: 0 <= k < |spans| ==> lo <= spans[k].start && NonEmpty(spans[k]) && spans[k].end <= hi)
    && (forall j, k :: 0 <= j < k < |spans| ==> spans[j].end <= spans[k].start)
  }

  /** Each span starts where the one before it ends. */
  ghost predicate Abutting(spans: seq<Span>) {
    forall j, k :: 0 <= j < k < |spans| && k == j + 1 ==> spans[j].end == spans[k].start
  }

  /** The spans are non-empty and cover [lo, hi) with no gap and no overlap. */
  ghost predicate Tiles(spans: seq<Span>, lo: nat, hi: nat) {
    && Ordered(spans, lo, hi)
    && Abutting(spans)
    && (if spans == [] then lo == hi else spans[0].start == lo && spans[|spans| - 1].end == hi)
  }

  ghost predicate Covered(spans: seq<Span>, p: nat) {
    exists k :: 0 <= k < |spans| && spans[k].start <= p < spans[k].end
  }

  lemma OrderedConcat(a: seq<Span>, lo: nat, mid: nat, b: seq<Span>, hi: nat)
    requires Ordered(a, lo, mid) && Ordered(b, mid, hi)
    ensures Ordered(a + b, lo, hi)
  {
  }

  lemma TilesConcat(a: seq<Span>, lo: nat, mid: nat, b: seq<Span>, hi: nat)
    requires Tiles(a, lo, mid) && Tiles(b, mid, hi)
    ensures Tiles(a + b, lo, hi)
  {
    OrderedConcat(a, lo, mid, b, hi);
  }

  lemma CoveredConcat(a: seq<Span>, b: seq<Span>, p: nat)
    ensures Covered(a + b, p) <==> Covered(a, p) || Covered(b, p)
  {
    var c := a + b;
    if Covered(a, p) {
      var k :| 0 <= k < |a| && a[k].start <= p < a[k].end;
      assert c[k] == a[k];
    }
    if Covered(b, p) {
      var k :| 0 <= k < |b| && b[k].start <= p < b[k].end;
      assert c[|a| + k] == b[k];
    }
  }

  lemma TilesTail(spans: seq<Span>, lo: nat, hi: nat)
    requires Tiles(spans, lo, hi) && spans != []
    ensures Tiles(spans[1..], spans[0].end, hi)
  {
  }

  lemma TilesCons(first: Span, rest: seq<Span>, hi: nat)
    requires NonEmpty(first) && Tiles(rest, first.end, hi)
    ensures Tiles([first] + rest, first.start, hi)
  {
    assert Tiles([first], first.start, first.end);
    TilesConcat([first], first.start, first.end, rest, hi);
  }

  /** Non-empty abutting spans tile the range from the first start to the last end. */
  lemma {:induction false} AbuttingTiles(spans: seq<Span>)
    requires spans != [] && Abutting(spans)
    requires forall k :: 0 <= k < |spans| ==> NonEmpty(spans[k])
    ensures Tiles(spans, spans[0].start, spans[|spans| - 1].end)
    decreases |spans|
  {
    var rest := spans[1..];
    if rest != [] {
      assert spans[0].end == spans[1].start;
      AbuttingTiles(rest);
      TilesCons(spans[0], rest, spans[|spans| - 1].end);
      assert spans == [spans[0]] + rest;
    }
  }

  /** Spans that tile a range cover exactly the positions of that range. */
  lemma {:induction false} TilesCover(spans: seq<Span>, lo: nat, hi: nat, p: nat)
    requires Tiles(spans, lo, hi)
    ensures Covered(spans, p) <==> lo <= p < hi
    decreases |spans|
  {
    if spans != [] {
      TilesTail(spans, lo, hi);
      TilesCover(spans[1..], spans[0].end, hi, p);
      CoveredConcat([spans[0]], spans[1..], p);
      assert spans == [spans[0]] + spans[1..];
      assert Covered([spans[0]], p) <==> spans[0].start <= p < spans[0].end by {
        assert [spans[0]][0] == spans[0];
      }
    }
  }

  /** The bytes of each span, one after another. */
  function Bodies(content: Text, spans: seq<Span>): Text
    requires forall k :: 0 <= k < |spans| ==> spans[k].start <= spans[k].end <= |content|
  {
    if spans == [] then []
    else content[spans[0].start..spans[0].end] + Bodies(content, spans[1..])
  }

  lemma OrderedTail(spans: seq<Span>, lo: nat, hi: nat)
    requires Ordered(spans, lo, hi) && spans != []
    ensures Ordered(spans[1..], spans[0].end, hi)
  {
  }

  /** Spans that tile a range spell out its bytes. */
  lemma {:induction false} BodiesOfTiles(content: Text, spans: seq<Span>, lo: nat, hi: nat)
    requires Tiles(spans, lo, hi) && hi <= |content|
    ensures Bodies(content, spans) == content[lo..hi]
    decreases |spans|
  {
    if spans != [] {
      TilesTail(spans, lo, hi);
      BodiesOfTiles(content, spans[1..], spans[0].end, hi);
      assert content[lo..spans[0].end] + content[spans[0].end..hi] == content[lo..hi];
    }
  }

  /** Ordered spans that miss a byte of the range spell out fewer bytes than it has. */
  lemma {:induction false} BodiesMeasure(content: Text, spans: seq<Span>, lo: nat, hi: nat)
    requires Ordered(spans, lo, hi) && hi <= |content|
    ensures |Bodies(content, spans)| <= hi - lo
    ensures |Bodies(content, spans)| == hi - lo ==> Tiles(spans, lo, hi)
    decreases |spans|
  {
    if spans != [] {
      var first, rest := spans[0], spans[1..];
      OrderedTail(spans, lo, hi);
      BodiesMeasure(content, rest, first.end, hi);
      if |Bodies(content, spans)| == hi - lo {
        TilesCons(first, rest, hi);
        assert spans == [first] + rest;
      }
    }
  }
}
