/** Subdividing one section (handler/doc/splitter.go): by key groups when it holds a
    homogeneous block, by fences when enough prose surrounds them, and else by size. */
module Subdivision {
  import opened Bytes
  import opened Spans
  import opened Lines
  import opened Blocks
  import opened Cuts
  import opened Oversized
  import opened KeyGroups
  import opened Sections
  import opened Weaving

  function Extent(s: Section): Span {
    Span(s.start, s.end)
  }

  // ---- Homogeneous blocks ----

  /** The groups of each qualifying block, block by block. */
  function QualifyingGroups(lines: seq<Line>, blocks: seq<Span>, u: Tables): (chunks: seq<seq<Span>>)
    ensures NoneEmpty(chunks)
  {
    if blocks == [] then []
    else
      var groups := KeyValueGroups(lines, blocks[0], u);
      var rest := QualifyingGroups(lines, blocks[1..], u);
      if groups == [] then rest else [groups] + rest
  }

  function Homogeneous(lines: seq<Line>, s: Span, u: Tables): Option<seq<Span>> {
    var chunks := QualifyingGroups(lines, BlocksOf(lines, s), u);
    if chunks == [] then None else Some(Weave(s.start, chunks, s.end))
  }

  lemma QualifyingStep(lines: seq<Line>, blocks: seq<Span>, u: Tables, i: nat)
    requires i < |blocks|
    ensures var groups, rest := KeyValueGroups(lines, blocks[i], u), QualifyingGroups(lines, blocks[i + 1..], u);
            QualifyingGroups(lines, blocks[i..], u) == if groups == [] then rest else [groups] + rest
  {
    hide KeyValueGroups;
    assert blocks[i..][0] == blocks[i] && blocks[i..][1..] == blocks[i + 1..];
  }

  /** One chunk more is woven in. */
  lemma WeaveStep(out: seq<Span>, cursor: nat, chunk: seq<Span>, rest: seq<seq<Span>>, end: nat)
    requires chunk != [] && NoneEmpty(rest)
    ensures NoneEmpty([chunk] + rest)
    ensures out + Weave(cursor, [chunk] + rest, end)
         == out + Before(cursor, chunk) + chunk + Weave(LastEnd(chunk), rest, end)
  {
    assert ([chunk] + rest)[0] == chunk && ([chunk] + rest)[1..] == rest;
  }

  method SplitHomogeneous(lines: seq<Line>, s: Span, u: Tables, ghost total: nat) returns (r: Option<seq<Span>>)
    requires Chain(lines, 0, total)
    ensures r == Homogeneous(lines, s, u)
  {
    hide KeyValueGroups, QualifyingGroups, Weave, Chain, BlocksOf, Qualifies;
    var out: seq<Span> := [];
    var cursor: nat := s.start;
    var found := false;
    var blocks := CutBlocks(lines, s, total);
    ghost var all := QualifyingGroups(lines, blocks, u);
    ghost var rest := all;
    assert blocks[0..] == blocks;
    for i := 0 to |blocks|
      invariant rest == QualifyingGroups(lines, blocks[i..], u)
      invariant out + Weave(cursor, rest, s.end) == Weave(s.start, all, s.end)
      invariant |rest| <= |all| && (found <==> |rest| < |all|)
    {
      QualifyingStep(lines, blocks, u, i);
      rest := QualifyingGroups(lines, blocks[i + 1..], u);
      var groups := FindGroups(lines, blocks[i], u);
      if |groups| == 0 {
        continue;
      }
      WeaveStep(out, cursor, groups, rest, s.end);
      found := true;
      if groups[0].start > cursor {
        out := out + [Span(cursor, groups[0].start)];
      }
      out := out + groups;
      cursor := groups[|groups| - 1].end;
    }
    QualifyingNone(lines, blocks[|blocks|..], u);
    WeaveNone(cursor, s.end);
    if !found {
      return None;
    }
    assert out + [] == out;
    if cursor < s.end {
      out := out + [Span(cursor, s.end)];
    }
    return Some(out);
  }

  lemma QualifyingNone(lines: seq<Line>, none: seq<Span>, u: Tables)
    requires none == []
    ensures QualifyingGroups(lines, none, u) == []
  {
  }

  // ---- Fence isolation ----

  /** Each fenced block as a chunk of its own. */
  function FencedChunks(lines: seq<Line>, blocks: seq<Span>): (chunks: seq<seq<Span>>)
    ensures NoneEmpty(chunks)
  {
    if blocks == [] then []
    else
      var rest := FencedChunks(lines, blocks[1..]);
      if Fenced(lines, blocks[0]) then [[blocks[0]]] + rest else rest
  }

  function FencedBytes(chunks: seq<seq<Span>>): int
    requires NoneEmpty(chunks)
  {
    if chunks == [] then 0 else chunks[0][0].end - chunks[0][0].start + FencedBytes(chunks[1..])
  }

  function Isolated(lines: seq<Line>, s: Span, b: Bounds): Option<seq<Span>> {
    var chunks := FencedChunks(lines, BlocksOf(lines, s));
    if chunks == [] || (s.end - s.start) - FencedBytes(chunks) < b.floor then None
    else Some(Weave(s.start, chunks, s.end))
  }

  method IsolateFenced(lines: seq<Line>, s: Span, b: Bounds, ghost total: nat) returns (r: Option<seq<Span>>)
    requires Chain(lines, 0, total)
    ensures r == Isolated(lines, s, b)
  {
    hide Fenced, FencedBytes, Weave, Chain;
    var fenced: seq<Span> := [];
    var blocks := CutBlocks(lines, s, total);
    assert blocks[0..] == blocks;
    for i := 0 to |blocks|
      invariant Singles(fenced) + FencedChunks(lines, blocks[i..]) == FencedChunks(lines, blocks)
    {
      assert blocks[i..][0] == blocks[i] && blocks[i..][1..] == blocks[i + 1..];
      var isFenced := BlockIsFenced(lines, blocks[i]);
      if isFenced {
        assert Singles(fenced + [blocks[i]]) == Singles(fenced) + [[blocks[i]]];
        fenced := fenced + [blocks[i]];
      }
    }
    assert blocks[|blocks|..] == [];
    assert Singles(fenced) == FencedChunks(lines, blocks);
    if |fenced| == 0 {
      return None;
    }
    var fencedBytes := SizeOf(fenced);
    if (s.end - s.start) - fencedBytes < b.floor {
      return None;
    }
    var out := WeaveSingles(fenced, s);
    return Some(out);
  }

  method SizeOf(fenced: seq<Span>) returns (bytes: int)
    ensures bytes == FencedBytes(Singles(fenced))
  {
    ghost var chunks := Singles(fenced);
    bytes := 0;
    assert chunks[0..] == chunks;
    for i := 0 to |fenced|
      invariant bytes + FencedBytes(chunks[i..]) == FencedBytes(chunks)
    {
      assert chunks[i..][0] == [fenced[i]] && chunks[i..][1..] == chunks[i + 1..];
      bytes := bytes + (fenced[i].end - fenced[i].start);
    }
    assert chunks[|fenced|..] == [];
  }

  function Singles(spans: seq<Span>): (chunks: seq<seq<Span>>)
    ensures |chunks| == |spans| && NoneEmpty(chunks)
    ensures forall k :: 0 <= k < |spans| ==> chunks[k] == [spans[k]]
  {
    seq(|spans|, k requires 0 <= k < |spans| => [spans[k]])
  }

  /** The isolation loop over the fenced blocks of a section. */
  method WeaveSingles(fenced: seq<Span>, s: Span) returns (out: seq<Span>)
    ensures out == Weave(s.start, Singles(fenced), s.end)
  {
    hide Weave;
    ghost var chunks := Singles(fenced);
    out := [];
    var cursor: nat := s.start;
    assert chunks[0..] == chunks;
    for i := 0 to |fenced|
      invariant out + Weave(cursor, chunks[i..], s.end) == Weave(s.start, chunks, s.end)
    {
      assert chunks[i..] == [[fenced[i]]] + chunks[i + 1..];
      WeaveStep(out, cursor, [fenced[i]], chunks[i + 1..], s.end);
      if fenced[i].start > cursor {
        out := out + [Span(cursor, fenced[i].start)];
      }
      out := out + [fenced[i]];
      cursor := fenced[i].end;
    }
    assert chunks[|fenced|..] == [];
    WeaveNone(cursor, s.end);
    assert out + [] == out;
    if cursor < s.end {
      out := out + [Span(cursor, s.end)];
    }
  }

  lemma WeaveNone(cursor: nat, end: nat)
    ensures Weave(cursor, [], end) == Rest(cursor, end)
  {
  }

  // ---- Size ----

  function Kept(cur: Span): seq<Span> {
    if NonEmpty(cur) then [cur] else []
  }

  function Join(out: seq<Span>, r: Outcome<seq<Span>>): Outcome<seq<Span>> {
    match r
    case Loops => Loops
    case Done(spans) => Done(out + spans)
  }

  /** The passage being grown is emitted before `blk` when `blk` would push it past the
      ceiling. */
  predicate Full(cur: Span, blk: Span, b: Bounds) {
    NonEmpty(cur) && (cur.end - cur.start) + (blk.end - blk.start) > b.ceiling
  }

  ghost predicate InText(content: Text, blocks: seq<Span>) {
    forall k :: 0 <= k < |blocks| ==> blocks[k].start <= blocks[k].end <= |content|
  }

  function SizeCuts(content: Text, lines: seq<Line>, blocks: seq<Span>, cur: Span, b: Bounds): Outcome<seq<Span>>
    requires InText(content, blocks)
    decreases |blocks|
  {
    if blocks == [] then Done(Kept(cur))
    else
      var blk := blocks[0];
      var pre := if Full(cur, blk, b) then [cur] else [];
      var open := if Full(cur, blk, b) then Span(blk.start, blk.start) else cur;
      if blk.end - blk.start > b.ceiling then
        match SplitOversized(content, lines, blk, b)
        case Loops => Loops
        case Done(pieces) =>
          Join(pre + Kept(open) + pieces, SizeCuts(content, lines, blocks[1..], Span(blk.end, blk.end), b))
      else Join(pre, SizeCuts(content, lines, blocks[1..], Span(open.start, blk.end), b))
  }

  function BySize(content: Text, lines: seq<Line>, s: Span, b: Bounds): Outcome<seq<Span>>
    requires InText(content, BlocksOf(lines, s))
  {
    match SizeCuts(content, lines, BlocksOf(lines, s), Span(s.start, s.start), b)
    case Loops => Loops
    case Done(out) => Done(if out == [] then [s] else out)
  }

  lemma JoinJoin(a: seq<Span>, b: seq<Span>, r: Outcome<seq<Span>>)
    ensures Join(a, Join(b, r)) == Join(a + b, r)
    ensures Join([], r) == r
  {
    if r.Done? {
      assert a + (b + r.value) == a + b + r.value;
      assert [] + r.value == r.value;
    }
  }

  /** What one block adds to the output, and the passage it leaves open. */
  lemma SizeStep(content: Text, lines: seq<Line>, blocks: seq<Span>, i: nat, out: seq<Span>, cur: Span, b: Bounds)
    requires i < |blocks| && InText(content, blocks)
    ensures var blk, now, rest := blocks[i], SizeCuts(content, lines, blocks[i..], cur, b), blocks[i + 1..];
            var pre := if Full(cur, blk, b) then [cur] else [];
            var open := if Full(cur, blk, b) then Span(blk.start, blk.start) else cur;
            var pieces := SplitOversized(content, lines, blk, b);
            if blk.end - blk.start <= b.ceiling then
              Join(out, now) == Join(out + pre, SizeCuts(content, lines, rest, Span(open.start, blk.end), b))
            else if pieces.Loops? then Join(out, now).Loops?
            else Join(out, now) == Join(out + pre + Kept(open) + pieces.value,
                                        SizeCuts(content, lines, rest, Span(blk.end, blk.end), b))
  {
    hide SplitOversized;
    var blk, rest := blocks[i], blocks[i + 1..];
    assert blocks[i..][0] == blk && blocks[i..][1..] == rest;
    var pre := if Full(cur, blk, b) then [cur] else [];
    var open := if Full(cur, blk, b) then Span(blk.start, blk.start) else cur;
    if blk.end - blk.start <= b.ceiling {
      JoinJoin(out, pre, SizeCuts(content, lines, rest, Span(open.start, blk.end), b));
    } else {
      var pieces := SplitOversized(content, lines, blk, b);
      if pieces.Done? {
        JoinJoin(out, pre + Kept(open) + pieces.value, SizeCuts(content, lines, rest, Span(blk.end, blk.end), b));
        assert out + (pre + Kept(open) + pieces.value) == out + pre + Kept(open) + pieces.value;
      }
    }
  }

  method SplitBySize(content: Text, lines: seq<Line>, s: Span, b: Bounds, ghost total: nat) returns (r: Outcome<seq<Span>>)
    requires Chain(lines, 0, total) && InText(content, BlocksOf(lines, s))
    ensures r == BySize(content, lines, s, b)
  {
    hide SplitOversized, SizeCuts, Join, Chain;
    var out: seq<Span> := [];
    var cur := Span(s.start, s.start);
    var blocks := CutBlocks(lines, s, total);
    assert blocks[0..] == blocks;
    JoinJoin([], [], SizeCuts(content, lines, blocks, cur, b));
    for i := 0 to |blocks|
      invariant Join(out, SizeCuts(content, lines, blocks[i..], cur, b))
             == SizeCuts(content, lines, blocks, Span(s.start, s.start), b)
    {
      var blk := blocks[i];
      SizeStep(content, lines, blocks, i, out, cur, b);
      assert out + [] == out;
      var size := blk.end - blk.start;
      if cur.end > cur.start && (cur.end - cur.start) + size > b.ceiling {
        out := out + [cur];
        cur := Span(blk.start, blk.start);
      }
      if size > b.ceiling {
        if cur.end > cur.start {
          out := out + [cur];
        }
        assert out + [] == out;
        var pieces := Split(content, lines, blk, b);
        if pieces.Loops? {
          return Loops;
        }
        out := out + pieces.value;
        cur := Span(blk.end, blk.end);
      } else {
        cur := Span(cur.start, blk.end);
      }
    }
    SizeEnd(content, lines, blocks[|blocks|..], out, cur, b);
    assert out + [] == out;
    JoinJoin([], [], SizeCuts(content, lines, blocks, Span(s.start, s.start), b));
    if cur.end > cur.start {
      out := out + [cur];
    }
    if |out| == 0 {
      return Done([s]);
    }
    return Done(out);
  }

  lemma SizeEnd(content: Text, lines: seq<Line>, none: seq<Span>, out: seq<Span>, cur: Span, b: Bounds)
    requires none == []
    ensures Join(out, SizeCuts(content, lines, none, cur, b)) == Done(out + Kept(cur))
  {
  }

  // ---- The three strategies in order ----

  function Subdivide(content: Text, lines: seq<Line>, s: Span, b: Bounds, u: Tables): Outcome<seq<Span>>
    requires InText(content, BlocksOf(lines, s))
  {
    var homogeneous := Homogeneous(lines, s, u);
    var isolated := Isolated(lines, s, b);
    if homogeneous.Some? then Done(homogeneous.value)
    else if isolated.Some? then Done(isolated.value)
    else if s.end - s.start <= b.ceiling then Done([s])
    else BySize(content, lines, s, b)
  }

  method SubdivideSection(content: Text, lines: seq<Line>, s: Span, b: Bounds, u: Tables, ghost total: nat)
    returns (r: Outcome<seq<Span>>)
    requires Chain(lines, 0, total) && InText(content, BlocksOf(lines, s))
    ensures r == Subdivide(content, lines, s, b, u)
  {
    hide Homogeneous, Isolated, BySize;
    var homogeneous := SplitHomogeneous(lines, s, u, total);
    if homogeneous.Some? {
      return Done(homogeneous.value);
    }
    var isolated := IsolateFenced(lines, s, b, total);
    if isolated.Some? {
      return Done(isolated.value);
    }
    if s.end - s.start <= b.ceiling {
      return Done([s]);
    }
    r := SplitBySize(content, lines, s, b, total);
  }
}
