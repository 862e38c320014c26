/** The passage splitter (handler/doc/splitter.go): content to passages, and what every
    caller may rely on. */
module Splitter {
  import opened Bytes
  import opened Utf8
  import opened Spans
  import opened Lines
  import opened Headings
  import opened Blocks
  import opened Cuts
  import opened Oversized
  import opened KeyGroups
  import opened Sections
  import opened Merging
  import opened Subdivision
  import opened Coverage
  import opened SizeLaws
  import opened Edges

  datatype Passage = Passage(ordinal: nat, heading: Text, path: seq<Text>, start: nat, end: nat, body: Text)

  // ---- The sections the splitter divides ----

  function DocumentSections(content: Text, b: Bounds, f: DocFormat): seq<Section> {
    Merge(SectionsOf(ScanLines(content), |content|, f), b)
  }

  ghost predicate AllLie(content: Text, lines: seq<Line>, ss: seq<Section>) {
    forall k :: 0 <= k < |ss| ==> Lies(content, lines, Extent(ss[k]))
  }

  lemma DocumentSectionsRun(content: Text, b: Bounds, f: DocFormat)
    requires content != []
    ensures CleanRun(ScanLines(content), DocumentSections(content, b, f), 0, |content|)
  {
    hide SectionsOf, Merge, CleanRun;
    ScanPartitions(content);
    SectionsPartition(ScanLines(content), |content|, f);
    MergeKeepsPartition(ScanLines(content), SectionsOf(ScanLines(content), |content|, f), |content|, b);
  }

  /** Every section is a non-empty range of whole lines. */
  lemma SectionsLie(content: Text, b: Bounds, f: DocFormat)
    requires content != []
    ensures AllLie(content, ScanLines(content), DocumentSections(content, b, f))
  {
    hide DocumentSections, ScanLines, Lies;
    var lines, ss := ScanLines(content), DocumentSections(content, b, f);
    DocumentSectionsRun(content, b, f);
    forall k | 0 <= k < |ss|
      ensures Lies(content, lines, Extent(ss[k]))
    {
      SectionLies(content, lines, ss, k);
    }
  }

  lemma SectionLies(content: Text, lines: seq<Line>, ss: seq<Section>, k: nat)
    requires lines == ScanLines(content) && CleanRun(lines, ss, 0, |content|) && k < |ss|
    ensures Lies(content, lines, Extent(ss[k]))
  {
    hide ScanLines;
    ScanPartitions(content);
    var lo: nat :| lo < |lines| && lines[lo].start == ss[k].start;
    var hi: nat;
    if k + 1 < |ss| {
      var next: nat :| next < |lines| && lines[next].start == ss[k + 1].start;
      hi := next;
      assert ss[k].end == ss[k + 1].start;
      StartsInOrder(lines, |content|, lo, hi);
      ChainBounds(lines, 0, |content|, hi);
      assert lines[hi - 1].end == lines[hi].start;
    } else {
      hi := |lines|;
    }
    assert OnLines(lines, Extent(ss[k]), lo, hi);
  }

  lemma StartsInOrder(lines: seq<Line>, total: nat, i: nat, j: nat)
    requires Chain(lines, 0, total) && i < |lines| && j < |lines| && lines[i].start < lines[j].start
    ensures i < j
  {
    ChainBounds(lines, 0, total, j);
    if j < i {
      ChainOrder(lines, 0, total, j, i);
    }
  }

  // ---- Passages ----

  ghost predicate InContent(content: Text, spans: seq<Span>) {
    forall k :: 0 <= k < |spans| ==> spans[k].start <= spans[k].end <= |content|
  }

  function SectionPassages(content: Text, s: Section, spans: seq<Span>, n: nat): seq<Passage>
    requires InContent(content, spans)
  {
    seq(|spans|, k requires 0 <= k < |spans| =>
      Passage(n + k, s.heading, s.path, spans[k].start, spans[k].end, content[spans[k].start..spans[k].end]))
  }

  lemma SubdivideInContent(content: Text, lines: seq<Line>, s: Span, b: Bounds, u: Tables)
    requires Lies(content, lines, s)
    ensures InText(content, BlocksOf(lines, s))
    ensures var r := Subdivide(content, lines, s, b, u);
            r.Done? ==> InContent(content, r.value)
  {
    hide Lies, BlocksOf, Subdivide;
    BlocksLie(content, lines, s);
    LiesFacts(content, lines, s);
    SubdivideCovers(content, lines, s, b, u);
  }

  /** Every section's blocks lie in the content. */
  ghost predicate AllInText(content: Text, lines: seq<Line>, ss: seq<Section>) {
    forall i :: 0 <= i < |ss| ==> InText(content, BlocksOf(lines, Extent(ss[i])))
  }

  lemma LieInText(content: Text, lines: seq<Line>, ss: seq<Section>, b: Bounds, u: Tables)
    requires AllLie(content, lines, ss)
    ensures AllInText(content, lines, ss)
  {
    hide Lies, BlocksOf;
    forall i | 0 <= i < |ss| ensures InText(content, BlocksOf(lines, Extent(ss[i]))) {
      SubdivideInContent(content, lines, Extent(ss[i]), b, u);
    }
  }

  function PassagesFrom(content: Text, lines: seq<Line>, ss: seq<Section>, n: nat, b: Bounds, u: Tables): Outcome<seq<Passage>>
    requires AllLie(content, lines, ss)
    decreases |ss|
  {
    if ss == [] then Done([])
    else
      SubdivideInContent(content, lines, Extent(ss[0]), b, u);
      match Subdivide(content, lines, Extent(ss[0]), b, u)
      case Loops => Loops
      case Done(spans) =>
        match PassagesFrom(content, lines, ss[1..], n + |spans|, b, u)
        case Loops => Loops
        case Done(rest) => Done(SectionPassages(content, ss[0], spans, n) + rest)
  }

  function Passages(content: Text, b: Bounds, f: DocFormat, u: Tables): Outcome<seq<Passage>> {
    if content == [] then Done([])
    else
      SectionsLie(content, b, f);
      PassagesFrom(content, ScanLines(content), DocumentSections(content, b, f), 0, b, u)
  }

  function AppendTo(out: seq<Passage>, r: Outcome<seq<Passage>>): Outcome<seq<Passage>> {
    match r
    case Loops => Loops
    case Done(ps) => Done(out + ps)
  }

  method SplitPassages(content: Text, b: Bounds, f: DocFormat, u: Tables) returns (r: Outcome<seq<Passage>>)
    ensures r == Passages(content, b, f, u)
  {
    hide SectionsOf, Merge, Subdivide, Lies, PassagesFrom, ScanLines;
    if |content| == 0 {
      return Done([]);
    }
    var lines := Scan(content);
    ScanPartitions(content);
    var sections := CutSections(lines, |content|, f);
    sections := MergeSmall(sections, b);
    SectionsLie(content, b, f);
    r := DivideSections(content, lines, sections, b, u);
  }

  /** The loop over the sections. */
  method DivideSections(content: Text, lines: seq<Line>, sections: seq<Section>, b: Bounds, u: Tables)
    returns (r: Outcome<seq<Passage>>)
    requires Chain(lines, 0, |content|) && AllLie(content, lines, sections)
    ensures r == PassagesFrom(content, lines, sections, 0, b, u)
  {
    hide Subdivide, Lies, Chain, BlocksOf;
    var out: seq<Passage> := [];
    assert sections[0..] == sections;
    AppendNothing(PassagesFrom(content, lines, sections, 0, b, u));
    for i := 0 to |sections|
      invariant AllLie(content, lines, sections[i..])
      invariant AppendTo(out, PassagesFrom(content, lines, sections[i..], |out|, b, u))
             == PassagesFrom(content, lines, sections, 0, b, u)
    {
      var s := sections[i];
      assert sections[i..][0] == s && sections[i..][1..] == sections[i + 1..];
      SubdivideInContent(content, lines, Extent(s), b, u);
      var spans := SubdivideSection(content, lines, Extent(s), b, u, |content|);
      if spans.Loops? {
        return Loops;
      }
      var section := PassagesOfSection(content, s, spans.value, |out|);
      AppendAppend(out, section, PassagesFrom(content, lines, sections[i + 1..], |out| + |section|, b, u));
      out := out + section;
    }
    assert sections[|sections|..] == [];
    assert out + [] == out;
    return Done(out);
  }

  method PassagesOfSection(content: Text, s: Section, spans: seq<Span>, n: nat) returns (out: seq<Passage>)
    requires InContent(content, spans)
    ensures out == SectionPassages(content, s, spans, n)
  {
    out := [];
    for k := 0 to |spans|
      invariant out == SectionPassages(content, s, spans[..k], n)
    {
      var span := spans[k];
      out := out + [Passage(n + |out|, s.heading, s.path, span.start, span.end, content[span.start..span.end])];
    }
    assert spans[..|spans|] == spans;
  }

  lemma AppendNothing(r: Outcome<seq<Passage>>)
    ensures AppendTo([], r) == r
  {
    if r.Done? {
      assert [] + r.value == r.value;
    }
  }

  lemma AppendAppend(x: seq<Passage>, y: seq<Passage>, r: Outcome<seq<Passage>>)
    ensures AppendTo(x + y, r) == match r case Loops => Loops case Done(ps) => Done(x + (y + ps))
  {
    if r.Done? {
      assert x + y + r.value == x + (y + r.value);
    }
  }

  // ---- Where each passage comes from ----

  function PassageSpans(ps: seq<Passage>): seq<Span> {
    seq(|ps|, k requires 0 <= k < |ps| => Span(ps[k].start, ps[k].end))
  }

  /** Passage `p` is span `j` of section `i`, under that section's heading and path. */
  ghost predicate ComesFrom(content: Text, lines: seq<Line>, s: Section, b: Bounds, u: Tables, p: Passage, j: nat)
    requires Lies(content, lines, Extent(s)) && InText(content, BlocksOf(lines, Extent(s)))
  {
    var r := Subdivide(content, lines, Extent(s), b, u);
    && r.Done? && j < |r.value|
    && Span(p.start, p.end) == r.value[j]
    && p.heading == s.heading && p.path == s.path
    && p.start <= p.end <= |content| && p.body == content[p.start..p.end]
  }

  lemma {:induction false} PassageOrigin(content: Text, lines: seq<Line>, ss: seq<Section>, n: nat, b: Bounds, u: Tables, k: nat)
    returns (i: nat, j: nat)
    requires AllLie(content, lines, ss)
    requires var r := PassagesFrom(content, lines, ss, n, b, u); r.Done? && k < |r.value|
    ensures i < |ss| && InText(content, BlocksOf(lines, Extent(ss[i])))
    ensures PassagesFrom(content, lines, ss, n, b, u).value[k].ordinal == n + k
    ensures ComesFrom(content, lines, ss[i], b, u, PassagesFrom(content, lines, ss, n, b, u).value[k], j)
    decreases |ss|
  {
    hide Lies, Subdivide, BlocksOf;
    SubdivideInContent(content, lines, Extent(ss[0]), b, u);
    var spans := Subdivide(content, lines, Extent(ss[0]), b, u).value;
    if k < |spans| {
      i, j := 0, k;
    } else {
      var i', j' := PassageOrigin(content, lines, ss[1..], n + |spans|, b, u, k - |spans|);
      assert ss[1..][i'] == ss[i' + 1];
      i, j := i' + 1, j';
    }
  }

  // ---- Coverage ----

  /** Position `p` is in a gap line of a key/value block. */
  ghost predicate Lost(lines: seq<Line>, ss: seq<Section>, u: Tables, p: nat) {
    exists i :: 0 <= i < |ss| && MissingIn(lines, BlocksOf(lines, Extent(ss[i])), u, p)
  }

  /** The gap lines of a block lie inside the block. */
  lemma MissingWithin(content: Text, lines: seq<Line>, s: Span, u: Tables, p: nat)
    requires Lies(content, lines, s) && MissingIn(lines, BlocksOf(lines, s), u, p)
    ensures s.start <= p < s.end
  {
    hide Lies, BlocksOf, MissingFrom;
    BlocksLie(content, lines, s);
    var blocks := BlocksOf(lines, s);
    var j :| 0 <= j < |blocks| && MissingFrom(lines, blocks[j], u, p);
    BlockInside(blocks, s.start, s.end, j);
    MissingInBlock(lines, |content|, blocks[j], u, p);
  }

  lemma MissingInBlock(lines: seq<Line>, total: nat, blk: Span, u: Tables, p: nat)
    requires Chain(lines, 0, total) && MissingFrom(lines, blk, u, p)
    ensures blk.start <= p < blk.end
  {
    hide Qualifies, Items, Runs, Chain;
    var i: nat :| GapLine(lines, blk, u, i) && InLine(lines, i, p);
    var items := Items(lines, blk, u, |lines|);
    var k: nat :| GapAt(items, k, i);
    GroupLines(lines, blk, u, k);
    GroupLines(lines, blk, u, k + 1);
    ChainOrder(lines, 0, total, LastLine(items, k), i);
    ChainBounds(lines, 0, total, LastLine(items, k));
    ChainOrder(lines, 0, total, i, FirstLine(items, k + 1));
    ChainBounds(lines, 0, total, FirstLine(items, k + 1));
  }

  /** The sections partition [lo, hi), as spans. */
  ghost predicate Adjoining(ss: seq<Section>, lo: nat, hi: nat)
    decreases |ss|
  {
    if ss == [] then lo == hi
    else ss[0].start == lo && lo < ss[0].end && Adjoining(ss[1..], ss[0].end, hi)
  }

  lemma {:induction false} RunAdjoins(ss: seq<Section>, lo: nat, hi: nat)
    requires Consecutive(ss, lo, hi)
    ensures Adjoining(ss, lo, hi)
    decreases |ss|
  {
    if ss != [] {
      var rest := ss[1..];
      assert rest != [] ==> ss[0].end == ss[1].start;
      RunAdjoins(rest, ss[0].end, hi);
    }
  }

  lemma {:induction false} AdjoiningBounds(ss: seq<Section>, lo: nat, hi: nat, i: nat)
    requires Adjoining(ss, lo, hi) && i < |ss|
    ensures lo <= ss[i].start && ss[i].end <= hi
    decreases |ss|
  {
    AdjoiningLow(ss[1..], ss[0].end, hi);
    if i > 0 {
      AdjoiningBounds(ss[1..], ss[0].end, hi, i - 1);
      assert ss[1..][i - 1] == ss[i];
    }
  }

  lemma {:induction false} AdjoiningLow(ss: seq<Section>, lo: nat, hi: nat)
    requires Adjoining(ss, lo, hi)
    ensures lo <= hi
    decreases |ss|
  {
    if ss != [] {
      AdjoiningLow(ss[1..], ss[0].end, hi);
    }
  }

  /** Whether `p` is lost is decided by the section that holds it. */
  lemma LostSplit(content: Text, lines: seq<Line>, ss: seq<Section>, lo: nat, hi: nat, u: Tables, p: nat)
    requires ss != [] && Adjoining(ss, lo, hi) && AllLie(content, lines, ss)
    ensures p < ss[0].end ==> (Lost(lines, ss, u, p) <==> MissingIn(lines, BlocksOf(lines, Extent(ss[0])), u, p))
    ensures p >= ss[0].end ==> (Lost(lines, ss, u, p) <==> Lost(lines, ss[1..], u, p))
  {
    hide Lies, BlocksOf, MissingIn;
    var rest := ss[1..];
    if Lost(lines, ss, u, p) {
      var i :| 0 <= i < |ss| && MissingIn(lines, BlocksOf(lines, Extent(ss[i])), u, p);
      MissingWithin(content, lines, Extent(ss[i]), u, p);
      if i > 0 {
        assert rest[i - 1] == ss[i];
        AdjoiningBounds(rest, ss[0].end, hi, i - 1);
      }
    }
    if Lost(lines, rest, u, p) {
      var i :| 0 <= i < |rest| && MissingIn(lines, BlocksOf(lines, Extent(rest[i])), u, p);
      assert ss[i + 1] == rest[i];
    }
  }

  /** The spans lie in order over [lo, hi) and cover exactly what is not lost. */
  ghost predicate CoversAllBut(lines: seq<Line>, ss: seq<Section>, u: Tables, spans: seq<Span>, lo: nat, hi: nat) {
    && Ordered(spans, lo, hi)
    && forall p :: lo <= p < hi ==> (Covered(spans, p) <==> !Lost(lines, ss, u, p))
  }

  lemma {:induction false} PassagesFromCover(content: Text, lines: seq<Line>, ss: seq<Section>, n: nat,
                                             lo: nat, hi: nat, b: Bounds, u: Tables)
    requires AllLie(content, lines, ss) && Adjoining(ss, lo, hi)
    ensures var r := PassagesFrom(content, lines, ss, n, b, u);
            r.Done? ==> CoversAllBut(lines, ss, u, PassageSpans(r.value), lo, hi)
    decreases |ss|
  {
    hide Lies, Subdivide, BlocksOf, CoversBut, CoversAllBut, Ordered;
    if ss == [] {
      NothingCovers(lines, u, lo);
    } else if PassagesFrom(content, lines, ss, n, b, u).Done? {
      var s := Extent(ss[0]);
      SubdivideInContent(content, lines, s, b, u);
      SubdivideCovers(content, lines, s, b, u);
      var spans := Subdivide(content, lines, s, b, u).value;
      PassagesFromCover(content, lines, ss[1..], n + |spans|, s.end, hi, b, u);
      var rest := PassagesFrom(content, lines, ss[1..], n + |spans|, b, u).value;
      assert PassageSpans(SectionPassages(content, ss[0], spans, n) + rest) == spans + PassageSpans(rest);
      CoversJoin(content, lines, ss, lo, hi, u, spans, PassageSpans(rest));
    }
  }

  lemma NothingCovers(lines: seq<Line>, u: Tables, lo: nat)
    ensures CoversAllBut(lines, [], u, PassageSpans([]), lo, lo)
  {
  }

  lemma CoversJoin(content: Text, lines: seq<Line>, ss: seq<Section>, lo: nat, hi: nat, u: Tables, x: seq<Span>, y: seq<Span>)
    requires ss != [] && Adjoining(ss, lo, hi) && AllLie(content, lines, ss)
    requires CoversBut(lines, x, Extent(ss[0]), u) && CoversAllBut(lines, ss[1..], u, y, ss[0].end, hi)
    ensures CoversAllBut(lines, ss, u, x + y, lo, hi)
  {
    hide Lies, BlocksOf, Covered, Lost, MissingIn, Ordered;
    var mid := ss[0].end;
    OrderedConcat(x, lo, mid, y, hi);
    forall p | lo <= p < hi
      ensures Covered(x + y, p) <==> !Lost(lines, ss, u, p)
    {
      CoveredConcat(x, y, p);
      LostSplit(content, lines, ss, lo, hi, u, p);
      if p < mid {
        Weaving.NotCoveredBefore(y, mid, hi, p);
      } else {
        Weaving.NotCoveredAfter(x, lo, mid, p);
      }
    }
  }

  // ---- The laws ----

  /** Passages are numbered 0, 1, 2, ...; each carries exactly its bytes, and the heading and
      path of the section it came from. */
  lemma PassagesAreSlices(content: Text, b: Bounds, f: DocFormat, u: Tables, k: nat) returns (i: nat)
    requires Passages(content, b, f, u).Done? && k < |Passages(content, b, f, u).value|
    ensures var p, ss := Passages(content, b, f, u).value[k], DocumentSections(content, b, f);
            && p.ordinal == k
            && p.start <= p.end <= |content| && p.body == content[p.start..p.end]
            && i < |ss| && p.heading == ss[i].heading && p.path == ss[i].path
  {
    hide PassagesFrom, DocumentSections, ScanLines, Lies, BlocksOf, Subdivide;
    SectionsLie(content, b, f);
    var j;
    i, j := PassageOrigin(content, ScanLines(content), DocumentSections(content, b, f), 0, b, u, k);
  }

  /** The passages of any document lie in order, are non-empty and disjoint, and the only
      bytes in none of them are the gap lines of its key/value blocks. */
  lemma PassagesCoverExactly(content: Text, b: Bounds, f: DocFormat, u: Tables)
    requires Passages(content, b, f, u).Done?
    ensures CoversAllBut(ScanLines(content), DocumentSections(content, b, f), u,
                         PassageSpans(Passages(content, b, f, u).value), 0, |content|)
  {
    hide PassagesFrom, DocumentSections, ScanLines, Lies, Lost;
    if content == [] {
      assert PassageSpans([]) == [];
    } else {
      SectionsLie(content, b, f);
      DocumentSectionsRun(content, b, f);
      RunAdjoins(DocumentSections(content, b, f), 0, |content|);
      PassagesFromCover(content, ScanLines(content), DocumentSections(content, b, f), 0, 0, |content|, b, u);
    }
  }

  function Concatenated(ps: seq<Passage>): Text {
    if ps == [] then [] else ps[0].body + Concatenated(ps[1..])
  }

  lemma {:induction false} ConcatenatedBodies(content: Text, ps: seq<Passage>)
    requires forall k :: 0 <= k < |ps| ==>
      ps[k].start <= ps[k].end <= |content| && ps[k].body == content[ps[k].start..ps[k].end]
    ensures Concatenated(ps) == Bodies(content, PassageSpans(ps))
    decreases |ps|
  {
    if ps != [] {
      ConcatenatedBodies(content, ps[1..]);
      assert PassageSpans(ps)[1..] == PassageSpans(ps[1..]);
    }
  }

  lemma {:induction false} FullCoverTiles(spans: seq<Span>, lo: nat, hi: nat)
    requires Ordered(spans, lo, hi) && forall p :: lo <= p < hi ==> Covered(spans, p)
    ensures Tiles(spans, lo, hi)
    decreases |spans|
  {
    if spans == [] {
      assert !Covered(spans, lo);
    } else {
      OrderedTail(spans, lo, hi);
      var rest := spans[1..];
      assert spans == [spans[0]] + rest;
      forall p | spans[0].end <= p < hi
        ensures Covered(rest, p)
      {
        CoveredConcat([spans[0]], rest, p);
        assert Covered(spans, p);
      }
      FullCoverTiles(rest, spans[0].end, hi);
      TilesCons(spans[0], rest, hi);
      StartsAtLow(spans, lo, hi);
    }
  }

  lemma StartsAtLow(spans: seq<Span>, lo: nat, hi: nat)
    requires spans != [] && Ordered(spans, lo, hi) && forall p :: lo <= p < hi ==> Covered(spans, p)
    ensures spans[0].start == lo
  {
    assert Covered(spans, lo);
    var k :| 0 <= k < |spans| && spans[k].start <= lo < spans[k].end;
  }

  /** Concatenating every body in order reproduces the document exactly when no key/value
      block has a gap line. */
  lemma ReproducesUnlessLost(content: Text, b: Bounds, f: DocFormat, u: Tables)
    requires Passages(content, b, f, u).Done?
    ensures var ps := Passages(content, b, f, u).value;
            Concatenated(ps) == content <==>
              forall p :: 0 <= p < |content| ==> !Lost(ScanLines(content), DocumentSections(content, b, f), u, p)
  {
    hide Passages, DocumentSections, ScanLines, Lost, Covered;
    var ps, lines, ss := Passages(content, b, f, u).value, ScanLines(content), DocumentSections(content, b, f);
    var spans := PassageSpans(ps);
    PassagesCoverExactly(content, b, f, u);
    forall k | 0 <= k < |ps|
      ensures ps[k].start <= ps[k].end <= |content| && ps[k].body == content[ps[k].start..ps[k].end]
    {
      var i := PassagesAreSlices(content, b, f, u, k);
    }
    ConcatenatedBodies(content, ps);
    BodiesMeasure(content, spans, 0, |content|);
    if forall p :: 0 <= p < |content| ==> !Lost(lines, ss, u, p) {
      FullCoverTiles(spans, 0, |content|);
      BodiesOfTiles(content, spans, 0, |content|);
      assert content[0..|content|] == content;
    }
    if Concatenated(ps) == content {
      forall p | 0 <= p < |content|
        ensures !Lost(lines, ss, u, p)
      {
        TilesCover(spans, 0, |content|, p);
      }
    }
  }

  /** In a section with no protected line no passage is over the hard maximum, and one over
      the ceiling lies within one paragraph block. */
  lemma UnprotectedPassagesSized(content: Text, b: Bounds, f: DocFormat, u: Tables, k: nat)
    requires b.ceiling <= b.hardMax
    requires Passages(content, b, f, u).Done? && k < |Passages(content, b, f, u).value|
    ensures exists i :: 0 <= i < |DocumentSections(content, b, f)|
              && SizedWithin(ScanLines(content), Extent(DocumentSections(content, b, f)[i]), b, Passages(content, b, f, u).value[k])
  {
    hide PassagesFrom, DocumentSections, ScanLines, Lies, BlocksOf, Subdivide, Unprotected, Sized;
    SectionsLie(content, b, f);
    var lines, ss := ScanLines(content), DocumentSections(content, b, f);
    var p := Passages(content, b, f, u).value[k];
    var i, j := PassageOrigin(content, lines, ss, 0, b, u, k);
    SubdivideCovers(content, lines, Extent(ss[i]), b, u);
    if Unprotected(lines, Extent(ss[i])) {
      UnprotectedSized(content, lines, Extent(ss[i]), b, u, j);
    }
    assert SizedWithin(lines, Extent(ss[i]), b, p);
  }

  /** The passage lies in section `s`; unless the section holds a protected line, it is within
      the hard maximum, and within one block when it is over the ceiling. */
  ghost predicate SizedWithin(lines: seq<Line>, s: Span, b: Bounds, p: Passage) {
    && s.start <= p.start < p.end <= s.end
    && (Unprotected(lines, s) ==>
          && p.end - p.start <= b.hardMax
          && (p.end - p.start > b.ceiling ==> InsideOne(BlocksOf(lines, s), Span(p.start, p.end))))
  }

  /** No character is ever cut: the passages of a well-formed document are well-formed. */
  lemma PassagesKeepCharacters(content: Text, b: Bounds, f: DocFormat, u: Tables, k: nat)
    requires WellFormed(content)
    requires Passages(content, b, f, u).Done? && k < |Passages(content, b, f, u).value|
    ensures WellFormed(Passages(content, b, f, u).value[k].body)
  {
    hide PassagesFrom, DocumentSections, ScanLines, Lies, BlocksOf, Subdivide, WellFormed, Boundary;
    SectionsLie(content, b, f);
    var lines, ss := ScanLines(content), DocumentSections(content, b, f);
    var p := Passages(content, b, f, u).value[k];
    var i, j := PassageOrigin(content, lines, ss, 0, b, u, k);
    SubdivideEdges(content, lines, Extent(ss[i]), b, u);
    SliceWellFormed(content, p.start, p.end);
  }

  /** A passage begins or ends strictly inside a run of protected lines only within a block
      that is a key/value list or is over the hard maximum. */
  lemma FencesStayWhole(content: Text, b: Bounds, f: DocFormat, u: Tables, k: nat, a: nat, c: nat, q: nat)
    returns (i: nat, j: nat)
    requires Passages(content, b, f, u).Done? && k < |Passages(content, b, f, u).value|
    requires var p := Passages(content, b, f, u).value[k]; q == p.start || q == p.end
    requires InsideFence(ScanLines(content), a, c, q)
    ensures i < |DocumentSections(content, b, f)|
    ensures j < |BlocksOf(ScanLines(content), Extent(DocumentSections(content, b, f)[i]))|
    ensures var lines := ScanLines(content);
            var blk := BlocksOf(lines, Extent(DocumentSections(content, b, f)[i]))[j];
            blk.start < q < blk.end && (Qualifies(lines, blk, u) || blk.end - blk.start > b.hardMax)
  {
    hide PassagesFrom, DocumentSections, ScanLines, Lies, BlocksOf, Subdivide, Qualifies, GoodEdge, InsideFence, CleanRun;
    SectionsLie(content, b, f);
    DocumentSectionsRun(content, b, f);
    var lines, ss := ScanLines(content), DocumentSections(content, b, f);
    var span;
    i, span := PassageOrigin(content, lines, ss, 0, b, u, k);
    var s := Extent(ss[i]);
    SubdivideCovers(content, lines, s, b, u);
    SubdivideEdges(content, lines, s, b, u);
    SectionEdgeNotInFence(content, lines, ss, a, c, q, i);
    j := FenceCutOnlyWhere(content, lines, s, b, u, a, c, q);
  }

  /** Sections meet at unprotected lines, so never strictly inside a fence. */
  lemma SectionEdgeNotInFence(content: Text, lines: seq<Line>, ss: seq<Section>, a: nat, c: nat, q: nat, i: nat)
    requires lines == ScanLines(content) && CleanRun(lines, ss, 0, |content|) && i < |ss|
    requires InsideFence(lines, a, c, q)
    ensures q != ss[i].start && q != ss[i].end
  {
    hide ScanLines;
    ScanPartitions(content);
    StartNotInFence(lines, |content|, a, c, ss[i].start);
    ChainBounds(lines, 0, |content|, c);
    if i + 1 < |ss| {
      assert ss[i].end == ss[i + 1].start;
      StartNotInFence(lines, |content|, a, c, ss[i + 1].start);
    }
  }

  lemma StartNotInFence(lines: seq<Line>, total: nat, a: nat, c: nat, p: nat)
    requires Chain(lines, 0, total) && CleanStart(lines, p)
    requires a <= c < |lines| && forall j :: a <= j <= c ==> lines[j].isProtected
    ensures !(lines[a].start < p < lines[c].end)
  {
    var i :| 0 <= i < |lines| && lines[i].start == p && (i == 0 || !lines[i].isProtected);
    ChainBounds(lines, 0, total, i);
    ChainBounds(lines, 0, total, a);
    if i < a {
      ChainOrder(lines, 0, total, i, a);
    } else if c < i {
      ChainOrder(lines, 0, total, c, i);
    }
  }
}
