/** Sections and their headings (handler/doc/splitter.go): every heading line opens a section,
    and its path is the outline of the headings still open there. */
module Outline {
  import opened Bytes
  import opened Lines
  import opened Headings
  import opened Sections

  /** The headings open at line `i`, itself included: of those up to it, the ones with only
      deeper headings after them. */
  ghost predicate OpenLine(lines: seq<Line>, f: DocFormat, i: nat, j: nat) {
    && j <= i < |lines| && HeadingAt(lines, j, f).Some?
    && forall k :: j < k <= i && HeadingAt(lines, k, f).Some? ==>
         HeadingAt(lines, j, f).value.level < HeadingAt(lines, k, f).value.level
  }

  ghost predicate Rising(idx: seq<nat>) {
    forall a, b :: 0 <= a < b < |idx| ==> idx[a] < idx[b]
  }

  /** `idx` lists the lines of the headings open at line `i`, and `path` their texts. */
  ghost predicate Outlines(lines: seq<Line>, f: DocFormat, i: nat, idx: seq<nat>, path: seq<Text>) {
    && Rising(idx) && |idx| == |path|
    && (forall j: nat :: j in idx <==> OpenLine(lines, f, i, j))
    && forall a :: 0 <= a < |idx| ==> idx[a] < |lines| && HeadingAt(lines, idx[a], f).Some?
                                      && path[a] == HeadingAt(lines, idx[a], f).value.text
  }

  ghost predicate IsMark(lines: seq<Line>, f: DocFormat, m: Mark) {
    && m.lineIdx < |lines|
    && HeadingAt(lines, m.lineIdx, f) == Some(Heading(m.heading, m.level))
  }

  lemma {:induction false} MarksAre(lines: seq<Line>, f: DocFormat, n: nat)
    requires n <= |lines|
    ensures forall k :: 0 <= k < |Marks(lines, f, n)| ==> IsMark(lines, f, Marks(lines, f, n)[k])
  {
    hide HeadingAt;
    if n > 0 {
      MarksAre(lines, f, n - 1);
    }
  }

  lemma {:induction false} MarkOf(lines: seq<Line>, f: DocFormat, n: nat, i: nat) returns (m: nat)
    requires i < n <= |lines| && HeadingAt(lines, i, f).Some?
    ensures m < |Marks(lines, f, n)| && Marks(lines, f, n)[m].lineIdx == i
  {
    hide HeadingAt;
    if i == n - 1 {
      m := |Marks(lines, f, n)| - 1;
    } else {
      m := MarkOf(lines, f, n - 1, i);
    }
  }

  /** `ms` lists the marks before `n` that are open at `i`. */
  ghost predicate Lists(marks: seq<Mark>, i: nat, n: nat, ms: seq<nat>)
    requires i < |marks| && n <= i + 1
  {
    && Rising(ms) && |ms| == |OpenBefore(marks, i, n)|
    && (forall m: nat :: m in ms <==> m < n && Open(marks, m, i))
    && forall a :: 0 <= a < |ms| ==> ms[a] < n && OpenBefore(marks, i, n)[a] == marks[ms[a]]
  }

  lemma ListsOneMore(marks: seq<Mark>, i: nat, n: nat, ms: seq<nat>)
    requires i < |marks| && n <= i && Lists(marks, i, n, ms) && Open(marks, n, i)
    ensures Lists(marks, i, n + 1, ms + [n])
  {
    hide Open, Rising;
    RisingSnoc(ms, n);
  }

  lemma ListsSkips(marks: seq<Mark>, i: nat, n: nat, ms: seq<nat>)
    requires i < |marks| && n <= i && Lists(marks, i, n, ms) && !Open(marks, n, i)
    ensures Lists(marks, i, n + 1, ms)
  {
    hide Open, Rising;
  }

  lemma {:induction false} OpenIndices(marks: seq<Mark>, i: nat, n: nat) returns (ms: seq<nat>)
    requires i < |marks| && n <= i + 1
    ensures Lists(marks, i, n, ms)
  {
    hide Open, Lists;
    if n == 0 {
      ms := [];
      ListsNone(marks, i);
    } else {
      ms := OpenIndices(marks, i, n - 1);
      if Open(marks, n - 1, i) {
        ListsOneMore(marks, i, n - 1, ms);
        ms := ms + [n - 1];
      } else {
        ListsSkips(marks, i, n - 1, ms);
      }
    }
  }

  lemma ListsNone(marks: seq<Mark>, i: nat)
    requires i < |marks|
    ensures Lists(marks, i, 0, [])
  {
    RisingNone();
  }

  lemma RisingNone()
    ensures Rising([])
  {
  }

  lemma RisingSnoc(ms: seq<nat>, m: nat)
    requires Rising(ms) && forall a :: 0 <= a < |ms| ==> ms[a] < m
    ensures Rising(ms + [m])
  {
  }

  lemma LineOrder(lines: seq<Line>, f: DocFormat, x: nat, y: nat)
    requires x < |Marks(lines, f, |lines|)| && y < |Marks(lines, f, |lines|)|
    ensures Marks(lines, f, |lines|)[x].lineIdx < Marks(lines, f, |lines|)[y].lineIdx <==> x < y
  {
    hide Marks, HeadingAt;
  }

  /** A mark is open exactly when its line is. */
  lemma OpenMarkIsOpenLine(lines: seq<Line>, f: DocFormat, m: nat, i: nat)
    requires var marks := Marks(lines, f, |lines|); m <= i < |marks|
    ensures var marks := Marks(lines, f, |lines|);
            Open(marks, m, i) <==> OpenLine(lines, f, marks[i].lineIdx, marks[m].lineIdx)
  {
    hide HeadingAt, Marks;
    var marks := Marks(lines, f, |lines|);
    MarksAre(lines, f, |lines|);
    assert IsMark(lines, f, marks[m]);
    if Open(marks, m, i) {
      forall k | marks[m].lineIdx < k <= marks[i].lineIdx && HeadingAt(lines, k, f).Some?
        ensures marks[m].level < HeadingAt(lines, k, f).value.level
      {
        var x := MarkOf(lines, f, |lines|, k);
        assert IsMark(lines, f, marks[x]);
        LineOrder(lines, f, m, x);
        LineOrder(lines, f, i, x);
      }
    }
    if OpenLine(lines, f, marks[i].lineIdx, marks[m].lineIdx) {
      forall k | m < k <= i ensures marks[m].level < marks[k].level {
        assert IsMark(lines, f, marks[k]) && marks[m].lineIdx < marks[k].lineIdx;
        assert k < i ==> marks[k].lineIdx < marks[i].lineIdx;
      }
    }
  }

  /** The marks open at `i`, itself last. */
  lemma PathIndices(marks: seq<Mark>, i: nat) returns (ms: seq<nat>)
    requires i < |marks|
    ensures Rising(ms) && |ms| == |HeadingPath(marks, i)|
    ensures forall m: nat :: m in ms <==> m <= i && Open(marks, m, i)
    ensures forall a :: 0 <= a < |ms| ==> ms[a] <= i && HeadingPath(marks, i)[a] == marks[ms[a]].heading
  {
    hide Open;
    ms := OpenIndices(marks, i, i);
    ms := ms + [i];
    OpenSelf(marks, i);
  }

  lemma LinesRise(lines: seq<Line>, f: DocFormat, ms: seq<nat>, idx: seq<nat>)
    requires Rising(ms) && |idx| == |ms|
    requires forall a :: 0 <= a < |ms| ==> ms[a] < |Marks(lines, f, |lines|)| && idx[a] == Marks(lines, f, |lines|)[ms[a]].lineIdx
    ensures Rising(idx)
  {
    hide Marks, HeadingAt;
  }

  lemma PathOutlines(lines: seq<Line>, f: DocFormat, i: nat) returns (idx: seq<nat>)
    requires i < |Marks(lines, f, |lines|)|
    ensures var marks := Marks(lines, f, |lines|);
            Outlines(lines, f, marks[i].lineIdx, idx, HeadingPath(marks, i))
  {
    hide HeadingAt, Marks, Open, OpenLine, HeadingPath, Rising;
    var marks := Marks(lines, f, |lines|);
    MarksAre(lines, f, |lines|);
    var ms := PathIndices(marks, i);
    idx := seq(|ms|, a requires 0 <= a < |ms| => marks[ms[a]].lineIdx);
    LinesRise(lines, f, ms, idx);
    forall a | 0 <= a < |ms| ensures IsMark(lines, f, marks[ms[a]]) {
    }
    forall j: nat ensures j in idx <==> OpenLine(lines, f, marks[i].lineIdx, j) {
      if j in idx {
        var a :| 0 <= a < |ms| && idx[a] == j;
        assert ms[a] in ms;
        OpenMarkIsOpenLine(lines, f, ms[a], i);
      }
      if OpenLine(lines, f, marks[i].lineIdx, j) {
        var m := OpenLineHasMark(lines, f, i, j);
        OpenMarkIsOpenLine(lines, f, m, i);
        var a :| 0 <= a < |ms| && ms[a] == m;
        assert idx[a] == j;
      }
    }
  }

  lemma OpenSelf(marks: seq<Mark>, i: nat)
    requires i < |marks|
    ensures Open(marks, i, i)
  {
  }

  lemma OpenLineHasMark(lines: seq<Line>, f: DocFormat, i: nat, j: nat) returns (m: nat)
    requires i < |Marks(lines, f, |lines|)| && OpenLine(lines, f, Marks(lines, f, |lines|)[i].lineIdx, j)
    ensures m <= i && Marks(lines, f, |lines|)[m].lineIdx == j
  {
    hide HeadingAt, Marks;
    m := MarkOf(lines, f, |lines|, j);
    LineOrder(lines, f, i, m);
  }

  /** Every heading line opens a section under its own text, whose path outlines the headings
      open there. */
  lemma HeadingOpensSection(lines: seq<Line>, total: nat, f: DocFormat, i: nat) returns (k: nat, idx: seq<nat>)
    requires Chain(lines, 0, total) && i < |lines| && HeadingAt(lines, i, f).Some?
    ensures k < |SectionsOf(lines, total, f)|
    ensures var s := SectionsOf(lines, total, f)[k];
            && s.start == lines[i].start && s.heading == HeadingAt(lines, i, f).value.text
            && Outlines(lines, f, i, idx, s.path)
  {
    hide HeadingAt, Marks, HeadingPath, Outlines, Chain;
    var m := MarkOf(lines, f, |lines|, i);
    var marks := Marks(lines, f, |lines|);
    MarksAre(lines, f, |lines|);
    assert IsMark(lines, f, marks[m]);
    idx := PathOutlines(lines, f, m);
    k := |Preamble(lines, marks)| + m;
  }

  /** And every section is opened by one, but for the text before the first heading, which
      has no heading and no path. */
  lemma SectionHasHeading(lines: seq<Line>, total: nat, f: DocFormat, k: nat) returns (i: nat)
    requires Chain(lines, 0, total) && k < |SectionsOf(lines, total, f)|
    ensures var s := SectionsOf(lines, total, f)[k];
            if i < |lines| && HeadingAt(lines, i, f).Some? then
              s.start == lines[i].start && s.heading == HeadingAt(lines, i, f).value.text
            else
              && k == 0 && s.heading == [] && s.path == [] && s.start == 0
              && forall j :: 0 <= j < |lines| && HeadingAt(lines, j, f).Some? ==> s.end <= lines[j].start
  {
    hide HeadingAt, Marks, HeadingPath, Chain;
    var marks := Marks(lines, f, |lines|);
    MarksAre(lines, f, |lines|);
    var n := if marks == [] then 1 else |Preamble(lines, marks)|;
    if k < n {
      i := |lines|;
      forall j | 0 <= j < |lines| && HeadingAt(lines, j, f).Some?
        ensures SectionsOf(lines, total, f)[k].end <= lines[j].start
      {
        var m := MarkOf(lines, f, |lines|, j);
        StartsRise(lines, total, marks[0].lineIdx, marks[m].lineIdx);
      }
    } else {
      assert IsMark(lines, f, marks[k - n]);
      i := marks[k - n].lineIdx;
    }
  }

  lemma StartsRise(lines: seq<Line>, total: nat, i: nat, j: nat)
    requires Chain(lines, 0, total) && i <= j < |lines|
    ensures lines[i].start <= lines[j].start
  {
    if i < j {
      ChainBounds(lines, 0, total, i);
      ChainOrder(lines, 0, total, i, j);
    }
  }
}
