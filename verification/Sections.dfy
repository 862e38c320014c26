/** Sections (handler/doc/splitter.go): the document split at its headings, each section
    carrying its heading's ancestor chain, and small neighbours merged. */
module Sections {
  import opened Bytes
  import opened Lines
  import opened Headings

  datatype Bounds = Bounds(ceiling: nat, floor: nat, hardMax: nat)

  datatype Mark = Mark(lineIdx: nat, level: nat, heading: Text)

  datatype Section = Section(heading: Text, path: seq<Text>, start: nat, end: nat)

  // ---- Marks: the heading lines, in order ----

  function Marks(lines: seq<Line>, f: DocFormat, n: nat): (ms: seq<Mark>)
    requires n <= |lines|
    ensures forall k :: 0 <= k < |ms| ==> ms[k].lineIdx < n && HeadingAt(lines, ms[k].lineIdx, f).Some?
    ensures forall j, k :: 0 <= j < k < |ms| ==> ms[j].lineIdx < ms[k].lineIdx
  {
    if n == 0 then []
    else
      var before := Marks(lines, f, n - 1);
      var h := HeadingAt(lines, n - 1, f);
      if h.None? then before else before + [Mark(n - 1, h.value.level, h.value.text)]
  }

  // ---- Ancestry ----

  /** Heading `j` is still open at heading `i`: every heading after it, up to and including
      `i`, is strictly deeper. */
  predicate Open(marks: seq<Mark>, j: nat, i: nat)
    requires j <= i < |marks|
  {
    forall k :: j < k <= i ==> marks[j].level < marks[k].level
  }

  /** The headings before `n` that are open at `i`, in document order. */
  function OpenBefore(marks: seq<Mark>, i: nat, n: nat): seq<Mark>
    requires i < |marks| && n <= i + 1
  {
    if n == 0 then []
    else
      var before := OpenBefore(marks, i, n - 1);
      if Open(marks, n - 1, i) then before + [marks[n - 1]] else before
  }

  function Titles(ms: seq<Mark>): seq<Text> {
    seq(|ms|, k requires 0 <= k < |ms| => ms[k].heading)
  }

  /** A heading's path: the open headings above it, outermost first, then itself. */
  function HeadingPath(marks: seq<Mark>, i: nat): seq<Text>
    requires i < |marks|
  {
    Titles(OpenBefore(marks, i, i)) + [marks[i].heading]
  }

  /** The stack before heading `i` is visited: everything open at the heading before it,
      that heading on top. */
  function StackAt(marks: seq<Mark>, i: nat): seq<Mark>
    requires i <= |marks|
  {
    if i == 0 then [] else OpenBefore(marks, i - 1, i)
  }

  /** Levels strictly increase up the stack. */
  ghost predicate Deepening(stack: seq<Mark>) {
    forall a, b :: 0 <= a < b < |stack| ==> stack[a].level < stack[b].level
  }

  /** Everything open at `i` before `n` is shallower than any open heading from `n` on. */
  lemma {:induction false} OpenIsShallower(marks: seq<Mark>, i: nat, n: nat, j: nat)
    requires i < |marks| && n <= j <= i && Open(marks, j, i)
    ensures forall a :: 0 <= a < |OpenBefore(marks, i, n)| ==> OpenBefore(marks, i, n)[a].level < marks[j].level
  {
    if n > 0 {
      OpenIsShallower(marks, i, n - 1, j);
    }
  }

  lemma {:induction false} OpenDeepens(marks: seq<Mark>, i: nat, n: nat)
    requires i < |marks| && n <= i + 1
    ensures Deepening(OpenBefore(marks, i, n))
  {
    if n > 0 {
      OpenDeepens(marks, i, n - 1);
      if Open(marks, n - 1, i) {
        OpenIsShallower(marks, i, n - 1, n - 1);
      }
    }
  }

  /** The entries shallower than `level`. */
  function Shallower(stack: seq<Mark>, level: nat): seq<Mark> {
    if stack == [] then []
    else
      var rest := Shallower(stack[..|stack| - 1], level);
      if stack[|stack| - 1].level < level then rest + [stack[|stack| - 1]] else rest
  }

  /** The headings open at `i + 1` are those open at `i` that are shallower than it. */
  lemma {:induction false} OpenStep(marks: seq<Mark>, i: nat, n: nat)
    requires i + 1 < |marks| && n <= i + 1
    ensures OpenBefore(marks, i + 1, n) == Shallower(OpenBefore(marks, i, n), marks[i + 1].level)
  {
    if n > 0 {
      OpenStep(marks, i, n - 1);
      var open := OpenBefore(marks, i, n - 1);
      assert Open(marks, n - 1, i + 1) <==> Open(marks, n - 1, i) && marks[n - 1].level < marks[i + 1].level;
      assert (open + [marks[n - 1]])[..|open|] == open;
    }
  }

  /** Once the top of a deepening stack is shallower than `level`, so is all of it. */
  lemma {:induction false} AllShallower(stack: seq<Mark>, level: nat)
    requires Deepening(stack)
    requires stack == [] || stack[|stack| - 1].level < level
    ensures Shallower(stack, level) == stack
  {
    if stack != [] {
      AllShallower(stack[..|stack| - 1], level);
    }
  }

  /** The path of the next mark, computed by popping and pushing the ancestor stack. */
  method PathOf(ghost marks: seq<Mark>, ghost i: nat, m: Mark, ancestors: seq<Mark>)
    returns (path: seq<Text>, stack: seq<Mark>)
    requires i < |marks| && m == marks[i] && ancestors == StackAt(marks, i)
    ensures path == HeadingPath(marks, i)
    ensures stack == StackAt(marks, i + 1)
  {
    hide Open, OpenBefore, Shallower, Deepening, Titles;
    stack := ancestors;
    StackIsOpen(marks, i);
    while |stack| > 0 && stack[|stack| - 1].level >= m.level
      invariant Deepening(stack)
      invariant Shallower(stack, m.level) == OpenBefore(marks, i, i)
    {
      PopStep(stack, m.level);
      stack := stack[..|stack| - 1];
    }
    AllShallower(stack, m.level);
    path := [];
    NoTitles(stack);
    for k := 0 to |stack|
      invariant path == Titles(stack[..k])
    {
      OneMoreTitle(stack, k);
      path := path + [stack[k].heading];
    }
    assert stack[..|stack|] == stack;
    path := path + [m.heading];
    stack := stack + [m];
    PushSelf(marks, i);
  }

  lemma StackIsOpen(marks: seq<Mark>, i: nat)
    requires i < |marks|
    ensures Deepening(StackAt(marks, i))
    ensures Shallower(StackAt(marks, i), marks[i].level) == OpenBefore(marks, i, i)
  {
    hide Open, OpenBefore, Shallower, Deepening;
    if i > 0 {
      OpenDeepens(marks, i - 1, i);
      OpenStep(marks, i - 1, i);
    } else {
      NothingOpen(marks);
    }
  }

  lemma NothingOpen(marks: seq<Mark>)
    requires marks != []
    ensures OpenBefore(marks, 0, 0) == [] && Deepening([])
    ensures Shallower([], marks[0].level) == []
  {
  }

  /** Popping an entry that is not shallower loses no ancestor. */
  lemma PopStep(stack: seq<Mark>, level: nat)
    requires Deepening(stack) && stack != [] && stack[|stack| - 1].level >= level
    ensures Deepening(stack[..|stack| - 1])
    ensures Shallower(stack[..|stack| - 1], level) == Shallower(stack, level)
  {
  }

  lemma NoTitles(stack: seq<Mark>)
    ensures Titles(stack[..0]) == []
  {
  }

  lemma OneMoreTitle(stack: seq<Mark>, k: nat)
    requires k < |stack|
    ensures Titles(stack[..k + 1]) == Titles(stack[..k]) + [stack[k].heading]
  {
  }

  lemma PushSelf(marks: seq<Mark>, i: nat)
    requires i < |marks|
    ensures OpenBefore(marks, i, i + 1) == OpenBefore(marks, i, i) + [marks[i]]
  {
    hide Open;
    OpenAtSelf(marks, i);
  }

  lemma OpenAtSelf(marks: seq<Mark>, i: nat)
    requires i < |marks|
    ensures Open(marks, i, i)
  {
  }

  // ---- Sections ----

  ghost predicate MarksPlaced(lines: seq<Line>, marks: seq<Mark>) {
    forall j :: 0 <= j < |marks| ==> marks[j].lineIdx < |lines|
  }

  function SectionEnd(lines: seq<Line>, marks: seq<Mark>, total: nat, k: nat): nat
    requires k < |marks| && MarksPlaced(lines, marks)
  {
    if k + 1 < |marks| then lines[marks[k + 1].lineIdx].start else total
  }

  function MarkSection(lines: seq<Line>, marks: seq<Mark>, total: nat, k: nat): Section
    requires k < |marks| && MarksPlaced(lines, marks)
  {
    Section(marks[k].heading, HeadingPath(marks, k), lines[marks[k].lineIdx].start,
            SectionEnd(lines, marks, total, k))
  }

  function Preamble(lines: seq<Line>, marks: seq<Mark>): seq<Section>
    requires marks != [] && MarksPlaced(lines, marks)
  {
    if marks[0].lineIdx > 0 then [Section([], [], 0, lines[marks[0].lineIdx].start)] else []
  }

  function MarkSections(lines: seq<Line>, marks: seq<Mark>, total: nat, n: nat): seq<Section>
    requires n <= |marks| && MarksPlaced(lines, marks)
  {
    seq(n, k requires 0 <= k < n => MarkSection(lines, marks, total, k))
  }

  /** One section per heading, from its line to the next heading's, with a headless section
      in front when the first heading is not the first line. */
  function SectionsOf(lines: seq<Line>, total: nat, f: DocFormat): seq<Section> {
    var marks := Marks(lines, f, |lines|);
    if marks == [] then [Section([], [], 0, total)]
    else Preamble(lines, marks) + MarkSections(lines, marks, total, |marks|)
  }

  method CutSections(lines: seq<Line>, total: nat, f: DocFormat) returns (out: seq<Section>)
    ensures out == SectionsOf(lines, total, f)
  {
    hide HeadingAt, HeadingPath, StackAt;
    var marks: seq<Mark> := [];
    for i := 0 to |lines|
      invariant marks == Marks(lines, f, i)
    {
      var h := HeadingAt(lines, i, f);
      if h.Some? {
        marks := marks + [Mark(i, h.value.level, h.value.text)];
      }
    }
    if |marks| == 0 {
      return [Section([], [], 0, total)];
    }
    out := SectionsAt(lines, marks, total);
  }

  method SectionsAt(lines: seq<Line>, marks: seq<Mark>, total: nat) returns (out: seq<Section>)
    requires marks != [] && MarksPlaced(lines, marks)
    ensures out == Preamble(lines, marks) + MarkSections(lines, marks, total, |marks|)
  {
    hide HeadingPath, Open, OpenBefore;
    out := [];
    if marks[0].lineIdx > 0 {
      out := out + [Section([], [], 0, lines[marks[0].lineIdx].start)];
    }
    var ancestors: seq<Mark> := [];
    for i := 0 to |marks|
      invariant ancestors == StackAt(marks, i)
      invariant out == Preamble(lines, marks) + MarkSections(lines, marks, total, i)
    {
      var end := total;
      if i + 1 < |marks| {
        end := lines[marks[i + 1].lineIdx].start;
      }
      var path;
      path, ancestors := PathOf(marks, i, marks[i], ancestors);
      out := out + [Section(marks[i].heading, path, lines[marks[i].lineIdx].start, end)];
    }
  }

  // ---- The partition ----

  /** Sections lie one after another over [lo, hi), each non-empty. */
  ghost predicate Consecutive(ss: seq<Section>, lo: nat, hi: nat) {
    if ss == [] then lo == hi
    else
      && ss[0].start == lo && ss[|ss| - 1].end == hi
      && (forall k :: 0 <= k < |ss| ==> ss[k].start < ss[k].end)
      && (forall j, k :: 0 <= j < k < |ss| && k == j + 1 ==> ss[j].end == ss[k].start)
  }

  /** Where a section may start: the first line, or a line that is not protected. */
  ghost predicate CleanStart(lines: seq<Line>, p: nat) {
    exists i :: 0 <= i < |lines| && lines[i].start == p && (i == 0 || !lines[i].isProtected)
  }

  /** A run of sections, all with a clean start. */
  ghost predicate CleanRun(lines: seq<Line>, ss: seq<Section>, lo: nat, hi: nat) {
    && ss != []
    && Consecutive(ss, lo, hi)
    && forall k :: 0 <= k < |ss| ==> CleanStart(lines, ss[k].start)
  }

  /** The sections of a non-empty document partition it, and each starts on the first line
      or on an unprotected one. */
  lemma SectionsPartition(lines: seq<Line>, total: nat, f: DocFormat)
    requires Chain(lines, 0, total) && lines != []
    ensures CleanRun(lines, SectionsOf(lines, total, f), 0, total)
  {
    hide HeadingAt, HeadingPath, Marks, CleanStart, MarkSections;
    ChainBounds(lines, 0, total, 0);
    FirstLineIsClean(lines);
    var marks := Marks(lines, f, |lines|);
    if marks == [] {
      assert SectionsOf(lines, total, f)[0].start == lines[0].start;
    } else {
      var body := MarkSections(lines, marks, total, |marks|);
      MarkSectionsRun(lines, total, f, marks);
      if marks[0].lineIdx > 0 {
        ChainOrder(lines, 0, total, 0, marks[0].lineIdx);
        RunCons(lines, Section([], [], 0, lines[marks[0].lineIdx].start), body, total);
      } else {
        assert Preamble(lines, marks) + body == body;
      }
    }
  }

  lemma RunCons(lines: seq<Line>, first: Section, rest: seq<Section>, hi: nat)
    requires first.start < first.end && CleanStart(lines, first.start) && CleanRun(lines, rest, first.end, hi)
    ensures CleanRun(lines, [first] + rest, first.start, hi)
  {
    hide CleanStart;
  }

  lemma MarkSectionsRun(lines: seq<Line>, total: nat, f: DocFormat, marks: seq<Mark>)
    requires Chain(lines, 0, total) && marks != [] && MarksPlaced(lines, marks)
    requires forall k :: 0 <= k < |marks| ==> HeadingAt(lines, marks[k].lineIdx, f).Some?
    requires forall j, k :: 0 <= j < k < |marks| ==> marks[j].lineIdx < marks[k].lineIdx
    ensures CleanRun(lines, MarkSections(lines, marks, total, |marks|), lines[marks[0].lineIdx].start, total)
  {
    hide HeadingAt, HeadingPath, CleanStart;
    forall k | 0 <= k < |marks|
      ensures var m := MarkSection(lines, marks, total, k);
              m.start < m.end && CleanStart(lines, m.start)
    {
      MarkIsClean(lines, total, f, marks, k);
    }
  }

  lemma FirstLineIsClean(lines: seq<Line>)
    requires lines != []
    ensures CleanStart(lines, lines[0].start)
  {
  }

  lemma MarkIsClean(lines: seq<Line>, total: nat, f: DocFormat, marks: seq<Mark>, k: nat)
    requires Chain(lines, 0, total) && k < |marks| && MarksPlaced(lines, marks)
    requires marks[k].lineIdx < |lines| && HeadingAt(lines, marks[k].lineIdx, f).Some?
    requires k + 1 < |marks| ==> marks[k].lineIdx < marks[k + 1].lineIdx
    ensures var m := MarkSection(lines, marks, total, k);
            m.start < m.end && CleanStart(lines, m.start)
  {
    hide HeadingAt, HeadingPath;
    var i := marks[k].lineIdx;
    HeadingIsUnprotected(lines, i, f);
    ChainBounds(lines, 0, total, i);
    if k + 1 < |marks| {
      ChainOrder(lines, 0, total, i, marks[k + 1].lineIdx);
    }
  }
}
