/** Homogeneous KEY=VALUE blocks (handler/doc/splitter.go): which fenced blocks are lists of
    settings, and how they divide into key groups. */
module KeyGroups {
  import opened Bytes
  import opened Utf8
  import opened Spans
  import opened Lines
  import opened Blocks
  import opened Oversized

  const UNDERSCORE: Byte := 95
  const ASSIGN: Byte := 61
  const MIN_KEY_GROUPS := 3

  /** The letter and digit tables, which the splitter takes from its runtime. */
  datatype Tables = Tables(isLetter: nat -> bool, isDigit: nat -> bool)

  predicate ValidKey(key: Text, u: Tables, first: bool)
    decreases |key|
  {
    key == [] ||
    var (r, w) := DecodeRune(key);
    && (r == UNDERSCORE || u.isDigit(r) || u.isLetter(r))
    && !(first && u.isDigit(r))
    && ValidKey(key[w..], u, false)
  }

  /** The grouping token of a KEY=VALUE line: its key up to the first underscore. */
  function AssignmentPrefix(trimmed: Text, u: Tables): (token: Option<Text>)
    ensures token.Some? ==> token.value != []
  {
    var eq := IndexOf(trimmed, ASSIGN);
    if eq == 0 || eq == |trimmed| then None
    else
      var key := trimmed[..eq];
      if !ValidKey(key, u, true) then None
      else
        var under := IndexOf(key, UNDERSCORE);
        Some(if 0 < under < |key| then key[..under] else key)
  }

  predicate IsContent(ln: Line) {
    TrimSpace(ln.text) != [] && !IsFence(ln)
  }

  function LineKey(ln: Line, u: Tables): Option<Text> {
    AssignmentPrefix(TrimSpace(ln.text), u)
  }

  /** A content line of a block: its index and, for an assignment, its token. */
  datatype Item = Item(line: nat, key: Option<Text>)

  function Items(lines: seq<Line>, blk: Span, u: Tables, n: nat): (items: seq<Item>)
    requires n <= |lines|
    ensures forall k :: 0 <= k < |items| ==> items[k].line < n
  {
    if n == 0 then []
    else
      var before := Items(lines, blk, u, n - 1);
      if In(lines, blk, n - 1) && IsContent(lines[n - 1]) then
        before + [Item(n - 1, LineKey(lines[n - 1], u))]
      else before
  }

  /** Every item is a content line of the block, with its token. */
  lemma {:induction false} ItemsAreContent(lines: seq<Line>, blk: Span, u: Tables, n: nat, k: nat)
    requires n <= |lines| && k < |Items(lines, blk, u, n)|
    ensures var x := Items(lines, blk, u, n)[k];
            && x.line < n && In(lines, blk, x.line)
            && IsContent(lines[x.line]) && x.key == LineKey(lines[x.line], u)
  {
    hide IsContent, LineKey;
    if k < |Items(lines, blk, u, n - 1)| {
      ItemsAreContent(lines, blk, u, n - 1, k);
    }
  }

  /** Items are in line order. */
  lemma {:induction false} ItemsClimb(lines: seq<Line>, blk: Span, u: Tables, n: nat, j: nat, k: nat)
    requires n <= |lines| && j < k < |Items(lines, blk, u, n)|
    ensures Items(lines, blk, u, n)[j].line < Items(lines, blk, u, n)[k].line
  {
    hide IsContent, LineKey, In;
    if k < |Items(lines, blk, u, n - 1)| {
      ItemsClimb(lines, blk, u, n - 1, j, k);
    }
  }

  ghost predicate Placed(lines: seq<Line>, items: seq<Item>) {
    forall k :: 0 <= k < |items| ==> items[k].line < |lines|
  }

  function Assignments(items: seq<Item>): nat {
    if items == [] then 0
    else Assignments(items[..|items| - 1]) + if items[|items| - 1].key.Some? then 1 else 0
  }

  /** The items first..last, both included. */
  datatype Run = Run(first: nat, last: nat)

  /** The runs of consecutive content lines that share a token. */
  function Runs(items: seq<Item>): (runs: seq<Run>)
    ensures forall k :: 0 <= k < |runs| ==> runs[k].first <= runs[k].last < |items|
    ensures items != [] && items[|items| - 1].key.Some? ==> runs != [] && runs[|runs| - 1].last == |items| - 1
  {
    if items == [] then []
    else
      var n := |items| - 1;
      var before := Runs(items[..n]);
      if items[n].key.None? then before
      else if n > 0 && items[n - 1].key == items[n].key then
        assert items[..n][n - 1] == items[n - 1];
        before[|before| - 1 := before[|before| - 1].(last := n)]
      else before + [Run(n, n)]
  }

  function RunSpan(lines: seq<Line>, items: seq<Item>, r: Run): Span
    requires Placed(lines, items) && r.first <= r.last < |items|
  {
    Span(lines[items[r.first].line].start, lines[items[r.last].line].end)
  }

  /** One span per run. */
  function GroupsOf(lines: seq<Line>, items: seq<Item>): seq<Span>
    requires Placed(lines, items)
  {
    var runs := Runs(items);
    seq(|runs|, k requires 0 <= k < |runs| => RunSpan(lines, items, runs[k]))
  }

  /** A fenced block whose content is at least six tenths assignments, in at least three
      groups. */
  predicate Qualifies(lines: seq<Line>, blk: Span, u: Tables) {
    var items := Items(lines, blk, u, |lines|);
    && Fenced(lines, blk)
    && items != []
    && |GroupsOf(lines, items)| >= MIN_KEY_GROUPS
    && 5 * Assignments(items) >= 3 * |items|
  }

  /** The groups of a block that qualifies, and nothing for one that does not. */
  function KeyValueGroups(lines: seq<Line>, blk: Span, u: Tables): seq<Span> {
    if Qualifies(lines, blk, u) then GroupsOf(lines, Items(lines, blk, u, |lines|)) else []
  }

  method FindGroups(lines: seq<Line>, blk: Span, u: Tables) returns (r: seq<Span>)
    ensures r == KeyValueGroups(lines, blk, u)
  {
    hide TrimSpace, AssignmentPrefix, IsFenceDelimiter, Fenced, Items, GroupsOf, Assignments, LastToken, Placed;
    var fenced := BlockIsFenced(lines, blk);
    if !fenced {
      return [];
    }
    var content, assignments := 0, 0;
    var groups: seq<Span> := [];
    var prefix: Text := [];
    ghost var items: seq<Item> := [];
    NoItems(lines, blk, u);
    for i := 0 to |lines|
      invariant items == Items(lines, blk, u, i) && Placed(lines, items)
      invariant content == |items|
      invariant assignments == Assignments(items)
      invariant groups == GroupsOf(lines, items)
      invariant prefix == LastToken(items)
    {
      var ln := lines[i];
      ItemsStep(lines, blk, u, i);
      if ln.start < blk.start || ln.end > blk.end {
        continue;
      }
      var trimmed := TrimSpace(ln.text);
      if trimmed == [] || IsFenceDelimiter(trimmed) {
        continue;
      }
      content := content + 1;
      var key := AssignmentPrefix(trimmed, u);
      GroupStep(lines, items, Item(i, key));
      items := items + [Item(i, key)];
      if key.None? {
        prefix := [];
        continue;
      }
      assignments := assignments + 1;
      if key.value == prefix && |groups| > 0 {
        groups := groups[|groups| - 1 := groups[|groups| - 1].(end := ln.end)];
        continue;
      }
      groups := groups + [Span(ln.start, ln.end)];
      prefix := key.value;
    }
    if content == 0 || |groups| < MIN_KEY_GROUPS {
      return [];
    }
    if 5 * assignments < 3 * content {
      return [];
    }
    return groups;
  }

  lemma NoItems(lines: seq<Line>, blk: Span, u: Tables)
    ensures Items(lines, blk, u, 0) == [] && Placed(lines, [])
    ensures Assignments([]) == 0 && GroupsOf(lines, []) == [] && LastToken([]) == []
  {
  }

  /** The token of the last content line, empty after a line that is no assignment. */
  function LastToken(items: seq<Item>): Text {
    if items == [] || items[|items| - 1].key.None? then [] else items[|items| - 1].key.value
  }

  lemma ItemsStep(lines: seq<Line>, blk: Span, u: Tables, i: nat)
    requires i < |lines|
    ensures var trimmed := TrimSpace(lines[i].text);
            var now := Items(lines, blk, u, i);
            Items(lines, blk, u, i + 1) ==
              if lines[i].start < blk.start || lines[i].end > blk.end || trimmed == [] || IsFenceDelimiter(trimmed) then now
              else now + [Item(i, AssignmentPrefix(trimmed, u))]
    ensures Placed(lines, Items(lines, blk, u, i + 1))
    ensures AssignmentPrefix(TrimSpace(lines[i].text), u).Some? ==> AssignmentPrefix(TrimSpace(lines[i].text), u).value != []
  {
    hide TrimSpace, AssignmentPrefix, IsFenceDelimiter;
    assert AssignmentPrefix(TrimSpace(lines[i].text), u).Some? ==> AssignmentPrefix(TrimSpace(lines[i].text), u).value != [];
  }

  lemma GroupStep(lines: seq<Line>, items: seq<Item>, x: Item)
    requires Placed(lines, items + [x])
    requires x.key.Some? ==> x.key.value != []
    ensures Placed(lines, items)
    ensures Assignments(items + [x]) == Assignments(items) + if x.key.Some? then 1 else 0
    ensures var groups := GroupsOf(lines, items);
            GroupsOf(lines, items + [x]) ==
              if x.key.None? then groups
              else if x.key.value == LastToken(items) then
                groups[|groups| - 1 := groups[|groups| - 1].(end := lines[x.line].end)]
              else groups + [SpanOf(lines[x.line])]
    ensures x.key.Some? && x.key.value == LastToken(items) ==> GroupsOf(lines, items) != []
    ensures LastToken(items + [x]) == if x.key.Some? then x.key.value else []
  {
    hide Assignments, Runs;
    TallyStep(items, x);
    RunsStep(items, x);
    assert forall k :: 0 <= k < |items| ==> (items + [x])[k] == items[k];
  }

  lemma TallyStep(items: seq<Item>, x: Item)
    ensures Assignments(items + [x]) == Assignments(items) + if x.key.Some? then 1 else 0
  {
    assert (items + [x])[..|items|] == items;
  }

  /** One content line more extends the last run, starts one, or ends them. */
  lemma RunsStep(items: seq<Item>, x: Item)
    ensures var runs, n := Runs(items), |items|;
            Runs(items + [x]) ==
              if x.key.None? then runs
              else if n > 0 && items[n - 1].key == x.key then runs[|runs| - 1 := runs[|runs| - 1].(last := n)]
              else runs + [Run(n, n)]
  {
    assert (items + [x])[..|items|] == items;
  }

  /** A run holds items of one token. */
  lemma {:induction false} RunsUniform(items: seq<Item>, k: nat, j: nat)
    requires k < |Runs(items)| && Runs(items)[k].first <= j <= Runs(items)[k].last
    ensures items[j].key.Some? && items[j].key == items[Runs(items)[k].first].key
    decreases |items|
  {
    var n := |items| - 1;
    var front := items[..n];
    var before := Runs(front);
    if k < |before| && before[k].first <= j <= before[k].last {
      RunsUniform(front, k, j);
    } else if k < |before| {
      RunsUniform(front, k, before[k].last);
    }
  }

  /** Runs come in order. */
  lemma {:induction false} RunsInOrder(items: seq<Item>, k: nat, l: nat)
    requires k < l < |Runs(items)|
    ensures Runs(items)[k].last < Runs(items)[l].first
    decreases |items|
  {
    var front := items[..|items| - 1];
    if l < |Runs(front)| {
      RunsInOrder(front, k, l);
    }
  }

  /** Every assignment is in a run. */
  lemma {:induction false} RunsCover(items: seq<Item>, j: nat) returns (k: nat)
    requires j < |items| && items[j].key.Some?
    ensures k < |Runs(items)| && Runs(items)[k].first <= j <= Runs(items)[k].last
    decreases |items|
  {
    var n := |items| - 1;
    if j == n {
      k := |Runs(items)| - 1;
    } else {
      assert items[..n][j] == items[j];
      k := RunsCover(items[..n], j);
    }
  }

  /** Neighbouring runs that touch hold different tokens: no run could be longer. */
  lemma {:induction false} RunsMaximal(items: seq<Item>, k: nat)
    requires k + 1 < |Runs(items)| && Runs(items)[k + 1].first == Runs(items)[k].last + 1
    ensures items[Runs(items)[k].last].key != items[Runs(items)[k + 1].first].key
    decreases |items|
  {
    var front := items[..|items| - 1];
    if k + 1 < |Runs(front)| {
      RunsMaximal(front, k);
    }
  }

  // ---- Groups as spans ----

  /** The line that opens, and the line that closes, group `k` of a block. */
  function FirstLine(items: seq<Item>, k: nat): nat
    requires k < |Runs(items)|
  {
    items[Runs(items)[k].first].line
  }

  function LastLine(items: seq<Item>, k: nat): nat
    requires k < |Runs(items)|
  {
    items[Runs(items)[k].last].line
  }

  /** A group's span is the span of its lines, from an assignment to an assignment. */
  lemma GroupLines(lines: seq<Line>, blk: Span, u: Tables, k: nat)
    requires k < |Runs(Items(lines, blk, u, |lines|))|
    ensures var items := Items(lines, blk, u, |lines|);
            && Placed(lines, items)
            && FirstLine(items, k) <= LastLine(items, k) < |lines|
            && In(lines, blk, FirstLine(items, k)) && In(lines, blk, LastLine(items, k))
            && LineKey(lines[FirstLine(items, k)], u).Some?
            && |GroupsOf(lines, items)| == |Runs(items)|
            && GroupsOf(lines, items)[k] == Span(lines[FirstLine(items, k)].start, lines[LastLine(items, k)].end)
  {
    hide LineKey, IsContent, Runs, In, Items;
    var items, r := Items(lines, blk, u, |lines|), Runs(Items(lines, blk, u, |lines|))[k];
    RunsUniform(items, k, r.first);
    ItemsAreContent(lines, blk, u, |lines|, r.first);
    ItemsAreContent(lines, blk, u, |lines|, r.last);
    if r.first < r.last {
      ItemsClimb(lines, blk, u, |lines|, r.first, r.last);
    }
  }

  /** Lines of different groups come in order. */
  lemma GroupLinesInOrder(lines: seq<Line>, blk: Span, u: Tables, j: nat, k: nat)
    requires j < k < |Runs(Items(lines, blk, u, |lines|))|
    ensures var items := Items(lines, blk, u, |lines|);
            LastLine(items, j) < FirstLine(items, k)
  {
    hide LineKey, IsContent, Runs, In, Items;
    var runs := Runs(Items(lines, blk, u, |lines|));
    RunsInOrder(Items(lines, blk, u, |lines|), j, k);
    ItemsClimb(lines, blk, u, |lines|, runs[j].last, runs[k].first);
  }

  lemma GroupWithin(lines: seq<Line>, total: nat, blk: Span, u: Tables, k: nat)
    requires Chain(lines, 0, total) && k < |Runs(Items(lines, blk, u, |lines|))|
    ensures Placed(lines, Items(lines, blk, u, |lines|))
    ensures var groups := GroupsOf(lines, Items(lines, blk, u, |lines|));
            k < |groups| && blk.start <= groups[k].start && NonEmpty(groups[k]) && groups[k].end <= blk.end
  {
    hide LineKey, IsContent, Items, Runs, GroupsOf, FirstLine, LastLine;
    GroupLines(lines, blk, u, k);
    var items := Items(lines, blk, u, |lines|);
    var first, last := FirstLine(items, k), LastLine(items, k);
    ChainBounds(lines, 0, total, first);
    ChainBounds(lines, 0, total, last);
    if first < last {
      ChainOrder(lines, 0, total, first, last);
    }
  }

  /** The groups lie in order inside the block. */
  lemma GroupsInOrder(lines: seq<Line>, total: nat, blk: Span, u: Tables)
    requires Chain(lines, 0, total) && blk.start <= blk.end
    ensures Ordered(GroupsOf(lines, Items(lines, blk, u, |lines|)), blk.start, blk.end)
  {
    hide LineKey, IsContent, Items, Runs, FirstLine, LastLine, Chain;
    var items := Items(lines, blk, u, |lines|);
    var groups := GroupsOf(lines, items);
    forall k | 0 <= k < |groups|
      ensures blk.start <= groups[k].start && NonEmpty(groups[k]) && groups[k].end <= blk.end
    {
      GroupWithin(lines, total, blk, u, k);
    }
    forall j, k | 0 <= j < k < |groups|
      ensures groups[j].end <= groups[k].start
    {
      GroupLines(lines, blk, u, j);
      GroupLines(lines, blk, u, k);
      GroupLinesInOrder(lines, blk, u, j, k);
      ChainOrder(lines, 0, total, LastLine(items, j), FirstLine(items, k));
    }
  }

  /** A line strictly between two neighbouring groups of a qualifying block. */
  ghost predicate GapLine(lines: seq<Line>, blk: Span, u: Tables, i: nat) {
    Qualifies(lines, blk, u) && exists k: nat :: GapAt(Items(lines, blk, u, |lines|), k, i)
  }

  ghost predicate GapAt(items: seq<Item>, k: nat, i: nat) {
    k + 1 < |Runs(items)| && LastLine(items, k) < i < FirstLine(items, k + 1)
  }

  /** A gap line is no assignment: it is blank, a delimiter, a comment, or other text. */
  lemma GapLinesAreNotAssignments(lines: seq<Line>, blk: Span, u: Tables, i: nat)
    requires i < |lines| && In(lines, blk, i) && GapLine(lines, blk, u, i)
    ensures !IsContent(lines[i]) || LineKey(lines[i], u).None?
  {
    hide LineKey, IsContent, GapAt, Items, Qualifies;
    var items := Items(lines, blk, u, |lines|);
    var k: nat :| GapAt(items, k, i);
    if IsContent(lines[i]) {
      var j := ItemOf(lines, blk, u, |lines|, i);
      ItemsAreContent(lines, blk, u, |lines|, j);
      forall x, y | 0 <= x < y < |items| ensures items[x].line < items[y].line {
        ItemsClimb(lines, blk, u, |lines|, x, y);
      }
      NoAssignmentInGap(items, k, j);
    }
  }

  lemma NoAssignmentInGap(items: seq<Item>, k: nat, j: nat)
    requires forall x, y :: 0 <= x < y < |items| ==> items[x].line < items[y].line
    requires j < |items| && GapAt(items, k, items[j].line)
    ensures items[j].key.None?
  {
    hide Runs;
    if items[j].key.Some? {
      var r := RunsCover(items, j);
      if r < k {
        RunsInOrder(items, r, k);
      } else if k + 1 < r {
        RunsInOrder(items, k + 1, r);
      }
    }
  }

  lemma {:induction false} ItemOf(lines: seq<Line>, blk: Span, u: Tables, n: nat, i: nat) returns (j: nat)
    requires i < n <= |lines| && In(lines, blk, i) && IsContent(lines[i])
    ensures j < |Items(lines, blk, u, n)| && Items(lines, blk, u, n)[j].line == i
  {
    hide LineKey, IsContent;
    if i == n - 1 {
      j := |Items(lines, blk, u, n)| - 1;
    } else {
      j := ItemOf(lines, blk, u, n - 1, i);
    }
  }
}
