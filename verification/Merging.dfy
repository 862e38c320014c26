/** Merging small sections (handler/doc/splitter.go): a run of terse headings shares one
    passage instead of minting a passage each. */
module Merging {
  import opened Bytes
  import opened Lines
  import opened Sections

  /** `prev` is below the floor, and taking `s` in keeps it within the ceiling. */
  predicate Mergeable(prev: Section, s: Section, b: Bounds) {
    prev.end - prev.start < b.floor && s.end - prev.start <= b.ceiling
  }

  function MergeFrom(prev: Section, rest: seq<Section>, b: Bounds): (out: seq<Section>)
    ensures out != [] && out[0].(end := prev.end) == prev
    decreases |rest|
  {
    if rest == [] then [prev]
    else if Mergeable(prev, rest[0], b) then MergeFrom(prev.(end := rest[0].end), rest[1..], b)
    else [prev] + MergeFrom(rest[0], rest[1..], b)
  }

  function Merge(ss: seq<Section>, b: Bounds): seq<Section> {
    if ss == [] then [] else MergeFrom(ss[0], ss[1..], b)
  }

  method MergeSmall(ss: seq<Section>, b: Bounds) returns (out: seq<Section>)
    ensures out == Merge(ss, b)
  {
    if |ss| == 0 {
      return ss;
    }
    out := [ss[0]];
    for i := 1 to |ss|
      invariant out != []
      invariant out[..|out| - 1] + MergeFrom(out[|out| - 1], ss[i..], b) == Merge(ss, b)
    {
      var s, last := ss[i], |out| - 1;
      assert ss[i..][0] == s && ss[i..][1..] == ss[i + 1..];
      var prevSize := out[last].end - out[last].start;
      if prevSize < b.floor && s.end - out[last].start <= b.ceiling {
        ghost var before := out;
        out := out[last := out[last].(end := s.end)];
        assert out[..last] == before[..last];
      } else {
        assert (out + [s])[..last + 1] == out[..last] + [out[last]];
        out := out + [s];
      }
    }
    assert ss[|ss|..] == [];
    assert out[..|out| - 1] + [out[|out| - 1]] == out;
  }

  /** No section can still take in its successor. */
  ghost predicate Settled(ss: seq<Section>, b: Bounds) {
    forall j, k :: 0 <= j < k < |ss| && k == j + 1 ==> !Mergeable(ss[j], ss[k], b)
  }

  /** `prev` and then `rest` partition [prev.start, hi), all with clean starts. */
  ghost predicate RunAfter(lines: seq<Line>, prev: Section, rest: seq<Section>, hi: nat) {
    && prev.start < prev.end && CleanStart(lines, prev.start)
    && (if rest == [] then prev.end == hi else CleanRun(lines, rest, prev.end, hi))
  }

  lemma RunSplit(lines: seq<Line>, ss: seq<Section>, lo: nat, hi: nat)
    requires CleanRun(lines, ss, lo, hi)
    ensures RunAfter(lines, ss[0], ss[1..], hi)
  {
    hide CleanStart;
    var rest := ss[1..];
    if rest != [] {
      assert ss[0].end == ss[1].start;
      assert CleanRun(lines, rest, ss[0].end, hi);
    }
  }

  /** Merging keeps the partition and introduces no new section start. */
  lemma {:induction false} MergeFromRun(lines: seq<Line>, prev: Section, rest: seq<Section>, hi: nat, b: Bounds)
    requires RunAfter(lines, prev, rest, hi)
    ensures CleanRun(lines, MergeFrom(prev, rest, b), prev.start, hi)
    decreases |rest|
  {
    hide CleanStart;
    if rest != [] {
      RunSplit(lines, rest, prev.end, hi);
      if Mergeable(prev, rest[0], b) {
        MergeFromRun(lines, prev.(end := rest[0].end), rest[1..], hi, b);
      } else {
        MergeFromRun(lines, rest[0], rest[1..], hi, b);
        RunCons(lines, prev, MergeFrom(rest[0], rest[1..], b), hi);
      }
    }
  }

  lemma MergeKeepsPartition(lines: seq<Line>, ss: seq<Section>, total: nat, b: Bounds)
    requires CleanRun(lines, ss, 0, total)
    ensures CleanRun(lines, Merge(ss, b), 0, total)
  {
    hide CleanStart;
    RunSplit(lines, ss, 0, total);
    MergeFromRun(lines, ss[0], ss[1..], total, b);
  }

  /** The union of the run ss[i..j], under its first section's heading and path. */
  function Union(ss: seq<Section>, i: nat, j: nat): Section
    requires i < j <= |ss|
  {
    ss[i].(end := ss[j - 1].end)
  }

  /** Section `m` may join the run that began at `i`: what is there is below the floor, and
      with it the run is within the ceiling. */
  predicate Joins(ss: seq<Section>, i: nat, m: nat, b: Bounds)
    requires i < m < |ss|
  {
    ss[m - 1].end - ss[i].start < b.floor && ss[m].end - ss[i].start <= b.ceiling
  }

  /** The run i..j is what one merge takes in: every section after the first joined it, and
      the one after them did not. */
  ghost predicate TakesIn(ss: seq<Section>, i: nat, j: nat, b: Bounds) {
    && i < j <= |ss|
    && (forall m :: i < m < j ==> Joins(ss, i, m, b))
    && (j < |ss| ==> !Joins(ss, i, j, b))
  }

  /** Every merged section is the union of a run of the original ones. */
  lemma {:induction false} MergedFromUnion(ss: seq<Section>, i0: nat, n: nat, b: Bounds, k: nat)
    returns (i: nat, j: nat)
    requires i0 < n <= |ss| && forall m :: i0 < m < n ==> Joins(ss, i0, m, b)
    requires k < |MergeFrom(Union(ss, i0, n), ss[n..], b)|
    ensures TakesIn(ss, i, j, b)
    ensures MergeFrom(Union(ss, i0, n), ss[n..], b)[k] == Union(ss, i, j)
    decreases |ss| - n
  {
    hide TakesIn;
    var prev := Union(ss, i0, n);
    if n == |ss| {
      i, j := i0, n;
      RunTakesIn(ss, i, j, b);
    } else {
      assert ss[n..][0] == ss[n] && ss[n..][1..] == ss[n + 1..];
      if Joins(ss, i0, n, b) {
        i, j := MergedFromUnion(ss, i0, n + 1, b, k);
      } else if k == 0 {
        i, j := i0, n;
        RunTakesIn(ss, i, j, b);
      } else {
        i, j := MergedFromUnion(ss, n, n + 1, b, k - 1);
      }
    }
  }

  lemma RunTakesIn(ss: seq<Section>, i: nat, j: nat, b: Bounds)
    requires i < j <= |ss| && (forall m :: i < m < j ==> Joins(ss, i, m, b)) && (j < |ss| ==> !Joins(ss, i, j, b))
    ensures TakesIn(ss, i, j, b)
  {
  }

  /** A merged section stands for a run of sections, under the first one's heading and path:
      as many as the floor calls for and the ceiling allows, and no more. */
  lemma MergedSectionIsUnion(ss: seq<Section>, b: Bounds, k: nat) returns (i: nat, j: nat)
    requires k < |Merge(ss, b)|
    ensures TakesIn(ss, i, j, b)
    ensures Merge(ss, b)[k] == ss[i].(end := ss[j - 1].end)
    ensures j > i + 1 ==> ss[j - 1].end - ss[i].start <= b.ceiling
  {
    i, j := MergedFromUnion(ss, 0, 1, b, k);
    assert j > i + 1 ==> Joins(ss, i, j - 1, b);
  }

  /** Merging stops only when nothing more can merge. */
  lemma {:induction false} MergeFromSettles(lines: seq<Line>, prev: Section, rest: seq<Section>, hi: nat, b: Bounds)
    requires RunAfter(lines, prev, rest, hi)
    ensures Settled(MergeFrom(prev, rest, b), b)
    ensures MergeFrom(prev, rest, b)[0].end >= prev.end
    decreases |rest|
  {
    hide CleanStart;
    if rest != [] {
      RunSplit(lines, rest, prev.end, hi);
      if Mergeable(prev, rest[0], b) {
        MergeFromSettles(lines, prev.(end := rest[0].end), rest[1..], hi, b);
      } else {
        MergeFromSettles(lines, rest[0], rest[1..], hi, b);
      }
    }
  }

  lemma {:induction false} SettledIsFixed(prev: Section, rest: seq<Section>, b: Bounds)
    requires rest != [] ==> !Mergeable(prev, rest[0], b)
    requires Settled(rest, b)
    ensures MergeFrom(prev, rest, b) == [prev] + rest
    decreases |rest|
  {
    if rest != [] {
      SettledIsFixed(rest[0], rest[1..], b);
    }
  }

  /** A list merges to itself exactly when nothing in it can merge; in particular merging
      twice is merging once. */
  lemma MergeIsIdempotent(lines: seq<Line>, ss: seq<Section>, total: nat, b: Bounds)
    requires CleanRun(lines, ss, 0, total)
    ensures Settled(Merge(ss, b), b)
    ensures Merge(ss, b) == ss <==> Settled(ss, b)
    ensures Merge(Merge(ss, b), b) == Merge(ss, b)
  {
    hide CleanStart;
    RunSplit(lines, ss, 0, total);
    MergeFromSettles(lines, ss[0], ss[1..], total, b);
    if Settled(ss, b) {
      SettledIsFixed(ss[0], ss[1..], b);
    }
    var m := Merge(ss, b);
    SettledIsFixed(m[0], m[1..], b);
  }
}
