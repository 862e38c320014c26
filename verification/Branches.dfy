/** The watcher that follows a repository's matching branches, up to a cap. */
module Branches {
  import opened Bytes

  type Branch = Text

  datatype State = State(branch: Branch, worktree: Text)

  /** What one call of Discover reports. */
  datatype Delta = Delta(added: seq<State>, removed: seq<Branch>)

  type Known = map<Branch, State>

  function AddAll(known: Known, added: seq<State>): Known {
    if added == [] then known
    else AddAll(known, added[..|added| - 1])[added[|added| - 1].branch := added[|added| - 1]]
  }

  function Applied(known: Known, d: Delta): Known {
    AddAll(known, d.added) - Elems(d.removed)
  }

  /** The branches a listener has who saw every delta and nothing else. */
  function Replay(deltas: seq<Delta>): Known {
    if deltas == [] then map[]
    else Applied(Replay(deltas[..|deltas| - 1]), deltas[|deltas| - 1])
  }

  function Elems(branches: seq<Branch>): set<Branch> {
    set b | b in branches
  }

  lemma ElemsSnoc(branches: seq<Branch>, b: Branch)
    ensures Elems(branches + [b]) == Elems(branches) + {b}
    ensures Elems([]) == {}
  {
  }

  function BranchesOf(added: seq<State>): set<Branch> {
    set s | s in added :: s.branch
  }

  /** Branches to have: local ones and ones checked out elsewhere, if they match. */
  function Wanted(matches: Branch -> bool, branches: seq<Branch>, worktrees: map<Branch, Text>): set<Branch> {
    Matching(matches, Elems(branches)) + Matching(matches, worktrees.Keys)
  }

  /** What making a worktree for a branch comes to: its path, or nothing on failure. */
  type Making = Branch -> Option<Text>

  /** A branch's worktree: the one it has, or else the one made for it. */
  function WorktreeOf(worktrees: map<Branch, Text>, making: Making, b: Branch): Option<Text> {
    if b in worktrees then Some(worktrees[b]) else making(b)
  }

  /** Each state has its branch's worktree. */
  ghost predicate Housed(added: seq<State>, worktrees: map<Branch, Text>, making: Making) {
    forall i :: 0 <= i < |added| ==> WorktreeOf(worktrees, making, added[i].branch) == Some(added[i].worktree)
  }

  lemma HousedMore(added: seq<State>, worktrees: map<Branch, Text>, making: Making, s: State)
    requires Housed(added, worktrees, making) && WorktreeOf(worktrees, making, s.branch) == Some(s.worktree)
    ensures Housed(added + [s], worktrees, making)
  {
  }

  /** Of the first `n` matched branches, each that can be had is known. */
  ghost predicate HadAll(matched: seq<Branch>, n: nat, known: set<Branch>, worktrees: map<Branch, Text>, making: Making)
    requires n <= |matched|
  {
    forall k :: 0 <= k < n ==> matched[k] in known || WorktreeOf(worktrees, making, matched[k]).None?
  }

  lemma HadMore(matched: seq<Branch>, n: nat, known: set<Branch>, more: set<Branch>, worktrees: map<Branch, Text>, making: Making)
    requires n < |matched| && HadAll(matched, n, known, worktrees, making) && known <= more
    requires matched[n] in more || WorktreeOf(worktrees, making, matched[n]).None?
    ensures HadAll(matched, n + 1, more, worktrees, making)
  {
  }

  lemma HadNone(matched: seq<Branch>, known: set<Branch>, worktrees: map<Branch, Text>, making: Making)
    ensures HadAll(matched, 0, known, worktrees, making) && Housed([], worktrees, making)
  {
  }

  lemma HadReachable(matched: seq<Branch>, before: set<Branch>, known: set<Branch>, worktrees: map<Branch, Text>, making: Making)
    requires HadAll(matched, |matched|, known, worktrees, making) && before <= known
    ensures Reachable(Elems(matched), before, worktrees, making) <= known
  {
    forall b | b in Reachable(Elems(matched), before, worktrees, making) ensures b in known {
      var k :| 0 <= k < |matched| && matched[k] == b;
    }
  }

  /** What can be had of what is wanted: known branches, and those whose worktree can. */
  function Reachable(wanted: set<Branch>, known: set<Branch>, worktrees: map<Branch, Text>, making: Making): set<Branch> {
    set b | b in wanted && (b in known || WorktreeOf(worktrees, making, b).Some?)
  }

  function Matching(matches: Branch -> bool, branches: set<Branch>): set<Branch> {
    set b | b in branches && matches(b)
  }

  /** A branch is wanted if and only if it matches and is local or checked out. */
  lemma WantedExactly(matches: Branch -> bool, branches: seq<Branch>, worktrees: map<Branch, Text>, b: Branch)
    ensures b in Wanted(matches, branches, worktrees) <==> matches(b) && (b in branches || b in worktrees)
  {
  }

  /** A report applied: removed branches are unknown, added ones known as reported, and the
      rest as they were. */
  lemma {:induction false} AppliedExactly(known: Known, d: Delta, b: Branch)
    requires forall i, j :: 0 <= i < j < |d.added| ==> d.added[i].branch != d.added[j].branch
    ensures b in Applied(known, d) <==> b !in d.removed && (b in known || exists i :: 0 <= i < |d.added| && d.added[i].branch == b)
    ensures forall i :: 0 <= i < |d.added| && d.added[i].branch == b && b !in d.removed ==> Applied(known, d)[b] == d.added[i]
    ensures b in Applied(known, d) && (forall i :: 0 <= i < |d.added| ==> d.added[i].branch != b) ==> Applied(known, d)[b] == known[b]
    decreases |d.added|
  {
    if d.added != [] {
      var n := |d.added| - 1;
      var e := Delta(d.added[..n], d.removed);
      AppliedExactly(known, e, b);
      assert forall i :: 0 <= i < n ==> e.added[i] == d.added[i];
    }
  }

  lemma MatchingGrows(matches: Branch -> bool, branches: set<Branch>, b: Branch)
    ensures Matching(matches, branches + {b}) == Matching(matches, branches) + if matches(b) then {b} else {}
    ensures Matching(matches, {}) == {}
  {
  }

  lemma {:induction false} AddAllKeys(known: Known, added: seq<State>)
    ensures AddAll(known, added).Keys == known.Keys + BranchesOf(added)
  {
    if added != [] {
      var init := added[..|added| - 1];
      AddAllKeys(known, init);
      assert added == init + [added[|added| - 1]];
    }
  }

  lemma AddOneMore(known: Known, added: seq<State>, s: State)
    ensures AddAll(known, added + [s]) == AddAll(known, added)[s.branch := s]
    ensures BranchesOf(added + [s]) == BranchesOf(added) + {s.branch}
  {
    assert (added + [s])[..|added|] == added;
  }

  predicate NoRepeats(branches: seq<Branch>) {
    forall i, j :: 0 <= i < j < |branches| ==> branches[i] != branches[j]
  }

  class BranchWatcher {
    const matches: Branch -> bool
    const maxBranches: nat
    var known: Known
    ghost var deltas: seq<Delta>

    constructor (matches: Branch -> bool, limit: int)
      ensures Valid() && known == map[] && deltas == []
      ensures this.matches == matches && maxBranches == if limit <= 0 then 50 else limit
    {
      this.matches := matches;
      maxBranches := if limit <= 0 then 50 else limit;
      known, deltas := map[], [];
    }

    /** The cap holds, and the deltas reported so far rebuild what is known. */
    ghost predicate Valid()
      reads this
    {
      |known| <= maxBranches && known == Replay(deltas)
    }

    method MatchBranches(branches: seq<Branch>) returns (matched: seq<Branch>)
      ensures Elems(matched) == Matching(matches, Elems(branches))
    {
      hide Elems, Matching;
      matched := [];
      ElemsSnoc([], []);
      MatchingGrows(matches, {}, []);
      var i := 0;
      while i < |branches|
        invariant 0 <= i <= |branches|
        invariant Elems(matched) == Matching(matches, Elems(branches[..i]))
      {
        assert branches[..i + 1] == branches[..i] + [branches[i]];
        ElemsSnoc(branches[..i], branches[i]);
        MatchingGrows(matches, Elems(branches[..i]), branches[i]);
        if matches(branches[i]) {
          ElemsSnoc(matched, branches[i]);
          matched := matched + [branches[i]];
        }
        i := i + 1;
      }
      assert branches[..i] == branches;
    }

    /** The local matches, then external worktrees' branches not among them, in any order. */
    method Match(branches: seq<Branch>, worktrees: map<Branch, Text>) returns (matched: seq<Branch>)
      ensures Elems(matched) == Wanted(matches, branches, worktrees)
    {
      hide Elems, Matching;
      matched := MatchBranches(branches);
      MatchingGrows(matches, {}, []);
      ghost var locals, all := Elems(matched), worktrees.Keys;
      ghost var found: set<Branch> := {};
      var todo := worktrees.Keys;
      assert all - todo == {};
      while todo != {}
        invariant todo <= all && found == Matching(matches, all - todo)
        invariant Elems(matched) == locals + found
        decreases |todo|
      {
        var b :| b in todo;
        VisitOne(matches, all, todo, b);
        if matches(b) {
          InElems(matched, b);
          ElemsSnoc(matched, b);
          if b !in matched {
            matched := matched + [b];
          }
          assert Elems(matched) == locals + (found + {b});
          found := found + {b};
        }
        todo := todo - {b};
      }
      assert all - todo == all;
    }

    lemma VisitOne(matches: Branch -> bool, all: set<Branch>, todo: set<Branch>, b: Branch)
      requires b in todo && todo <= all
      ensures Matching(matches, all - (todo - {b}))
           == if matches(b) then Matching(matches, all - todo) + {b} else Matching(matches, all - todo)
    {
      assert all - (todo - {b}) == all - todo + {b};
      MatchingGrows(matches, all - todo, b);
    }

    lemma InElems(branches: seq<Branch>, b: Branch)
      ensures b in Elems(branches) <==> b in branches
    {
    }

    /** The loop that adds matched branches while there is room: each with the worktree it
        has or the one that is made, and every one that can be had unless the cap is hit. */
    method AddMatched(matched: seq<Branch>, worktrees: map<Branch, Text>, making: Making) returns (added: seq<State>)
      requires |known| <= maxBranches
      modifies this`known
      ensures |known| <= maxBranches && known == AddAll(old(known), added)
      ensures BranchesOf(added) !! old(known).Keys && BranchesOf(added) <= Elems(matched)
      ensures |known| == |old(known)| + |added|
      ensures Housed(added, worktrees, making)
      ensures Reachable(Elems(matched), old(known).Keys, worktrees, making) <= known.Keys || |known| == maxBranches
    {
      hide AddAll, BranchesOf, Elems, Housed, Reachable, Adding;
      added := [];
      ghost var before := known;
      AddingStarts(known, matched, worktrees, making, maxBranches);
      var i := 0;
      while i < |matched|
        invariant 0 <= i <= |matched|
        invariant Adding(before, known, added, matched, i, worktrees, making, maxBranches)
      {
        var b := matched[i];
        var path := None;
        if b !in known && |known| < maxBranches {
          if b in worktrees {
            path := Some(worktrees[b]);
          } else {
            path := making(b);
          }
        }
        if path.Some? {
          var s := State(b, path.value);
          AddingTakes(before, known, added, matched, i, worktrees, making, maxBranches, s);
          known := known[b := s];
          added := added + [s];
        } else {
          AddingPasses(before, known, added, matched, i, worktrees, making, maxBranches);
        }
        i := i + 1;
      }
      AddingEnds(before, known, added, matched, worktrees, making, maxBranches);
    }

    /** The loop before matched branch number `i`. */
    ghost predicate Adding(before: Known, known: Known, added: seq<State>, matched: seq<Branch>, i: nat,
                           worktrees: map<Branch, Text>, making: Making, cap: nat) {
      && i <= |matched| && |known| <= cap && before.Keys <= known.Keys
      && Grown(before, known, added, Elems(matched)) && Housed(added, worktrees, making)
      && (HadAll(matched, i, known.Keys, worktrees, making) || |known| == cap)
    }

    lemma AddingStarts(known: Known, matched: seq<Branch>, worktrees: map<Branch, Text>, making: Making, cap: nat)
      requires |known| <= cap
      ensures Adding(known, known, [], matched, 0, worktrees, making, cap)
    {
      hide Grown, HadAll, Housed, Elems;
      GrownByNone(known, Elems(matched));
      HadNone(matched, known.Keys, worktrees, making);
    }

    /** The branch is known, cannot be had, or finds the cap hit. */
    lemma AddingPasses(before: Known, known: Known, added: seq<State>, matched: seq<Branch>, i: nat,
                       worktrees: map<Branch, Text>, making: Making, cap: nat)
      requires i < |matched| && Adding(before, known, added, matched, i, worktrees, making, cap)
      requires matched[i] in known || |known| >= cap || WorktreeOf(worktrees, making, matched[i]).None?
      ensures Adding(before, known, added, matched, i + 1, worktrees, making, cap)
    {
      hide Grown, HadAll, Housed, Elems;
      if |known| < cap {
        HadMore(matched, i, known.Keys, known.Keys, worktrees, making);
      }
    }

    lemma AddingTakes(before: Known, known: Known, added: seq<State>, matched: seq<Branch>, i: nat,
                      worktrees: map<Branch, Text>, making: Making, cap: nat, s: State)
      requires i < |matched| && Adding(before, known, added, matched, i, worktrees, making, cap)
      requires s.branch == matched[i] && s.branch !in known && |known| < cap
      requires WorktreeOf(worktrees, making, s.branch) == Some(s.worktree)
      ensures Adding(before, known[s.branch := s], added + [s], matched, i + 1, worktrees, making, cap)
    {
      hide Grown, HadAll, Housed, Elems, WorktreeOf;
      InElems(matched, s.branch);
      Grows(known, s);
      GrownByOne(before, known, added, Elems(matched), s);
      HousedMore(added, worktrees, making, s);
      HadMore(matched, i, known.Keys, known[s.branch := s].Keys, worktrees, making);
    }

    lemma AddingEnds(before: Known, known: Known, added: seq<State>, matched: seq<Branch>,
                     worktrees: map<Branch, Text>, making: Making, cap: nat)
      requires Adding(before, known, added, matched, |matched|, worktrees, making, cap)
      ensures |known| <= cap && known == AddAll(before, added)
      ensures BranchesOf(added) !! before.Keys && BranchesOf(added) <= Elems(matched)
      ensures |known| == |before| + |added|
      ensures Housed(added, worktrees, making)
      ensures Reachable(Elems(matched), before.Keys, worktrees, making) <= known.Keys || |known| == cap
    {
      hide HadAll, Housed, Elems, Reachable, AddAll, BranchesOf;
      if |known| < cap {
        HadReachable(matched, before.Keys, known.Keys, worktrees, making);
      }
    }

    /** `known` is `before` with new, wanted branches added. */
    ghost predicate Grown(before: Known, known: Known, added: seq<State>, wanted: set<Branch>) {
      && known == AddAll(before, added)
      && BranchesOf(added) !! before.Keys && BranchesOf(added) <= wanted
      && |known| == |before| + |added|
    }

    lemma GrownByNone(before: Known, wanted: set<Branch>)
      ensures Grown(before, before, [], wanted)
    {
    }

    lemma GrownByOne(before: Known, known: Known, added: seq<State>, wanted: set<Branch>, s: State)
      requires Grown(before, known, added, wanted) && s.branch !in known && s.branch in wanted
      ensures Grown(before, known[s.branch := s], added + [s], wanted)
    {
      hide AddAll, BranchesOf;
      AddAllKeys(before, added);
      assert s.branch !in before.Keys + BranchesOf(added);
      AddOneMore(before, added, s);
      Grows(known, s);
    }

    lemma Grows(known: Known, s: State)
      requires s.branch !in known
      ensures |known[s.branch := s]| == |known| + 1
    {
      assert known[s.branch := s].Keys == known.Keys + {s.branch};
      assert |known[s.branch := s].Keys| == |known[s.branch := s]| && |known.Keys| == |known|;
    }

    /** The known branches no longer matched, in any order. */
    method FindRemoved(matched: seq<Branch>) returns (removed: seq<Branch>)
      ensures NoRepeats(removed) && Elems(removed) == known.Keys - Elems(matched)
    {
      hide Elems;
      removed := [];
      ElemsSnoc([], []);
      var todo := known.Keys;
      ghost var gone := known.Keys - Elems(matched);
      while todo != {}
        invariant todo <= known.Keys
        invariant NoRepeats(removed) && Elems(removed) == gone - todo
        decreases |todo|
      {
        var b :| b in todo;
        ElemsSnoc(removed, b);
        InElems(matched, b);
        assert gone - (todo - {b}) == if b in matched then gone - todo else gone - todo + {b};
        if b !in matched {
          forall k | 0 <= k < |removed| ensures removed[k] != b {
            InElems(removed, removed[k]);
          }
          removed := removed + [b];
        }
        todo := todo - {b};
      }
    }

    /** One discovery. A failed listing changes nothing. Otherwise what is known afterwards
        is wanted and within the cap, the report is exactly the change, each branch added has
        its own worktree, and all that can be had of what is wanted is known if and only if
        it and what was known before together fit the cap. */
    method Discover(listing: Option<seq<Branch>>, worktrees: map<Branch, Text>, making: Making)
      returns (report: Option<Delta>)
      requires Valid()
      modifies this
      ensures Valid()
      ensures listing.None? <==> report.None?
      ensures report.None? ==> known == old(known) && deltas == old(deltas)
      ensures report.Some? ==>
                var d, wanted := report.value, Wanted(matches, listing.value, worktrees);
                && deltas == old(deltas) + [d] && known == Applied(old(known), d)
                && BranchesOf(d.added) !! old(known).Keys && BranchesOf(d.added) <= wanted
                && NoRepeats(d.removed) && Elems(d.removed) == old(known).Keys - wanted
                && known.Keys == old(known).Keys * wanted + BranchesOf(d.added)
                && Housed(d.added, worktrees, making)
                && var reach := Reachable(wanted, old(known).Keys, worktrees, making);
                   known.Keys <= reach && (known.Keys == reach <==> |old(known).Keys + reach| <= maxBranches)
    {
      hide AddAll, BranchesOf, Replay, Wanted, NoRepeats, Elems, Applied, Reachable, Housed;
      if listing.None? {
        return None;
      }
      var matched := Match(listing.value, worktrees);
      ghost var wanted := Wanted(matches, listing.value, worktrees);
      ghost var before := known;
      ghost var reach := Reachable(wanted, before.Keys, worktrees, making);
      var added := AddMatched(matched, worktrees, making);
      AddAllKeys(before, added);
      ghost var full := known;
      var removed := FindRemoved(matched);
      var d := Delta(added, removed);
      known := known - Elems(removed);
      deltas := deltas + [d];
      ReplayOneMore(old(deltas), d);
      ChangeIsReported(before, d, full, wanted);
      AddedIsReachable(before.Keys, added, wanted, worktrees, making);
      ReachedOnlyWhenFits(before.Keys, BranchesOf(added), wanted, reach, maxBranches, full.Keys);
      return Some(d);
    }

    lemma AddedIsReachable(before: set<Branch>, added: seq<State>, wanted: set<Branch>, worktrees: map<Branch, Text>,
                           making: Making)
      requires BranchesOf(added) <= wanted
      requires Housed(added, worktrees, making)
      ensures BranchesOf(added) <= Reachable(wanted, before, worktrees, making)
      ensures before * wanted <= Reachable(wanted, before, worktrees, making) <= wanted
    {
      forall b | b in BranchesOf(added) ensures WorktreeOf(worktrees, making, b).Some? {
        var s :| s in added && s.branch == b;
        var i :| 0 <= i < |added| && added[i] == s;
      }
    }

    lemma ChangeIsReported(before: Known, d: Delta, full: Known, wanted: set<Branch>)
      requires full == AddAll(before, d.added) && full.Keys == before.Keys + BranchesOf(d.added)
      requires BranchesOf(d.added) <= wanted
      requires Elems(d.removed) == full.Keys - wanted
      ensures var now := full - Elems(d.removed);
              && now == Applied(before, d) && |now| <= |full|
              && now.Keys == before.Keys * wanted + BranchesOf(d.added)
              && now.Keys == full.Keys - (full.Keys - wanted)
              && Elems(d.removed) == before.Keys - wanted
    {
      hide AddAll, BranchesOf, Elems;
      Shrinks(full, Elems(d.removed));
    }

    lemma ReplayOneMore(deltas: seq<Delta>, d: Delta)
      ensures Replay(deltas + [d]) == Applied(Replay(deltas), d)
    {
      assert (deltas + [d])[..|deltas|] == deltas;
    }

    lemma Shrinks(known: Known, gone: set<Branch>)
      ensures |known - gone| <= |known|
    {
      Subset((known - gone).Keys, known.Keys);
      assert |(known - gone).Keys| == |known - gone| && |known.Keys| == |known|;
    }

    lemma Subset(a: set<Branch>, b: set<Branch>)
      requires a <= b
      ensures |a| <= |b|
      ensures |a| == |b| ==> a == b
    {
      assert b == a + (b - a);
      assert |b| == |a| + |b - a|;
      if |a| == |b| {
        assert b - a == {};
      }
    }

    lemma ReachedOnlyWhenFits(before: set<Branch>, added: set<Branch>, wanted: set<Branch>, reach: set<Branch>, cap: nat,
                              full: set<Branch>)
      requires full == before + added && added <= reach && before * wanted <= reach <= wanted && |full| <= cap
      requires reach <= full || |full| == cap
      ensures full - (full - wanted) <= reach
      ensures full - (full - wanted) == reach <==> |before + reach| <= cap
    {
      if reach <= full {
        assert before + reach == full;
      } else {
        Subset(full, before + reach);
      }
    }

    /** What one tick comes to, as far as the set of known branches goes. */
    method Tick(listing: seq<Branch>, worktrees: map<Branch, Text>, making: Making) returns (d: Delta)
      requires Valid()
      modifies this
      ensures Valid()
      ensures var wanted := Wanted(matches, listing, worktrees);
              var reach := Reachable(wanted, old(known).Keys, worktrees, making);
              && old(known).Keys * wanted <= known.Keys <= reach
              && (known.Keys == reach <==> |old(known).Keys + reach| <= maxBranches)
    {
      hide AddAll, BranchesOf, Replay, Wanted, NoRepeats, Elems, Applied, Reachable, Housed;
      var report := Discover(Some(listing), worktrees, making);
      return report.value;
    }

    /** Two ticks on one listing reach all that can be had of what is wanted whenever it fits
        the cap, whatever was known before; one may not, because removal follows the cap
        check. */
    method DiscoverTwice(listing: seq<Branch>, worktrees: map<Branch, Text>, making: Making)
      returns (first: Delta, second: Delta)
      requires Valid()
      modifies this
      ensures Valid()
      ensures var reach := Reachable(Wanted(matches, listing, worktrees), old(known).Keys, worktrees, making);
              known.Keys <= reach && (|reach| <= maxBranches ==> known.Keys == reach)
    {
      hide AddAll, BranchesOf, Replay, Wanted, NoRepeats, Elems, Applied, Reachable, Housed;
      ghost var before := known.Keys;
      ghost var wanted := Wanted(matches, listing, worktrees);
      first := Tick(listing, worktrees, making);
      ghost var mid := known.Keys;
      second := Tick(listing, worktrees, making);
      ReachStays(wanted, before, mid, worktrees, making);
      assert mid + Reachable(wanted, mid, worktrees, making) == Reachable(wanted, mid, worktrees, making);
    }

    lemma ReachStays(wanted: set<Branch>, before: set<Branch>, mid: set<Branch>, worktrees: map<Branch, Text>, making: Making)
      requires before * wanted <= mid <= Reachable(wanted, before, worktrees, making)
      ensures Reachable(wanted, mid, worktrees, making) == Reachable(wanted, before, worktrees, making)
    {
    }
  }
}
