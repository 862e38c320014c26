/** The three loops of a reconcile pass, turn by turn: what each has done to the tracked pins,
    to a store that takes every write, and to the log of what was in the store. */
module Passes {
  import opened Bytes
  import opened Submodules

  /** Every state logged since `from` keeps these names. */
  predicate AllKeep(log: seq<set<Name>>, from: nat, keep: set<Name>) {
    forall k :: from <= k < |log| ==> keep <= log[k]
  }

  predicate Extends(log: seq<set<Name>>, before: seq<set<Name>>) {
    |before| <= |log| && log[..|before|] == before
  }

  lemma LogNothing(log: seq<set<Name>>, keep: set<Name>)
    ensures Extends(log, log) && AllKeep(log, |log|, keep)
  {
  }

  /** One more logged state that keeps the names. */
  lemma LogOneMore(log: seq<set<Name>>, before: seq<set<Name>>, keep: set<Name>, state: set<Name>)
    requires Extends(log, before) && AllKeep(log, |before|, keep) && keep <= state
    ensures Extends(log + [state], before) && AllKeep(log + [state], |before|, keep)
  {
    assert (log + [state])[..|before|] == log[..|before|];
  }

  ghost predicate AllOldOrNew(names: Naming, log: seq<set<Name>>, from: nat, before: Tracked, desired: Desired) {
    forall k :: from <= k < |log| ==> OldOrNew(names, log[k], before, desired)
  }

  /** The log has only grown, and where `safe` by states with all old or all new instances. */
  ghost predicate Logged(names: Naming, log: seq<set<Name>>, log0: seq<set<Name>>, safe: bool,
                         before: Tracked, desired: Desired) {
    Extends(log, log0) && (safe ==> AllOldOrNew(names, log, |log0|, before, desired))
  }

  lemma NothingLogged(names: Naming, log: seq<set<Name>>, safe: bool, before: Tracked, desired: Desired)
    ensures Logged(names, log, log, safe, before, desired)
  {
  }

  lemma KeptIsLogged(names: Naming, log: seq<set<Name>>, log0: seq<set<Name>>, safe: bool, keep: set<Name>,
                     tracked: Tracked, before: Tracked, desired: Desired)
    requires Extends(log, log0) && AllKeep(log, |log0|, keep)
    requires Between(tracked, before, desired) && (safe ==> HoldsWanted(names, keep, tracked, desired))
    ensures Logged(names, log, log0, safe, before, desired)
  {
    if safe {
      HeldIsOldOrNew(names, keep, tracked, before, desired);
    }
  }

  lemma LogGrows(names: Naming, log: seq<set<Name>>, log0: seq<set<Name>>, safe: bool, before: Tracked, desired: Desired)
    requires Logged(names, log, log0, safe, before, desired)
    ensures |log0| <= |log|
  {
  }

  lemma LogsCompose(names: Naming, log0: seq<set<Name>>, log1: seq<set<Name>>, log2: seq<set<Name>>, safe: bool,
                    before: Tracked, desired: Desired)
    requires Logged(names, log1, log0, safe, before, desired) && Logged(names, log2, log1, safe, before, desired)
    ensures Logged(names, log2, log0, safe, before, desired)
  {
    hide OldOrNew;
    assert log2[..|log0|] == log2[..|log1|][..|log0|];
    forall k | |log0| <= k < |log2| && safe ensures OldOrNew(names, log2[k], before, desired) {
      if k < |log1| {
        assert log2[k] == log2[..|log1|][k] == log1[k];
      }
    }
  }

  lemma PutAllKeys(kv: map<Name, Link>, names: set<Name>, link: Link)
    ensures PutAll(kv, names, link).Keys == kv.Keys + names
  {
  }

  /** How spawns and writes go: whether a link's configs can be built; whether put or delete
      number `n` is accepted, for the name it is of; whether a refused one takes effect. */
  datatype Env = Env(builds: Link -> bool, puts: (nat, Name) -> bool, deletes: (nat, Name) -> bool, lands: nat -> bool) {
    ghost predicate Healthy() {
      (forall l :: builds(l)) && (forall n, x :: puts(n, x) && deletes(n, x))
    }

    /** Among writes from..to a delete of this name is refused. */
    ghost predicate RefusesDelete(x: Name, from: nat, to: nat) {
      exists n :: from <= n < to && !deletes(n, x)
    }

    /** Among writes from..to no put of this link's instances is refused, and it can be
        built. */
    ghost predicate Untroubled(names: Naming, from: nat, to: nat, l: Link) {
      builds(l) && forall n, x :: from <= n < to && x in names(l) ==> puts(n, x)
    }
  }

  /** Delete number `n` of this name either is accepted or counts as refused from then on. */
  lemma DeletedOrRefused(env: Env, x: Name, from: nat, n: nat)
    requires from <= n
    ensures !env.deletes(n, x) ==> env.RefusesDelete(x, from, n + 1) && !env.Healthy()
    ensures forall y, to: nat :: env.RefusesDelete(y, from, to) ==> env.RefusesDelete(y, from, to + 1)
  {
  }

  /** What a store and a log held at one moment. */
  datatype Moment = Moment(kv: map<Name, Link>, log: seq<set<Name>>, tracked: Tracked)

  /** Between the two moments some put of the link's was refused, or it could not be built. */
  ghost predicate Troubled(names: Naming, env: Env, now: Moment, was: Moment, l: Link) {
    !env.Untroubled(names, |was.log|, |now.log|, l)
  }

  /** One turn of the remove loop: done as `RemoveOne` says, or nothing tracked otherwise
      when the new pin's spawn failed; nothing is written for a pin that stays. */
  ghost predicate Reconciled(names: Naming, env: Env, now: Moment, was: Moment, desired: Desired, p: Path)
    requires p in was.tracked
  {
    && (now.tracked == RemoveOne(names, was.tracked, desired, p)
        || (p in desired && Troubled(names, env, now, was, Link(p, desired[p])) && now.tracked == was.tracked))
    && (!Drops(was.tracked, desired, p) ==> now == was)
    && (env.Healthy() ==> now.kv.Keys == RemovedOne(names, was.kv.Keys, was.tracked, desired, p))
    && (env.Healthy() && NoStray(names, was.kv, was.tracked) ==> NoStray(names, now.kv, now.tracked))
  }

  /** One turn of the confirm loop: done as `ConfirmOne` says, or nothing confirmed when a
      put failed; nothing is written for a confirmed pin. */
  ghost predicate Confirmed(names: Naming, env: Env, now: Moment, was: Moment, desired: Desired, p: Path)
    requires p in was.tracked
  {
    && (now.tracked == ConfirmOne(was.tracked, desired, p)
        || (p in desired && Troubled(names, env, now, was, Link(p, desired[p])) && now.tracked == was.tracked))
    && (was.tracked[p].confirmed ==> now == was)
    && (env.Healthy() ==> now.kv.Keys == ConfirmedOne(names, was.kv.Keys, was.tracked, desired, p))
    && (env.Healthy() && NoStray(names, was.kv, was.tracked) && SameUrls(was.tracked, desired) ==>
          NoStray(names, now.kv, now.tracked) && SameUrls(now.tracked, desired))
  }

  /** One turn of the add loop: done as `AddOne` says, or nothing tracked when a put failed;
      nothing is written for a path already tracked. */
  ghost predicate Added(names: Naming, env: Env, now: Moment, was: Moment, desired: Desired, p: Path)
    requires p in desired
  {
    && (now.tracked == AddOne(names, was.tracked, desired, p)
        || (Troubled(names, env, now, was, Link(p, desired[p])) && now.tracked == was.tracked))
    && (p in was.tracked ==> now == was)
    && (env.Healthy() ==> now.kv.Keys == AddedOne(names, was.kv.Keys, was.tracked, desired, p))
    && (env.Healthy() && NoStray(names, was.kv, was.tracked) ==> NoStray(names, now.kv, now.tracked))
  }

  /** The names in a healthy store after one turn of each loop. */
  ghost function RemovedOne(names: Naming, present: set<Name>, t: Tracked, desired: Desired, p: Path): set<Name>
    requires p in t
  {
    if p !in desired then present - names(t[p].link)
    else if Moved(t, desired, p) then present + names(Link(p, desired[p])) - names(t[p].link)
    else present
  }

  ghost function ConfirmedOne(names: Naming, present: set<Name>, t: Tracked, desired: Desired, p: Path): set<Name>
    requires p in t
  {
    if p in desired && !Moved(t, desired, p) && !t[p].confirmed then present + names(Link(p, desired[p])) else present
  }

  ghost function AddedOne(names: Naming, present: set<Name>, t: Tracked, desired: Desired, p: Path): set<Name>
    requires p in desired
  {
    if p in t then present else present + names(Link(p, desired[p]))
  }

  lemma NamedAt(names: Naming, tracked: Tracked, p: Path)
    requires Named(names, tracked) && p in tracked
    ensures tracked[p].link.path == p && tracked[p].names == names(tracked[p].link)
  {
  }

  lemma StillHeld(names: Naming, present: set<Name>, more: set<Name>, safe: bool, tracked: Tracked, desired: Desired)
    requires safe ==> HoldsWanted(names, present, tracked, desired)
    requires present <= more
    ensures safe ==> HoldsWanted(names, more, tracked, desired)
  {
  }

  lemma MovedIsSound(names: Naming, tracked: Tracked, before: Tracked, desired: Desired, p: Path)
    requires Named(names, tracked) && Between(tracked, before, desired)
    requires p in tracked && p in desired && Moved(tracked, desired, p)
    ensures var next := tracked[p := Spawn(names, desired, p)];
            Named(names, next) && Between(next, before, desired)
  {
    DroppedIsOld(tracked, before, desired, p);
  }

  lemma GoneIsSound(names: Naming, tracked: Tracked, before: Tracked, desired: Desired, p: Path)
    requires Named(names, tracked) && Between(tracked, before, desired) && p !in desired
    ensures Named(names, tracked - {p}) && Between(tracked - {p}, before, desired)
  {
  }

  lemma ConfirmedIsSound(names: Naming, present: set<Name>, safe: bool, tracked: Tracked, before: Tracked,
                         desired: Desired, p: Path)
    requires Named(names, tracked) && Between(tracked, before, desired) && p in tracked
    requires safe ==> HoldsWanted(names, present, tracked, desired)
    ensures var next := tracked[p := tracked[p].(confirmed := true)];
            && Named(names, next) && Between(next, before, desired)
            && (safe ==> HoldsWanted(names, present, next, desired))
  {
  }

  lemma AddedIsSound(names: Naming, present: set<Name>, safe: bool, tracked: Tracked, before: Tracked,
                     desired: Desired, p: Path)
    requires Named(names, tracked) && Between(tracked, before, desired) && p !in tracked
    requires p in desired && names(Link(p, desired[p])) <= present
    requires safe ==> HoldsWanted(names, present, tracked, desired)
    ensures var next := tracked[p := Spawn(names, desired, p)];
            && Named(names, next) && Between(next, before, desired)
            && (safe ==> HoldsWanted(names, present, next, desired))
  {
  }

  /** The remove loop with `todo` still to visit. */
  ghost predicate RemovingSoFar(names: Naming, env: Env, now: Moment, was: Moment, desired: Desired,
                                safe: bool, todo: set<Path>) {
    && todo <= was.tracked.Keys && InReach(now.tracked.Keys, was.tracked.Keys, desired.Keys, todo)
    && (env.Healthy() ==>
          && now.tracked == Removing(names, was.tracked, desired, todo)
          && SomeDropped(names, now.kv.Keys, was.kv.Keys, was.tracked, desired, was.tracked.Keys - todo))
    && (env.Healthy() && NoStray(names, was.kv, was.tracked) ==> NoStray(names, now.kv, now.tracked))
    && (Quiet(was.tracked, desired) ==> now == was)
    && Logged(names, now.log, was.log, safe, was.tracked, desired)
  }

  lemma RemovingStarts(names: Naming, env: Env, was: Moment, desired: Desired, safe: bool)
    ensures RemovingSoFar(names, env, was, was, desired, safe, was.tracked.Keys)
  {
    hide Removing, SomeDropped, NoStray, Logged, Quiet;
    LoopEnds(names, was.tracked, desired);
    NothingDropped(names, was.kv.Keys, was.tracked, desired);
    NothingLogged(names, was.log, safe, was.tracked, desired);
    assert was.tracked.Keys - was.tracked.Keys == {};
  }

  lemma RemovingReaches(names: Naming, env: Env, mid: Moment, was: Moment, desired: Desired, safe: bool,
                        todo: set<Path>, p: Path)
    requires RemovingSoFar(names, env, mid, was, desired, safe, todo) && p in todo
    ensures p in mid.tracked && mid.tracked.Keys <= was.tracked.Keys
  {
  }

  lemma RemovingTurn(names: Naming, env: Env, now: Moment, mid: Moment, was: Moment, desired: Desired,
                     safe: bool, todo: set<Path>, p: Path)
    requires RemovingSoFar(names, env, mid, was, desired, safe, todo) && p in todo && p in mid.tracked
    requires Reconciled(names, env, now, mid, desired, p)
    requires Logged(names, now.log, mid.log, safe, was.tracked, desired)
    ensures RemovingSoFar(names, env, now, was, desired, safe, todo - {p})
  {
    hide Removing, SomeDropped, NoStray, Logged, Moved, RemovedOne;
    var before := was.tracked;
    ReachStep(mid.tracked.Keys, before.Keys, desired.Keys, todo, p);
    QuietAt(before, desired, p);
    LogsCompose(names, was.log, mid.log, now.log, safe, before, desired);
    if env.Healthy() {
      RemovingStep(names, before, desired, todo, p);
      DroppingTurn(names, mid.kv.Keys, was.kv.Keys, mid.tracked, before, desired, todo, p);
    }
  }

  lemma RemovingEnds(names: Naming, env: Env, now: Moment, was: Moment, desired: Desired, safe: bool)
    requires RemovingSoFar(names, env, now, was, desired, safe, {})
    ensures now.tracked.Keys == was.tracked.Keys * desired.Keys
    ensures env.Healthy() ==>
              && now.tracked == Removing(names, was.tracked, desired, {})
              && SomeDropped(names, now.kv.Keys, was.kv.Keys, was.tracked, desired, was.tracked.Keys)
    ensures env.Healthy() && NoStray(names, was.kv, was.tracked) ==> NoStray(names, now.kv, now.tracked)
    ensures Quiet(was.tracked, desired) ==> now == was
    ensures Logged(names, now.log, was.log, safe, was.tracked, desired)
  {
    assert was.tracked.Keys - {} == was.tracked.Keys;
  }

  lemma StartsSound(names: Naming, present: set<Name>, safe: bool, before: Tracked, desired: Desired)
    requires Named(names, before) && (safe ==> Safe(names, present, before, desired))
    ensures Named(names, before) && Between(before, before, desired)
    ensures safe ==> Spares(names, before, desired) && HoldsWanted(names, present, before, desired)
  {
  }

  /** A healthy store part way through the remove loop: what is given up among the visited
      is gone, and at most what moved there is new. */
  ghost predicate SomeDropped(names: Naming, present: set<Name>, start: set<Name>, t: Tracked,
                              desired: Desired, visited: set<Path>) {
    && start - DroppedNames(names, t, desired, visited) <= present
    && present <= start - DroppedNames(names, t, desired, visited) + MovedNames(names, t, desired, visited)
  }

  lemma NothingDropped(names: Naming, start: set<Name>, t: Tracked, desired: Desired)
    ensures SomeDropped(names, start, start, t, desired, {})
  {
  }

  lemma OneMoreDropped(names: Naming, present: set<Name>, start: set<Name>, t: Tracked, desired: Desired,
                       visited: set<Path>, p: Path)
    requires SomeDropped(names, present, start, t, desired, visited) && p in t
    ensures SomeDropped(names, RemovedOne(names, present, t, desired, p), start, t, desired, visited + {p})
  {
    hide DroppedNames, MovedNames;
    VisitRemoving(names, t, desired, visited, p);
  }

  lemma RemovingAt(names: Naming, before: Tracked, desired: Desired, todo: set<Path>, p: Path)
    requires p in todo && todo <= before.Keys
    ensures p in Removing(names, before, desired, todo) && Removing(names, before, desired, todo)[p] == before[p]
  {
  }

  lemma SameTurn(names: Naming, present: set<Name>, t: Tracked, before: Tracked, desired: Desired, p: Path)
    requires p in t && p in before && t[p] == before[p]
    ensures RemovedOne(names, present, t, desired, p) == RemovedOne(names, present, before, desired, p)
    ensures ConfirmedOne(names, present, t, desired, p) == ConfirmedOne(names, present, before, desired, p)
  {
  }

  /** What is tracked with `todo` still to come: the wanted paths and the unvisited ones. */
  predicate InReach(paths: set<Path>, before: set<Path>, wanted: set<Path>, todo: set<Path>) {
    paths == before * (wanted + todo)
  }

  lemma ReachStep(paths: set<Path>, before: set<Path>, wanted: set<Path>, todo: set<Path>, p: Path)
    requires InReach(paths, before, wanted, todo) && p in todo && todo <= before
    ensures p in paths && paths <= before
    ensures InReach(if p in wanted then paths else paths - {p}, before, wanted, todo - {p})
  {
  }

  lemma DroppingTurn(names: Naming, present: set<Name>, start: set<Name>, t: Tracked, before: Tracked,
                     desired: Desired, todo: set<Path>, p: Path)
    requires p in todo && todo <= before.Keys && p in t && t == Removing(names, before, desired, todo)
    requires SomeDropped(names, present, start, before, desired, before.Keys - todo)
    ensures SomeDropped(names, RemovedOne(names, present, t, desired, p), start, before, desired, before.Keys - (todo - {p}))
  {
    hide Removing, RemovedOne, SomeDropped;
    RemovingAt(names, before, desired, todo, p);
    SameTurn(names, present, t, before, desired, p);
    OneMoreDropped(names, present, start, before, desired, before.Keys - todo, p);
    assert before.Keys - (todo - {p}) == before.Keys - todo + {p};
  }

  lemma QuietAt(t: Tracked, desired: Desired, p: Path)
    requires p in t
    ensures Quiet(t, desired) ==>
              p in desired && !Moved(t, desired, p) && t[p].confirmed
              && (forall names :: RemoveOne(names, t, desired, p) == t)
  {
  }

  /** The confirm loop with `todo` still to visit. */
  ghost predicate ConfirmingSoFar(names: Naming, env: Env, now: Moment, was: Moment, desired: Desired,
                                  safe: bool, before: Tracked, todo: set<Path>) {
    && todo <= was.tracked.Keys == now.tracked.Keys
    && (env.Healthy() ==>
          && now.tracked == Confirming(was.tracked, desired, todo)
          && now.kv.Keys == was.kv.Keys + ConfirmedNames(names, was.tracked, desired, was.tracked.Keys - todo))
    && (env.Healthy() && NoStray(names, was.kv, was.tracked) && SameUrls(was.tracked, desired) ==>
          NoStray(names, now.kv, now.tracked) && SameUrls(now.tracked, desired))
    && (Quiet(was.tracked, desired) ==> now == was)
    && Logged(names, now.log, was.log, safe, before, desired)
  }

  lemma ConfirmingStarts(names: Naming, env: Env, was: Moment, desired: Desired, safe: bool, before: Tracked)
    ensures ConfirmingSoFar(names, env, was, was, desired, safe, before, was.tracked.Keys)
  {
    hide Confirming, ConfirmedNames, NoStray, Logged, Quiet, SameUrls;
    ConfirmsNothingYet(names, was.tracked, desired);
    NothingLogged(names, was.log, safe, before, desired);
    assert was.tracked.Keys - was.tracked.Keys == {};
  }

  lemma ConfirmingReaches(names: Naming, env: Env, mid: Moment, was: Moment, desired: Desired, safe: bool,
                          before: Tracked, todo: set<Path>, p: Path)
    requires ConfirmingSoFar(names, env, mid, was, desired, safe, before, todo) && p in todo
    ensures p in mid.tracked
  {
  }

  lemma ConfirmingTurn(names: Naming, env: Env, now: Moment, mid: Moment, was: Moment, desired: Desired,
                       safe: bool, before: Tracked, todo: set<Path>, p: Path)
    requires ConfirmingSoFar(names, env, mid, was, desired, safe, before, todo) && p in todo && p in mid.tracked
    requires Confirmed(names, env, now, mid, desired, p)
    requires Logged(names, now.log, mid.log, safe, before, desired)
    ensures ConfirmingSoFar(names, env, now, was, desired, safe, before, todo - {p})
  {
    hide Confirming, ConfirmedNames, NoStray, Logged, Quiet, SameUrls, ConfirmedOne, ConfirmOne;
    var t0 := was.tracked;
    ConfirmOneEffect(mid.tracked, desired, p);
    LogsCompose(names, was.log, mid.log, now.log, safe, before, desired);
    if env.Healthy() {
      ConfirmingStep(t0, desired, todo, p);
      ConfirmingAt(t0, desired, todo, p);
      SameTurn(names, mid.kv.Keys, mid.tracked, t0, desired, p);
      OneMoreConfirmed(names, mid.kv.Keys, was.kv.Keys, t0, desired, t0.Keys - todo, p);
      assert t0.Keys - (todo - {p}) == t0.Keys - todo + {p};
    }
  }

  lemma OneMoreConfirmed(names: Naming, present: set<Name>, start: set<Name>, t: Tracked, desired: Desired,
                         visited: set<Path>, p: Path)
    requires present == start + ConfirmedNames(names, t, desired, visited) && p in t
    ensures ConfirmedOne(names, present, t, desired, p) == start + ConfirmedNames(names, t, desired, visited + {p})
  {
    hide ConfirmedNames;
    VisitConfirming(names, t, desired, visited, p);
  }

  lemma ConfirmOneEffect(t: Tracked, desired: Desired, p: Path)
    requires p in t
    ensures ConfirmOne(t, desired, p).Keys == t.Keys
    ensures Quiet(t, desired) ==> t[p].confirmed
  {
  }

  lemma ConfirmingAt(t: Tracked, desired: Desired, todo: set<Path>, p: Path)
    requires p in todo && todo <= t.Keys
    ensures p in Confirming(t, desired, todo) && Confirming(t, desired, todo)[p] == t[p]
  {
  }

  /** The add loop with `todo` still to visit. */
  ghost predicate AddingSoFar(names: Naming, env: Env, now: Moment, was: Moment, desired: Desired,
                              safe: bool, before: Tracked, todo: set<Path>) {
    && todo <= desired.Keys && now.tracked.Keys <= desired.Keys
    && (env.Healthy() ==>
          && now.tracked == Adding(names, was.tracked, desired, todo)
          && now.kv.Keys == was.kv.Keys + AddedNames(names, was.tracked, desired, desired.Keys - todo))
    && (env.Healthy() && NoStray(names, was.kv, was.tracked) ==> NoStray(names, now.kv, now.tracked))
    && (Quiet(was.tracked, desired) ==> now == was)
    && Logged(names, now.log, was.log, safe, before, desired)
  }

  lemma AddingStarts(names: Naming, env: Env, was: Moment, desired: Desired, safe: bool, before: Tracked)
    requires was.tracked.Keys <= desired.Keys
    ensures AddingSoFar(names, env, was, was, desired, safe, before, desired.Keys)
  {
    hide Adding, AddedNames, NoStray, Logged, Quiet;
    AddsNothingYet(names, was.tracked, desired);
    NothingLogged(names, was.log, safe, before, desired);
    assert desired.Keys - desired.Keys == {};
  }

  lemma AddingTurn(names: Naming, env: Env, now: Moment, mid: Moment, was: Moment, desired: Desired,
                   safe: bool, before: Tracked, todo: set<Path>, p: Path)
    requires AddingSoFar(names, env, mid, was, desired, safe, before, todo) && p in todo
    requires Added(names, env, now, mid, desired, p)
    requires Logged(names, now.log, mid.log, safe, before, desired)
    ensures AddingSoFar(names, env, now, was, desired, safe, before, todo - {p})
  {
    hide Adding, AddedNames, NoStray, Logged, Quiet, AddedOne, AddOne;
    AddOneEffect(names, mid.tracked, desired, p);
    LogsCompose(names, was.log, mid.log, now.log, safe, before, desired);
    if env.Healthy() {
      AddingStep(names, was.tracked, desired, todo, p);
      OneMoreAdded(names, mid.kv.Keys, was.kv.Keys, was.tracked, desired, todo, p);
      assert desired.Keys - (todo - {p}) == desired.Keys - todo + {p};
    }
  }

  lemma OneMoreAdded(names: Naming, present: set<Name>, start: set<Name>, t: Tracked, desired: Desired,
                     todo: set<Path>, p: Path)
    requires p in todo && todo <= desired.Keys
    requires present == start + AddedNames(names, t, desired, desired.Keys - todo)
    ensures AddedOne(names, present, Adding(names, t, desired, todo), desired, p)
         == start + AddedNames(names, t, desired, desired.Keys - todo + {p})
  {
    hide AddedNames;
    VisitAdding(names, t, desired, desired.Keys - todo, p);
  }

  lemma AddOneEffect(names: Naming, t: Tracked, desired: Desired, p: Path)
    requires p in desired
    ensures AddOne(names, t, desired, p).Keys == t.Keys + {p}
    ensures Quiet(t, desired) ==> p in t && AddOne(names, t, desired, p) == t
  {
  }

  lemma ConfirmsNothingYet(names: Naming, t: Tracked, desired: Desired)
    ensures Confirming(t, desired, t.Keys) == t && ConfirmedNames(names, t, desired, {}) == {}
  {
  }

  lemma AddsNothingYet(names: Naming, t: Tracked, desired: Desired)
    ensures Adding(names, t, desired, desired.Keys) == t && AddedNames(names, t, desired, {}) == {}
  {
  }

  /** The three loops' shares of a healthy store, put together. Whatever a later path's
      deletion takes of a moved pin the confirm loop puts again. */
  lemma LoopsMakePassed(names: Naming, present: set<Name>, start: set<Name>, before: Tracked, desired: Desired)
    requires SomeDropped(names, present, start, before, desired, before.Keys)
    ensures var t := Removing(names, before, desired, {});
            present + ConfirmedNames(names, t, desired, t.Keys)
              + AddedNames(names, Confirming(t, desired, {}), desired, desired.Keys)
            == PassedNames(names, start, before, desired)
  {
    hide DroppedNames, MovedNames, ConfirmedNames, AddedNames, Removing, Confirming;
    AfterRemoving(names, before, desired);
  }

  lemma WantedIsAll(names: Naming, present: set<Name>, tracked: Tracked, desired: Desired)
    requires HoldsWanted(names, present, tracked, desired) && tracked.Keys <= desired.Keys
    ensures Holds(names, present, tracked)
  {
    forall p | p in tracked ensures names(tracked[p].link) <= present {
      assert p in desired.Keys;
    }
  }

  lemma RemovingKeepsUrls(names: Naming, before: Tracked, desired: Desired)
    ensures SameUrls(before, desired) ==> SameUrls(Removing(names, before, desired, {}), desired)
  {
  }

  lemma AgreedNamesStay(names: Naming, t: Tracked, desired: Desired)
    requires Agrees(t, desired)
    ensures AllNames(names, Ticked(names, t, desired)) == AllNames(names, t)
  {
    var next := Ticked(names, t, desired);
    assert next.Keys == t.Keys;
    forall p | p in t ensures next[p].link == t[p].link {
    }
  }

  /** The tracked paths after a healthy pass are those with an entry that can be had. */
  lemma TickedTracksWanted(names: Naming, before: Tracked, inventory: seq<Submodule>)
    ensures forall p :: p in Ticked(names, before, DesiredOf(inventory)) <==>
              exists i :: 0 <= i < |inventory| && inventory[i].path == p && CanBeHad(inventory[i])
  {
    hide DesiredOf, CanBeHad;
    forall p ensures p in Ticked(names, before, DesiredOf(inventory)) <==>
        exists i :: 0 <= i < |inventory| && inventory[i].path == p && CanBeHad(inventory[i])
    {
      DesiredExactly(inventory, p);
    }
  }

  // ---- one path's failures are its own ----

  /** A refused put, or a link that cannot be built, is trouble. */
  lemma RefusedIsTrouble(names: Naming, env: Env, from: nat, to: nat, l: Link, n: nat, x: Name)
    requires !env.builds(l) || (from <= n < to && x in names(l) && !env.puts(n, x))
    ensures !env.Untroubled(names, from, to, l) && !env.Healthy()
  {
  }

  lemma NothingServed(names: Naming, env: Env, was: Moment, desired: Desired)
    ensures RemovingServes(names, env, was, was, desired, was.tracked.Keys)
    ensures ConfirmingServes(names, env, was, was, desired, was.tracked.Keys)
    ensures was.tracked.Keys <= desired.Keys ==> AddingServes(names, env, was, was, desired, desired.Keys)
  {
  }

  lemma SmallerWindow(names: Naming, env: Env, from: nat, to: nat, from': nat, to': nat, l: Link)
    requires env.Untroubled(names, from, to, l) && from <= from' && to' <= to
    ensures env.Untroubled(names, from', to', l)
  {
  }

  /** Of the visited paths, each that had no trouble is tracked at its wanted commit. */
  ghost predicate RemovingServes(names: Naming, env: Env, now: Moment, was: Moment, desired: Desired, todo: set<Path>) {
    && |was.log| <= |now.log|
    && forall p :: p in was.tracked && p !in todo && p in desired && !Troubled(names, env, now, was, Link(p, desired[p]))
                   ==> p in now.tracked && !Moved(now.tracked, desired, p)
  }

  lemma RemovingServesTurn(names: Naming, env: Env, now: Moment, mid: Moment, was: Moment, desired: Desired,
                           todo: set<Path>, p: Path)
    requires RemovingServes(names, env, mid, was, desired, todo) && p in mid.tracked
    requires Reconciled(names, env, now, mid, desired, p) && |mid.log| <= |now.log|
    ensures RemovingServes(names, env, now, was, desired, todo - {p})
  {
    hide NoStray, RemovedOne, Env.Untroubled, Env.Healthy;
    forall q | q in was.tracked && q !in todo - {p} && q in desired && !Troubled(names, env, now, was, Link(q, desired[q]))
      ensures q in now.tracked && !Moved(now.tracked, desired, q)
    {
      var l := Link(q, desired[q]);
      SmallerWindow(names, env, |was.log|, |now.log|, |was.log|, |mid.log|, l);
      SmallerWindow(names, env, |was.log|, |now.log|, |mid.log|, |now.log|, l);
    }
  }

  /** Links stay as they are; of the visited paths, each that had no trouble and is at its
      wanted commit is confirmed. */
  ghost predicate ConfirmingServes(names: Naming, env: Env, now: Moment, was: Moment, desired: Desired, todo: set<Path>) {
    && |was.log| <= |now.log| && now.tracked.Keys == was.tracked.Keys
    && (forall p :: p in was.tracked ==> now.tracked[p].link == was.tracked[p].link)
    && forall p :: (p in was.tracked && p !in todo && p in desired && !Moved(was.tracked, desired, p)
                    && !Troubled(names, env, now, was, Link(p, desired[p]))) ==> now.tracked[p].confirmed
  }

  lemma ConfirmingServesTurn(names: Naming, env: Env, now: Moment, mid: Moment, was: Moment, desired: Desired,
                             todo: set<Path>, p: Path)
    requires ConfirmingServes(names, env, mid, was, desired, todo) && p in mid.tracked
    requires Confirmed(names, env, now, mid, desired, p) && |mid.log| <= |now.log|
    ensures ConfirmingServes(names, env, now, was, desired, todo - {p})
  {
    hide NoStray, ConfirmedOne, SameUrls, Env.Untroubled, Env.Healthy;
    forall q | q in was.tracked && q !in todo - {p} && q in desired && !Moved(was.tracked, desired, q)
               && !Troubled(names, env, now, was, Link(q, desired[q]))
      ensures now.tracked[q].confirmed
    {
      var l := Link(q, desired[q]);
      SmallerWindow(names, env, |was.log|, |now.log|, |was.log|, |mid.log|, l);
      SmallerWindow(names, env, |was.log|, |now.log|, |mid.log|, |now.log|, l);
    }
  }

  /** What was tracked stays so; of the visited paths, each that had no trouble is tracked, and
      a new one at its wanted link. */
  ghost predicate AddingServes(names: Naming, env: Env, now: Moment, was: Moment, desired: Desired, todo: set<Path>) {
    && |was.log| <= |now.log|
    && (forall p :: p in was.tracked ==> p in now.tracked && now.tracked[p] == was.tracked[p])
    && (forall p :: p in now.tracked && p !in was.tracked ==> p in desired && now.tracked[p].link == Link(p, desired[p]))
    && forall p :: p in desired && p !in todo && !Troubled(names, env, now, was, Link(p, desired[p])) ==> p in now.tracked
  }

  lemma AddingServesTurn(names: Naming, env: Env, now: Moment, mid: Moment, was: Moment, desired: Desired,
                         todo: set<Path>, p: Path)
    requires AddingServes(names, env, mid, was, desired, todo) && p in desired
    requires Added(names, env, now, mid, desired, p) && |mid.log| <= |now.log|
    ensures AddingServes(names, env, now, was, desired, todo - {p})
  {
    hide NoStray, AddedOne, Env.Untroubled, Env.Healthy;
    forall q | q in desired && q !in todo - {p} && !Troubled(names, env, now, was, Link(q, desired[q]))
      ensures q in now.tracked
    {
      var l := Link(q, desired[q]);
      SmallerWindow(names, env, |was.log|, |now.log|, |was.log|, |mid.log|, l);
      SmallerWindow(names, env, |was.log|, |now.log|, |mid.log|, |now.log|, l);
    }
  }

  /** After a pass, whatever failed for others: every wanted path whose own spawn had no
      trouble is tracked at its wanted commit, and confirmed if it was tracked before. */
  ghost predicate Served(names: Naming, env: Env, now: Moment, was: Moment, desired: Desired) {
    forall p :: p in desired && !Troubled(names, env, now, was, Link(p, desired[p])) ==>
      p in now.tracked && !Moved(now.tracked, desired, p) && (p in was.tracked ==> now.tracked[p].confirmed)
  }

  lemma LoopsServe(names: Naming, env: Env, now: Moment, m2: Moment, m1: Moment, was: Moment, desired: Desired)
    requires RemovingServes(names, env, m1, was, desired, {}) && m1.tracked.Keys == was.tracked.Keys * desired.Keys
    requires ConfirmingServes(names, env, m2, m1, desired, {}) && AddingServes(names, env, now, m2, desired, {})
    ensures Served(names, env, now, was, desired)
  {
    hide Env.Untroubled;
    forall p | p in desired && !Troubled(names, env, now, was, Link(p, desired[p]))
      ensures p in now.tracked && !Moved(now.tracked, desired, p) && (p in was.tracked ==> now.tracked[p].confirmed)
    {
      var l := Link(p, desired[p]);
      SmallerWindow(names, env, |was.log|, |now.log|, |was.log|, |m1.log|, l);
      SmallerWindow(names, env, |was.log|, |now.log|, |m1.log|, |m2.log|, l);
      SmallerWindow(names, env, |was.log|, |now.log|, |m2.log|, |now.log|, l);
      if p in was.tracked {
        assert p in m1.tracked && p in m2.tracked;
      }
    }
  }
}
