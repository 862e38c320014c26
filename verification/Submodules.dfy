/** Submodule pins, the instance names they give rise to, and what one reconcile pass does
    to the set of tracked pins. */
module Submodules {
  import opened Bytes
  import E = EntityId
  import S = Segments

  type Name = Text
  type Path = Text

  const SHA_PREFIX := 12

  datatype Pin = Pin(sha: Text, url: Text)

  /** One submodule at one pin: what a spawn is made from. */
  datatype Link = Link(path: Path, pin: Pin)

  datatype Submodule = Submodule(path: Path, pin: Pin, materialized: bool)

  datatype Spawned = Spawned(link: Link, names: set<Name>, confirmed: bool)

  type Naming = Link -> set<Name>
  type Tracked = map<Path, Spawned>
  type Desired = map<Path, Pin>

  predicate Ingestable(s: Submodule) {
    s.materialized && |s.pin.sha| >= SHA_PREFIX
  }

  /** The pins to have components for; a later entry for a path wins. */
  function DesiredOf(inventory: seq<Submodule>): Desired {
    if inventory == [] then map[]
    else
      var last := inventory[|inventory| - 1];
      var before := DesiredOf(inventory[..|inventory| - 1]);
      if Ingestable(last) then before[last.path := last.pin] else before
  }

  method FindDesired(inventory: seq<Submodule>) returns (desired: Desired)
    ensures desired == DesiredOf(inventory)
  {
    desired := map[];
    var i := 0;
    while i < |inventory|
      invariant 0 <= i <= |inventory|
      invariant desired == DesiredOf(inventory[..i])
    {
      assert inventory[..i + 1][..i] == inventory[..i];
      if Ingestable(inventory[i]) {
        desired := desired[inventory[i].path := inventory[i].pin];
      }
      i := i + 1;
    }
    assert inventory[..i] == inventory;
  }

  /** The entry can be had: its tree is there, and its commit is named by twelve digits or
      more. */
  predicate CanBeHad(s: Submodule) {
    s.materialized && |s.pin.sha| >= 12
  }

  /** A path is wanted if and only if some entry for it can be had, and then at the pin of the
      last such entry. */
  lemma {:induction false} DesiredExactly(inventory: seq<Submodule>, p: Path)
    ensures p in DesiredOf(inventory) <==> exists i :: 0 <= i < |inventory| && inventory[i].path == p && CanBeHad(inventory[i])
    ensures forall i :: 0 <= i < |inventory| && inventory[i].path == p && CanBeHad(inventory[i])
                        && (forall j :: i < j < |inventory| && inventory[j].path == p ==> !CanBeHad(inventory[j]))
                        ==> p in DesiredOf(inventory) && DesiredOf(inventory)[p] == inventory[i].pin
  {
    if inventory != [] {
      var n := |inventory| - 1;
      var front := inventory[..n];
      DesiredExactly(front, p);
      assert forall i :: 0 <= i < n ==> front[i] == inventory[i];
    }
  }

  predicate Named(names: Naming, tracked: Tracked) {
    forall p :: p in tracked ==> tracked[p].link.path == p && tracked[p].names == names(tracked[p].link)
  }

  /** Every tracked pin's instances are in the store. */
  predicate Holds(names: Naming, present: set<Name>, tracked: Tracked) {
    forall p :: p in tracked ==> names(tracked[p].link) <= present
  }

  /** Every tracked pin that is still wanted has its instances in the store. */
  predicate HoldsWanted(names: Naming, present: set<Name>, tracked: Tracked, desired: Desired) {
    forall p :: p in tracked && p in desired ==> names(tracked[p].link) <= present
  }

  /** Nothing is in the store but tracked pins' instances. */
  predicate NoStray(names: Naming, kv: map<Name, Link>, tracked: Tracked) {
    forall n :: n in kv ==>
      kv[n].path in tracked && tracked[kv[n].path].link == kv[n] && n in names(kv[n])
  }

  predicate Moved(tracked: Tracked, desired: Desired, p: Path)
    requires p in tracked && p in desired
  {
    desired[p].sha != tracked[p].link.pin.sha
  }

  /** A pass gives the tracked instances of this path up: it vanished or its pin moved. */
  predicate Drops(tracked: Tracked, desired: Desired, p: Path)
    requires p in tracked
  {
    p !in desired || Moved(tracked, desired, p)
  }

  /** What a pass deletes is no instance it means to keep: of a path still wanted, neither the
      tracked ones nor, for a moved pin, the new ones. */
  ghost predicate Spares(names: Naming, tracked: Tracked, desired: Desired) {
    forall p, q :: p in tracked && Drops(tracked, desired, p) && q in tracked && q in desired ==>
      && (p != q ==> names(tracked[p].link) !! names(tracked[q].link))
      && (Moved(tracked, desired, q) ==> names(tracked[p].link) !! names(Link(q, desired[q])))
  }

  /** Every tracked instance is in the store, and a pass deletes none that it means to keep. */
  ghost predicate Safe(names: Naming, present: set<Name>, tracked: Tracked, desired: Desired) {
    Holds(names, present, tracked) && Spares(names, tracked, desired)
  }

  /** An unmoved pin that is still to be confirmed comes from the URL it was spawned from. */
  predicate SameUrls(tracked: Tracked, desired: Desired) {
    forall p :: p in tracked && p in desired && !Moved(tracked, desired, p) && !tracked[p].confirmed
                ==> tracked[p].link.pin == desired[p]
  }

  function Spawn(names: Naming, desired: Desired, p: Path): Spawned
    requires p in desired
  {
    Spawned(Link(p, desired[p]), names(Link(p, desired[p])), false)
  }

  /** What a pass makes of the tracked pins when every write succeeds. */
  function Ticked(names: Naming, tracked: Tracked, desired: Desired): Tracked {
    map p | p in desired ::
      if p !in tracked then Spawn(names, desired, p)
      else if Moved(tracked, desired, p) then Spawn(names, desired, p).(confirmed := true)
      else tracked[p].(confirmed := true)
  }

  /** A pass with nothing to do. */
  predicate Quiet(tracked: Tracked, desired: Desired) {
    && tracked.Keys == desired.Keys
    && forall p :: p in tracked ==> tracked[p].confirmed && !Moved(tracked, desired, p)
  }

  /** Tracked pins agree with the inventory. */
  predicate Agrees(tracked: Tracked, desired: Desired) {
    tracked.Keys == desired.Keys && forall p :: p in tracked ==> !Moved(tracked, desired, p)
  }

  /** Two passes over one inventory, from any state, leave a third nothing to do. */
  lemma TwoTicksSettle(names: Naming, tracked: Tracked, desired: Desired)
    ensures Agrees(Ticked(names, tracked, desired), desired)
    ensures Quiet(Ticked(names, Ticked(names, tracked, desired), desired), desired)
  {
    var once := Ticked(names, tracked, desired);
    forall p | p in once ensures !Moved(once, desired, p) {
    }
    var twice := Ticked(names, once, desired);
    forall p | p in twice ensures twice[p].confirmed && !Moved(twice, desired, p) {
    }
  }

  /** What a healthy pass tracks for a wanted path: the link as it was if its commit is still
      the wanted one, now confirmed; else the wanted link, confirmed if it replaced another. */
  lemma TickedExactly(names: Naming, tracked: Tracked, desired: Desired, p: Path)
    ensures p in Ticked(names, tracked, desired) <==> p in desired
    ensures p in desired ==>
              var next := Ticked(names, tracked, desired)[p];
              && next.link.pin.sha == desired[p].sha && (next.confirmed <==> p in tracked)
              && (if p in tracked && tracked[p].link.pin.sha == desired[p].sha
                  then next.link == tracked[p].link && next.names == tracked[p].names
                  else next.link == Link(p, desired[p]) && next.names == names(Link(p, desired[p])))
  {
  }

  /** From nothing tracked one pass tracks exactly the desired pins. */
  lemma FirstTick(names: Naming, desired: Desired)
    ensures Ticked(names, map[], desired) == map p | p in desired :: Spawn(names, desired, p)
  {
  }

  // ---- one path at a time, when every write succeeds ----

  function RemoveOne(names: Naming, t: Tracked, desired: Desired, p: Path): Tracked
    requires p in t
  {
    if p !in desired then t - {p}
    else if Moved(t, desired, p) then t[p := Spawn(names, desired, p)]
    else t
  }

  function ConfirmOne(t: Tracked, desired: Desired, p: Path): Tracked
    requires p in t
  {
    if p in desired && !Moved(t, desired, p) then t[p := t[p].(confirmed := true)] else t
  }

  function AddOne(names: Naming, t: Tracked, desired: Desired, p: Path): Tracked
    requires p in desired
  {
    if p in t then t else t[p := Spawn(names, desired, p)]
  }

  /** The remove loop with the paths in `todo` still to come, and so on. */
  function Removing(names: Naming, before: Tracked, desired: Desired, todo: set<Path>): Tracked {
    map p | p in before && (p in todo || p in desired) ::
      if p !in todo && Moved(before, desired, p) then Spawn(names, desired, p) else before[p]
  }

  function Confirming(t: Tracked, desired: Desired, todo: set<Path>): Tracked {
    map p | p in t ::
      if p !in todo && p in desired && !Moved(t, desired, p) then t[p].(confirmed := true) else t[p]
  }

  function Adding(names: Naming, t: Tracked, desired: Desired, todo: set<Path>): Tracked {
    t + map p | p in desired && p !in t && p !in todo :: Spawn(names, desired, p)
  }

  lemma RemovingStep(names: Naming, before: Tracked, desired: Desired, todo: set<Path>, p: Path)
    requires p in todo && todo <= before.Keys
    ensures p in Removing(names, before, desired, todo)
    ensures RemoveOne(names, Removing(names, before, desired, todo), desired, p)
         == Removing(names, before, desired, todo - {p})
  {
  }

  lemma ConfirmingStep(t: Tracked, desired: Desired, todo: set<Path>, p: Path)
    requires p in todo && todo <= t.Keys
    ensures p in Confirming(t, desired, todo)
    ensures ConfirmOne(Confirming(t, desired, todo), desired, p) == Confirming(t, desired, todo - {p})
  {
  }

  lemma AddingStep(names: Naming, t: Tracked, desired: Desired, todo: set<Path>, p: Path)
    requires p in todo && todo <= desired.Keys
    ensures AddOne(names, Adding(names, t, desired, todo), desired, p) == Adding(names, t, desired, todo - {p})
  {
  }

  /** Nothing done of a loop, and all of it. */
  lemma LoopEnds(names: Naming, t: Tracked, desired: Desired)
    ensures Removing(names, t, desired, t.Keys) == t
    ensures Confirming(t, desired, t.Keys) == t
    ensures Adding(names, t, desired, desired.Keys) == t
  {
  }

  /** The three loops together, in whatever order each walks its map. */
  lemma LoopsMakeTicked(names: Naming, before: Tracked, desired: Desired)
    ensures Removing(names, before, desired, before.Keys) == before
    ensures var removed := Removing(names, before, desired, {});
            && Confirming(removed, desired, removed.Keys) == removed
            && var confirmed := Confirming(removed, desired, {});
               && Adding(names, confirmed, desired, desired.Keys) == confirmed
               && Adding(names, confirmed, desired, {}) == Ticked(names, before, desired)
  {
    LoopEnds(names, before, desired);
    var removed := Removing(names, before, desired, {});
    LoopEnds(names, removed, desired);
    var confirmed := Confirming(removed, desired, {});
    LoopEnds(names, confirmed, desired);
    var added := Adding(names, confirmed, desired, {});
    assert added == Ticked(names, before, desired) by {
      assert added.Keys == desired.Keys;
    }
  }

  // ---- what one write sequence does to the store ----

  function PutAll(kv: map<Name, Link>, names: set<Name>, link: Link): map<Name, Link> {
    kv + map n | n in names :: link
  }

  lemma PutOneMore(kv: map<Name, Link>, done: set<Name>, n: Name, link: Link)
    ensures PutAll(kv, done, link)[n := link] == PutAll(kv, done + {n}, link)
    ensures PutAll(kv, {}, link) == kv
  {
  }

  /** In this store state each pin tracked before and still desired has all its old
      instances or all its new ones. */
  predicate OldOrNew(names: Naming, present: set<Name>, before: Tracked, desired: Desired) {
    forall p :: p in before && p in desired ==>
      names(before[p].link) <= present || names(Link(p, desired[p])) <= present
  }

  /** A pass under way: each path still to be had is tracked, at its old pin or, if that moved
      or there was none, at its new one. */
  predicate Between(tracked: Tracked, before: Tracked, desired: Desired) {
    && (forall p :: p in before && p in desired ==> p in tracked)
    && (forall p :: p in tracked ==>
          (p in before && tracked[p].link == before[p].link)
          || (p in desired && tracked[p].link == Link(p, desired[p]) && (p in before ==> Moved(before, desired, p))))
  }

  lemma HeldIsOldOrNew(names: Naming, present: set<Name>, tracked: Tracked, before: Tracked, desired: Desired)
    requires HoldsWanted(names, present, tracked, desired) && Between(tracked, before, desired)
    ensures OldOrNew(names, present, before, desired)
  {
    forall p | p in before && p in desired
      ensures names(before[p].link) <= present || names(Link(p, desired[p])) <= present
    {
      assert p in tracked;
    }
  }

  /** A path being given up is tracked as it was before the pass. */
  lemma DroppedIsOld(tracked: Tracked, before: Tracked, desired: Desired, p: Path)
    requires Between(tracked, before, desired) && p in tracked && Drops(tracked, desired, p)
    ensures p in before && tracked[p].link == before[p].link && Drops(before, desired, p)
  {
  }

  /** Deleting the instances of a path being given up leaves every wanted path's in place. */
  lemma RemovalSparesOthers(names: Naming, present: set<Name>, tracked: Tracked, before: Tracked,
                            desired: Desired, p: Path)
    requires HoldsWanted(names, present, tracked, desired) && Named(names, tracked)
    requires Between(tracked, before, desired) && tracked.Keys <= before.Keys
    requires Spares(names, before, desired) && p in tracked && Drops(tracked, desired, p)
    ensures HoldsWanted(names, present - tracked[p].names, tracked - {p}, desired)
  {
    DroppedIsOld(tracked, before, desired, p);
    var rest := tracked - {p};
    forall q | q in rest && q in desired ensures names(rest[q].link) <= present - tracked[p].names {
      assert q in before && names(tracked[q].link) <= present;
      assert names(tracked[q].link) !! names(before[p].link);
    }
  }

  /** A moved pin's new instances survive the deletion of its old ones. */
  lemma MoveSparesNew(names: Naming, present: set<Name>, tracked: Tracked, before: Tracked,
                      desired: Desired, p: Path)
    requires HoldsWanted(names, present, tracked, desired) && Named(names, tracked)
    requires Between(tracked, before, desired) && tracked.Keys <= before.Keys
    requires Spares(names, before, desired)
    requires p in tracked && p in desired && Moved(tracked, desired, p)
    requires names(Link(p, desired[p])) <= present
    ensures HoldsWanted(names, present - tracked[p].names, tracked[p := Spawn(names, desired, p)], desired)
  {
    RemovalSparesOthers(names, present, tracked, before, desired, p);
    DroppedIsOld(tracked, before, desired, p);
    var next := tracked[p := Spawn(names, desired, p)];
    assert names(Link(p, desired[p])) !! names(before[p].link);
    forall q | q in next && q in desired ensures names(next[q].link) <= present - tracked[p].names {
      if q != p {
        assert q in tracked - {p};
      }
    }
  }

  /** Putting a path's instances and tracking it strays nowhere, once the old are gone. */
  lemma PutIsNoStray(names: Naming, kv: map<Name, Link>, tracked: Tracked, p: Path, next: Spawned)
    requires NoStray(names, kv, tracked)
    requires next.link.path == p
    requires p in tracked && tracked[p].link != next.link ==> tracked[p].names == names(tracked[p].link)
    ensures var gone := if p in tracked && tracked[p].link != next.link then tracked[p].names else {};
            NoStray(names, PutAll(kv, names(next.link), next.link) - gone, tracked[p := next])
  {
  }

  lemma RemoveIsNoStray(names: Naming, kv: map<Name, Link>, tracked: Tracked, p: Path)
    requires NoStray(names, kv, tracked) && p in tracked && tracked[p].names == names(tracked[p].link)
    ensures NoStray(names, kv - tracked[p].names, tracked - {p})
  {
  }

  /** After a pass that succeeds the next one over the same inventory gives nothing up and
      confirms only what it spawned from the inventory's own URLs. */
  lemma TickedNeedsNothing(names: Naming, tracked: Tracked, desired: Desired)
    ensures var next := Ticked(names, tracked, desired);
            Spares(names, next, desired) && SameUrls(next, desired)
  {
    var next := Ticked(names, tracked, desired);
    forall p | p in next ensures !Drops(next, desired, p) {
    }
  }

  // ---- exactly what a pass leaves in the store ----

  /** The instances of paths given up, among those visited. */
  ghost function DroppedNames(names: Naming, t: Tracked, desired: Desired, visited: set<Path>): set<Name> {
    set p, n | p in visited && p in t && Drops(t, desired, p) && n in names(t[p].link) :: n
  }

  /** The new instances of moved pins, among those visited. */
  ghost function MovedNames(names: Naming, t: Tracked, desired: Desired, visited: set<Path>): set<Name> {
    set p, n | p in visited && p in t && p in desired && Moved(t, desired, p) && n in names(Link(p, desired[p])) :: n
  }

  /** What the confirm loop puts again, for the paths visited. */
  ghost function ConfirmedNames(names: Naming, t: Tracked, desired: Desired, visited: set<Path>): set<Name> {
    set p, n | p in visited && p in t && p in desired && !Moved(t, desired, p) && !t[p].confirmed
               && n in names(Link(p, desired[p])) :: n
  }

  /** The instances of paths not tracked yet, among those visited. */
  ghost function AddedNames(names: Naming, t: Tracked, desired: Desired, visited: set<Path>): set<Name> {
    set p, n | p in visited && p in desired && p !in t && n in names(Link(p, desired[p])) :: n
  }

  /** The store after a pass in which every write succeeds. */
  ghost function PassedNames(names: Naming, present: set<Name>, t: Tracked, desired: Desired): set<Name> {
    present - DroppedNames(names, t, desired, t.Keys) + MovedNames(names, t, desired, t.Keys)
      + ConfirmedNames(names, t, desired, t.Keys) + AddedNames(names, t, desired, desired.Keys)
  }

  /** Every instance of every tracked pin. */
  ghost function AllNames(names: Naming, t: Tracked): set<Name> {
    set p, n | p in t && n in names(t[p].link) :: n
  }

  lemma VisitRemoving(names: Naming, t: Tracked, desired: Desired, visited: set<Path>, p: Path)
    requires p in t
    ensures DroppedNames(names, t, desired, visited + {p})
         == DroppedNames(names, t, desired, visited) + if Drops(t, desired, p) then names(t[p].link) else {}
    ensures MovedNames(names, t, desired, visited + {p})
         == MovedNames(names, t, desired, visited)
            + if p in desired && Moved(t, desired, p) then names(Link(p, desired[p])) else {}
    ensures DroppedNames(names, t, desired, {}) == MovedNames(names, t, desired, {}) == {}
  {
  }

  lemma VisitConfirming(names: Naming, t: Tracked, desired: Desired, visited: set<Path>, p: Path)
    requires p in t
    ensures ConfirmedNames(names, t, desired, visited + {p})
         == ConfirmedNames(names, t, desired, visited)
            + if p in desired && !Moved(t, desired, p) && !t[p].confirmed then names(Link(p, desired[p])) else {}
  {
  }

  lemma VisitAdding(names: Naming, t: Tracked, desired: Desired, visited: set<Path>, p: Path)
    requires p in desired
    ensures AddedNames(names, t, desired, visited + {p})
         == AddedNames(names, t, desired, visited) + if p in t then {} else names(Link(p, desired[p]))
  {
  }

  /** After the remove loop the confirm loop puts the moved pins' instances again and those of
      pins spawned earlier; the add loop still has the same paths to add. */
  lemma AfterRemoving(names: Naming, before: Tracked, desired: Desired)
    ensures var t := Removing(names, before, desired, {});
            && ConfirmedNames(names, t, desired, t.Keys)
               == MovedNames(names, before, desired, before.Keys) + ConfirmedNames(names, before, desired, before.Keys)
            && AddedNames(names, Confirming(t, desired, {}), desired, desired.Keys)
               == AddedNames(names, before, desired, desired.Keys)
  {
    var t := Removing(names, before, desired, {});
    forall n ensures n in ConfirmedNames(names, t, desired, t.Keys) <==>
        n in MovedNames(names, before, desired, before.Keys) || n in ConfirmedNames(names, before, desired, before.Keys)
    {
      ConfirmsAfterRemoving(names, before, desired, n);
    }
    assert Confirming(t, desired, {}).Keys == t.Keys;
  }

  lemma ConfirmsAfterRemoving(names: Naming, before: Tracked, desired: Desired, n: Name)
    ensures var t := Removing(names, before, desired, {});
            n in ConfirmedNames(names, t, desired, t.Keys) <==>
              n in MovedNames(names, before, desired, before.Keys) || n in ConfirmedNames(names, before, desired, before.Keys)
  {
    var t := Removing(names, before, desired, {});
    if n in MovedNames(names, before, desired, before.Keys) {
      var p :| p in before && p in desired && Moved(before, desired, p) && n in names(Link(p, desired[p]));
      assert p in t && !Moved(t, desired, p) && !t[p].confirmed;
    }
    if n in ConfirmedNames(names, before, desired, before.Keys) {
      var p :| p in before && p in desired && !Moved(before, desired, p) && !before[p].confirmed && n in names(Link(p, desired[p]));
      assert p in t && !Moved(t, desired, p) && !t[p].confirmed;
    }
  }

  /** The pins put again in a pass bring no name that no tracked pin has after it. */
  ghost predicate BringsNothingNew(names: Naming, t: Tracked, desired: Desired) {
    ConfirmedNames(names, t, desired, t.Keys) <= AllNames(names, Ticked(names, t, desired))
  }

  /** What a pass deletes of a pin it keeps, it puts again. */
  ghost predicate LosesNothing(names: Naming, t: Tracked, desired: Desired) {
    forall p :: p in t && !Drops(t, desired, p) ==>
      names(t[p].link) * DroppedNames(names, t, desired, t.Keys)
      <= MovedNames(names, t, desired, t.Keys) + ConfirmedNames(names, t, desired, t.Keys)
         + AddedNames(names, t, desired, desired.Keys)
  }

  /** If every tracked instance was in the store before a healthy pass, then so it is after it
      if and only if the pass loses nothing. */
  lemma HoldsSurvivesIff(names: Naming, present: set<Name>, t: Tracked, desired: Desired)
    requires Holds(names, present, t)
    ensures Holds(names, PassedNames(names, present, t, desired), Ticked(names, t, desired))
            <==> LosesNothing(names, t, desired)
  {
    hide DroppedNames, MovedNames, ConfirmedNames, AddedNames;
    var next, after := Ticked(names, t, desired), PassedNames(names, present, t, desired);
    if Holds(names, after, next) {
      forall p | p in t && !Drops(t, desired, p)
        ensures names(t[p].link) * DroppedNames(names, t, desired, t.Keys)
             <= MovedNames(names, t, desired, t.Keys) + ConfirmedNames(names, t, desired, t.Keys)
                + AddedNames(names, t, desired, desired.Keys)
      {
        assert p in next && names(next[p].link) <= after;
      }
    }
    if LosesNothing(names, t, desired) {
      forall p, n | p in next && n in names(next[p].link) ensures n in after {
        NewIsPassed(names, t, desired, p);
        if p in t && !Drops(t, desired, p) {
          assert next[p].link == t[p].link && n in present;
          if n in DroppedNames(names, t, desired, t.Keys) {
            assert n in names(t[p].link) * DroppedNames(names, t, desired, t.Keys);
          }
        }
      }
    }
  }

  lemma NewIsPassed(names: Naming, t: Tracked, desired: Desired, p: Path)
    requires p in desired
    ensures p !in t ==> names(Link(p, desired[p])) <= AddedNames(names, t, desired, desired.Keys)
    ensures p in t && Moved(t, desired, p) ==> names(Link(p, desired[p])) <= MovedNames(names, t, desired, t.Keys)
  {
  }

  /** If the store held exactly the tracked instances before a healthy pass, it does so after
      it if and only if the pass loses nothing and no pin put again brings a name that
      nothing tracks. */
  lemma ExactnessSurvivesIff(names: Naming, t: Tracked, desired: Desired)
    ensures PassedNames(names, AllNames(names, t), t, desired) == AllNames(names, Ticked(names, t, desired))
            <==> LosesNothing(names, t, desired) && BringsNothingNew(names, t, desired)
  {
    hide DroppedNames, MovedNames, ConfirmedNames, AddedNames, PassedNames, LosesNothing;
    var next := Ticked(names, t, desired);
    var after, all := PassedNames(names, AllNames(names, t), t, desired), AllNames(names, next);
    assert Holds(names, AllNames(names, t), t);
    HoldsSurvivesIff(names, AllNames(names, t), t, desired);
    assert Holds(names, after, next) <==> all <= after;
    assert ConfirmedNames(names, t, desired, t.Keys) <= after by { PassedPuts(names, AllNames(names, t), t, desired); }
    forall n | n in after && n !in ConfirmedNames(names, t, desired, t.Keys) ensures n in all {
      PassedIsTracked(names, t, desired, n);
    }
  }

  lemma PassedPuts(names: Naming, present: set<Name>, t: Tracked, desired: Desired)
    ensures ConfirmedNames(names, t, desired, t.Keys) <= PassedNames(names, present, t, desired)
  {
  }

  /** Deleting no instance of a path still wanted is enough to lose nothing. */
  lemma SparesLosesNothing(names: Naming, t: Tracked, desired: Desired)
    requires Spares(names, t, desired)
    ensures LosesNothing(names, t, desired)
  {
    hide MovedNames, ConfirmedNames, AddedNames;
    forall p | p in t && !Drops(t, desired, p)
      ensures names(t[p].link) !! DroppedNames(names, t, desired, t.Keys)
    {
    }
  }

  lemma PassedIsTracked(names: Naming, t: Tracked, desired: Desired, n: Name)
    requires n in PassedNames(names, AllNames(names, t), t, desired)
    requires n !in ConfirmedNames(names, t, desired, t.Keys)
    ensures n in AllNames(names, Ticked(names, t, desired))
  {
    var next := Ticked(names, t, desired);
    if n in AddedNames(names, t, desired, desired.Keys) {
      var p :| p in desired && p !in t && n in names(Link(p, desired[p]));
      assert p in next && n in names(next[p].link);
    } else if n in MovedNames(names, t, desired, t.Keys) {
      var p :| p in t && p in desired && Moved(t, desired, p) && n in names(Link(p, desired[p]));
      assert p in next && n in names(next[p].link);
    } else {
      var p :| p in t && n in names(t[p].link);
      assert !Drops(t, desired, p);
      assert p in next && n in names(next[p].link);
    }
  }

  /** A second pass over the same inventory leaves the store as the first one did. */
  lemma SecondPassPutsNothingNew(names: Naming, present: set<Name>, t: Tracked, desired: Desired)
    ensures var after, next := PassedNames(names, present, t, desired), Ticked(names, t, desired);
            PassedNames(names, after, next, desired) == after
  {
    var after, next := PassedNames(names, present, t, desired), Ticked(names, t, desired);
    forall p | p in next
      ensures p in desired && !Moved(next, desired, p) && (!next[p].confirmed ==> p !in t)
    {
    }
    hide Ticked;
    assert next.Keys == desired.Keys by { TickedKeys(names, t, desired); }
    assert DroppedNames(names, next, desired, next.Keys) == {};
    assert MovedNames(names, next, desired, next.Keys) == {};
    assert AddedNames(names, next, desired, desired.Keys) == {};
    forall n | n in ConfirmedNames(names, next, desired, next.Keys)
      ensures n in AddedNames(names, t, desired, desired.Keys)
    {
      var p :| p in next && p in desired && !next[p].confirmed && n in names(Link(p, desired[p]));
      assert p !in t;
    }
  }

  lemma TickedKeys(names: Naming, t: Tracked, desired: Desired)
    ensures Ticked(names, t, desired).Keys == desired.Keys
  {
  }

  /** Unchanged URLs are enough, and so is a state that an earlier pass has made. */
  lemma SameUrlsBringNothing(names: Naming, t: Tracked, desired: Desired)
    requires Named(names, t) && SameUrls(t, desired)
    ensures BringsNothingNew(names, t, desired)
  {
    var next := Ticked(names, t, desired);
    forall n | n in ConfirmedNames(names, t, desired, t.Keys) ensures n in AllNames(names, next) {
      var p :| p in t && p in desired && !Moved(t, desired, p) && !t[p].confirmed && n in names(Link(p, desired[p]));
      assert p in next && next[p].link == t[p].link == Link(p, desired[p]);
    }
  }

  /** An input on which exactness is lost: one link, spawned on the pass before, whose URL has
      changed at an unmoved pin to one that names its instances otherwise. */
  lemma ChangedUrlStrays(names: Naming, p: Path, sha: Text, was: Text, now: Text)
    requires var old_, new_ := Link(p, Pin(sha, was)), Link(p, Pin(sha, now)); !(names(new_) <= names(old_))
    ensures var link := Link(p, Pin(sha, was));
            var t: Tracked, desired: Desired := map[p := Spawned(link, names(link), false)], map[p := Pin(sha, now)];
            && Named(names, t) && Spares(names, t, desired)
            && PassedNames(names, AllNames(names, t), t, desired) != AllNames(names, Ticked(names, t, desired))
  {
    var link := Link(p, Pin(sha, was));
    var t: Tracked, desired: Desired := map[p := Spawned(link, names(link), false)], map[p := Pin(sha, now)];
    ExactnessSurvivesIff(names, t, desired);
    var n :| n in names(Link(p, Pin(sha, now))) && n !in names(link);
    assert p in t && p in desired && !Moved(t, desired, p) && !t[p].confirmed && n in names(Link(p, desired[p]));
    assert n !in AllNames(names, Ticked(names, t, desired));
  }

  /** For any naming: removing one tracked link leaves another's instances complete if and
      only if the two share no instance name. */
  lemma RemovalSparesIffApart(names: Naming, present: set<Name>, tracked: Tracked, p: Path, q: Path)
    requires Named(names, tracked) && Holds(names, present, tracked)
    requires p in tracked && q in tracked && p != q
    ensures names(tracked[q].link) <= present - tracked[p].names
            <==> names(tracked[q].link) !! names(tracked[p].link)
  {
    assert names(tracked[q].link) <= present;
  }

  /** For any naming: a moved pin's new instances outlive the deletion of its old ones if and
      only if the two pins share no instance name. */
  lemma MoveSparesIffApart(names: Naming, present: set<Name>, tracked: Tracked, p: Path, pin: Pin)
    requires Named(names, tracked) && p in tracked
    ensures names(Link(p, pin)) <= present + names(Link(p, pin)) - tracked[p].names
            <==> names(Link(p, pin)) !! names(tracked[p].link)
  {
    var moved := names(Link(p, pin));
    if moved <= present + moved - tracked[p].names {
      forall n | n in moved ensures n !in names(tracked[p].link) {
        assert n in present + moved - tracked[p].names;
      }
    }
  }

  // ---- instance names ----

  const SLASH: Byte := 47
  const DASH: Byte := 45

  /** A link path with each slash turned into a hyphen. It is slugged, with what stands before
      it, before it ends an instance name. */
  function Suffix(path: Path): Text {
    seq(|path|, i requires 0 <= i < |path| => if path[i] == SLASH then DASH else path[i])
  }

  /** Two link paths have one raw suffix exactly when they differ only in slashes against
      hyphens. */
  lemma SuffixesCollide(p: Path, q: Path)
    ensures Suffix(p) == Suffix(q)
            <==> |p| == |q| && forall i :: 0 <= i < |p| ==> p[i] == q[i] || {p[i], q[i]} == {SLASH, DASH}
    ensures Suffix([97, SLASH, 98]) == Suffix([97, DASH, 98])
  {
    var x, y := Suffix(p), Suffix(q);
    if x == y {
      assert |p| == |x| == |q|;
      forall i | 0 <= i < |p| ensures p[i] == q[i] || {p[i], q[i]} == {SLASH, DASH} {
        assert x[i] == y[i];
      }
    }
    if |p| == |q| && forall i :: 0 <= i < |p| ==> p[i] == q[i] || {p[i], q[i]} == {SLASH, DASH} {
      forall i | 0 <= i < |p| ensures x[i] == y[i] {
        if p[i] != q[i] {
          assert p[i] in {p[i], q[i]} && q[i] in {p[i], q[i]};
        }
      }
    }
    assert Suffix([97, SLASH, 98]) == [97, DASH, 98] == Suffix([97, DASH, 98]);
  }

  /** The text whose slug ends a link's instance names. */
  function SuffixText(parent: Text, path: Path): Text {
    Ascii("via-") + parent + [DASH] + Suffix(path)
  }

  function InstanceSlug(d: E.Digest, url: E.Parser, parent: Text, path: Path): Text {
    E.SystemSlug(d, url, SuffixText(parent, path))
  }

  /** Under a parent slug without a slash, two links' slugs agree exactly when their texts have
      one full slug once a final ".git" is dropped, or the cap makes one of them: both over
      the cap with one head and one hash, or one over it that is capped to the other. */
  lemma InstanceSlugsAgree(d: E.Digest, url: E.Parser, parent: Text, p: Path, q: Path)
    requires SLASH !in parent
    ensures var a, b := InstanceFull(parent, p), InstanceFull(parent, q);
            InstanceSlug(d, url, parent, p) == InstanceSlug(d, url, parent, q) <==>
              || a == b
              || (|a| > E.MAX_SYSTEM_SLUG && |b| > E.MAX_SYSTEM_SLUG && a[..73] == b[..73] && d(a)[..6] == d(b)[..6])
              || (|a| > E.MAX_SYSTEM_SLUG >= |b| && E.Capped(d, a) == b)
              || (|b| > E.MAX_SYSTEM_SLUG >= |a| && E.Capped(d, b) == a)
  {
    InstanceSlugIs(d, url, parent, p);
    InstanceSlugIs(d, url, parent, q);
    var a, b := InstanceFull(parent, p), InstanceFull(parent, q);
    if |a| > E.MAX_SYSTEM_SLUG && |b| > E.MAX_SYSTEM_SLUG && E.Capped(d, a) == E.Capped(d, b) {
      E.CappedCollision(d, a, b);
    }
  }

  /** The slug of a link's text before it is capped. */
  function InstanceFull(parent: Text, path: Path): Text {
    S.Slug(E.WithoutSuffix(SuffixText(parent, path), Ascii(".git")))
  }

  lemma InstanceSlugIs(d: E.Digest, url: E.Parser, parent: Text, path: Path)
    requires SLASH !in parent
    ensures InstanceSlug(d, url, parent, path) == E.Capped(d, InstanceFull(parent, path))
  {
    hide S.Slug, E.Capped;
    var t := SuffixText(parent, path);
    assert Ascii("via-")[0] == 118;
    assert SLASH !in t by { NoSlash(parent, path); }
    var q := E.WithoutSuffix(t, Ascii(".git"));
    assert q != [] ==> q[0] == t[0] == 118;
    assert E.WithoutPrefix(q, Ascii("./")) == q by {
      if |q| >= 2 {
        assert q[..2][0] == 118 != Ascii("./")[0];
      }
    }
    assert !HasPrefix(q, [SLASH]) by {
      if |q| >= 1 {
        assert q[..1][0] == 118;
      }
    }
    assert E.Stripped(url, t) == q;
  }

  lemma NoSlash(parent: Text, path: Path)
    requires SLASH !in parent
    ensures SLASH !in SuffixText(parent, path)
  {
    assert forall i :: 0 <= i < |Suffix(path)| ==> Suffix(path)[i] != SLASH;
    assert SLASH !in Ascii("via-");
  }

  /** What stands before a link's own slug in its instance names: made from the URL and the
      first twelve bytes of the SHA, and told apart by their first bytes. */
  type Fronts = (Text, Text) -> set<Text>

  predicate ToldApart(fronts: set<Text>) {
    && (forall f :: f in fronts ==> f != [])
    && (forall f, g :: f in fronts && g in fronts && f[0] == g[0] ==> f == g)
  }

  function FrontsOf(fronts: Fronts, pin: Pin): set<Text> {
    fronts(pin.url, if |pin.sha| >= SHA_PREFIX then pin.sha[..SHA_PREFIX] else pin.sha)
  }

  /** The names of a link's instances: each front, and the link's own slug. */
  function SuffixNames(fronts: Fronts, d: E.Digest, url: E.Parser, parent: Text, l: Link): set<Name> {
    set f | f in FrontsOf(fronts, l.pin) :: f + [DASH] + InstanceSlug(d, url, parent, l.path)
  }

  /** Two links at one pin share an instance name if and only if their slugs agree; then they
      share all of them. */
  lemma InstancesSharedIff(fronts: Fronts, d: E.Digest, url: E.Parser, parent: Text, p: Path, q: Path, pin: Pin)
    requires ToldApart(FrontsOf(fronts, pin)) && FrontsOf(fronts, pin) != {}
    ensures var x, y := SuffixNames(fronts, d, url, parent, Link(p, pin)), SuffixNames(fronts, d, url, parent, Link(q, pin));
            && (!(x !! y) <==> InstanceSlug(d, url, parent, p) == InstanceSlug(d, url, parent, q))
            && (!(x !! y) ==> x == y)
  {
    hide InstanceSlug, FrontsOf;
    var fs := FrontsOf(fronts, pin);
    var sp, sq := InstanceSlug(d, url, parent, p), InstanceSlug(d, url, parent, q);
    var x, y := SuffixNames(fronts, d, url, parent, Link(p, pin)), SuffixNames(fronts, d, url, parent, Link(q, pin));
    if n :| n in x && n in y {
      var f :| f in fs && n == f + [DASH] + sp;
      var g :| g in fs && n == g + [DASH] + sq;
      assert f[0] == n[0] == g[0];
      assert n[|f| + 1..] == sp && n[|f| + 1..] == sq;
    }
    if sp == sq {
      var f :| f in fs;
      assert f + [DASH] + sp in x && f + [DASH] + sp in y;
    }
  }

  /** Links whose slugs agree, at one pin: removing the one takes every instance of the
      other. */
  lemma LikeSlugsShareInstances(fronts: Fronts, d: E.Digest, url: E.Parser, parent: Text,
                                p: Path, q: Path, pin: Pin, tracked: Tracked, present: set<Name>)
    requires InstanceSlug(d, url, parent, p) == InstanceSlug(d, url, parent, q)
    requires p != q && FrontsOf(fronts, pin) != {}
    requires p in tracked && q in tracked && tracked[p].link == Link(p, pin) && tracked[q].link == Link(q, pin)
    requires var names: Naming := l => SuffixNames(fronts, d, url, parent, l);
             Named(names, tracked) && Holds(names, present, tracked)
    ensures tracked[p].names == tracked[q].names != {}
    ensures tracked[q].names !! present - tracked[p].names
  {
    hide InstanceSlug, FrontsOf;
    var f :| f in FrontsOf(fronts, pin);
    var slug := InstanceSlug(d, url, parent, p);
    assert SuffixNames(fronts, d, url, parent, Link(p, pin)) == SuffixNames(fronts, d, url, parent, Link(q, pin));
    assert f + [DASH] + slug in SuffixNames(fronts, d, url, parent, Link(p, pin));
  }

  /** Two links at one pin, tracked and held, of which removing the first tears down the
      second. */
  ghost predicate TearsDown(names: Naming, p: Path, q: Path, pin: Pin) {
    var tracked := map[p := Spawned(Link(p, pin), names(Link(p, pin)), true),
                       q := Spawned(Link(q, pin), names(Link(q, pin)), true)];
    var present := names(Link(p, pin)) + names(Link(q, pin));
    && p != q && Named(names, tracked) && Holds(names, present, tracked)
    && !Holds(names, present - tracked[p].names, tracked - {p})
  }

  /** For names of this form that happens, at one pin, exactly when the slugs agree. */
  lemma TearsDownIff(fronts: Fronts, d: E.Digest, url: E.Parser, parent: Text, p: Path, q: Path, pin: Pin)
    requires p != q && ToldApart(FrontsOf(fronts, pin)) && FrontsOf(fronts, pin) != {}
    ensures TearsDown(l => SuffixNames(fronts, d, url, parent, l), p, q, pin)
            <==> InstanceSlug(d, url, parent, p) == InstanceSlug(d, url, parent, q)
  {
    hide SuffixNames, InstanceSlug, FrontsOf;
    var names: Naming := l => SuffixNames(fronts, d, url, parent, l);
    InstancesSharedIff(fronts, d, url, parent, p, q, pin);
    var tracked := map[p := Spawned(Link(p, pin), names(Link(p, pin)), true),
                       q := Spawned(Link(q, pin), names(Link(q, pin)), true)];
    var present := names(Link(p, pin)) + names(Link(q, pin));
    assert names(Link(p, pin)) == SuffixNames(fronts, d, url, parent, Link(p, pin));
    assert names(Link(q, pin)) == SuffixNames(fronts, d, url, parent, Link(q, pin));
    RemovalSparesIffApart(names, present, tracked, p, q);
    assert (tracked - {p}).Keys == {q};
  }

  /** The paths "a/b" and "a-b" are such links, and so are "a.b" and "a-b", whose raw suffixes
      differ. */
  lemma LikePathsCollide(fronts: Fronts, d: E.Digest, url: E.Parser, parent: Text, pin: Pin)
    requires SLASH !in parent && ToldApart(FrontsOf(fronts, pin)) && FrontsOf(fronts, pin) != {}
    ensures TearsDown(l => SuffixNames(fronts, d, url, parent, l), [97, SLASH, 98], [97, DASH, 98], pin)
    ensures TearsDown(l => SuffixNames(fronts, d, url, parent, l), [97, E.DOT, 98], [97, DASH, 98], pin)
    ensures Suffix([97, E.DOT, 98]) != Suffix([97, DASH, 98])
  {
    hide SuffixNames, InstanceSlug, FrontsOf, TearsDown, Suffix;
    var a, b, c: Path := [97, SLASH, 98], [97, DASH, 98], [97, E.DOT, 98];
    assert a[1] != b[1] && c[1] != b[1];
    SuffixesCollide(a, b);
    SuffixesCollide(c, b);
    assert {c[1], b[1]} != {SLASH, DASH} by { assert c[1] == E.DOT; assert E.DOT in {c[1], b[1]}; }
    assert InstanceSlug(d, url, parent, a) == InstanceSlug(d, url, parent, b) by { SameSuffixSameSlug(d, url, parent, a, b); }
    DottedSlugs(d, url, parent);
    TearsDownIff(fronts, d, url, parent, a, b, pin);
    TearsDownIff(fronts, d, url, parent, c, b, pin);
  }

  lemma SameSuffixSameSlug(d: E.Digest, url: E.Parser, parent: Text, p: Path, q: Path)
    requires Suffix(p) == Suffix(q)
    ensures InstanceSlug(d, url, parent, p) == InstanceSlug(d, url, parent, q)
  {
  }

  lemma DottedSlugs(d: E.Digest, url: E.Parser, parent: Text)
    requires SLASH !in parent
    ensures InstanceSlug(d, url, parent, [97, E.DOT, 98]) == InstanceSlug(d, url, parent, [97, DASH, 98])
  {
    hide E.Capped, InstanceFull;
    InstanceSlugIs(d, url, parent, [97, E.DOT, 98]);
    InstanceSlugIs(d, url, parent, [97, DASH, 98]);
    DottedFull(parent);
  }

  lemma DottedFull(parent: Text)
    ensures InstanceFull(parent, [97, E.DOT, 98]) == InstanceFull(parent, [97, DASH, 98])
  {
    hide S.Mapped, S.Collapsed, S.Trim;
    var pre := Ascii("via-") + parent + [DASH];
    var x, y: Text := [97, E.DOT, 98], [97, DASH, 98];
    assert Suffix(x) == x && Suffix(y) == y;
    NoGitSuffix(pre, x);
    NoGitSuffix(pre, y);
    S.MappedSplits(pre, x);
    S.MappedSplits(pre, y);
    assert S.Mapped(x) == S.Mapped(y) by { MappedDot(); }
  }

  lemma NoGitSuffix(pre: Text, t: Text)
    requires t != [] && t[|t| - 1] == 98
    ensures E.WithoutSuffix(pre + t, Ascii(".git")) == pre + t
  {
    var u := pre + t;
    if |u| >= 4 {
      assert u[|u| - 4..][3] == 98 != Ascii(".git")[3];
    }
  }

  lemma MappedDot()
    ensures S.Mapped([97, E.DOT, 98]) == [97, DASH, 98] == S.Mapped([97, DASH, 98])
  {
    S.MappedAscii(97, [E.DOT, 98]);
    S.MappedAscii(E.DOT, [98]);
    S.MappedAscii(98, []);
    S.MappedAscii(97, [DASH, 98]);
    S.MappedAscii(DASH, [98]);
  }

  /** A pin moved between two SHAs with one twelve-byte head keeps its names, so the remove
      loop deletes what it has just put; until the confirm loop puts it again the store has
      neither version. */
  lemma ShortShaMoveTearsDown(fronts: Fronts, d: E.Digest, url: E.Parser, parent: Text,
                              present: set<Name>, tracked: Tracked, p: Path, sha: Text)
    requires var names: Naming := l => SuffixNames(fronts, d, url, parent, l); Named(names, tracked)
    requires p in tracked && |sha| >= SHA_PREFIX && |tracked[p].link.pin.sha| >= SHA_PREFIX
    requires sha[..SHA_PREFIX] == tracked[p].link.pin.sha[..SHA_PREFIX]
    ensures var moved := SuffixNames(fronts, d, url, parent, Link(p, Pin(sha, tracked[p].link.pin.url)));
            moved !! present + moved - tracked[p].names
  {
    hide InstanceSlug;
    var link := tracked[p].link;
    assert FrontsOf(fronts, Pin(sha, link.pin.url)) == FrontsOf(fronts, link.pin);
    assert tracked[p].names == SuffixNames(fronts, d, url, parent, link);
  }
}
