/** The watcher that reconciles a store of component configs with a repository's submodule
    pins. Maps are walked in any order and any write may fail. */
module Subwatch {
  import opened Bytes
  import opened Submodules
  import opened Passes

  /** The component-config store; its log holds the names present after every write. A
      refused write may or may not have taken effect. */
  class Store {
    const env: Env
    var kv: map<Name, Link>
    var log: seq<set<Name>>

    constructor (env: Env)
      ensures kv == map[] && this.env == env && log == []
    {
      this.env, kv, log := env, map[], [];
    }

    method Put(name: Name, link: Link) returns (ok: bool)
      modifies this`kv, this`log
      ensures ok <==> env.puts(|old(log)|, name)
      ensures kv == if ok || env.lands(|old(log)|) then old(kv)[name := link] else old(kv)
      ensures log == old(log) + [kv.Keys]
    {
      ok := env.puts(|log|, name);
      if ok || env.lands(|log|) {
        kv := kv[name := link];
      }
      log := log + [kv.Keys];
    }

    method Delete(name: Name) returns (ok: bool)
      modifies this`kv, this`log
      ensures ok <==> env.deletes(|old(log)|, name)
      ensures kv == if ok || env.lands(|old(log)|) then old(kv) - {name} else old(kv)
      ensures log == old(log) + [kv.Keys]
    {
      ok := env.deletes(|log|, name);
      if ok || env.lands(|log|) {
        kv := kv - {name};
      }
      log := log + [kv.Keys];
    }
  }

  class Watcher {
    const names: Naming
    const store: Store
    var tracked: Tracked

    constructor (names: Naming, store: Store)
      ensures this.names == names && this.store == store && tracked == map[]
    {
      this.names, this.store, tracked := names, store, map[];
    }

    ghost function Now(): Moment
      reads this, store
    {
      Moment(store.kv, store.log, tracked)
    }

    /** Puts every instance of one link, in any order, giving up at the first failure. */
    method SpawnLink(link: Link) returns (ok: bool)
      modifies store`kv, store`log
      ensures old(store.kv).Keys <= store.kv.Keys
      ensures ok ==> names(link) <= store.kv.Keys
      ensures store.env.Untroubled(names, |old(store.log)|, |store.log|, link) ==> ok
      ensures store.env.Healthy() ==> ok && store.kv == PutAll(old(store.kv), names(link), link)
      ensures Extends(store.log, old(store.log))
      ensures AllKeep(store.log, |old(store.log)|, old(store.kv).Keys)
    {
      hide PutAll, AllKeep, Extends, Env.Healthy, Env.Untroubled;
      LogNothing(store.log, store.kv.Keys);
      if !store.env.builds(link) {
        RefusedIsTrouble(names, store.env, |store.log|, |store.log|, link, 0, []);
        return false;
      }
      ghost var before := store.kv;
      ghost var log0 := store.log;
      var all := names(link);
      var todo := all;
      PutOneMore(before, {}, [], link);
      assert all - todo == {};
      while todo != {}
        invariant todo <= all
        invariant before.Keys <= store.kv.Keys && all - todo <= store.kv.Keys
        invariant store.env.Healthy() ==> store.kv == PutAll(before, all - todo, link)
        invariant Extends(store.log, log0) && AllKeep(store.log, |log0|, before.Keys) && |log0| <= |store.log|
        decreases |todo|
      {
        var n :| n in todo;
        ghost var log, kv := store.log, store.kv;
        var put := store.Put(n, link);
        assert kv.Keys <= store.kv.Keys;
        LogOneMore(log, log0, before.Keys, store.kv.Keys);
        if !put {
          RefusedIsTrouble(names, store.env, |log0|, |store.log|, link, |log|, n);
          return false;
        }
        PutOneMore(before, all - todo, n, link);
        assert all - (todo - {n}) == all - todo + {n};
        todo := todo - {n};
      }
      assert all - todo == all;
      return true;
    }

    /** Deletes one pin's instances; a failed delete is passed over. */
    method RemoveInstances(gone: set<Name>)
      modifies store`kv, store`log
      ensures old(store.kv).Keys - gone <= store.kv.Keys <= old(store.kv).Keys
      ensures forall n :: n in store.kv ==> store.kv[n] == old(store.kv)[n]
      ensures forall x :: x in gone && x in store.kv ==> store.env.RefusesDelete(x, |old(store.log)|, |store.log|)
      ensures store.env.Healthy() ==> store.kv == old(store.kv) - gone
      ensures Extends(store.log, old(store.log))
      ensures AllKeep(store.log, |old(store.log)|, old(store.kv).Keys - gone)
    {
      hide AllKeep, Extends, Env.Healthy, Env.RefusesDelete;
      LogNothing(store.log, store.kv.Keys - gone);
      var todo := gone;
      ghost var done: set<Name> := {};
      while todo != {}
        invariant done + todo == gone
        invariant old(store.kv).Keys - done <= store.kv.Keys <= old(store.kv).Keys
        invariant forall n :: n in store.kv ==> store.kv[n] == old(store.kv)[n]
        invariant store.env.Healthy() ==> store.kv == old(store.kv) - done
        invariant |old(store.log)| <= |store.log|
        invariant forall x :: x in done && x in store.kv ==> store.env.RefusesDelete(x, |old(store.log)|, |store.log|)
        invariant Extends(store.log, old(store.log))
        invariant AllKeep(store.log, |old(store.log)|, old(store.kv).Keys - gone)
        decreases |todo|
      {
        var n :| n in todo;
        ghost var log := store.log;
        var _ := store.Delete(n);
        DeletedOrRefused(store.env, n, |old(store.log)|, |log|);
        LogOneMore(log, old(store.log), old(store.kv).Keys - gone, store.kv.Keys);
        todo, done := todo - {n}, done + {n};
      }
    }

    /** Mid-pass: tracked pins are the old or the desired ones, and where `safe` those still
        wanted are all in the store. */
    ghost predicate Sound(safe: bool, before: Tracked, desired: Desired)
      reads this, store
    {
      && Named(names, tracked) && Between(tracked, before, desired)
      && (safe ==> Spares(names, before, desired) && HoldsWanted(names, store.kv.Keys, tracked, desired))
    }

    /** The remove loop's body for one tracked path: a vanished pin's instances go; a moved
        pin's new instances are put before its old ones are deleted. */
    method ReconcilePath(p: Path, desired: Desired, ghost safe: bool, ghost before: Tracked)
      requires Sound(safe, before, desired) && p in tracked && tracked.Keys <= before.Keys
      modifies this`tracked, store`kv, store`log
      ensures Sound(safe, before, desired)
      ensures Reconciled(names, store.env, Now(), old(Now()), desired, p)
      ensures Logged(names, store.log, old(store.log), safe, before, desired)
    {
      hide Named, HoldsWanted, Between, NoStray, AllKeep, Extends, Logged, Spares, PutAll;
      ghost var kv0, log0, t0 := store.kv, store.log, tracked;
      NothingLogged(names, log0, safe, before, desired);
      var tr := tracked[p];
      assert tr.names == names(tr.link) && tr.link.path == p by { NamedAt(names, t0, p); }
      if p in desired && desired[p].sha == tr.link.pin.sha {
        return;
      }
      if p in desired {
        var cur := Link(p, desired[p]);
        var ok := SpawnLink(cur);
        StillHeld(names, kv0.Keys, store.kv.Keys, safe, t0, desired);
        KeptIsLogged(names, store.log, log0, safe, kv0.Keys, t0, before, desired);
        if ok {
          ghost var kv1, log1 := store.kv, store.log;
          ghost var keep := kv1.Keys - tr.names;
          if safe {
            MoveSparesNew(names, kv1.Keys, t0, before, desired, p);
          }
          RemoveInstances(tr.names);
          var next := Spawned(cur, names(cur), false);
          tracked := tracked[p := next];
          MovedIsSound(names, t0, before, desired, p);
          StillHeld(names, keep, store.kv.Keys, safe, tracked, desired);
          KeptIsLogged(names, store.log, log1, safe, keep, tracked, before, desired);
          LogsCompose(names, log0, log1, store.log, safe, before, desired);
          PutAllKeys(kv0, names(cur), cur);
          if store.env.Healthy() && NoStray(names, kv0, t0) {
            PutIsNoStray(names, kv0, t0, p, next);
          }
        }
        return;
      }
      if safe {
        RemovalSparesOthers(names, kv0.Keys, t0, before, desired, p);
      }
      RemoveInstances(tr.names);
      tracked := tracked - {p};
      GoneIsSound(names, t0, before, desired, p);
      ghost var keep := kv0.Keys - tr.names;
      StillHeld(names, keep, store.kv.Keys, safe, tracked, desired);
      KeptIsLogged(names, store.log, log0, safe, keep, tracked, before, desired);
      if store.env.Healthy() && NoStray(names, kv0, t0) {
        RemoveIsNoStray(names, kv0, t0, p);
      }
    }

    /** The confirm loop's body: one repeated put for a pin spawned on an earlier pass. */
    method ConfirmPath(p: Path, desired: Desired, ghost safe: bool, ghost before: Tracked)
      requires Sound(safe, before, desired) && p in tracked
      modifies this`tracked, store`kv, store`log
      ensures Sound(safe, before, desired)
      ensures Confirmed(names, store.env, Now(), old(Now()), desired, p)
      ensures Logged(names, store.log, old(store.log), safe, before, desired)
    {
      hide Named, HoldsWanted, Between, NoStray, AllKeep, Extends, Logged, Spares, PutAll;
      ghost var kv0, log0, t0 := store.kv, store.log, tracked;
      NothingLogged(names, log0, safe, before, desired);
      var tr := tracked[p];
      if tr.confirmed {
        assert t0[p := tr] == t0;
        return;
      }
      if p in desired && desired[p].sha == tr.link.pin.sha {
        var cur := Link(p, desired[p]);
        var ok := SpawnLink(cur);
        StillHeld(names, kv0.Keys, store.kv.Keys, safe, t0, desired);
        KeptIsLogged(names, store.log, log0, safe, kv0.Keys, t0, before, desired);
        PutAllKeys(kv0, names(cur), cur);
        if ok {
          tracked := tracked[p := tr.(confirmed := true)];
          NamedAt(names, t0, p);
          ConfirmedIsSound(names, store.kv.Keys, safe, t0, before, desired, p);
          if store.env.Healthy() && NoStray(names, kv0, t0) && SameUrls(t0, desired) {
            PutIsNoStray(names, kv0, t0, p, tracked[p]);
            assert PutAll(kv0, names(cur), cur) - {} == PutAll(kv0, names(cur), cur);
          }
        }
      }
    }

    /** The add loop's body for one desired path. */
    method AddPath(p: Path, desired: Desired, ghost safe: bool, ghost before: Tracked)
      requires Sound(safe, before, desired) && p in desired
      modifies this`tracked, store`kv, store`log
      ensures Sound(safe, before, desired)
      ensures Added(names, store.env, Now(), old(Now()), desired, p)
      ensures Logged(names, store.log, old(store.log), safe, before, desired)
    {
      hide Named, HoldsWanted, Between, NoStray, AllKeep, Extends, Logged, Spares, PutAll;
      ghost var kv0, log0, t0 := store.kv, store.log, tracked;
      NothingLogged(names, log0, safe, before, desired);
      if p in tracked {
        return;
      }
      var cur := Link(p, desired[p]);
      var ok := SpawnLink(cur);
      StillHeld(names, kv0.Keys, store.kv.Keys, safe, t0, desired);
      KeptIsLogged(names, store.log, log0, safe, kv0.Keys, t0, before, desired);
      PutAllKeys(kv0, names(cur), cur);
      if ok {
        tracked := tracked[p := Spawned(cur, names(cur), false)];
        AddedIsSound(names, store.kv.Keys, safe, t0, before, desired, p);
        if store.env.Healthy() && NoStray(names, kv0, t0) {
          PutIsNoStray(names, kv0, t0, p, tracked[p]);
          assert PutAll(kv0, names(cur), cur) - {} == PutAll(kv0, names(cur), cur);
        }
      }
    }

    /** The remove loop, over the tracked paths in any order. */
    method RemoveLoop(desired: Desired, ghost safe: bool)
      requires Sound(safe, tracked, desired)
      modifies this`tracked, store`kv, store`log
      ensures Sound(safe, old(tracked), desired)
      ensures RemovingSoFar(names, store.env, Now(), old(Now()), desired, safe, {})
      ensures RemovingServes(names, store.env, Now(), old(Now()), desired, {})
    {
      hide NoStray, Logged, Sound, Reconciled, RemovingSoFar, RemovingServes;
      ghost var was := Now();
      NothingServed(names, store.env, was, desired);
      RemovingStarts(names, store.env, was, desired, safe);
      var todo := tracked.Keys;
      while todo != {}
        invariant Sound(safe, was.tracked, desired)
        invariant RemovingSoFar(names, store.env, Now(), was, desired, safe, todo)
        invariant RemovingServes(names, store.env, Now(), was, desired, todo)
        decreases |todo|
      {
        var p :| p in todo;
        ghost var mid := Now();
        RemovingReaches(names, store.env, mid, was, desired, safe, todo, p);
        ReconcilePath(p, desired, safe, was.tracked);
        RemovingTurn(names, store.env, Now(), mid, was, desired, safe, todo, p);
        LogGrows(names, store.log, mid.log, safe, was.tracked, desired);
        RemovingServesTurn(names, store.env, Now(), mid, was, desired, todo, p);
        todo := todo - {p};
      }
    }

    /** The confirm loop, over the tracked paths in any order. */
    method ConfirmLoop(desired: Desired, ghost safe: bool, ghost before: Tracked)
      requires Sound(safe, before, desired)
      modifies this`tracked, store`kv, store`log
      ensures Sound(safe, before, desired)
      ensures ConfirmingSoFar(names, store.env, Now(), old(Now()), desired, safe, before, {})
      ensures ConfirmingServes(names, store.env, Now(), old(Now()), desired, {})
    {
      hide NoStray, Logged, Sound, Confirmed, ConfirmingSoFar, ConfirmingServes;
      ghost var was := Now();
      NothingServed(names, store.env, was, desired);
      ConfirmingStarts(names, store.env, was, desired, safe, before);
      var todo := tracked.Keys;
      while todo != {}
        invariant Sound(safe, before, desired)
        invariant ConfirmingSoFar(names, store.env, Now(), was, desired, safe, before, todo)
        invariant ConfirmingServes(names, store.env, Now(), was, desired, todo)
        decreases |todo|
      {
        var p :| p in todo;
        ghost var mid := Now();
        ConfirmingReaches(names, store.env, mid, was, desired, safe, before, todo, p);
        ConfirmPath(p, desired, safe, before);
        ConfirmingTurn(names, store.env, Now(), mid, was, desired, safe, before, todo, p);
        LogGrows(names, store.log, mid.log, safe, before, desired);
        ConfirmingServesTurn(names, store.env, Now(), mid, was, desired, todo, p);
        todo := todo - {p};
      }
    }

    /** The add loop, over the wanted paths in any order. */
    method AddLoop(desired: Desired, ghost safe: bool, ghost before: Tracked)
      requires Sound(safe, before, desired) && tracked.Keys <= desired.Keys
      modifies this`tracked, store`kv, store`log
      ensures Sound(safe, before, desired)
      ensures AddingSoFar(names, store.env, Now(), old(Now()), desired, safe, before, {})
      ensures AddingServes(names, store.env, Now(), old(Now()), desired, {})
    {
      hide NoStray, Logged, Sound, Added, AddingSoFar, AddingServes;
      ghost var was := Now();
      NothingServed(names, store.env, was, desired);
      AddingStarts(names, store.env, was, desired, safe, before);
      var todo := desired.Keys;
      while todo != {}
        invariant todo <= desired.Keys
        invariant Sound(safe, before, desired)
        invariant AddingSoFar(names, store.env, Now(), was, desired, safe, before, todo)
        invariant AddingServes(names, store.env, Now(), was, desired, todo)
        decreases |todo|
      {
        var p :| p in todo;
        ghost var mid := Now();
        AddPath(p, desired, safe, before);
        AddingTurn(names, store.env, Now(), mid, was, desired, safe, before, todo, p);
        LogGrows(names, store.log, mid.log, safe, before, desired);
        AddingServesTurn(names, store.env, Now(), mid, was, desired, todo, p);
        todo := todo - {p};
      }
    }

    /** One pass over an inventory, or over none when the checkout cannot be listed.
        Whatever fails: what is tracked is wanted; and if every tracked pin has its instances
        in the store and the pass gives up none that it keeps, then so it is again after the
        pass, and at every moment of it a pin tracked before and still wanted has all its old
        instances or all its new ones. When no write fails: the tracked pins become the
        wanted ones, and the store is left with exactly the names `PassedNames` gives. */
    method Tick(inventory: Option<seq<Submodule>>)
      requires Named(names, tracked)
      modifies this`tracked, store`kv, store`log
      ensures Named(names, tracked) && Extends(store.log, old(store.log))
      ensures inventory.None? ==>
                tracked == old(tracked) && store.log == old(store.log) && store.kv == old(store.kv)
      ensures inventory.Some? ==>
                var desired := DesiredOf(inventory.value);
                && tracked.Keys <= desired.Keys && Between(tracked, old(tracked), desired)
                && Served(names, store.env, Now(), old(Now()), desired)
                && (Safe(names, old(store.kv).Keys, old(tracked), desired) ==>
                      && Holds(names, store.kv.Keys, tracked)
                      && AllOldOrNew(names, store.log, |old(store.log)|, old(tracked), desired))
                && (store.env.Healthy() ==>
                      && (forall p :: p in tracked <==>
                            exists i :: 0 <= i < |inventory.value| && inventory.value[i].path == p && CanBeHad(inventory.value[i]))
                      && tracked == Ticked(names, old(tracked), desired)
                      && store.kv.Keys == PassedNames(names, old(store.kv).Keys, old(tracked), desired))
                && (store.env.Healthy() && NoStray(names, old(store.kv), old(tracked)) && SameUrls(old(tracked), desired)
                    ==> NoStray(names, store.kv, tracked))
                && (Quiet(old(tracked), desired) ==>
                      tracked == old(tracked) && store.log == old(store.log) && store.kv == old(store.kv))
    {
      hide NoStray, Removing, Confirming, Adding, Ticked, SameUrls, Quiet, Safe, SomeDropped, RemovingSoFar;
      hide RemovingServes, ConfirmingServes, AddingServes, Served, Env.Healthy;
      hide AllOldOrNew, Extends, PassedNames, ConfirmedNames, AddedNames, Between, Named, HoldsWanted, Spares;
      if inventory.None? {
        NothingLogged(names, store.log, false, tracked, map[]);
        return;
      }
      var desired := FindDesired(inventory.value);
      ghost var log0, before, start := store.log, tracked, store.kv.Keys;
      ghost var safe := Safe(names, start, before, desired);
      ghost var was := Now();
      StartsSound(names, start, safe, before, desired);
      RemoveLoop(desired, safe);
      RemovingEnds(names, store.env, Now(), was, desired, safe);
      assert forall visited: set<Path> :: visited - {} == visited;
      ghost var log1, present := store.log, store.kv.Keys;
      ghost var m1 := Now();
      RemovingKeepsUrls(names, before, desired);
      ConfirmLoop(desired, safe, before);
      ghost var log2 := store.log;
      LogsCompose(names, log0, log1, log2, safe, before, desired);
      ghost var m2 := Now();
      AddLoop(desired, safe, before);
      LoopsServe(names, store.env, Now(), m2, m1, was, desired);
      LogsCompose(names, log0, log2, store.log, safe, before, desired);
      LoopsMakeTicked(names, before, desired);
      if store.env.Healthy() {
        LoopsMakePassed(names, present, start, before, desired);
        TickedTracksWanted(names, before, inventory.value);
      }
      if safe {
        WantedIsAll(names, store.kv.Keys, tracked, desired);
      }
    }

    /** The ticks a healthy store sees on one inventory: the first leaves it as it stays, with
        exactly the tracked instances if that is what it held and nothing is lost or brought
        in, and the second leaves nothing to do. */
    method TwoTicks(inventory: seq<Submodule>)
      requires store.env.Healthy() && Named(names, tracked)
      modifies this`tracked, store`kv, store`log
      ensures var desired := DesiredOf(inventory);
              && tracked == Ticked(names, Ticked(names, old(tracked), desired), desired)
              && Named(names, tracked) && Quiet(tracked, desired) && Agrees(tracked, desired)
              && store.kv.Keys == PassedNames(names, old(store.kv).Keys, old(tracked), desired)
              && (old(store.kv).Keys == AllNames(names, old(tracked)) ==>
                    (store.kv.Keys == AllNames(names, tracked) <==>
                     LosesNothing(names, old(tracked), desired) && BringsNothingNew(names, old(tracked), desired)))
              && (NoStray(names, old(store.kv), old(tracked)) && SameUrls(old(tracked), desired)
                  ==> NoStray(names, store.kv, tracked))
    {
      hide Named, Safe, NoStray, Ticked, Between, SameUrls, Quiet, Agrees, PassedNames, AllOldOrNew, Extends;
      hide AllNames, LosesNothing, BringsNothingNew, Holds, Served, Env.Healthy;
      ghost var desired, before := DesiredOf(inventory), tracked;
      ghost var present := store.kv.Keys;
      Tick(Some(inventory));
      ghost var once := tracked;
      TickedNeedsNothing(names, before, desired);
      Tick(Some(inventory));
      SecondPassPutsNothingNew(names, present, before, desired);
      TwoTicksSettle(names, before, desired);
      TwoTicksSettle(names, once, desired);
      ExactnessSurvivesIff(names, before, desired);
      AgreedNamesStay(names, once, desired);
    }

    /** Any number of ticks from a quiet state: nothing is written, whether or not the store
        would take it. */
    method QuietTicks(inventory: seq<Submodule>, n: nat)
      requires Named(names, tracked) && Quiet(tracked, DesiredOf(inventory))
      modifies this`tracked, store`kv, store`log
      ensures store.log == old(store.log) && store.kv == old(store.kv) && tracked == old(tracked)
    {
      hide Named, Safe, NoStray, Ticked, Between, SameUrls, Quiet, PassedNames, AllOldOrNew, Extends, Holds, Served;
      for i := 0 to n
        invariant store.log == old(store.log) && store.kv == old(store.kv) && tracked == old(tracked)
      {
        Tick(Some(inventory));
      }
    }

    /** The polling loop on one inventory with a healthy store: however many ticks follow the
        first two, they leave what the first two made. */
    method Poll(inventory: seq<Submodule>, n: nat)
      requires store.env.Healthy() && Named(names, tracked)
      modifies this`tracked, store`kv, store`log
      ensures var desired := DesiredOf(inventory);
              && tracked == Ticked(names, Ticked(names, old(tracked), desired), desired)
              && Agrees(tracked, desired)
              && store.kv.Keys == PassedNames(names, old(store.kv).Keys, old(tracked), desired)
              && (old(store.kv).Keys == AllNames(names, old(tracked)) ==>
                    (store.kv.Keys == AllNames(names, tracked) <==>
                     LosesNothing(names, old(tracked), desired) && BringsNothingNew(names, old(tracked), desired)))
    {
      hide Named, NoStray, Ticked, SameUrls, Quiet, Agrees, PassedNames, AllNames, LosesNothing, BringsNothingNew;
      TwoTicks(inventory);
      QuietTicks(inventory, n);
    }
  }
}
