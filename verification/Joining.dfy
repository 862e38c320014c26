/** The two join primitives: a group of workers that may start further workers, and the
    supervisor of one seed. A channel is a number; closing it puts the number in a set. */
module Joining {
  import opened Bytes

  // ---- worker group ----

  datatype Workers = Workers(active: nat, done: Option<nat>, made: nat, closed: set<nat>)

  const NoWorkers := Workers(0, None, 0, {})

  function Went(g: Workers): Workers {
    var idle := g.active == 0;
    Workers(g.active + 1,
            if idle then Some(g.made) else g.done,
            if idle then g.made + 1 else g.made,
            g.closed)
  }

  function Finished(g: Workers): Workers
    requires g.active > 0 && g.done.Some?
  {
    g.(active := g.active - 1, closed := if g.active == 1 then g.closed + {g.done.value} else g.closed)
  }

  /** What Go and finish keep: the current channel is the newest, and is open exactly while
      some worker is active. */
  predicate Consistent(g: Workers) {
    && (forall c :: c in g.closed ==> c < g.made)
    && (g.done.Some? ==> g.done.value == g.made - 1)
    && (g.done.None? ==> g.made == 0)
    && (g.active > 0 <==> g.done.Some? && g.done.value !in g.closed)
  }

  /** A waiter holding `channel` may go on. */
  predicate Released(g: Workers, channel: Option<nat>) {
    channel.Some? ==> channel.value in g.closed
  }

  class Group {
    var active: nat
    var done: Option<nat>
    var made: nat
    var closed: set<nat>

    constructor ()
      ensures View() == NoWorkers && Consistent(View())
    {
      active, done, made, closed := 0, None, 0, {};
    }

    function View(): Workers
      reads this
    {
      Workers(active, done, made, closed)
    }

    method Go()
      requires Consistent(View())
      modifies this
      ensures View() == Went(old(View())) && Consistent(View())
    {
      if active == 0 {
        done := Some(made);
        made := made + 1;
      }
      active := active + 1;
    }

    method Finish()
      requires Consistent(View()) && active > 0
      modifies this
      ensures View() == Finished(old(View())) && Consistent(View())
    {
      active := active - 1;
      if active == 0 {
        closed := closed + {done.value};
      }
    }
  }

  datatype Op = Go | Finish

  predicate Allowed(g: Workers, op: Op) {
    op == Finish ==> g.active > 0 && g.done.Some?
  }

  function Do(g: Workers, op: Op): Workers
    requires Allowed(g, op)
  {
    match op case Go => Went(g) case Finish => Finished(g)
  }

  predicate IsHistory(g: Workers, ops: seq<Op>)
    decreases |ops|
  {
    ops == [] || (Allowed(g, ops[0]) && IsHistory(Do(g, ops[0]), ops[1..]))
  }

  function DoAll(g: Workers, ops: seq<Op>): Workers
    requires IsHistory(g, ops)
    decreases |ops|
  {
    if ops == [] then g else DoAll(Do(g, ops[0]), ops[1..])
  }

  /** At some moment from `g` on, no worker was active. */
  predicate WasIdle(g: Workers, ops: seq<Op>)
    requires IsHistory(g, ops)
    decreases |ops|
  {
    g.active == 0 || (ops != [] && WasIdle(Do(g, ops[0]), ops[1..]))
  }

  lemma DoKeepsConsistent(g: Workers, op: Op)
    requires Consistent(g) && Allowed(g, op)
    ensures Consistent(Do(g, op))
  {
  }

  lemma {:induction false} StaysReleased(g: Workers, ops: seq<Op>, channel: Option<nat>)
    requires IsHistory(g, ops) && Released(g, channel)
    ensures Released(DoAll(g, ops), channel)
    decreases |ops|
  {
    if ops != [] {
      StaysReleased(Do(g, ops[0]), ops[1..], channel);
    }
  }

  /** A wait that took its channel at `g` is released exactly when the group has been idle
      at that moment or since, whatever work was started meanwhile. */
  lemma {:induction false} ReleasedMeansIdle(g: Workers, ops: seq<Op>)
    requires Consistent(g) && IsHistory(g, ops)
    ensures Released(DoAll(g, ops), g.done) <==> WasIdle(g, ops)
    decreases |ops|
  {
    if g.active == 0 {
      StaysReleased(g, ops, g.done);
    } else if ops != [] {
      var h := Do(g, ops[0]);
      DoKeepsConsistent(g, ops[0]);
      assert h.done == g.done;
      ReleasedMeansIdle(h, ops[1..]);
    }
  }

  // ---- seed supervisor ----

  datatype Seeds = Seeds(held: Option<nat>, made: nat, closed: set<nat>, cancelled: set<nat>)

  const NoSeed := Seeds(None, 0, {}, {})

  function Begun(s: Seeds): Seeds {
    s.(held := Some(s.made), made := s.made + 1)
  }

  function Ended(s: Seeds, seed: nat): Seeds {
    s.(closed := s.closed + {seed})
  }

  function Cancelled(s: Seeds): Seeds {
    s.(cancelled := if s.held.Some? then s.cancelled + {s.held.value} else s.cancelled)
  }

  /** A joined seed is let go of, unless another has been started since. */
  function LetGo(s: Seeds, seed: nat): Seeds {
    s.(held := if s.held == Some(seed) then None else s.held)
  }

  /** What is held is the newest seed, and that one is held until it has returned. */
  predicate Retained(s: Seeds) {
    && (forall k :: k in s.closed ==> k < s.made)
    && (s.held.Some? ==> s.held.value == s.made - 1)
    && (s.made > 0 ==> s.made - 1 in s.closed || s.held == Some(s.made - 1))
  }

  predicate Runs(s: Seeds, seed: nat) {
    seed < s.made && seed !in s.closed
  }

  /** No seed is running unless the supervisor still holds it. */
  ghost predicate AllHeld(s: Seeds) {
    forall k: nat :: Runs(s, k) ==> s.held == Some(k)
  }

  lemma BegunHoldsAllIff(s: Seeds)
    requires Retained(s)
    ensures AllHeld(Begun(s)) <==> forall k: nat :: !Runs(s, k)
  {
    var t := Begun(s);
    if AllHeld(t) {
      forall k: nat ensures !Runs(s, k) {
        assert Runs(s, k) ==> Runs(t, k) && t.held != Some(k);
      }
    }
    if forall k: nat :: !Runs(s, k) {
      forall k: nat | Runs(t, k) ensures t.held == Some(k) {
        assert !Runs(s, k);
      }
    }
  }

  /** What seeds, starts and stops make of a supervisor in any time: it forgets no seed that
      may still run, and keeps hold of what it held unless that has returned or another seed
      has been started. */
  predicate Evolves(s: Seeds, t: Seeds) {
    && s.made <= t.made && s.closed <= t.closed && s.cancelled <= t.cancelled
    && (s.made == t.made ==>
          t.held == s.held || (t.held.None? && s.held.Some? && s.held.value in t.closed))
  }

  datatype SeedOp = Begin | End(seed: nat) | Take | Leave(seed: nat)

  /** A Stop takes the seed it finds held, and leaves it when that one has returned; between
      the two any number of seeds may be begun. */
  predicate SeedAllowed(s: Seeds, op: SeedOp) {
    match op
    case Begin => true
    case End(seed) => seed < s.made
    case Take => true
    case Leave(seed) => seed in s.closed && seed < s.made
  }

  function SeedDo(s: Seeds, op: SeedOp): Seeds {
    match op
    case Begin => Begun(s)
    case End(seed) => Ended(s, seed)
    case Take => Cancelled(s)
    case Leave(seed) => LetGo(s, seed)
  }

  predicate SeedHistory(s: Seeds, ops: seq<SeedOp>)
    decreases |ops|
  {
    ops == [] || (SeedAllowed(s, ops[0]) && SeedHistory(SeedDo(s, ops[0]), ops[1..]))
  }

  function SeedDoAll(s: Seeds, ops: seq<SeedOp>): Seeds
    requires SeedHistory(s, ops)
    decreases |ops|
  {
    if ops == [] then s else SeedDoAll(SeedDo(s, ops[0]), ops[1..])
  }

  lemma {:induction false} HistoryEvolves(s: Seeds, ops: seq<SeedOp>)
    requires Retained(s) && SeedHistory(s, ops)
    ensures Retained(SeedDoAll(s, ops)) && Evolves(s, SeedDoAll(s, ops))
    decreases |ops|
  {
    if ops != [] {
      HistoryEvolves(SeedDo(s, ops[0]), ops[1..]);
    }
  }

  /** Over any history of starts, returns and stops: a running seed is held if and only if it
      is the newest one begun. */
  lemma HeldMeansNewest(ops: seq<SeedOp>, k: nat)
    requires SeedHistory(NoSeed, ops) && Runs(SeedDoAll(NoSeed, ops), k)
    ensures var s := SeedDoAll(NoSeed, ops); s.held == Some(k) <==> k == s.made - 1
  {
    HistoryEvolves(NoSeed, ops);
  }

  /** However many seeds are begun while a Stop waits for the one it took, once that one has
      returned the Stop lets go of it and of no other: whatever newer seed is held stays so. */
  lemma StopSparesNewerSeeds(s: Seeds, ops: seq<SeedOp>, seed: nat)
    requires Retained(s) && s.held == Some(seed) && SeedHistory(s, ops) && seed in SeedDoAll(s, ops).closed
    ensures var t := SeedDoAll(s, ops);
            var after := LetGo(t, seed);
            && Retained(after) && after.held != Some(seed)
            && (t.made > s.made ==> after.held == t.held && (Runs(t, t.made - 1) ==> after.held == Some(t.made - 1)))
            && (t.made == s.made ==> after.held.None?)
  {
    HistoryEvolves(s, ops);
  }

  /** A seed that is not held, such as one that was begun over while it ran, is never held
      again, and if no Stop has cancelled it none will. */
  lemma {:induction false} UnheldIsLost(s: Seeds, ops: seq<SeedOp>, seed: nat)
    requires seed < s.made && s.held != Some(seed) && SeedHistory(s, ops)
    ensures SeedDoAll(s, ops).held != Some(seed)
    ensures seed !in s.cancelled ==> seed !in SeedDoAll(s, ops).cancelled
    decreases |ops|
  {
    if ops != [] {
      UnheldIsLost(SeedDo(s, ops[0]), ops[1..], seed);
    }
  }

  class Supervisor {
    var held: Option<nat>
    var made: nat
    var closed: set<nat>
    var cancelled: set<nat>

    constructor ()
      ensures View() == NoSeed && Retained(View())
    {
      held, made, closed, cancelled := None, 0, {}, {};
    }

    function View(): Seeds
      reads this
    {
      Seeds(held, made, closed, cancelled)
    }

    /** Start, whether or not a seed is still held. No running seed is out of hold afterwards
        if and only if none was running. */
    method Start()
      requires Retained(View())
      modifies this`held, this`made
      ensures View() == Begun(old(View())) && Retained(View())
      ensures AllHeld(View()) <==> forall k: nat :: !Runs(old(View()), k)
    {
      held := Some(made);
      made := made + 1;
      BegunHoldsAllIff(old(View()));
    }

    /** The seed's own goroutine closing its channel. */
    method SeedReturns(seed: nat)
      requires Retained(View()) && seed < made
      modifies this`closed
      ensures View() == Ended(old(View()), seed) && Retained(View())
    {
      closed := closed + {seed};
    }

    /** Other goroutines' calls and seeds' returns, while this one does not hold the lock. */
    method Meanwhile()
      requires Retained(View())
      modifies this
      ensures Retained(View()) && Evolves(old(View()), View())
    {
      var turns: nat :| true;
      for i := 0 to turns
        invariant Retained(View()) && Evolves(old(View()), View())
      {
        var seed: nat := *;
        if seed >= made {
          Start();
        } else if seed !in closed {
          SeedReturns(seed);
        } else if held == Some(seed) {
          held := None;
        }
        if held.Some? {
          cancelled := cancelled + {held.value};
        }
      }
    }

    /** Stop: the seed found held is cancelled, and let go of only if it was seen to have
        returned and is still the one held. A wait cut short by the caller's deadline keeps
        hold of it for the next Stop. `expired` says whether the deadline has passed; without
        it the call ends only once the seed has returned. */
    method Stop(expired: bool) returns (joined: bool)
      requires Retained(View())
      requires held.None? || held.value in closed || expired
      modifies this
      ensures Retained(View()) && Evolves(old(View()), View())
      ensures old(held).None? ==> joined && View() == old(View())
      ensures old(held).Some? ==> old(held).value in cancelled
      ensures joined && old(held).Some? ==> old(held).value in closed && held != old(held)
      ensures joined && made == old(made) ==> held.None?
      ensures !joined ==> expired
      ensures !joined && made == old(made) ==> held == old(held) || old(held).value in closed
    {
      var done := held;
      if done.None? {
        return true;
      }
      cancelled := cancelled + {done.value};
      Meanwhile();
      var pick: bool := *;
      if done.value in closed && (!expired || pick) {
        if held == done {
          held := None;
        }
        return true;
      }
      return false;
    }

    /** A Stop cut short by its deadline, the seed's return, and another Stop: if no seed was
        started meanwhile, between them they join exactly the seed that was held. */
    method StopAgain()
      requires Retained(View()) && held.Some?
      modifies this
      ensures Retained(View()) && Evolves(old(View()), View())
      ensures made == old(made) ==> held.None? && old(held).value in closed
      ensures made == old(made) && AllHeld(old(View())) ==> forall k: nat :: !Runs(View(), k)
    {
      ghost var before := View();
      var seed, was := held.value, made;
      var joined := Stop(true);
      if !joined && made == was {
        SeedReturns(seed);
        joined := Stop(false);
      }
      forall k: nat | made == before.made && AllHeld(before) ensures !Runs(View(), k) {
        assert Runs(View(), k) ==> Runs(before, k);
      }
    }

    /** Whether the newest seed has still to return; whether any has, if all are held. */
    method Running() returns (r: bool)
      requires Retained(View())
      ensures r <==> made > 0 && Runs(View(), made - 1)
      ensures AllHeld(View()) ==> (r <==> exists k: nat :: Runs(View(), k))
    {
      r := held.Some? && held.value !in closed;
    }
  }
}
