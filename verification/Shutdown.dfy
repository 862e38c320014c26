/** A source component from Start to the end of Stop: the seed, the workers it admits, the
    publisher they send to, and Stop's joins, each of which may time out and be retried. */
module Shutdown {
  import opened Bytes
  import P = Publisher
  import J = Joining

  /** Goroutine 0 is the seed, the others are workers. */
  const SEED: P.Producer := 0

  /** How far the current call of Stop has come. */
  datatype Phase =
    | Idle
    | JoiningSeed
    | CheckingContext
    | StoppingWatchers
    | EnteringWait
    | JoiningWorkers(channel: Option<nat>)
    | ClosingPublisher
    | SignallingPublisher
    | SettlingPublisher

  datatype Result = NotYet | Failed | Succeeded

  datatype World = World(
    pub: P.State,
    seeds: J.Seeds,
    workers: set<P.Producer>,
    group: J.Workers,
    phase: Phase,
    expired: bool,      // the context of the current Stop has ended
    running: bool,
    result: Result)

  datatype Move =
    | Send(p: P.Producer, step: P.Step)       // a goroutine enters Send
    | Publish(step: P.Step)                   // the drain loop, a pending Send, or a context
    | Spawn(parent: P.Producer, worker: P.Producer)
    | Return(p: P.Producer)
    | Expire
    | CallStop
    | SeedJoined
    | SeedWaitExpired
    | CheckContext
    | WatchersStopped(ok: bool)
    | EnterWait
    | WorkersJoined
    | WorkersWaitExpired
    | ClosePublisher
    | SignalPublisher
    | PublisherSettled
    | PublisherExpired

  /** The component just after Start: drain loop and progress reporter running, seed begun. */
  function Started(capacity: nat): World {
    World(P.Next(P.Initial(capacity), P.Start), J.Begun(J.NoSeed), {1}, J.Went(J.NoWorkers),
          Idle, false, true, NotYet)
  }

  predicate SeedRunning(w: World) {
    0 !in w.seeds.closed
  }

  predicate Runs(w: World, p: P.Producer) {
    if p == SEED then SeedRunning(w) else p in w.workers
  }

  predicate Entering(step: P.Step) {
    step.Offer? || step.Refuse?
  }

  /** Steps of the publisher that belong to nobody's call of Send entry, Start or Stop. */
  predicate Background(step: P.Step) {
    !Entering(step) && !step.Start? && !step.StopCall? && !step.StopSignal?
    && !step.StopDone? && !step.StopExpire?
  }

  predicate Possible(w: World, move: Move) {
    match move
    case Send(p, step) =>
      Runs(w, p) && P.Enabled(w.pub, step)
      && (step.Offer? || step.Refuse?) && step.p == p
    case Publish(step) => Background(step) && P.Enabled(w.pub, step)
    case Spawn(parent, worker) =>
      Runs(w, parent) && worker != SEED && worker !in w.workers && !P.Busy(w.pub, worker)
    case Return(p) =>
      Runs(w, p) && !P.Busy(w.pub, p) && (p != SEED ==> w.group.active > 0 && w.group.done.Some?)
    case Expire => w.phase != Idle
    case CallStop => w.phase == Idle && w.running
    case SeedJoined => w.phase == JoiningSeed && (w.seeds.held.Some? ==> w.seeds.held.value in w.seeds.closed)
    case SeedWaitExpired => w.phase == JoiningSeed && w.seeds.held.Some? && w.expired
    case CheckContext => w.phase == CheckingContext
    case WatchersStopped(_) => w.phase == StoppingWatchers
    case EnterWait => w.phase == EnteringWait
    case WorkersJoined => w.phase.JoiningWorkers? && J.Released(w.group, w.phase.channel)
    case WorkersWaitExpired => w.phase.JoiningWorkers? && w.phase.channel.Some? && w.expired
    case ClosePublisher => w.phase == ClosingPublisher && P.Enabled(w.pub, P.StopCall)
    case SignalPublisher => w.phase == SignallingPublisher && P.Enabled(w.pub, P.StopSignal)
    case PublisherSettled => w.phase == SettlingPublisher && P.Enabled(w.pub, P.StopDone)
    case PublisherExpired => w.phase == SettlingPublisher && P.Enabled(w.pub, P.StopExpire) && w.expired
  }

  function Makes(w: World, move: Move): World
    requires Possible(w, move)
  {
    match move
    case Send(p, step) => w.(pub := P.Next(w.pub, step))
    case Publish(step) => w.(pub := P.Next(w.pub, step))
    case Spawn(parent, worker) => w.(workers := w.workers + {worker}, group := J.Went(w.group))
    case Return(p) =>
      if p == SEED then w.(seeds := J.Ended(w.seeds, 0))
      else w.(workers := w.workers - {p}, group := J.Finished(w.group))
    case Expire => w.(expired := true)
    case CallStop => w.(phase := JoiningSeed, expired := false, seeds := J.Cancelled(w.seeds))
    case SeedJoined =>
      w.(phase := CheckingContext,
         seeds := if w.seeds.held.Some? then J.LetGo(w.seeds, w.seeds.held.value) else w.seeds)
    case SeedWaitExpired => w.(phase := CheckingContext)
    case CheckContext => if w.expired then Fails(w) else w.(phase := StoppingWatchers)
    case WatchersStopped(ok) => if ok then w.(phase := EnteringWait) else Fails(w)
    case EnterWait => w.(phase := JoiningWorkers(w.group.done))
    case WorkersJoined => w.(phase := ClosingPublisher)
    case WorkersWaitExpired => Fails(w)
    case ClosePublisher => w.(pub := P.Next(w.pub, P.StopCall), phase := SignallingPublisher)
    case SignalPublisher => w.(pub := P.Next(w.pub, P.StopSignal), phase := SettlingPublisher)
    case PublisherSettled =>
      var pub := P.Next(w.pub, P.StopDone);
      if pub.verdict == P.Settled then w.(pub := pub, phase := Idle, running := false, result := Succeeded)
      else Fails(w.(pub := pub))
    case PublisherExpired => Fails(w.(pub := P.Next(w.pub, P.StopExpire)))
  }

  function Fails(w: World): World {
    w.(phase := Idle, result := Failed)
  }

  predicate IsRun(w: World, moves: seq<Move>)
    decreases |moves|
  {
    moves == [] || (Possible(w, moves[0]) && IsRun(Makes(w, moves[0]), moves[1..]))
  }

  function After(w: World, moves: seq<Move>): World
    requires IsRun(w, moves)
    decreases |moves|
  {
    if moves == [] then w else After(Makes(w, moves[0]), moves[1..])
  }

  // ---- what every move keeps ----

  /** The group counts the workers. */
  predicate Grouped(w: World) {
    J.Consistent(w.group) && w.group.active == |w.workers| && SEED !in w.workers
  }

  /** A Send in progress belongs to a running goroutine. */
  ghost predicate Attributed(w: World) {
    forall p :: P.Busy(w.pub, p) ==> Runs(w, p)
  }

  predicate SeedHeld(w: World) {
    && w.seeds.made == 1
    && (w.seeds.held.Some? ==> w.seeds.held.value == 0)
    && (w.seeds.held.None? ==> !SeedRunning(w))
  }

  predicate PastSeed(phase: Phase) {
    phase != Idle && phase != JoiningSeed && phase != CheckingContext
  }

  predicate PastWorkers(phase: Phase) {
    phase == ClosingPublisher || phase == SignallingPublisher || phase == SettlingPublisher
  }

  predicate Quiet(w: World) {
    !SeedRunning(w) && w.workers == {}
  }

  /** Stop has got no further than what it has joined. */
  predicate Ordered(w: World) {
    && (w.phase == CheckingContext ==> !SeedRunning(w) || w.expired)
    && (PastSeed(w.phase) ==> !SeedRunning(w))
    && (w.phase.JoiningWorkers? ==> w.phase.channel == w.group.done)
    && (PastWorkers(w.phase) || w.pub.closed ==> Quiet(w))
  }

  predicate InStep(w: World) {
    && w.pub.drain != P.NotStarted
    && (w.pub.stopper == P.Sealed <==> w.phase == SignallingPublisher)
    && (w.pub.stopper == P.Waiting <==> w.phase == SettlingPublisher)
    && (!w.running ==> w.phase == Idle && w.pub.closed)
  }

  ghost predicate Inv(w: World) {
    P.Inv(w.pub) && Grouped(w) && Attributed(w) && SeedHeld(w) && Ordered(w) && InStep(w)
  }

  /** Which publisher step a move takes, if any. */
  function PubStep(move: Move): Option<P.Step> {
    match move
    case Send(_, step) => Some(step)
    case Publish(step) => Some(step)
    case ClosePublisher => Some(P.StopCall)
    case SignalPublisher => Some(P.StopSignal)
    case PublisherSettled => Some(P.StopDone)
    case PublisherExpired => Some(P.StopExpire)
    case _ => None
  }

  lemma MoveIsPubStep(w: World, move: Move)
    requires Possible(w, move)
    ensures match PubStep(move)
            case Some(step) => P.Enabled(w.pub, step) && Makes(w, move).pub == P.Next(w.pub, step)
            case None => Makes(w, move).pub == w.pub
  {
    hide P.Next, P.Enabled, P.Busy, J.Went, J.Finished, J.Begun;
  }

  lemma PubKept(w: World, move: Move)
    requires P.Inv(w.pub) && Possible(w, move)
    ensures P.Inv(Makes(w, move).pub)
  {
    hide P.Inv, P.Next, P.Enabled, Makes, Possible;
    MoveIsPubStep(w, move);
    if PubStep(move).Some? {
      P.StepKeepsInv(w.pub, PubStep(move).value);
    }
  }

  lemma BusyOnlyByEntering(s: P.State, step: P.Step, p: P.Producer)
    requires P.Enabled(s, step) && P.Busy(P.Next(s, step), p)
    ensures P.Busy(s, p) || (Entering(step) && step.p == p)
  {
  }

  lemma GroupedKept(w: World, move: Move)
    requires Grouped(w) && Possible(w, move)
    ensures Grouped(Makes(w, move))
  {
    hide P.Next, P.Enabled, P.Busy, J.Released, J.Consistent, J.Went, J.Finished;
    match move
    case Spawn(_, worker) => SpawnCounts(w, worker);
    case Return(p) =>
      if p != SEED {
        ReturnCounts(w, p);
      }
    case _ =>
  }

  lemma SpawnCounts(w: World, worker: P.Producer)
    requires Grouped(w) && worker != SEED && worker !in w.workers
    ensures Grouped(w.(workers := w.workers + {worker}, group := J.Went(w.group)))
  {
    hide J.Consistent;
    J.DoKeepsConsistent(w.group, J.Go);
  }

  lemma ReturnCounts(w: World, p: P.Producer)
    requires Grouped(w) && p in w.workers && w.group.active > 0 && w.group.done.Some?
    ensures Grouped(w.(workers := w.workers - {p}, group := J.Finished(w.group)))
  {
    hide J.Consistent;
    J.DoKeepsConsistent(w.group, J.Finish);
    assert |w.workers - {p}| == |w.workers| - 1;
  }

  lemma RunnersAfter(w: World, move: Move, p: P.Producer)
    requires Possible(w, move) && Runs(w, p)
    ensures Runs(Makes(w, move), p) || move == Return(p)
  {
    hide P.Next, P.Enabled, P.Busy, J.Went, J.Finished, J.Released;
  }

  lemma AttributedKept(w: World, move: Move)
    requires Attributed(w) && Possible(w, move)
    ensures Attributed(Makes(w, move))
  {
    hide P.Next, P.Enabled, P.Busy, J.Went, J.Finished, J.Released, Makes, Runs;
    var v := Makes(w, move);
    MoveIsPubStep(w, move);
    forall p | P.Busy(v.pub, p) ensures Runs(v, p) {
      var step := PubStep(move);
      if step.Some? {
        BusyOnlyByEntering(w.pub, step.value, p);
      }
      RunnersAfter(w, move, p);
    }
  }

  lemma SeedKept(w: World, move: Move)
    requires SeedHeld(w) && Possible(w, move)
    ensures SeedHeld(Makes(w, move))
  {
    hide P.Next, P.Enabled, P.Busy, J.Went, J.Finished, J.Released;
  }

  lemma PubFlags(s: P.State, step: P.Step)
    requires P.Enabled(s, step)
    ensures var t := P.Next(s, step);
            && t.closed == (s.closed || step.StopCall?)
            && (s.drain != P.NotStarted ==> t.drain != P.NotStarted)
            && (s.drain != P.NotStarted ==>
                  t.stopper == match step
                               case StopCall => P.Sealed
                               case StopSignal => P.Waiting
                               case StopDone => P.Away
                               case StopExpire => P.Away
                               case _ => s.stopper)
  {
    hide P.ReadBatch, P.Settle;
    if P.ByLoop(step) {
      P.LoopKeepsFlags(s, step);
    }
  }

  lemma GroupStill(w: World, move: Move)
    requires Grouped(w) && Possible(w, move) && !SeedRunning(w)
    ensures Makes(w, move).group.done == w.group.done
    ensures w.workers == {} ==> Makes(w, move).workers == {}
    ensures !SeedRunning(Makes(w, move))
  {
    hide P.Next, P.Enabled, P.Busy, J.Released;
  }

  lemma ReleasedMeansNobody(w: World)
    requires Grouped(w) && J.Released(w.group, w.group.done)
    ensures w.workers == {}
  {
  }

  /** A move of Stop itself, not of a goroutine, the drain loop or a context. */
  predicate OfStop(move: Move) {
    !move.Send? && !move.Publish? && !move.Spawn? && !move.Return? && !move.Expire?
  }

  /** Once the seed is gone nothing a goroutine does disturbs what Stop has joined. */
  lemma OthersKeepOrder(w: World, move: Move)
    requires Ordered(w) && Grouped(w) && Possible(w, move) && !OfStop(move)
    ensures Ordered(Makes(w, move))
  {
    hide P.Next, P.Enabled, P.Busy, J.Went, J.Finished, J.Released, Grouped;
    MoveIsPubStep(w, move);
    if PubStep(move).Some? {
      PubFlags(w.pub, PubStep(move).value);
    }
    if !SeedRunning(w) {
      GroupStill(w, move);
    }
  }

  lemma StopKeepsOrder(w: World, move: Move)
    requires Ordered(w) && Grouped(w) && SeedHeld(w) && Possible(w, move) && OfStop(move)
    ensures Ordered(Makes(w, move))
  {
    hide P.Next, P.Enabled, P.Busy, J.Released, Grouped;
    MoveIsPubStep(w, move);
    if PubStep(move).Some? {
      PubFlags(w.pub, PubStep(move).value);
    }
    if move == WorkersJoined {
      ReleasedMeansNobody(w);
    }
  }

  lemma OrderKept(w: World, move: Move)
    requires Ordered(w) && Grouped(w) && SeedHeld(w) && Possible(w, move)
    ensures Ordered(Makes(w, move))
  {
    hide Ordered, Grouped, SeedHeld, Possible, Makes;
    if OfStop(move) {
      StopKeepsOrder(w, move);
    } else {
      OthersKeepOrder(w, move);
    }
  }

  lemma InStepKept(w: World, move: Move)
    requires InStep(w) && P.Sequenced(w.pub) && Possible(w, move)
    ensures InStep(Makes(w, move))
  {
    hide P.Next, P.Enabled, P.Busy, J.Went, J.Finished, J.Released;
    MoveIsPubStep(w, move);
    if PubStep(move).Some? {
      PubFlags(w.pub, PubStep(move).value);
    }
  }

  lemma MoveKeepsInv(w: World, move: Move)
    requires Inv(w) && Possible(w, move)
    ensures Inv(Makes(w, move))
  {
    hide P.InOrder, P.Counted, P.Conserved, P.Bounded, P.Placed, P.Sequenced;
    hide Grouped, Attributed, SeedHeld, Ordered, InStep, Makes, Possible;
    PubKept(w, move);
    GroupedKept(w, move);
    AttributedKept(w, move);
    SeedKept(w, move);
    OrderKept(w, move);
    InStepKept(w, move);
  }

  lemma StartedInv(capacity: nat)
    ensures Inv(Started(capacity))
  {
    P.InitialInv(capacity);
    P.StepKeepsInv(P.Initial(capacity), P.Start);
  }

  lemma {:induction false} RunKeepsInv(w: World, moves: seq<Move>)
    requires Inv(w) && IsRun(w, moves)
    ensures Inv(After(w, moves))
    decreases |moves|
  {
    if moves != [] {
      MoveKeepsInv(w, moves[0]);
      RunKeepsInv(Makes(w, moves[0]), moves[1..]);
    }
  }

  /** In every reachable state whose queue is closed the seed has returned, no worker,
      nested or not, is left, no Send is in progress and none can begin. */
  lemma ClosedMeansJoined(capacity: nat, moves: seq<Move>)
    requires IsRun(Started(capacity), moves)
    ensures var w := After(Started(capacity), moves);
            w.pub.closed || PastWorkers(w.phase) ==>
              && Quiet(w) && w.pub.writing == map[] && w.pub.rejected == {}
              && (forall p, step :: !Possible(w, Send(p, step)))
  {
    StartedInv(capacity);
    RunKeepsInv(Started(capacity), moves);
    var w := After(Started(capacity), moves);
    QuietSendsNothing(w);
  }

  lemma QuietSendsNothing(w: World)
    requires Inv(w)
    ensures Quiet(w) ==> w.pub.writing == map[] && w.pub.rejected == {}
                         && (forall p, step :: !Possible(w, Send(p, step)))
  {
    hide P.Inv, P.Enabled;
    if Quiet(w) {
      forall p ensures p !in w.pub.writing && p !in w.pub.rejected {
        assert !Runs(w, p);
        assert !P.Busy(w.pub, p);
      }
      assert w.pub.writing == map[];
    }
  }

  /** However Stop went on after the close, nothing is offered any more. */
  lemma {:induction false} NothingOfferedAfterClose(w: World, moves: seq<Move>)
    requires Inv(w) && w.pub.closed && IsRun(w, moves)
    ensures var v := After(w, moves);
            v.pub.closed && v.pub.offered == w.pub.offered && v.pub.accepted == w.pub.accepted
            && v.pub.dropped == w.pub.dropped
    decreases |moves|
  {
    hide P.Inv, P.Next, P.Enabled, Makes, Possible, Grouped, Attributed, SeedHeld, InStep;
    if moves != [] {
      var v := Makes(w, moves[0]);
      MoveKeepsInv(w, moves[0]);
      ClosedStep(w, moves[0]);
      NothingOfferedAfterClose(v, moves[1..]);
    }
  }

  lemma ClosedStep(w: World, move: Move)
    requires Inv(w) && w.pub.closed && Possible(w, move)
    ensures var v := Makes(w, move);
            v.pub.closed && v.pub.offered == w.pub.offered && v.pub.accepted == w.pub.accepted
            && v.pub.dropped == w.pub.dropped
  {
    hide P.Inv, P.Next, P.Enabled, Makes, Grouped, Attributed, SeedHeld, InStep;
    QuietSendsNothing(w);
    MoveIsPubStep(w, move);
    if PubStep(move).Some? {
      var step := PubStep(move).value;
      QuietStep(w.pub, step);
    }
  }

  lemma QuietStep(s: P.State, step: P.Step)
    requires P.Enabled(s, step) && s.closed && s.writing == map[] && s.rejected == {} && !Entering(step)
    ensures var t := P.Next(s, step);
            t.closed && t.offered == s.offered && t.accepted == s.accepted && t.dropped == s.dropped
  {
  }

  /** A Send is never refused because of the close: only a full queue refuses. */
  lemma RefusedOnlyWhenFull(w: World, p: P.Producer)
    requires Inv(w) && P.Enabled(w.pub, P.Reject(p))
    ensures !w.pub.closed && |w.pub.queue| == w.pub.capacity
  {
    hide P.Inv;
    assert P.Bounded(w.pub) by { P.BoundedOf(w.pub); }
    QuietSendsNothing(w);
  }

  /** When the component's Stop succeeds, every entity offered in its whole life has reached
      the stream, unless the context given to Start ended before the close; then the ones
      still queued are exactly those that have not. */
  lemma SuccessfulStopDeliversEverything(capacity: nat, moves: seq<Move>, move: Move)
    requires IsRun(Started(capacity), moves)
    requires var w := After(Started(capacity), moves);
             w.result != Succeeded && Possible(w, move) && Makes(w, move).result == Succeeded
    ensures var w := Makes(After(Started(capacity), moves), move);
            && w.pub.dropped == 0 && w.pub.failed == 0 && w.pub.hand == []
            && w.pub.offered == |w.pub.accepted| == w.pub.published + |w.pub.queue|
            && w.pub.accepted == P.ItemsOf(w.pub.settled) + w.pub.queue
            && (!w.pub.early ==> w.pub.queue == [] && w.pub.published == w.pub.offered)
  {
    hide P.Inv, P.Enabled, IsRun, After, Grouped, Attributed, SeedHeld, P.ReadBatch, P.Settle;
    StartedInv(capacity);
    RunKeepsInv(Started(capacity), moves);
    var w := After(Started(capacity), moves);
    assert move == PublisherSettled;
    P.SettledMeansDelivered(w.pub);
    QuietSendsNothing(w);
  }
}
