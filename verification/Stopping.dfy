/** Stop's progress once the seed and the workers have returned, and what decides whether a
    Stop can still succeed. */
module Stopping {
  import opened Bytes
  import opened Shutdown
  import P = Publisher
  import J = Joining

  /** Entities this component will never deliver. */
  function Lost(w: World): nat {
    w.pub.dropped + w.pub.failed
  }

  /** Moves that bring nothing nearer: a context ends, or the drain loop finds nothing. */
  predicate Idles(w: World, move: Move) {
    || move == Expire
    || move == Publish(P.Cancel)
    || (move == Publish(P.Tick) && w.pub.queue == [])
  }

  /** How far Stop is from its end, by phase. */
  function Rank(phase: Phase): nat {
    match phase
    case Idle => 0
    case JoiningSeed => 8
    case CheckingContext => 7
    case StoppingWatchers => 6
    case EnteringWait => 5
    case JoiningWorkers(_) => 4
    case ClosingPublisher => 3
    case SignallingPublisher => 2
    case SettlingPublisher => 1
  }

  /** `v` is nearer to the end of this Stop than `w`: in a later phase, or in the same one
      with less left for the drain loop to do. */
  predicate Nearer(v: World, w: World)
    requires P.Bounded(v.pub) && P.Bounded(w.pub)
  {
    Rank(v.phase) < Rank(w.phase)
    || (Rank(v.phase) == Rank(w.phase) && P.DrainLeft(v.pub) < P.DrainLeft(w.pub))
  }

  lemma BoundedPub(w: World)
    requires Inv(w)
    ensures P.Bounded(w.pub) && P.Placed(w.pub) && P.Sequenced(w.pub) && w.pub.drain != P.NotStarted
  {
  }

  /** With everything joined, every move of anybody but an idle one brings the end of Stop
      nearer, and an idle one does not put it off. */
  lemma StopEnds(w: World, move: Move)
    requires Inv(w) && Quiet(w) && w.phase != Idle && Possible(w, move)
    ensures Inv(Makes(w, move)) && Quiet(Makes(w, move))
    ensures P.Bounded(w.pub) && P.Bounded(Makes(w, move).pub)
    ensures if Idles(w, move) then !Nearer(w, Makes(w, move)) && Makes(w, move).phase == w.phase
            else Nearer(Makes(w, move), w)
  {
    hide Inv, Makes, Possible, P.Next, P.Enabled, Grouped, P.Bounded, Nearer, Quiet;
    MoveKeepsInv(w, move);
    BoundedPub(w);
    BoundedPub(Makes(w, move));
    QuietStays(w, move);
    if OfStop(move) {
      StopMoveIsNearer(w, move);
    } else {
      OtherMoveIsNearer(w, move);
    }
  }

  lemma QuietStays(w: World, move: Move)
    requires Inv(w) && Quiet(w) && Possible(w, move)
    ensures Quiet(Makes(w, move))
  {
    hide P.Next, P.Enabled, P.Inv, Attributed, SeedHeld, Ordered, InStep, Makes, Possible;
    GroupStill(w, move);
  }

  lemma StopMoveIsNearer(w: World, move: Move)
    requires Inv(w) && w.phase != Idle && Possible(w, move) && OfStop(move)
    requires P.Bounded(w.pub) && P.Bounded(Makes(w, move).pub)
    ensures !Idles(w, move) && Nearer(Makes(w, move), w)
  {
    hide Inv, P.Next, P.Enabled, P.Bounded, J.Released, J.LetGo;
  }

  lemma OtherMoveIsNearer(w: World, move: Move)
    requires Inv(w) && Quiet(w) && w.phase != Idle && Possible(w, move) && !OfStop(move)
    requires P.Bounded(w.pub) && P.Bounded(Makes(w, move).pub)
    ensures Makes(w, move).phase == w.phase
    ensures if Idles(w, move) then !Nearer(w, Makes(w, move)) else Nearer(Makes(w, move), w)
  {
    hide P.Next, P.Inv, P.Bounded, Grouped, Attributed, SeedHeld, Ordered, InStep;
    QuietSendsNothing(w);
    MoveIsPubStep(w, move);
    if move.Publish? {
      BoundedPub(w);
      if P.ByLoop(move.step) {
        P.LoopAdvances(w.pub, move.step);
      } else {
        P.OthersLeaveLoop(w.pub, move.step);
      }
    }
  }

  // ---- a move that leads on is always there ----

  /** The move that leads on to a successful end: of the drain loop while Stop waits for it,
      of Stop otherwise. */
  function Onward(w: World): Move {
    match w.phase
    case Idle => CallStop
    case JoiningSeed => SeedJoined
    case CheckingContext => CheckContext
    case StoppingWatchers => WatchersStopped(true)
    case EnteringWait => EnterWait
    case JoiningWorkers(_) => WorkersJoined
    case ClosingPublisher => ClosePublisher
    case SignallingPublisher => SignalPublisher
    case SettlingPublisher =>
      if w.pub.drain.Exited? then PublisherSettled
      else if w.pub.hand != [] then Publish(P.Deliver)
      else if w.pub.drain.Flushing? then Publish(P.ReadMore)
      else Publish(P.SeeStop)
  }

  /** Stop is never stuck: with the seed and the workers returned, in whatever phase it is, a
      move that brings its end nearer can be made. */
  lemma StopNeverStuck(w: World)
    requires Inv(w) && Quiet(w) && w.running
    ensures Possible(w, Onward(w))
    ensures w.phase != Idle ==> !Idles(w, Onward(w))
  {
    hide P.Inv, P.InOrder, P.Counted, P.Conserved, Attributed;
    BoundedPub(w);
    if w.phase.JoiningWorkers? {
      NobodyIsReleased(w);
    }
  }

  lemma NobodyIsReleased(w: World)
    requires Grouped(w) && w.workers == {}
    ensures J.Released(w.group, w.group.done)
  {
  }

  // ---- how a Stop ends ----

  /** Whatever cuts a Stop short fails it, closes nothing on the way, and leaves the component
      running for another: an ended context once the seed has been waited for, a watcher that
      would not stop, or an ended context in the wait for the workers or for the publisher. */
  lemma CutShortFails(w: World, move: Move)
    requires Inv(w) && Possible(w, move)
    requires (move == CheckContext && w.expired) || move == WatchersStopped(false)
             || move == WorkersWaitExpired || move == PublisherExpired
    ensures var v := Makes(w, move);
            v.phase == Idle && v.result == Failed && v.running
            && (move == PublisherExpired || v.pub == w.pub) && v.seeds == w.seeds && v.pub.closed == w.pub.closed
  {
    hide P.Inv, P.Enabled, Grouped, Attributed, SeedHeld, Ordered, J.Released;
  }

  /** And nothing else does: a Stop that is not cut short goes from each phase to the next. */
  lemma StopGoesOn(w: World, move: Move)
    requires Inv(w) && Possible(w, move) && OfStop(move)
    requires !(move == CheckContext && w.expired) && move != WatchersStopped(false)
    requires move != WorkersWaitExpired && move != PublisherExpired
    ensures var v := Makes(w, move);
            match w.phase
            case Idle => v.phase == JoiningSeed
            case JoiningSeed => v.phase == CheckingContext
            case CheckingContext => v.phase == StoppingWatchers
            case StoppingWatchers => v.phase == EnteringWait
            case EnteringWait => v.phase == JoiningWorkers(w.group.done)
            case JoiningWorkers(_) => v.phase == ClosingPublisher
            case ClosingPublisher => v.phase == SignallingPublisher && v.pub.closed
            case SignallingPublisher => v.phase == SettlingPublisher && v.pub.stopped
            case SettlingPublisher => v.phase == Idle && (v.result == Succeeded <==> Lost(w) == 0) && (v.running <==> Lost(w) > 0)
  {
    hide P.Inv, P.Enabled, Grouped, Attributed, SeedHeld, Ordered, J.Released, J.LetGo;
  }

  // ---- whether a Stop can still succeed ----

  lemma LossStays(w: World, move: Move)
    requires Possible(w, move)
    ensures Lost(Makes(w, move)) >= Lost(w)
  {
    hide P.Next, P.Enabled, Makes, Possible;
    MoveIsPubStep(w, move);
    if PubStep(move).Some? {
      P.LossKept(w.pub, PubStep(move).value);
    }
  }

  lemma OnlySettlingSucceeds(w: World, move: Move)
    requires Inv(w) && w.running && Possible(w, move) && !Makes(w, move).running
    ensures move == PublisherSettled && Lost(w) == 0
  {
    hide P.Inv, P.Enabled, Grouped, Attributed, SeedHeld, Ordered, P.ReadBatch, P.Settle;
  }

  /** After one drop or one terminal publish failure no Stop ever succeeds, however often it
      is called again: the component keeps running, which only a successful Stop ends. */
  lemma {:induction false} LossIsFinal(w: World, moves: seq<Move>)
    requires Inv(w) && w.running && Lost(w) > 0 && IsRun(w, moves)
    ensures After(w, moves).running && Lost(After(w, moves)) >= Lost(w)
    decreases |moves|
  {
    hide Inv, Makes, Possible;
    if moves != [] {
      var v := Makes(w, moves[0]);
      MoveKeepsInv(w, moves[0]);
      LossStays(w, moves[0]);
      if !v.running {
        OnlySettlingSucceeds(w, moves[0]);
      }
      LossIsFinal(v, moves[1..]);
    }
  }

  lemma RunFrom(w: World, move: Move, rest: seq<Move>)
    requires Possible(w, move) && IsRun(Makes(w, move), rest)
    ensures IsRun(w, [move] + rest) && After(w, [move] + rest) == After(Makes(w, move), rest)
  {
    hide Possible, Makes;
    assert ([move] + rest)[1..] == rest;
  }

  /** A Stop whose context has ended before the workers are joined has to be called again. */
  function Turns(w: World): nat {
    if w.phase == JoiningSeed && w.expired then 11
    else if w.phase == CheckingContext && w.expired then 10
    else if w.phase == Idle then 9
    else Rank(w.phase)
  }

  /** From any state with everything joined and nothing lost, Stop can go on, and be called
      again, to success. */
  lemma {:induction false} CanStillSucceed(w: World) returns (moves: seq<Move>)
    requires Inv(w) && Quiet(w) && w.running && Lost(w) == 0
    ensures IsRun(w, moves) && !After(w, moves).running && After(w, moves).result == Succeeded
    decreases Turns(w), DrainOf(w)
  {
    hide Inv, Makes, Possible, IsRun, After, Quiet;
    StopNeverStuck(w);
    var move := Onward(w);
    var v := Makes(w, move);
    MoveKeepsInv(w, move);
    QuietStays(w, move);
    OnwardLoses(w);
    if v.running {
      OnwardIsNearer(w);
      var rest := CanStillSucceed(v);
      RunFrom(w, move, rest);
      moves := [move] + rest;
    } else {
      RunNothing(v);
      RunFrom(w, move, []);
      moves := [move] + [];
    }
  }

  lemma RunNothing(w: World)
    ensures IsRun(w, []) && After(w, []) == w
  {
  }

  function DrainOf(w: World): nat {
    if P.Bounded(w.pub) then P.DrainLeft(w.pub) else 0
  }

  lemma OnwardLoses(w: World)
    requires Inv(w) && w.running && Lost(w) == 0 && Possible(w, Onward(w))
    ensures var v := Makes(w, Onward(w)); Lost(v) == 0 && (v.running || v.result == Succeeded)
  {
    hide Inv, P.Enabled, P.Settle, P.ReadBatch, J.Released, J.LetGo;
    OnwardKeepsCounts(w);
  }

  lemma OnwardKeepsCounts(w: World)
    requires Possible(w, Onward(w))
    ensures Makes(w, Onward(w)).pub.dropped == w.pub.dropped && Makes(w, Onward(w)).pub.failed == w.pub.failed
  {
    hide Possible, Makes, P.Next, P.Enabled;
    MoveIsPubStep(w, Onward(w));
    if PubStep(Onward(w)).Some? {
      P.LossKept(w.pub, PubStep(Onward(w)).value);
    }
  }

  lemma OnwardIsNearer(w: World)
    requires Inv(w) && Quiet(w) && w.running && Lost(w) == 0 && Possible(w, Onward(w))
    requires Makes(w, Onward(w)).running
    ensures var v := Makes(w, Onward(w));
            Turns(v) < Turns(w) || (Turns(v) == Turns(w) && DrainOf(v) < DrainOf(w))
  {
    if OfStop(Onward(w)) {
      StopMoveTurns(w);
    } else {
      LoopMoveTurns(w);
    }
  }

  lemma StopMoveTurns(w: World)
    requires w.running && Possible(w, Onward(w)) && OfStop(Onward(w)) && Lost(w) == 0
    requires Makes(w, Onward(w)).running
    ensures Turns(Makes(w, Onward(w))) < Turns(w)
  {
    hide P.Enabled, P.ReadBatch, P.Settle, J.Released, J.LetGo;
  }

  lemma LoopMoveTurns(w: World)
    requires Inv(w) && Quiet(w) && Possible(w, Onward(w)) && !OfStop(Onward(w))
    requires w.running
    ensures var v := Makes(w, Onward(w)); Turns(v) == Turns(w) && DrainOf(v) < DrainOf(w)
  {
    hide Inv, Makes, Possible, P.Next, P.Enabled, P.Bounded, Quiet;
    StopNeverStuck(w);
    StopEnds(w, Onward(w));
    OtherMoveKeepsPhase(w, Onward(w));
  }

  lemma OtherMoveKeepsPhase(w: World, move: Move)
    requires Possible(w, move) && !OfStop(move)
    ensures Makes(w, move).phase == w.phase
  {
    hide P.Next, P.Enabled;
  }

  /** In every reachable state with the seed and the workers returned and no Stop yet
      successful: some later Stop can succeed if and only if nothing has been lost. */
  lemma SuccessStillPossibleIff(capacity: nat, moves: seq<Move>)
    requires IsRun(Started(capacity), moves)
    requires var w := After(Started(capacity), moves); Quiet(w) && w.running
    ensures var w := After(Started(capacity), moves);
            (exists more :: IsRun(w, more) && !After(w, more).running) <==> w.pub.dropped == 0 && w.pub.failed == 0
  {
    hide IsRun, After, Inv, Quiet;
    StartedInv(capacity);
    RunKeepsInv(Started(capacity), moves);
    var w := After(Started(capacity), moves);
    if Lost(w) == 0 {
      var more := CanStillSucceed(w);
    } else {
      forall more | IsRun(w, more) ensures After(w, more).running {
        LossIsFinal(w, more);
      }
    }
  }
}
