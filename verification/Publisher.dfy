/** The entity publisher as a machine of atomic steps: producers fill a bounded queue, one
    drain loop empties it, and Stop seals admission and waits for the loop. */
module Publisher {

  type Item = nat
  type Producer = nat

  const BATCH := 50
  const MAX_ATTEMPTS := 20

  /** How one accepted item ended. */
  datatype Outcome = Outcome(item: Item, delivered: bool)

  /** Which branch of the drain loop's select ended it. */
  datatype Cause = ByStop | ByCancel

  datatype Drain = NotStarted | Selecting | Draining | Flushing(cause: Cause) | Exited(cause: Cause)

  datatype Stopper = Away | Sealed | Waiting

  datatype Verdict = Pending | Settled | Lost(n: nat) | Incomplete

  datatype State = State(
    capacity: nat,
    queue: seq<Item>,
    hand: seq<Item>,                // read from the queue, not yet settled
    attempts: nat,                  // publish attempts made for hand[0]
    accepted: seq<Item>,            // every item the queue took, in order
    settled: seq<Outcome>,          // every outcome, in order
    writing: map<Producer, Item>,   // Sends waiting for room
    rejected: set<Producer>,        // Sends refused but not yet counted
    offered: nat, published: nat, failed: nat, dropped: nat,
    closed: bool, stopped: bool, cancelled: bool,
    early: bool,                    // the loop left through its context before the queue closed
    drain: Drain, stopper: Stopper, verdict: Verdict)

  datatype Step =
    | Offer(p: Producer, item: Item)    // Send called with a representable payload
    | Refuse(p: Producer)               // Send called with one that cannot be copied
    | Accept(p: Producer)
    | Reject(p: Producer)               // timed out on a full queue, or closed
    | CountDrop(p: Producer)
    | Start
    | Cancel                            // the context given to Start ends
    | Tick
    | SeeCancel
    | SeeStop
    | ReadMore                          // flush reads its next batch
    | Deliver
    | Retry
    | Fail
    | StopCall
    | StopSignal
    | StopDone
    | StopExpire

  function Initial(capacity: nat): State {
    State(capacity, [], [], 0, [], [], map[], {}, 0, 0, 0, 0,
          false, false, false, false, NotStarted, Away, Pending)
  }

  predicate Busy(s: State, p: Producer) {
    p in s.writing || p in s.rejected
  }

  predicate Enabled(s: State, step: Step) {
    match step
    case Offer(p, _) => !Busy(s, p)
    case Refuse(p) => !Busy(s, p)
    case Accept(p) => p in s.writing && !s.closed && |s.queue| < s.capacity
    case Reject(p) => p in s.writing && (s.closed || |s.queue| >= s.capacity)
    case CountDrop(p) => p in s.rejected
    case Start => s.drain == NotStarted && s.stopper == Away
    case Cancel => true
    case Tick => s.drain == Selecting
    case SeeCancel => s.drain == Selecting && s.cancelled
    case SeeStop => s.drain == Selecting && s.stopped
    case ReadMore => s.drain.Flushing? && s.hand == []
    case Deliver => s.hand != []
    case Retry => s.hand != [] && s.attempts < MAX_ATTEMPTS
    case Fail => s.hand != []
    case StopCall => s.stopper == Away
    case StopSignal => s.stopper == Sealed
    case StopDone => s.stopper == Waiting && s.drain.Exited?
    case StopExpire => s.stopper == Waiting
  }

  function Next(s: State, step: Step): State
    requires Enabled(s, step)
  {
    match step
    case Offer(p, item) => s.(offered := s.offered + 1, writing := s.writing[p := item])
    case Refuse(p) => s.(offered := s.offered + 1, rejected := s.rejected + {p})
    case Accept(p) =>
      var item := s.writing[p];
      s.(writing := s.writing - {p}, queue := s.queue + [item], accepted := s.accepted + [item])
    case Reject(p) => s.(writing := s.writing - {p}, rejected := s.rejected + {p})
    case CountDrop(p) => s.(rejected := s.rejected - {p}, dropped := s.dropped + 1)
    case Start => s.(drain := Selecting)
    case Cancel => s.(cancelled := true)
    case Tick => if s.queue == [] then s else ReadBatch(s.(drain := Draining))
    case SeeCancel => s.(drain := Flushing(ByCancel), early := !s.closed)
    case SeeStop => s.(drain := Flushing(ByStop))
    case ReadMore => if s.queue == [] then s.(drain := Exited(s.drain.cause)) else ReadBatch(s)
    case Deliver => Settle(s.(published := s.published + 1), true)
    case Retry => s.(attempts := s.attempts + 1)
    case Fail => Settle(s.(failed := s.failed + 1), false)
    case StopCall =>
      if s.drain == NotStarted then s.(closed := true, verdict := Settled)
      else s.(closed := true, stopper := Sealed, verdict := Pending)
    case StopSignal => s.(stopped := true, stopper := Waiting)
    case StopDone =>
      var lost := s.dropped + s.failed;
      s.(stopper := Away, verdict := if lost > 0 then Lost(lost) else Settled)
    case StopExpire => s.(cancelled := true, stopper := Away, verdict := Incomplete)
  }

  /** The loop takes up to a batch from the front of the queue. */
  function ReadBatch(s: State): State {
    var n := if |s.queue| < BATCH then |s.queue| else BATCH;
    s.(hand := s.queue[..n], queue := s.queue[n..], attempts := 1)
  }

  /** The item at the front of the hand gets its outcome. */
  function Settle(s: State, delivered: bool): State
    requires s.hand != []
  {
    var rest := s.hand[1..];
    s.(settled := s.settled + [Outcome(s.hand[0], delivered)],
       hand := rest,
       attempts := if rest == [] then 0 else 1,
       drain := if rest == [] && s.drain == Draining then Selecting else s.drain)
  }

  predicate IsRun(s: State, steps: seq<Step>)
    decreases |steps|
  {
    steps == [] || (Enabled(s, steps[0]) && IsRun(Next(s, steps[0]), steps[1..]))
  }

  function After(s: State, steps: seq<Step>): State
    requires IsRun(s, steps)
    decreases |steps|
  {
    if steps == [] then s else After(Next(s, steps[0]), steps[1..])
  }

  // ---- what every step keeps ----

  function ItemsOf(settled: seq<Outcome>): (items: seq<Item>)
    ensures |items| == |settled|
    ensures forall i :: 0 <= i < |items| ==> items[i] == settled[i].item
  {
    seq(|settled|, i requires 0 <= i < |settled| => settled[i].item)
  }

  function CountOf(settled: seq<Outcome>, delivered: bool): nat {
    if settled == [] then 0
    else CountOf(settled[..|settled| - 1], delivered)
         + if settled[|settled| - 1].delivered == delivered then 1 else 0
  }

  /** Every accepted item is settled, in hand or queued: once each, and in order. */
  predicate InOrder(s: State) {
    s.accepted == ItemsOf(s.settled) + s.hand + s.queue
  }

  predicate Counted(s: State) {
    && s.published == CountOf(s.settled, true)
    && s.failed == CountOf(s.settled, false)
    && s.published + s.failed == |s.settled|
  }

  predicate Conserved(s: State) {
    s.offered == s.published + s.failed + s.dropped
               + |s.queue| + |s.hand| + |s.writing| + |s.rejected|
  }

  predicate Bounded(s: State) {
    && |s.queue| <= s.capacity && |s.hand| <= BATCH
    && (if s.hand == [] then s.attempts == 0 else 1 <= s.attempts <= MAX_ATTEMPTS)
    && Exclusive(s)
  }

  /** No Send is both waiting and refused. */
  predicate Exclusive(s: State) {
    forall p :: p in s.writing ==> p !in s.rejected
  }

  predicate Placed(s: State) {
    && (s.hand != [] ==> s.drain == Draining || s.drain.Flushing?)
    && (s.drain == Draining ==> s.hand != [])
    && (s.drain == NotStarted ==> s.settled == [])
  }

  predicate Sequenced(s: State) {
    && (s.stopped ==> s.closed)
    && (s.stopper != Away ==> s.closed && s.drain != NotStarted)
    && (s.stopper == Waiting ==> s.stopped)
    && ((s.drain == Flushing(ByStop) || s.drain == Exited(ByStop)) ==> s.stopped && !s.early)
    && (s.early ==> s.drain == Flushing(ByCancel) || s.drain == Exited(ByCancel))
    && (s.drain.Flushing? && !s.early ==> s.closed)
    && (s.drain.Exited? && !s.early ==> s.closed && s.queue == [])
  }

  predicate Inv(s: State) {
    InOrder(s) && Counted(s) && Conserved(s) && Bounded(s) && Placed(s) && Sequenced(s)
  }

  lemma CountSnoc(settled: seq<Outcome>, o: Outcome, delivered: bool)
    ensures CountOf(settled + [o], delivered)
         == CountOf(settled, delivered) + if o.delivered == delivered then 1 else 0
  {
    assert (settled + [o])[..|settled|] == settled;
  }

  /** Steps taken inside a call of Send. */
  predicate BySend(step: Step) {
    step.Offer? || step.Refuse? || step.Accept? || step.Reject? || step.CountDrop?
  }

  /** Steps the drain loop takes by itself. */
  predicate ByLoop(step: Step) {
    step in {Tick, SeeCancel, SeeStop, ReadMore, Deliver, Retry, Fail}
  }

  lemma SettleKeepsOrder(s: State, delivered: bool)
    requires s.hand != []
    ensures ItemsOf(s.settled + [Outcome(s.hand[0], delivered)]) + s.hand[1..] == ItemsOf(s.settled) + s.hand
  {
    assert ItemsOf(s.settled + [Outcome(s.hand[0], delivered)]) == ItemsOf(s.settled) + [s.hand[0]];
  }

  lemma LoopKeepsOrder(s: State, step: Step)
    requires InOrder(s) && Placed(s) && Enabled(s, step) && ByLoop(step)
    ensures InOrder(Next(s, step))
  {
    hide ItemsOf;
    match step
    case Deliver => SettleKeepsOrder(s, true);
    case Fail => SettleKeepsOrder(s, false);
    case Tick =>
    case ReadMore =>
    case _ =>
  }

  lemma OrderKept(s: State, step: Step)
    requires InOrder(s) && Placed(s) && Enabled(s, step)
    ensures InOrder(Next(s, step))
  {
    hide ReadBatch, Settle, ItemsOf;
    if ByLoop(step) {
      LoopKeepsOrder(s, step);
    } else if step.Accept? {
      assert s.accepted + [s.writing[step.p]] == ItemsOf(s.settled) + s.hand + (s.queue + [s.writing[step.p]]);
    }
  }

  lemma LoopKeepsCounts(s: State, step: Step)
    requires Counted(s) && Enabled(s, step) && ByLoop(step)
    ensures Counted(Next(s, step))
  {
    hide CountOf;
    match step
    case Deliver => SettleCounts(s, true);
    case Fail => SettleCounts(s, false);
    case _ =>
  }

  lemma CountsKept(s: State, step: Step)
    requires Counted(s) && Enabled(s, step)
    ensures Counted(Next(s, step))
  {
    hide ReadBatch, Settle, CountOf;
    if ByLoop(step) {
      LoopKeepsCounts(s, step);
    }
  }

  lemma SettleCounts(s: State, delivered: bool)
    requires s.hand != []
    ensures var settled := s.settled + [Outcome(s.hand[0], delivered)];
            && CountOf(settled, delivered) == CountOf(s.settled, delivered) + 1
            && CountOf(settled, !delivered) == CountOf(s.settled, !delivered)
  {
    CountSnoc(s.settled, Outcome(s.hand[0], delivered), true);
    CountSnoc(s.settled, Outcome(s.hand[0], delivered), false);
  }

  lemma TakeOut(m: map<Producer, Item>, p: Producer)
    requires p in m
    ensures |m - {p}| == |m| - 1
  {
    assert m.Keys == (m - {p}).Keys + {p};
    assert |m.Keys| == |m| && |(m - {p}).Keys| == |m - {p}|;
  }

  lemma PutIn(m: map<Producer, Item>, p: Producer, item: Item)
    requires p !in m
    ensures |m[p := item]| == |m| + 1
  {
    assert m[p := item].Keys == m.Keys + {p};
    assert |m.Keys| == |m| && |m[p := item].Keys| == |m[p := item]|;
  }

  lemma SendConserves(s: State, step: Step)
    requires Conserved(s) && Bounded(s) && Enabled(s, step) && BySend(step)
    ensures Conserved(Next(s, step))
  {
    match step
    case Offer(p, item) => PutIn(s.writing, p, item);
    case Refuse(p) =>
    case Accept(p) => TakeOut(s.writing, p);
    case Reject(p) => TakeOut(s.writing, p);
    case CountDrop(p) => assert |s.rejected - {p}| == |s.rejected| - 1;
  }

  lemma LoopConserves(s: State, step: Step)
    requires Conserved(s) && Placed(s) && Enabled(s, step) && ByLoop(step)
    ensures Conserved(Next(s, step))
  {
    match step case Deliver => case Fail => case Tick => case ReadMore => case _ =>
  }

  lemma ConservedKept(s: State, step: Step)
    requires Conserved(s) && Placed(s) && Bounded(s) && Enabled(s, step)
    ensures Conserved(Next(s, step))
  {
    hide ReadBatch, Settle, Bounded;
    if BySend(step) {
      SendConserves(s, step);
    } else if ByLoop(step) {
      LoopConserves(s, step);
    }
  }

  lemma LoopKeepsFlags(s: State, step: Step)
    requires Enabled(s, step) && ByLoop(step)
    ensures var t := Next(s, step);
            && t.closed == s.closed && t.stopper == s.stopper && t.verdict == s.verdict
            && (s.drain != NotStarted ==> t.drain != NotStarted)
  {
    match step case Deliver => case Fail => case Tick => case ReadMore => case _ =>
  }

  lemma LoopKeepsExclusive(s: State, step: Step)
    requires Exclusive(s) && Enabled(s, step) && ByLoop(step)
    ensures Exclusive(Next(s, step))
  {
    match step case Deliver => case Fail => case Tick => case ReadMore => case _ =>
  }

  lemma ExclusiveKept(s: State, step: Step)
    requires Exclusive(s) && Enabled(s, step)
    ensures Exclusive(Next(s, step))
  {
    hide ReadBatch, Settle;
    if ByLoop(step) {
      LoopKeepsExclusive(s, step);
    }
  }

  lemma LoopKeepsPlaces(s: State, step: Step)
    requires Placed(s) && Enabled(s, step) && ByLoop(step)
    ensures Placed(Next(s, step))
  {
    match step case Deliver => case Fail => case Tick => case ReadMore => case _ =>
  }

  lemma PlacedKept(s: State, step: Step)
    requires Placed(s) && Enabled(s, step)
    ensures Placed(Next(s, step))
  {
    hide ReadBatch, Settle;
    if ByLoop(step) {
      LoopKeepsPlaces(s, step);
    }
  }

  lemma LoopKeepsBounds(s: State, step: Step)
    requires Bounded(s) && Placed(s) && Enabled(s, step) && ByLoop(step)
    ensures Bounded(Next(s, step))
  {
    hide Exclusive;
    ExclusiveKept(s, step);
    match step case Deliver => case Fail => case Tick => case ReadMore => case _ =>
  }

  lemma BoundsKept(s: State, step: Step)
    requires Bounded(s) && Placed(s) && Enabled(s, step)
    ensures Bounded(Next(s, step))
  {
    hide ReadBatch, Settle, Exclusive;
    ExclusiveKept(s, step);
    if ByLoop(step) {
      LoopKeepsBounds(s, step);
    }
  }

  lemma LoopKeepsSequence(s: State, step: Step)
    requires Sequenced(s) && Placed(s) && Enabled(s, step) && ByLoop(step)
    ensures Sequenced(Next(s, step))
  {
    match step case Deliver => case Fail => case Tick => case ReadMore => case _ =>
  }

  lemma SequenceKept(s: State, step: Step)
    requires Sequenced(s) && Placed(s) && Enabled(s, step)
    ensures Sequenced(Next(s, step))
  {
    hide ReadBatch, Settle;
    if ByLoop(step) {
      LoopKeepsSequence(s, step);
    }
  }

  lemma StepKeepsInv(s: State, step: Step)
    requires Inv(s) && Enabled(s, step)
    ensures Inv(Next(s, step))
  {
    hide InOrder, Counted, Conserved, Bounded, Placed, Sequenced, Next, Enabled;
    OrderKept(s, step);
    CountsKept(s, step);
    ConservedKept(s, step);
    BoundsKept(s, step);
    PlacedKept(s, step);
    SequenceKept(s, step);
  }

  lemma InitialInv(capacity: nat)
    ensures Inv(Initial(capacity))
  {
  }

  /** On every interleaving, offered = published + failed + dropped + queued + in hand + in
      flight, and each accepted item is settled at most once, in order of acceptance. */
  lemma {:induction false} RunKeepsInv(s: State, steps: seq<Step>)
    requires Inv(s) && IsRun(s, steps)
    ensures Inv(After(s, steps))
    decreases |steps|
  {
    if steps != [] {
      StepKeepsInv(s, steps[0]);
      RunKeepsInv(Next(s, steps[0]), steps[1..]);
    }
  }

  // ---- what Stop reports ----

  lemma {:induction false} AllDelivered(settled: seq<Outcome>)
    requires CountOf(settled, false) == 0
    ensures forall i :: 0 <= i < |settled| ==> settled[i].delivered
  {
    if settled != [] {
      var init := settled[..|settled| - 1];
      AllDelivered(init);
      forall i | 0 <= i < |settled| ensures settled[i].delivered {
        assert i < |init| ==> init[i] == settled[i];
      }
    }
  }

  /** When Stop, having waited for the loop, reports success: nothing was dropped or
      failed, every settled item reached the stream, and everything accepted did, except
      what the queue still holds. The queue holds nothing unless the loop had left through
      its context before Stop closed the queue. */
  lemma SettledMeansDelivered(s: State)
    requires Inv(s) && Enabled(s, StopDone) && Next(s, StopDone).verdict == Settled
    ensures s.dropped == 0 && s.failed == 0 && s.hand == []
    ensures forall i :: 0 <= i < |s.settled| ==> s.settled[i].delivered
    ensures s.accepted == ItemsOf(s.settled) + s.queue
    ensures s.published + |s.queue| == |s.accepted|
    ensures !s.early ==> s.queue == [] && s.published == |s.accepted|
    ensures s.drain == Exited(ByStop) ==> !s.early
    ensures s.writing == map[] && s.rejected == {} ==> s.offered == |s.accepted|
  {
    AllDelivered(s.settled);
  }

  /** Stop turns to reporting success by this step. */
  predicate Reports(s: State, step: Step)
    requires Enabled(s, step)
  {
    Next(s, step).verdict == Settled && (s.verdict != Settled || step.StopCall? || step.StopDone?)
  }

  /** Whenever Stop reports success, on a publisher that was started or on one that was not,
      every entity offered so far has reached the stream if and only if nothing is queued, no
      Send is waiting or refused, and none was dropped; and only a publisher that was never
      started reports success over a drop. */
  lemma SuccessDeliversAllIff(capacity: nat, steps: seq<Step>, step: Step)
    requires IsRun(Initial(capacity), steps) && Enabled(After(Initial(capacity), steps), step)
    requires Reports(After(Initial(capacity), steps), step)
    ensures var t := Next(After(Initial(capacity), steps), step);
            && (t.offered == t.published
                <==> t.queue == [] && t.writing == map[] && t.rejected == {} && t.dropped == 0)
            && t.failed == 0 && t.hand == []
            && (t.dropped > 0 ==> t.drain == NotStarted)
            && (t.drain == NotStarted ==> t.published == 0)
            && (t.queue != [] ==> t.drain == NotStarted || t.early)
  {
    hide IsRun, After;
    InitialInv(capacity);
    RunKeepsInv(Initial(capacity), steps);
    ReportedState(After(Initial(capacity), steps), step);
  }

  lemma ReportedState(s: State, step: Step)
    requires Inv(s) && Enabled(s, step) && Reports(s, step)
    ensures var t := Next(s, step);
            && (t.offered == t.published
                <==> t.queue == [] && t.writing == map[] && t.rejected == {} && t.dropped == 0)
            && t.failed == 0 && t.hand == []
            && (t.dropped > 0 ==> t.drain == NotStarted)
            && (t.drain == NotStarted ==> t.published == 0)
            && (t.queue != [] ==> t.drain == NotStarted || t.early)
  {
    hide ItemsOf, ReadBatch, Settle;
    ReportedByStop(s, step);
    StepKeepsInv(s, step);
    assert CountOf([], true) == 0 && CountOf([], false) == 0;
  }

  lemma ReportedByStop(s: State, step: Step)
    requires Enabled(s, step) && Reports(s, step)
    ensures step == StopDone || (step == StopCall && s.drain == NotStarted)
  {
    hide ReadBatch, Settle;
    if ByLoop(step) {
      LoopKeepsFlags(s, step);
    }
  }

  /** The queue's close is final: from then on nothing is accepted. */
  lemma {:induction false} ClosedAcceptsNothing(s: State, steps: seq<Step>)
    requires s.closed && IsRun(s, steps)
    ensures After(s, steps).closed && After(s, steps).accepted == s.accepted
    decreases |steps|
  {
    if steps != [] {
      var t := Next(s, steps[0]);
      assert t.closed && t.accepted == s.accepted;
      ClosedAcceptsNothing(t, steps[1..]);
    }
  }

  /** How many more steps a flush can take once the queue is closed. */
  function FlushLeft(s: State): nat
    requires s.attempts <= MAX_ATTEMPTS && (s.hand == [] ==> s.attempts == 0)
  {
    if s.drain.Exited? then 0
    else 1 + (MAX_ATTEMPTS + 2) * (|s.queue| + |s.hand|) - s.attempts
  }

  lemma SettleIsLess(s: State, t: State)
    requires Bounded(s) && Bounded(t) && !s.drain.Exited?
    requires s.hand != [] && |t.hand| + 1 == |s.hand| && t.queue == s.queue
    ensures FlushLeft(t) < FlushLeft(s)
  {
    var n := |t.queue| + |t.hand|;
    assert 22 * (n + 1) == 22 * n + 22;
  }

  lemma LoopStaysCancelled(s: State, step: Step)
    requires Enabled(s, step) && ByLoop(step)
    ensures Next(s, step).cancelled == s.cancelled
  {
    match step case Deliver => case Fail => case Tick => case ReadMore => case _ =>
  }

  lemma {:induction false} StaysCancelled(s: State, steps: seq<Step>)
    requires s.cancelled && IsRun(s, steps)
    ensures After(s, steps).cancelled
    decreases |steps|
  {
    hide ReadBatch, Settle;
    if steps != [] {
      if ByLoop(steps[0]) {
        LoopStaysCancelled(s, steps[0]);
      }
      StaysCancelled(Next(s, steps[0]), steps[1..]);
    }
  }

  /** A Stop whose deadline passes reports an incomplete settlement and ends the loop's
      context: from then on, whenever the loop selects, it may leave. */
  lemma ExpiryCancels(s: State, steps: seq<Step>)
    requires Inv(s) && Enabled(s, StopExpire) && IsRun(Next(s, StopExpire), steps)
    ensures Next(s, StopExpire).verdict == Incomplete && Next(s, StopExpire).closed
    ensures var t := After(Next(s, StopExpire), steps); t.drain == Selecting ==> Enabled(t, SeeCancel)
  {
    hide IsRun, After, InOrder, Counted, Conserved;
    StaysCancelled(Next(s, StopExpire), steps);
  }

  /** The same for the loop from wherever it is. */
  function DrainLeft(s: State): nat
    requires Bounded(s)
  {
    FlushLeft(s) + if s.drain.Flushing? || s.drain.Exited? then 0 else 1
  }

  lemma SettlingAdvances(s: State, step: Step)
    requires Bounded(s) && Placed(s) && Enabled(s, step) && Bounded(Next(s, step)) && (step == Deliver || step == Fail)
    ensures DrainLeft(Next(s, step)) < DrainLeft(s)
  {
    SettleIsLess(s, Next(s, step));
  }

  lemma ReadingAdvances(s: State, step: Step)
    requires Bounded(s) && Placed(s) && Enabled(s, step) && Bounded(Next(s, step))
    requires step in {Tick, SeeCancel, SeeStop, ReadMore, Retry}
    ensures if step == Tick && s.queue == [] then DrainLeft(Next(s, step)) == DrainLeft(s)
            else DrainLeft(Next(s, step)) < DrainLeft(s)
  {
    hide Exclusive;
    match step case Tick => case ReadMore => case _ =>
  }

  /** Every step of the loop but a look at an empty queue leaves it less to do. */
  lemma LoopAdvances(s: State, step: Step)
    requires Bounded(s) && Placed(s) && Enabled(s, step) && Bounded(Next(s, step)) && ByLoop(step)
    ensures if step == Tick && s.queue == [] then DrainLeft(Next(s, step)) == DrainLeft(s)
            else DrainLeft(Next(s, step)) < DrainLeft(s)
  {
    hide Next, Enabled, Bounded, Placed, DrainLeft;
    if step == Deliver || step == Fail {
      SettlingAdvances(s, step);
    } else {
      ReadingAdvances(s, step);
    }
  }

  /** After the close, or with no Send in progress, nobody else's step leaves the loop more. */
  lemma OthersLeaveLoop(s: State, step: Step)
    requires Bounded(s) && Enabled(s, step) && Bounded(Next(s, step)) && !ByLoop(step)
    requires (s.closed || s.writing == map[]) && s.drain != NotStarted
    ensures DrainLeft(Next(s, step)) == DrainLeft(s)
  {
    hide ReadBatch, Settle, Exclusive, FlushLeft;
    OthersLeaveAlone(s, step);
    var t := Next(s, step);
    assert FlushLeft(t) == FlushLeft(s) by { FlushLeftDepends(s, t); }
  }

  lemma OthersLeaveAlone(s: State, step: Step)
    requires Enabled(s, step) && !ByLoop(step)
    requires (s.closed || s.writing == map[]) && s.drain != NotStarted
    ensures var t := Next(s, step);
            t.queue == s.queue && t.hand == s.hand && t.attempts == s.attempts && t.drain == s.drain
  {
    hide ReadBatch, Settle;
  }

  lemma FlushLeftDepends(s: State, t: State)
    requires Bounded(s) && Bounded(t)
    requires t.queue == s.queue && t.hand == s.hand && t.attempts == s.attempts && t.drain == s.drain
    ensures FlushLeft(t) == FlushLeft(s)
  {
  }

  /** After the close a flush cannot go on forever: it always has a next step, every step
      of the loop brings its end nearer, and nobody else's step puts it off. */
  lemma FlushEnds(s: State, step: Step)
    requires Inv(s) && s.closed && s.drain.Flushing? && Enabled(s, step)
    ensures Inv(Next(s, step))
    ensures FlushLeft(Next(s, step)) <= FlushLeft(s)
    ensures ByLoop(step) ==> FlushLeft(Next(s, step)) < FlushLeft(s)
    ensures Enabled(s, ReadMore) || Enabled(s, Deliver)
  {
    hide Inv, ReadBatch, Settle, FlushLeft, Exclusive;
    StepKeepsInv(s, step);
    BoundedOf(s);
    BoundedOf(Next(s, step));
    if ByLoop(step) {
      LoopAdvances(s, step);
    } else {
      OthersLeaveLoop(s, step);
    }
    FlushStays(s, step);
  }

  lemma BoundedOf(s: State)
    requires Inv(s)
    ensures Bounded(s) && Placed(s)
  {
  }

  lemma FlushStays(s: State, step: Step)
    requires Placed(s) && s.drain.Flushing? && Enabled(s, step)
    ensures Next(s, step).drain.Flushing? || Next(s, step).drain.Exited?
    ensures step != Tick
  {
  }

  lemma LoopKeepsLoss(s: State, step: Step)
    requires Enabled(s, step) && ByLoop(step)
    ensures Next(s, step).dropped == s.dropped && Next(s, step).failed == s.failed + if step.Fail? then 1 else 0
  {
    match step case Deliver => case Fail => case _ =>
  }

  /** What was dropped or failed stays counted, and only two steps add to it. */
  lemma LossKept(s: State, step: Step)
    requires Enabled(s, step)
    ensures Next(s, step).dropped == s.dropped + if step.CountDrop? then 1 else 0
    ensures Next(s, step).failed == s.failed + if step.Fail? then 1 else 0
  {
    hide ReadBatch, Settle;
    if ByLoop(step) {
      LoopKeepsLoss(s, step);
    }
  }

  // ---- where success is reported over undelivered items ----

  /** A loop that left through its context before the close leaves later items queued,
      and Stop still reports success. */
  lemma ExitThroughContextLosesItems() returns (s: State, steps: seq<Step>)
    ensures s == Initial(1) && IsRun(s, steps)
    ensures var t := After(s, steps);
            t.verdict == Settled && t.drain == Exited(ByCancel) && t.published == 0 && t.queue == [7]
  {
    hide IsRun, After;
    s := Initial(1);
    var s4 := LeaveThroughContext(s);
    var s5 := Next(s4, Offer(0, 7));
    var s6 := Next(s5, Accept(0));
    var r6 := StopOnExited(s6);
    RunOne(s5, Accept(0), r6);
    RunOne(s4, Offer(0, 7), [Accept(0)] + r6);
    steps := [Start] + ([Cancel] + ([SeeCancel] + ([ReadMore] + ([Offer(0, 7)] + ([Accept(0)] + r6)))));
  }

  /** Stop on a publisher whose loop has gone, with nothing lost so far. */
  lemma StopOnExited(s: State) returns (steps: seq<Step>)
    requires s.drain.Exited? && s.stopper == Away && s.dropped == 0 && s.failed == 0
    ensures IsRun(s, steps)
    ensures After(s, steps) == s.(closed := true, stopped := true, verdict := Settled)
  {
    hide IsRun, After;
    var s1 := Next(s, StopCall);
    var s2 := Next(s1, StopSignal);
    RunNone(Next(s2, StopDone));
    RunOne(s2, StopDone, []);
    RunOne(s1, StopSignal, [StopDone] + []);
    RunOne(s, StopCall, [StopSignal] + ([StopDone] + []));
    steps := [StopCall] + ([StopSignal] + ([StopDone] + []));
  }

  /** The four steps by which the loop leaves through its context. */
  lemma LeaveThroughContext(s: State) returns (t: State)
    requires s == Initial(1)
    ensures t == s.(cancelled := true, early := true, drain := Exited(ByCancel))
    ensures forall rest :: IsRun(t, rest) ==>
              var run := [Start] + ([Cancel] + ([SeeCancel] + ([ReadMore] + rest)));
              IsRun(s, run) && After(s, run) == After(t, rest)
  {
    hide IsRun, After;
    var s2 := Next(Next(s, Start), Cancel);
    var s3 := Next(s2, SeeCancel);
    t := Next(s3, ReadMore);
    forall rest | IsRun(t, rest)
      ensures var run := [Start] + ([Cancel] + ([SeeCancel] + ([ReadMore] + rest)));
              IsRun(s, run) && After(s, run) == After(t, rest)
    {
      RunOne(s3, ReadMore, rest);
      RunOne(s2, SeeCancel, [ReadMore] + rest);
      RunOne(Next(s, Start), Cancel, [SeeCancel] + ([ReadMore] + rest));
      RunOne(s, Start, [Cancel] + ([SeeCancel] + ([ReadMore] + rest)));
    }
  }

  lemma RunNone(s: State)
    ensures IsRun(s, []) && After(s, []) == s
  {
  }

  lemma RunOne(s: State, step: Step, rest: seq<Step>)
    requires Enabled(s, step) && IsRun(Next(s, step), rest)
    ensures IsRun(s, [step] + rest) && After(s, [step] + rest) == After(Next(s, step), rest)
  {
    assert ([step] + rest)[1..] == rest;
  }

  /** A publisher that was never started reports success with everything still queued. */
  lemma NeverStartedReportsSuccess() returns (s: State, steps: seq<Step>)
    ensures s == Initial(1) && IsRun(s, steps)
    ensures var t := After(s, steps);
            t.verdict == Settled && t.drain == NotStarted && t.published == 0 && t.queue == [7]
  {
    s := Initial(1);
    steps := [Offer(0, 7), Accept(0), StopCall];
    var s1 := Next(s, Offer(0, 7));
    var s2 := Next(s1, Accept(0));
    RunOne(s2, StopCall, []);
    RunOne(s1, Accept(0), [StopCall]);
    RunOne(s, Offer(0, 7), [Accept(0), StopCall]);
  }

  /** A Send still waiting when Stop reports success is refused afterwards: Stop succeeded
      over an entity that is then dropped, though the loop left through the stop channel. */
  lemma PendingSendIsLost() returns (s: State, steps: seq<Step>)
    ensures s == Initial(1) && IsRun(s, steps)
    ensures var t := After(s, steps);
            && t.verdict == Settled && t.drain == Exited(ByStop) && !t.early
            && t.offered == 1 && t.dropped == 1 && t.published == 0
  {
    hide IsRun, After;
    s := Initial(1);
    var s2 := Next(Next(s, Start), Offer(0, 7));
    var s4 := StopWhilePending(s2);
    var s5 := Next(s4, Reject(0));
    RunNone(Next(s5, CountDrop(0)));
    RunOne(s5, CountDrop(0), []);
    var late := [Reject(0)] + ([CountDrop(0)] + []);
    RunOne(s4, Reject(0), [CountDrop(0)] + []);
    var rest := StopThen(late);
    RunOne(Next(s, Start), Offer(0, 7), rest);
    RunOne(s, Start, [Offer(0, 7)] + rest);
    steps := [Start] + ([Offer(0, 7)] + rest);
  }

  /** A whole Stop that waits for the loop, and what comes after it. */
  function StopThen(rest: seq<Step>): seq<Step> {
    [StopCall] + ([StopSignal] + ([SeeStop] + ([ReadMore] + ([StopDone] + rest))))
  }

  /** Stop from call to success on an empty queue, with a Send waiting. */
  lemma StopWhilePending(s: State) returns (t: State)
    requires s == Initial(1).(drain := Selecting, writing := map[0 := 7], offered := 1)
    ensures t == s.(closed := true, stopped := true, drain := Exited(ByStop), verdict := Settled)
    ensures forall rest :: IsRun(t, rest) ==>
              IsRun(s, StopThen(rest)) && After(s, StopThen(rest)) == After(t, rest)
  {
    hide IsRun, After;
    var s2 := Next(Next(s, StopCall), StopSignal);
    t := LoopSeesStop(s2);
    forall rest | IsRun(t, rest)
      ensures IsRun(s, StopThen(rest)) && After(s, StopThen(rest)) == After(t, rest)
    {
      var tail := [SeeStop] + ([ReadMore] + ([StopDone] + rest));
      RunOne(Next(s, StopCall), StopSignal, tail);
      RunOne(s, StopCall, [StopSignal] + tail);
    }
  }

  lemma LoopSeesStop(s: State) returns (t: State)
    requires s.drain == Selecting && s.stopped && s.stopper == Waiting
    requires s.queue == [] && s.hand == [] && s.dropped == 0 && s.failed == 0
    ensures t == s.(drain := Exited(ByStop), stopper := Away, verdict := Settled)
    ensures forall rest :: IsRun(t, rest) ==>
              var run := [SeeStop] + ([ReadMore] + ([StopDone] + rest));
              IsRun(s, run) && After(s, run) == After(t, rest)
  {
    hide IsRun, After;
    var s1 := Next(s, SeeStop);
    var s2 := Next(s1, ReadMore);
    t := Next(s2, StopDone);
    forall rest | IsRun(t, rest)
      ensures var run := [SeeStop] + ([ReadMore] + ([StopDone] + rest));
              IsRun(s, run) && After(s, run) == After(t, rest)
    {
      RunOne(s2, StopDone, rest);
      RunOne(s1, ReadMore, [StopDone] + rest);
      RunOne(s, SeeStop, [ReadMore] + ([StopDone] + rest));
    }
  }
}
