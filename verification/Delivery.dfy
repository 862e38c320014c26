/** The publisher's methods: admission, one entity's delivery with retries, and the two
    loops that empty the queue. Each one is a run of the machine in module Publisher. */
module Delivery {
  import opened Bytes
  import opened Publisher
  import opened Stream
  import P = Publisher

  /** Milliseconds one entity may be retried for. */
  const BUDGET := 90_000

  /** What one attempt comes to, as far as retrying goes. */
  datatype Reply = Ok | Canceled | Terminal | Retryable

  datatype Result = Delivered | Unencodable | GaveUp(last: Reply)

  /** The errors a client may return: those of a context, the connection's (open circuit, not
      connected, timeout, no responders), a stream at its capacity, and any other. */
  datatype Failure = ContextCanceled | DeadlineExceeded | Unavailable | AtCapacity | Refused

  /** When the context given to the publisher ends, if it does, and how. */
  datatype Ending = Never | Ends(at: int, byDeadline: bool)

  predicate EndedBy(e: Ending, t: int) {
    e.Ends? && e.at <= t
  }

  /** An error is a cancellation only if the context has ended and the error says so. */
  function Classify(e: Ending, t: int, failure: Failure): Reply {
    if EndedBy(e, t) && (failure == ContextCanceled || (failure == DeadlineExceeded && e.byDeadline)) then Canceled
    else if failure in {DeadlineExceeded, Unavailable, AtCapacity} then Retryable
    else Terminal
  }

  /** An attempt: its error if any, how long the call takes, and when its message arrives. */
  datatype Turn = Turn(failure: Option<Failure>, took: nat, arrives: Option<nat>)

  /** What one delivery meets: attempt `k` is answered by `client(k)`, and `ties(k)` says
      which way it goes when the pause after it and the context end together. */
  datatype Conditions = Conditions(encodes: bool, client: nat -> Turn, ties: nat -> bool)

  /** What is acknowledged has arrived, and nothing arrives later than the latency. */
  ghost predicate Honest(c: Conditions, latency: nat) {
    forall k :: && (c.client(k).failure.None? ==> c.client(k).arrives.Some?)
                && (c.client(k).arrives.Some? ==> c.client(k).arrives.value <= latency)
  }

  // ---- the course of one delivery ----

  /** A delivery that begins at `t0`, with its pauses' bounds. */
  datatype Course = Course(c: Conditions, ending: Ending, initial: nat, max: nat, t0: int) {
    /** The pause after attempt `k`. */
    function Pause(k: nat): nat
      requires k > 0
      decreases k
    {
      if k == 1 then initial else if 2 * Pause(k - 1) > max then max else 2 * Pause(k - 1)
    }

    /** When attempt `k` begins, if it does. */
    function Begins(k: nat): int
      requires k > 0
      decreases k, 0
    {
      if k == 1 then t0 else Returns(k - 1) + Pause(k - 1)
    }

    function Returns(k: nat): int
      requires k > 0
      decreases k, 1
    {
      Begins(k) + c.client(k).took
    }

    function Replies(k: nat): Reply
      requires k > 0
    {
      match c.client(k).failure
      case None => Ok
      case Some(failure) => Classify(ending, Returns(k), failure)
    }

    /** The context ends in the pause after attempt `k`. */
    predicate Woken(k: nat)
      requires k > 0
    {
      ending.Ends? && (ending.at < Returns(k) + Pause(k) || (ending.at == Returns(k) + Pause(k) && c.ties(k)))
    }

    /** Attempt `k` is followed by another. */
    predicate GoesOn(k: nat)
      requires k > 0
    {
      Replies(k) == Retryable && k < MAX_ATTEMPTS && Returns(k) <= t0 + BUDGET && !Woken(k)
    }

    ghost predicate Reaches(n: nat) {
      forall k :: 0 < k < n ==> GoesOn(k)
    }

    /** How it ends at its last attempt. */
    function Comes(n: nat): Result
      requires n > 0
    {
      match Replies(n)
      case Ok => Delivered
      case Canceled => GaveUp(Canceled)
      case Terminal => GaveUp(Terminal)
      case Retryable =>
        if n < MAX_ATTEMPTS && Returns(n) <= t0 + BUDGET && Woken(n) then GaveUp(Canceled) else GaveUp(Retryable)
    }
  }

  /** The attempt at or after `k` that no other follows. */
  function StopsFrom(d: Course, k: nat): (n: nat)
    requires k > 0
    ensures n >= k && !d.GoesOn(n)
    decreases MAX_ATTEMPTS - k
  {
    if d.GoesOn(k) then StopsFrom(d, k + 1) else k
  }

  /** When a delivery is over: after its last attempt, or after the pause the context cut. */
  function Over(d: Course): int {
    if !d.c.encodes then d.t0
    else
      var n := StopsFrom(d, 1);
      if d.Replies(n) == Retryable && d.Comes(n) == GaveUp(Canceled) && d.ending.at > d.Returns(n) then d.ending.at
      else d.Returns(n)
  }

  /** A stop that is reached is the first. */
  lemma {:induction false} StopsAt(d: Course, k: nat, n: nat)
    requires 0 < k <= n && d.Reaches(n) && !d.GoesOn(n)
    ensures StopsFrom(d, k) == n
    decreases n - k
  {
    hide Classify;
    if k < n {
      assert d.GoesOn(k);
      StopsAt(d, k + 1, n);
    }
  }

  /** What a delivery of this course comes to: it stops at the first attempt that no other
      follows, and succeeds if and only if some attempt it reaches is acknowledged. */
  ghost predicate Takes(d: Course, result: Result, starts: seq<int>) {
    var n := |starts|;
    && 1 <= n <= MAX_ATTEMPTS && d.Reaches(n) && !d.GoesOn(n) && result == d.Comes(n)
    && (forall k :: 0 <= k < n ==> starts[k] == d.Begins(k + 1))
    && (result == Delivered <==> Acknowledged(d))
  }

  /** Some attempt that the course reaches is acknowledged. */
  ghost predicate Acknowledged(d: Course) {
    exists k :: 1 <= k <= MAX_ATTEMPTS && d.Reaches(k) && d.c.client(k).failure.None?
  }

  ghost predicate Succeeds(d: Course) {
    d.c.encodes && Acknowledged(d)
  }

  /** How each item of a batch ends, given the courses of their deliveries. */
  ghost function Outcomes(batch: seq<Item>, courses: seq<Course>): seq<P.Outcome>
    requires |batch| == |courses|
  {
    seq(|batch|, i requires 0 <= i < |batch| => P.Outcome(batch[i], Succeeds(courses[i])))
  }

  lemma OneMoreOutcome(settled: seq<P.Outcome>, batch: seq<Item>, courses: seq<Course>, i: nat, d: Course)
    requires i == |courses| < |batch|
    ensures settled + Outcomes(batch[..i], courses) + [P.Outcome(batch[i], Succeeds(d))]
         == settled + Outcomes(batch[..i + 1], courses + [d])
  {
    hide Succeeds;
  }

  lemma MoreOutcomes(settled: seq<P.Outcome>, a: seq<Item>, x: seq<Course>, b: seq<Item>, y: seq<Course>)
    requires |a| == |x| && |b| == |y|
    ensures settled + Outcomes(a, x) + Outcomes(b, y) == settled + Outcomes(a + b, x + y)
  {
    hide Succeeds;
  }

  lemma NoOutcomes(settled: seq<P.Outcome>)
    ensures settled + Outcomes([], []) == settled
  {
  }

  function Power2(k: nat): nat {
    if k == 0 then 1 else 2 * Power2(k - 1)
  }

  /** The first pause is the initial one, and each later one that doubled once more, up to
      the largest. */
  lemma {:induction false} PauseIs(d: Course, k: nat)
    requires k > 0
    ensures d.Pause(1) == d.initial
    ensures k > 1 ==> d.Pause(k) == if d.initial * Power2(k - 1) > d.max then d.max else d.initial * Power2(k - 1)
  {
    if k > 1 {
      PauseIs(d, k - 1);
      var x := d.initial * Power2(k - 2);
      assert d.initial * Power2(k - 1) == 2 * x;
    }
  }

  /** Attempts follow one another after each one's own time and the pause. */
  lemma AttemptsFollow(d: Course, k: nat)
    requires k > 0
    ensures d.Begins(1) == d.t0
    ensures d.Begins(k + 1) == d.Begins(k) + d.c.client(k).took + d.Pause(k)
  {
  }

  /** Every way an attempt is followed by another: a transient error while the context goes
      on, before the twentieth attempt, inside ninety seconds, and a pause not cut short. */
  lemma GoesOnMeans(d: Course, k: nat)
    requires k > 0
    ensures d.GoesOn(k) <==>
              && k < 20 && d.Begins(k) + d.c.client(k).took <= d.t0 + 90_000
              && d.c.client(k).failure.Some?
              && d.c.client(k).failure.value in {DeadlineExceeded, Unavailable, AtCapacity}
              && (d.ending.Ends? ==> d.ending.at >= d.Begins(k) + d.c.client(k).took + d.Pause(k))
              && (d.ending.Ends? && d.ending.at == d.Begins(k) + d.c.client(k).took + d.Pause(k) ==> !d.c.ties(k))
              && !(d.c.client(k).failure == Some(DeadlineExceeded) && d.ending.Ends? && d.ending.byDeadline
                   && d.ending.at <= d.Begins(k) + d.c.client(k).took)
  {
  }

  lemma {:induction false} RunExtends(s: State, steps: seq<Step>, step: Step)
    requires IsRun(s, steps) && Enabled(After(s, steps), step)
    ensures IsRun(s, steps + [step]) && After(s, steps + [step]) == Next(After(s, steps), step)
    decreases |steps|
  {
    hide Next, Enabled;
    if steps == [] {
      RunNone(Next(s, step));
      RunOne(s, step, []);
      assert [step] + [] == [] + [step];
    } else {
      var rest := steps[1..];
      RunExtends(Next(s, steps[0]), rest, step);
      RunOne(s, steps[0], rest + [step]);
      assert [steps[0]] + (rest + [step]) == steps + [step];
    }
  }

  lemma {:induction false} RunsCompose(s: State, a: seq<Step>, b: seq<Step>)
    requires IsRun(s, a) && IsRun(After(s, a), b)
    ensures IsRun(s, a + b) && After(s, a + b) == After(After(s, a), b)
    decreases |a|
  {
    hide Next, Enabled;
    if a == [] {
      assert a + b == b;
    } else {
      RunsCompose(Next(s, a[0]), a[1..], b);
      RunOne(s, a[0], a[1..] + b);
      assert [a[0]] + (a[1..] + b) == a + b;
    }
  }

  lemma RetryEffect(s: State)
    requires s.hand != [] && s.attempts < MAX_ATTEMPTS
    ensures Enabled(s, Retry) && Next(s, Retry) == s.(attempts := s.attempts + 1)
  {
  }

  /** Settling the hand's first item leaves queue, admission and the other counters alone. */
  lemma SettleEffect(s: State, delivered: bool)
    requires s.hand != []
    ensures var step := if delivered then Deliver else Fail;
            var t := Next(s, step);
            && Enabled(s, step)
            && t == s.(published := t.published, failed := t.failed, settled := t.settled,
                       hand := s.hand[1..], attempts := t.attempts, drain := t.drain)
            && t.published == s.published + (if delivered then 1 else 0)
            && t.failed == s.failed + (if delivered then 0 else 1)
            && t.settled == s.settled + [P.Outcome(s.hand[0], delivered)]
            && (t.hand != [] ==> t.attempts == 1 && t.drain == s.drain)
            && (t.hand == [] ==> t.drain == if s.drain == Draining then Selecting else s.drain)
  {
  }

  class EntityPublisher {
    const capacity: nat
    const initialBackoff: nat
    const maxBackoff: nat
    const latency: nat          // longest time from an attempt's start to its arrival
    const ending: Ending
    const meets: nat -> Conditions   // what the deliveries meet, one after another

    var queue: seq<Item>
    var closed: bool
    var published: nat
    var failed: nat
    var dropped: nat
    var retries: nat
    var backpressure: bool
    var now: int
    var deliveries: nat

    ghost var state: State

    constructor (capacity: nat, initialBackoff: nat, maxBackoff: nat, latency: nat, ending: Ending,
                 meets: nat -> Conditions)
      requires forall n :: Honest(meets(n), latency)
      ensures Valid() && state == Initial(capacity)
    {
      this.ending, this.meets, deliveries := ending, meets, 0;
      this.capacity, this.initialBackoff, this.maxBackoff := capacity, initialBackoff, maxBackoff;
      this.latency := latency;
      queue, closed, published, failed, dropped, retries := [], false, 0, 0, 0, 0;
      backpressure, now := false, 0;
      state := Initial(capacity);
    }

    /** The fields are the machine's, and the machine's invariant holds. */
    ghost predicate Valid()
      reads this
    {
      Inv(state) && Mirrors() && forall n :: Honest(meets(n), latency)
    }

    ghost predicate Mirrors()
      reads this
    {
      && state.capacity == capacity && state.queue == queue && state.closed == closed
      && state.published == published && state.failed == failed && state.dropped == dropped
    }

    /** How far the last attempt's start can lie beyond the budget. */
    function Overrun(): nat {
      if initialBackoff > maxBackoff then initialBackoff else maxBackoff
    }

    /** Attempts of one delivery that began at `t0`, and when their messages arrived. */
    ghost predicate Timely(t0: int, starts: seq<int>, arrivals: seq<int>) {
      && |starts| <= MAX_ATTEMPTS
      && AllWithin(starts, t0, t0 + BUDGET + Overrun())
      && AllWithin(arrivals, t0, t0 + BUDGET + Overrun() + latency)
    }

    lemma NothingTimely(t0: int)
      ensures Timely(t0, [], [])
    {
    }

    lemma MoreTimely(t0: int, starts: seq<int>, arrivals: seq<int>, at: int, arrived: seq<int>)
      requires Timely(t0, starts, arrivals) && |starts| < MAX_ATTEMPTS
      requires t0 <= at <= t0 + BUDGET + Overrun()
      requires AllWithin(arrived, at, at + latency)
      ensures Timely(t0, starts + [at], arrivals + arrived)
    {
    }

    /** One attempt: a message that may arrive, once and within the latency, and a reply. */
    method Attempt(t: Turn) returns (reply: Reply, ghost arrived: seq<int>)
      requires t.failure.None? ==> t.arrives.Some?
      requires t.arrives.Some? ==> t.arrives.value <= latency
      modifies this`now
      ensures now == old(now) + t.took
      ensures reply == match t.failure case None => Ok case Some(failure) => Classify(ending, now, failure)
      ensures |arrived| <= 1 && AllWithin(arrived, old(now), old(now) + latency)
      ensures reply == Ok ==> arrived != []
    {
      arrived := if t.arrives.Some? then [now + t.arrives.value] else [];
      now := now + t.took;
      reply := match t.failure case None => Ok case Some(failure) => Classify(ending, now, failure);
    }

    /** The pause, unless the context ends first. */
    method Sleep(pause: nat, tie: bool) returns (woken: bool)
      modifies this`now
      ensures woken <==> ending.Ends? && (ending.at < old(now) + pause || (ending.at == old(now) + pause && tie))
      ensures now == if !woken then old(now) + pause else if ending.at > old(now) then ending.at else old(now)
    {
      woken := ending.Ends? && (ending.at < now + pause || (ending.at == now + pause && tie));
      if !woken {
        now := now + pause;
      } else if ending.at > now {
        now := ending.at;
      }
    }

    /** The machine takes one step. */
    ghost method Advance(from: State, steps: seq<Step>, step: Step) returns (more: seq<Step>)
      requires IsRun(from, steps) && After(from, steps) == state
      requires Inv(state) && Enabled(state, step)
      modifies this`state
      ensures state == Next(old(state), step) && Inv(state)
      ensures IsRun(from, more) && After(from, more) == state
    {
      hide Next, Enabled, IsRun, After, Inv;
      RunExtends(from, steps, step);
      StepKeepsInv(state, step);
      state := Next(state, step);
      more := steps + [step];
    }

    /** The course of a delivery that begins now. */
    function CourseOf(c: Conditions): Course
      reads this
    {
      Course(c, ending, initialBackoff, maxBackoff, now)
    }

    /** One entity's delivery: transient refusals are retried with a growing pause, up to
        twenty attempts and until the budget is spent. */
    method PublishOne(c: Conditions) returns (result: Result, attempts: nat, ghost starts: seq<int>, ghost arrivals: seq<int>)
      requires Honest(c, latency)
      modifies this`published, this`retries, this`backpressure, this`now
      ensures published == old(published) + if result == Delivered then 1 else 0
      ensures result == Delivered ==> !backpressure && arrivals != []
      ensures !c.encodes ==> result == Unencodable && attempts == 0
      ensures c.encodes ==> attempts > 0 && Takes(old(CourseOf(c)), result, starts)
      ensures result == Delivered <==> Succeeds(old(CourseOf(c)))
      ensures now == Over(old(CourseOf(c)))
      ensures result == GaveUp(Canceled) ==> EndedBy(ending, now)
      ensures attempts == |starts| <= MAX_ATTEMPTS
      ensures retries <= old(retries) + attempts <= retries + 1
      ensures Timely(old(now), starts, arrivals)
    {
      hide Timely, AllWithin, Honest, Takes, Acknowledged, Over, Classify, Course.Reaches, Course.Pause, Course.Begins;
      attempts, starts, arrivals := 0, [], [];
      NothingTimely(now);
      if !c.encodes {
        OverAtOnce(CourseOf(c));
        return Unencodable, attempts, starts, arrivals;
      }
      ghost var d := CourseOf(c);
      var backoff: nat := initialBackoff;
      var deadline := now + BUDGET;
      CourseStep(d, 1);
      while true
        invariant attempts == |starts| < MAX_ATTEMPTS
        invariant published == old(published) && retries == old(retries) + attempts
        invariant backoff <= Overrun()
        invariant old(now) <= now <= deadline + Overrun()
        invariant Timely(old(now), starts, arrivals)
        invariant d.Reaches(attempts + 1) && now == d.Begins(attempts + 1) && backoff == d.Pause(attempts + 1)
        invariant forall k :: 0 <= k < attempts ==> starts[k] == d.Begins(k + 1)
        decreases MAX_ATTEMPTS - attempts
      {
        ghost var arrived;
        var reply;
        ghost var start := now;
        attempts := attempts + 1;
        HonestAt(c, latency, attempts);
        reply, arrived := Attempt(c.client(attempts));
        MoreTimely(old(now), starts, arrivals, start, arrived);
        starts, arrivals := starts + [start], arrivals + arrived;
        CourseStep(d, attempts);
        if reply == Ok {
          published := published + 1;
          backpressure := false;
          Concludes(d, attempts, Delivered, starts);
          return Delivered, attempts, starts, arrivals;
        }
        if reply == Canceled || reply == Terminal {
          Concludes(d, attempts, GaveUp(reply), starts);
          if reply == Canceled {
            CanceledMeansEnded(d, attempts);
          }
          return GaveUp(reply), attempts, starts, arrivals;
        }
        if attempts == MAX_ATTEMPTS || now > deadline {
          Concludes(d, attempts, GaveUp(Retryable), starts);
          return GaveUp(Retryable), attempts, starts, arrivals;
        }
        retries := retries + 1;
        backpressure := true;
        var woken := Sleep(backoff, c.ties(attempts));
        if woken {
          Concludes(d, attempts, GaveUp(Canceled), starts);
          return GaveUp(Canceled), attempts, starts, arrivals;
        }
        backoff := backoff * 2;
        if backoff > maxBackoff {
          backoff := maxBackoff;
        }
      }
    }

    lemma HonestAt(c: Conditions, latency: nat, k: nat)
      requires Honest(c, latency)
      ensures c.client(k).failure.None? ==> c.client(k).arrives.Some?
      ensures c.client(k).arrives.Some? ==> c.client(k).arrives.value <= latency
    {
    }

    lemma OverAtOnce(d: Course)
      requires !d.c.encodes
      ensures Over(d) == d.t0
    {
    }

    lemma CanceledMeansEnded(d: Course, n: nat)
      requires n > 0 && d.Replies(n) == Canceled
      ensures EndedBy(d.ending, d.Returns(n))
    {
    }

    lemma ReachesPast(d: Course, n: nat, k: nat)
      requires d.Reaches(n) && 0 < k < n
      ensures d.GoesOn(k)
    {
    }

    /** The course before its first attempt, and over attempt `n`. */
    lemma CourseStep(d: Course, n: nat)
      requires n > 0
      ensures d.Begins(1) == d.t0 && d.Pause(1) == d.initial && d.Reaches(1)
      ensures d.Returns(n) == d.Begins(n) + d.c.client(n).took
      ensures d.Begins(n + 1) == d.Returns(n) + d.Pause(n)
      ensures d.Pause(n + 1) == if d.Pause(n) * 2 > d.max then d.max else d.Pause(n) * 2
      ensures d.Reaches(n) && d.GoesOn(n) ==> d.Reaches(n + 1)
    {
      hide Classify;
    }

    /** What is returned after attempt `n`, of a course not going on, is what it comes to. */
    lemma Concludes(d: Course, n: nat, result: Result, starts: seq<int>)
      requires 1 <= n == |starts| <= MAX_ATTEMPTS && d.Reaches(n) && !d.GoesOn(n) && result == d.Comes(n)
      requires forall k :: 0 <= k < n ==> starts[k] == d.Begins(k + 1)
      ensures Takes(d, result, starts) && (result == Delivered <==> Acknowledged(d))
      ensures d.c.encodes ==> Over(d) == if d.Replies(n) == Retryable && result == GaveUp(Canceled) && d.ending.at > d.Returns(n)
                                         then d.ending.at else d.Returns(n)
    {
      hide Classify, Acknowledged, Course.Reaches, Course.GoesOn, Course.Replies, Course.Returns, Course.Woken, Course.Comes;
      StopsAt(d, 1, n);
      DeliveredMeansAcknowledged(d, n);
    }

    lemma DeliveredMeansAcknowledged(d: Course, n: nat)
      requires 1 <= n <= MAX_ATTEMPTS && d.Reaches(n) && !d.GoesOn(n)
      ensures d.Comes(n) == Delivered <==> Acknowledged(d)
    {
      hide Course.Reaches, Course.GoesOn, Course.Returns, Course.Woken, EndedBy;
      if k :| 1 <= k <= MAX_ATTEMPTS && d.Reaches(k) && d.c.client(k).failure.None? {
        OnlyLastDelivers(d, n, k);
      }
      if d.Comes(n) == Delivered {
        assert 1 <= n <= MAX_ATTEMPTS && d.Reaches(n) && d.c.client(n).failure.None?;
      }
    }

    /** An attempt that is not followed by another is the last that is reached, so only its
        reply can deliver. */
    lemma OnlyLastDelivers(d: Course, n: nat, k: nat)
      requires n > 0 && d.Reaches(n) && !d.GoesOn(n)
      requires k > 0 && d.Reaches(k) && d.c.client(k).failure.None?
      ensures k == n
    {
      hide Classify;
      if n < k {
        ReachesPast(d, k, n);
      } else if k < n {
        ReachesPast(d, n, k);
      }
    }

    /** Against a stream that remembers a message for longer than one delivery can last, the
        copies of one delivery are stored at most once, and exactly once if it succeeded, in
        whatever order the stream takes them. */
    lemma DeliveredOnce(t0: int, starts: seq<int>, arrivals: seq<int>, taken: seq<int>, window: nat)
      requires Timely(t0, starts, arrivals) && multiset(taken) == multiset(arrivals)
      requires window > BUDGET + Overrun() + latency
      ensures |Stored(taken, window)| == if arrivals == [] then 0 else 1
    {
      var hi := t0 + BUDGET + Overrun() + latency;
      forall i | 0 <= i < |taken| ensures t0 <= taken[i] <= hi {
        assert taken[i] in multiset(arrivals);
        assert taken[i] in arrivals;
      }
      assert |taken| == |multiset(taken)| == |arrivals|;
      ShortSpanStoresOnce(taken, window, t0, hi);
    }

    /** One item of the hand has got its outcome, and nothing else has changed. */
    ghost predicate Accounted(s: State, t: State, delivered: bool) {
      && s.hand != []
      && t == s.(published := t.published, failed := t.failed, settled := t.settled,
                 hand := s.hand[1..], attempts := t.attempts, drain := t.drain)
      && t.published == s.published + (if delivered then 1 else 0)
      && t.failed == s.failed + (if delivered then 0 else 1)
      && t.settled == s.settled + [P.Outcome(s.hand[0], delivered)]
      && (t.hand != [] ==> t.attempts == 1 && t.drain == s.drain)
      && (t.hand == [] ==> t.drain == if s.drain == Draining then Selecting else s.drain)
    }

    lemma AccountedLeaves(s: State, t: State, delivered: bool)
      requires Accounted(s, t, delivered)
      ensures t.capacity == s.capacity && t.queue == s.queue && t.closed == s.closed && t.dropped == s.dropped
      ensures t.published == s.published + (if delivered then 1 else 0)
      ensures t.failed == s.failed + (if delivered then 0 else 1)
    {
    }

    /** The machine's account of one delivery: its retries, then its outcome. */
    ghost method Account(delivered: bool, retried: nat) returns (steps: seq<Step>)
      requires Inv(state) && state.hand != [] && state.attempts == 1 && retried < MAX_ATTEMPTS
      modifies this`state
      ensures Inv(state)
      ensures IsRun(old(state), steps) && After(old(state), steps) == state
      ensures Accounted(old(state), state, delivered)
    {
      hide IsRun, After, Inv, Next, Enabled;
      steps := [];
      RunNone(state);
      ghost var k := 0;
      while k < retried
        invariant 0 <= k <= retried
        invariant Inv(state) && state == old(state).(attempts := 1 + k)
        invariant IsRun(old(state), steps) && After(old(state), steps) == state
      {
        RetryEffect(state);
        steps := Advance(old(state), steps, Retry);
        k := k + 1;
      }
      SettleEffect(state, delivered);
      steps := Advance(old(state), steps, if delivered then Deliver else Fail);
    }

    /** The courses of deliveries numbered from `n`, the first beginning at `t` and each later
        one when the one before it is over. */
    ghost predicate CoursesFrom(n: nat, t: int, courses: seq<Course>) {
      && (forall i :: 0 <= i < |courses| ==> CourseHere(n + i, courses[i]))
      && (forall i :: 0 <= i < |courses| ==> courses[i].t0 == AllOver(t, courses[..i]))
    }

    /** When the last of them is over. */
    ghost function AllOver(t: int, courses: seq<Course>): int {
      if courses == [] then t else Over(courses[|courses| - 1])
    }

    ghost predicate CourseHere(n: nat, d: Course) {
      d.c == meets(n) && d.ending == ending && d.initial == initialBackoff && d.max == maxBackoff
    }

    lemma LastOver(t: int, courses: seq<Course>, d: Course)
      ensures AllOver(t, courses + [d]) == Over(d)
    {
      hide Over;
    }

    lemma OneMoreCourse(n: nat, t: int, courses: seq<Course>, d: Course)
      requires CoursesFrom(n, t, courses) && CourseHere(n + |courses|, d) && d.t0 == AllOver(t, courses)
      ensures CoursesFrom(n, t, courses + [d]) && AllOver(t, courses + [d]) == Over(d)
    {
      hide CourseHere, Over, AllOver;
      LastOver(t, courses, d);
      var more := courses + [d];
      forall i | 0 <= i < |more| ensures CourseHere(n + i, more[i]) && more[i].t0 == AllOver(t, more[..i]) {
        if i < |courses| {
          assert more[..i] == courses[..i] && more[i] == courses[i];
        } else {
          assert more[..i] == courses;
        }
      }
    }

    lemma MoreCourses(n: nat, t: int, x: seq<Course>, y: seq<Course>)
      requires CoursesFrom(n, t, x) && CoursesFrom(n + |x|, AllOver(t, x), y)
      ensures CoursesFrom(n, t, x + y) && AllOver(t, x + y) == AllOver(AllOver(t, x), y)
    {
      hide CourseHere, Over;
      forall i | 0 <= i < |x + y|
        ensures CourseHere(n + i, (x + y)[i]) && (x + y)[i].t0 == AllOver(t, (x + y)[..i])
      {
        if i >= |x| {
          assert CourseHere(n + |x| + (i - |x|), y[i - |x|]);
          assert (x + y)[..i] == x + y[..i - |x|];
        } else {
          assert (x + y)[..i] == x[..i];
        }
      }
    }

    /** The loop over a batch already read: every item is delivered and published, or counted
        failed, as its own course has it. */
    method SettleBatch(batch: seq<Item>) returns (ghost steps: seq<Step>, ghost courses: seq<Course>)
      requires Valid() && state.hand == batch && (batch != [] ==> state.attempts == 1)
      modifies this`published, this`failed, this`retries, this`backpressure, this`now,
               this`deliveries, this`state
      ensures Valid() && state.hand == []
      ensures published + failed == old(published) + old(failed) + |batch|
      ensures |courses| == |batch| && CoursesFrom(old(deliveries), old(now), courses) && now == AllOver(old(now), courses) && deliveries == old(deliveries) + |batch|
      ensures state.settled == old(state).settled + Outcomes(batch, courses)
      ensures IsRun(old(state), steps) && After(old(state), steps) == state
      ensures state.drain == if old(state).drain == Draining && batch != [] then Selecting else old(state).drain
      ensures state.accepted == old(state).accepted
    {
      hide IsRun, After, Inv, Next, Enabled, Takes, Honest, Timely, Outcomes, Succeeds, CoursesFrom, Over, AllOver;
      hide Settling, Accounted;
      steps, courses := [], [];
      SettlingStarts(state, batch, deliveries, now);
      var i := 0;
      while i < |batch|
        invariant 0 <= i <= |batch| && Valid() && deliveries == old(deliveries) + i
        invariant published + failed == old(published) + old(failed) + i
        invariant Settling(old(state), state, steps, batch, i, courses, old(deliveries), old(now), now)
      {
        ghost var d, mid := CourseOf(meets(deliveries)), state;
        SettlingHolds(old(state), state, steps, batch, i, courses, old(deliveries), old(now), now);
        var result, attempts, _, _ := PublishOne(meets(deliveries));
        deliveries := deliveries + 1;
        if result != Delivered {
          failed := failed + 1;
        }
        ghost var more := Account(result == Delivered, if attempts == 0 then 0 else attempts - 1);
        AccountedLeaves(mid, state, result == Delivered);
        SettlingTurn(old(state), mid, state, steps, more, batch, i, courses, d, old(deliveries), old(now), now);
        steps, courses := steps + more, courses + [d];
        i := i + 1;
      }
      SettlingHolds(old(state), state, steps, batch, i, courses, old(deliveries), old(now), now);
      assert batch[..i] == batch;
    }

    /** The loop before item number `i` of the batch. */
    ghost predicate Settling(was: State, s: State, steps: seq<Step>, batch: seq<Item>, i: nat, courses: seq<Course>,
                             n: nat, t: int, at: int) {
      && i <= |batch| && s.hand == batch[i..] && (i < |batch| ==> s.attempts == 1)
      && |courses| == i && CoursesFrom(n, t, courses) && at == AllOver(t, courses)
      && s.settled == was.settled + Outcomes(batch[..i], courses)
      && IsRun(was, steps) && After(was, steps) == s && s.accepted == was.accepted
      && s.drain == if was.drain == Draining && i == |batch| && batch != [] then Selecting else was.drain
    }

    lemma SettlingStarts(s: State, batch: seq<Item>, n: nat, t: int)
      requires s.hand == batch && (batch != [] ==> s.attempts == 1)
      ensures Settling(s, s, [], batch, 0, [], n, t, t)
    {
      hide IsRun, After, Outcomes, CoursesFrom, AllOver;
      RunNone(s);
      NoOutcomes(s.settled);
      assert batch[..0] == [];
      NoCourses(n);
    }

    lemma SettlingHolds(was: State, s: State, steps: seq<Step>, batch: seq<Item>, i: nat, courses: seq<Course>,
                        n: nat, t: int, at: int)
      requires Settling(was, s, steps, batch, i, courses, n, t, at)
      ensures i <= |batch| && s.hand == batch[i..] && (i < |batch| ==> s.attempts == 1)
      ensures |courses| == i && CoursesFrom(n, t, courses) && at == AllOver(t, courses)
      ensures s.settled == was.settled + Outcomes(batch[..i], courses)
      ensures IsRun(was, steps) && After(was, steps) == s && s.accepted == was.accepted
      ensures s.drain == if was.drain == Draining && i == |batch| && batch != [] then Selecting else was.drain
    {
    }

    lemma SettlingTurn(was: State, mid: State, s: State, steps: seq<Step>, more: seq<Step>, batch: seq<Item>, i: nat,
                       courses: seq<Course>, d: Course, n: nat, t: int, at: int)
      requires i < |batch| && Settling(was, mid, steps, batch, i, courses, n, t, d.t0)
      requires CourseHere(n + i, d) && at == Over(d)
      requires IsRun(mid, more) && After(mid, more) == s
      requires Accounted(mid, s, Succeeds(d))
      ensures Settling(was, s, steps + more, batch, i + 1, courses + [d], n, t, at)
    {
      hide IsRun, After, Outcomes, CoursesFrom, AllOver, Over, Succeeds, CourseHere;
      RunsCompose(was, steps, more);
      OneMoreOutcome(was.settled, batch, courses, i, d);
      OneMoreCourse(n, t, courses, d);
    }

    lemma NoCourses(n: nat)
      ensures forall t :: CoursesFrom(n, t, []) && AllOver(t, []) == t
    {
    }

    /** Takes the next batch off the queue. */
    method ReadNext(step: Step) returns (batch: seq<Item>, ghost steps: seq<Step>)
      requires Valid() && queue != [] && state.hand == []
      requires (step == Tick && state.drain == Selecting) || (step == ReadMore && state.drain.Flushing?)
      modifies this`queue, this`state
      ensures Valid() && 1 <= |batch| <= BATCH && batch + queue == old(queue)
      ensures |queue| > 0 ==> |batch| == BATCH
      ensures state.hand == batch && state.attempts == 1 && state.settled == old(state).settled
      ensures state.accepted == old(state).accepted
      ensures state.drain == if step == Tick then Draining else old(state).drain
      ensures IsRun(old(state), steps) && After(old(state), steps) == state
    {
      hide IsRun, After, Inv;
      var n := if |queue| < BATCH then |queue| else BATCH;
      batch := queue[..n];
      queue := queue[n..];
      RunNone(state);
      steps := Advance(state, [], step);
    }

    /** One tick of the drain loop. */
    method DrainBatch() returns (ghost steps: seq<Step>, ghost courses: seq<Course>)
      requires Valid() && state.drain == Selecting
      modifies this`queue, this`published, this`failed, this`retries, this`backpressure, this`now,
               this`deliveries, this`state
      ensures Valid() && state.drain == Selecting && state.accepted == old(state).accepted
      ensures var n := if |old(queue)| < 50 then |old(queue)| else 50;
              && queue == old(queue)[n..]
              && published + failed == old(published) + old(failed) + n
              && |courses| == n && CoursesFrom(old(deliveries), old(now), courses) && now == AllOver(old(now), courses) && deliveries == old(deliveries) + n
              && state.settled == old(state).settled + Outcomes(old(queue)[..n], courses)
      ensures IsRun(old(state), steps) && After(old(state), steps) == state
    {
      hide IsRun, After, Inv, Next, Enabled;
      assert state.hand == [] by { SelectingHoldsNothing(state); }
      if queue == [] {
        RunNone(state);
        NoOutcomes(state.settled);
        NoCourses(deliveries);
        return [], [];
      }
      ghost var more;
      var batch;
      batch, steps := ReadNext(Tick);
      assert queue == old(queue)[|batch|..];
      assert batch == old(queue)[..|batch|];
      more, courses := SettleBatch(batch);
      RunsCompose(old(state), steps, more);
      steps := steps + more;
    }

    lemma SelectingHoldsNothing(s: State)
      requires Inv(s) && s.drain == Selecting
      ensures s.hand == []
    {
    }

    /** The shutdown drain: batch after batch until the queue is empty. */
    method Flush() returns (ghost steps: seq<Step>, ghost courses: seq<Course>)
      requires Valid() && state.drain.Flushing? && state.hand == []
      modifies this`queue, this`published, this`failed, this`retries, this`backpressure, this`now,
               this`deliveries, this`state
      ensures Valid() && queue == [] && state.drain == Exited(old(state).drain.cause)
      ensures published + failed == old(published) + old(failed) + |old(queue)|
      ensures |courses| == |old(queue)| && CoursesFrom(old(deliveries), old(now), courses) && now == AllOver(old(now), courses)
      ensures state.settled == old(state).settled + Outcomes(old(queue), courses)
      ensures state.accepted == old(state).accepted
      ensures IsRun(old(state), steps) && After(old(state), steps) == state
    {
      hide IsRun, After, Inv, Outcomes, CoursesFrom, Honest, AllOver;
      steps, courses := [], [];
      RunNone(state);
      NoOutcomes(state.settled);
      NoCourses(deliveries);
      ghost var taken: seq<Item> := [];
      while queue != []
        invariant Valid() && state.drain == old(state).drain && state.hand == []
        invariant published + failed + |queue| == old(published) + old(failed) + |old(queue)|
        invariant taken + queue == old(queue) && |courses| == |taken|
        invariant deliveries == old(deliveries) + |courses| && CoursesFrom(old(deliveries), old(now), courses) && now == AllOver(old(now), courses)
        invariant state.settled == old(state).settled + Outcomes(taken, courses)
        invariant state.accepted == old(state).accepted
        invariant IsRun(old(state), steps) && After(old(state), steps) == state
        decreases |queue|
      {
        ghost var read, more, now_;
        var batch;
        batch, read := ReadNext(ReadMore);
        RunsCompose(old(state), steps, read);
        steps := steps + read;
        more, now_ := SettleBatch(batch);
        RunsCompose(old(state), steps, more);
        MoreOutcomes(old(state).settled, taken, courses, batch, now_);
        MoreCourses(old(deliveries), old(now), courses, now_);
        steps, taken, courses := steps + more, taken + batch, courses + now_;
      }
      assert taken == old(queue);
      steps := Advance(old(state), steps, ReadMore);
    }

    /** Admission: the item is queued, or the loss is counted and reported. An item that can
        be copied is refused only by a closed queue, or by one that stays full. */
    method Send(p: Producer, item: Item, representable: bool) returns (ok: bool, ghost steps: seq<Step>)
      requires Valid() && !Busy(state, p)
      modifies this`queue, this`dropped, this`state
      ensures Valid() && !Busy(state, p)
      ensures ok <==> representable && !closed && |old(queue)| < capacity
      ensures ok ==> queue == old(queue) + [item] && dropped == old(dropped)
      ensures !ok ==> queue == old(queue) && dropped == old(dropped) + 1
      ensures state.accepted == old(state).accepted + if ok then [item] else []
      ensures state.offered == old(state).offered + 1
      ensures IsRun(old(state), steps) && After(old(state), steps) == state
    {
      hide IsRun, After, Inv;
      steps := [];
      RunNone(state);
      if !representable {
        dropped := dropped + 1;
        steps := Advance(old(state), steps, Refuse(p));
        steps := Advance(old(state), steps, CountDrop(p));
        return false, steps;
      }
      steps := Advance(old(state), steps, Offer(p, item));
      if closed || |queue| >= capacity {
        dropped := dropped + 1;
        steps := Advance(old(state), steps, Reject(p));
        steps := Advance(old(state), steps, CountDrop(p));
        return false, steps;
      }
      queue := queue + [item];
      steps := Advance(old(state), steps, Accept(p));
      return true, steps;
    }
  }
}
