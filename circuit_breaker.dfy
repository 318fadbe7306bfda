/**
 The API gateway's circuit breaker: a three-state machine (CLOSED, OPEN,
 HALF_OPEN) driven by a count of consecutive failures, a trip threshold and a
 cool-down measured from the last recorded failure.

 The breaker's fields are captured as one value, `Snapshot`; the functions
 `Initial`, `StepCanRequest`, `StepRecordFailure` and `StepReset` say what each
 operation does to that value, and the class `CircuitBreaker` updates its
 fields in place and is proved to follow those functions. The clock is not
 modelled: the current time is passed in as `now`.
 */
module Breaker {

  datatype Phase = Closed | Open | HalfOpen

  /** The configuration and mutable fields of one breaker, as a value. */
  datatype Snapshot = Snapshot(
    maxFailures: int,      // failures that trip the breaker
    resetTimeout: int,     // cool-down after the last failure before requests are let through again
    failures: nat,         // consecutive failures recorded since the last reset
    lastAttemptTime: int,  // time of the last recorded failure
    state: Phase)

  /** What `canRequest` answers, and the breaker it leaves behind. */
  datatype Decision = Decision(allowed: bool, next: Snapshot)

  /** The breaker's invariant: it is only ever OPEN or HALF_OPEN once the
      failure count has reached the threshold. */
  predicate Inv(b: Snapshot)
  {
    b.state != Closed ==> b.failures >= b.maxFailures
  }

  /** Only the state may differ between `b` and `b'`. */
  predicate SameButState(b: Snapshot, b': Snapshot)
  {
    b' == b.(state := b'.state)
  }

  /** A freshly constructed breaker. */
  function Initial(maxFailures: int, resetTimeout: int): (b: Snapshot)
    ensures Inv(b)
    ensures b.state == Closed && b.failures == 0 && b.lastAttemptTime == 0
    ensures b.maxFailures == maxFailures && b.resetTimeout == resetTimeout
  {
    Snapshot(maxFailures, resetTimeout, 0, 0, Closed)
  }

  /** Whether the cool-down has run out at time `now`. */
  predicate CooledDown(b: Snapshot, now: int)
  {
    now - b.lastAttemptTime >= b.resetTimeout
  }

  /** `canRequest`: an OPEN breaker whose cool-down has run out moves to
      HALF_OPEN and lets the request through; a CLOSED or HALF_OPEN breaker
      always lets it through. */
  function StepCanRequest(b: Snapshot, now: int): (d: Decision)
    // a request is refused exactly when the breaker is OPEN and still cooling down
    ensures d.allowed <==> (b.state != Open || CooledDown(b, now))
    // the answer agrees with the state left behind
    ensures d.allowed <==> d.next.state != Open
    // CLOSED and HALF_OPEN let everything through and change nothing
    ensures b.state != Open ==> d.allowed && d.next == b
    // a refusal changes nothing; otherwise only OPEN -> HALF_OPEN may happen
    ensures !d.allowed ==> d.next == b
    ensures SameButState(b, d.next)
    ensures d.next.state != b.state ==> b.state == Open && d.next.state == HalfOpen
    ensures Inv(b) ==> Inv(d.next)
  {
    if b.state == Open then
      if CooledDown(b, now) then Decision(true, b.(state := HalfOpen))
      else Decision(false, b)
    else Decision(true, b)
  }

  /** `recordFailure`: one more consecutive failure at time `now`; the breaker
      trips once the count reaches the threshold. */
  function StepRecordFailure(b: Snapshot, now: int): (b': Snapshot)
    ensures b'.failures == b.failures + 1
    ensures b'.lastAttemptTime == now
    ensures b'.maxFailures == b.maxFailures && b'.resetTimeout == b.resetTimeout
    // trips exactly when the threshold is reached; below it the state is kept
    ensures b'.failures >= b.maxFailures ==> b'.state == Open
    ensures b'.failures < b.maxFailures ==> b'.state == b.state
    ensures Inv(b) ==> Inv(b')
  {
    var failures := b.failures + 1;
    b.(failures := failures, lastAttemptTime := now,
       state := if failures >= b.maxFailures then Open else b.state)
  }

  /** `reset`: the success case clears the failure count and closes the breaker. */
  function StepReset(b: Snapshot): (b': Snapshot)
    ensures b'.failures == 0 && b'.state == Closed
    ensures b'.lastAttemptTime == b.lastAttemptTime
    ensures b'.maxFailures == b.maxFailures && b'.resetTimeout == b.resetTimeout
    ensures Inv(b')
  {
    b.(failures := 0, state := Closed)
  }

  /** A breaker after a run of failures recorded at the given times, oldest first. */
  function RecordFailures(b: Snapshot, times: seq<int>): Snapshot
  {
    if times == [] then b
    else StepRecordFailure(RecordFailures(b, times[..|times| - 1]), times[|times| - 1])
  }

  /** A CLOSED breaker that sees a run of consecutive failures counts every one
      of them, remembers the time of the last, and is OPEN at the end exactly
      when the run was non-empty and brought the count to the threshold. */
  lemma {:induction false} FailureRunTrips(b: Snapshot, times: seq<int>)
    requires b.state == Closed
    ensures RecordFailures(b, times).failures == b.failures + |times|
    ensures times != [] ==> RecordFailures(b, times).lastAttemptTime == times[|times| - 1]
    ensures times == [] ==> RecordFailures(b, times).lastAttemptTime == b.lastAttemptTime
    ensures RecordFailures(b, times).state
            == if times != [] && b.failures + |times| >= b.maxFailures then Open else Closed
    ensures RecordFailures(b, times).maxFailures == b.maxFailures
    ensures RecordFailures(b, times).resetTimeout == b.resetTimeout
  {
    if times != [] {
      FailureRunTrips(b, times[..|times| - 1]);
    }
  }

  /** From a fresh breaker, exactly `maxFailures` failures (at least one) are
      needed to trip it. */
  lemma FreshBreakerTripsAtThreshold(maxFailures: int, resetTimeout: int, times: seq<int>)
    ensures RecordFailures(Initial(maxFailures, resetTimeout), times).state == Open
            <==> times != [] && |times| >= maxFailures
  {
    FailureRunTrips(Initial(maxFailures, resetTimeout), times);
  }

  /** A failure recorded while HALF_OPEN (requests are let through again,
      and one of them failed) trips the breaker again, and it then refuses
      every request until a full cool-down has passed since that failure. */
  lemma HalfOpenFailureRetrips(b: Snapshot, now: int, later: int)
    requires Inv(b) && b.state == HalfOpen
    ensures StepRecordFailure(b, now).state == Open
    ensures later - now < b.resetTimeout ==> !StepCanRequest(StepRecordFailure(b, now), later).allowed
  {
  }

  /** Once an OPEN breaker has cooled down it stays cooled down: a request
      allowed at one time is allowed at every later time. */
  lemma CoolDownMonotone(b: Snapshot, early: int, late: int)
    requires early <= late
    requires StepCanRequest(b, early).allowed
    ensures StepCanRequest(b, late).allowed
  {
  }

  /** Asking twice at the same time gives the same answer and the same breaker. */
  lemma CanRequestIdempotent(b: Snapshot, now: int)
    ensures StepCanRequest(StepCanRequest(b, now).next, now) == StepCanRequest(b, now)
  {
  }

  /** The circuit breaker object; its fields are updated in place. */
  class CircuitBreaker {
    const maxFailures: int
    const resetTimeout: int
    var failures: nat
    var lastAttemptTime: int
    var state: Phase

    /** The object's fields as a value. */
    function Snap(): Snapshot
      reads this
    {
      Snapshot(maxFailures, resetTimeout, failures, lastAttemptTime, state)
    }

    ghost predicate Valid()
      reads this
    {
      Inv(Snap())
    }

    constructor(maxFailures: int, resetTimeout: int)
      ensures Valid()
      ensures Snap() == Initial(maxFailures, resetTimeout)
      ensures this.maxFailures == maxFailures && this.resetTimeout == resetTimeout
      ensures failures == 0 && lastAttemptTime == 0 && state == Closed
    {
      this.maxFailures := maxFailures;
      this.resetTimeout := resetTimeout;
      failures := 0;
      lastAttemptTime := 0;
      state := Closed;
    }

    /** Whether a request may be sent at time `now`; an OPEN breaker whose
        cool-down has run out moves to HALF_OPEN. */
    method CanRequest(now: int) returns (allowed: bool)
      requires Valid()
      modifies this`state
      ensures Valid()
      ensures StepCanRequest(old(Snap()), now) == Decision(allowed, Snap())
      ensures allowed <==> (old(state) != Open || now - lastAttemptTime >= resetTimeout)
      ensures state == if old(state) == Open && allowed then HalfOpen else old(state)
    {
      if state == Open {
        if now - lastAttemptTime >= resetTimeout {
          state := HalfOpen;
          return true;
        }
        return false;
      }
      return true;
    }

    /** Records a failed request at time `now`. */
    method RecordFailure(now: int)
      requires Valid()
      modifies this`failures, this`lastAttemptTime, this`state
      ensures Valid()
      ensures Snap() == StepRecordFailure(old(Snap()), now)
      ensures failures == old(failures) + 1 && lastAttemptTime == now
      ensures state == if failures >= maxFailures then Open else old(state)
    {
      failures := failures + 1;
      lastAttemptTime := now;
      if failures >= maxFailures {
        state := Open;
      }
    }

    /** The success case: clears the failure count and closes the breaker. */
    method Reset()
      requires Valid()
      modifies this`failures, this`state
      ensures Valid()
      ensures Snap() == StepReset(old(Snap()))
      ensures failures == 0 && state == Closed
    {
      failures := 0;
      state := Closed;
    }
  }

  /** A caller's view: three failures trip a breaker with threshold 3, it
      refuses during the cool-down, lets requests through again (HALF_OPEN)
      after it, and a reset closes it again. */
  method BreakerScenario()
  {
    var cb := new CircuitBreaker(3, 1000);
    cb.RecordFailure(10);
    cb.RecordFailure(20);
    var ok := cb.CanRequest(25);
    assert ok && cb.state == Closed;
    cb.RecordFailure(30);
    assert cb.state == Open;
    ok := cb.CanRequest(500);
    assert !ok && cb.state == Open;
    ok := cb.CanRequest(1030);
    assert ok && cb.state == HalfOpen;
    cb.Reset();
    assert cb.state == Closed && cb.failures == 0 && cb.lastAttemptTime == 30;
  }
}
