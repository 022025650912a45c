/** The token bucket that paces outbound calls, and the breaker that takes a failing provider out of rotation.

    Each critical section is one step. Threads interleave as any sequence of steps at nondecreasing times. */
module Resilience {
  import opened Wrappers
  import opened Sums

  // --- Token bucket --------------------------------------------------------------------------------

  datatype Bucket = Bucket(rate: real, capacity: real, tokens: real, updated: real)

  datatype Attempt = Attempt(at: real, tokens: real)

  function Refilled(b: Bucket, now: real): real
  {
    Min(b.capacity, b.tokens + Amount(now - b.updated, b.rate))
  }

  function Grants(b: Bucket, a: Attempt): bool
  {
    Refilled(b, a.at) >= a.tokens
  }

  function After(b: Bucket, a: Attempt): Bucket
  {
    b.(tokens := if Grants(b, a) then Refilled(b, a.at) - a.tokens else Refilled(b, a.at), updated := a.at)
  }

  class RateLimiter {
    var rate: real
    var capacity: real
    var tokens: real
    var updated: real

    ghost function State(): Bucket
      reads this
    {
      Bucket(rate, capacity, tokens, updated)
    }

    /** Starts full. */
    constructor (ratePerSecond: real, burst: Option<real>, now: real)
      ensures State() == Bucket(Max(0.1, ratePerSecond), if burst.Some? then burst.value else Max(1.0, ratePerSecond),
                                if burst.Some? then burst.value else Max(1.0, ratePerSecond), now)
    {
      rate := Max(0.1, ratePerSecond);
      capacity := if burst.Some? then burst.value else Max(1.0, ratePerSecond);
      tokens := if burst.Some? then burst.value else Max(1.0, ratePerSecond);
      updated := now;
    }

    /** One turn inside the lock: refill for the time passed, then take the tokens or say how long they will take. */
    method TryAcquire(wanted: real, now: real) returns (granted: bool, wait: real)
      requires rate > 0.0
      modifies this
      ensures State() == After(old(State()), Attempt(now, wanted))
      ensures granted == Grants(old(State()), Attempt(now, wanted))
      ensures wait == if granted then 0.0 else (wanted - tokens) / rate
    {
      tokens := Min(capacity, tokens + Amount(now - updated, rate));
      updated := now;
      if tokens >= wanted {
        tokens := tokens - wanted;
        return true, 0.0;
      }
      return false, (wanted - tokens) / rate;
    }

    /** The whole loop: a turn at each of the times the caller wakes, until one is granted. */
    method Acquire(wanted: real, turns: seq<real>) returns (granted: bool)
      requires rate > 0.0
      modifies this
      ensures (State(), granted) == Acquired(old(State()), wanted, turns)
    {
      granted := false;
      var i := 0;
      while i < |turns| && !granted
        invariant 0 <= i <= |turns| && rate > 0.0
        invariant (if granted then (State(), true) else Acquired(State(), wanted, turns[i..])) == Acquired(old(State()), wanted, turns)
        decreases |turns| - i
      {
        assert turns[i..][1..] == turns[i + 1..];
        var wait;
        granted, wait := TryAcquire(wanted, turns[i]);
        i := i + 1;
      }
    }
  }

  predicate Filled(b: Bucket)
  {
    0.0 <= b.tokens <= b.capacity && 0.0 <= b.rate
  }

  predicate Ordered(from: real, attempts: seq<Attempt>)
    decreases |attempts|
  {
    attempts == [] || (from <= attempts[0].at && 0.0 <= attempts[0].tokens && Ordered(attempts[0].at, attempts[1..]))
  }

  function RunBucket(b: Bucket, attempts: seq<Attempt>): Bucket
    decreases |attempts|
  {
    if attempts == [] then b else RunBucket(After(b, attempts[0]), attempts[1..])
  }

  /** Tokens handed out over a run. */
  function Granted(b: Bucket, attempts: seq<Attempt>): real
    decreases |attempts|
  {
    if attempts == [] then 0.0
    else (if Grants(b, attempts[0]) then attempts[0].tokens else 0.0) + Granted(After(b, attempts[0]), attempts[1..])
  }

  lemma AttemptKeepsFilled(b: Bucket, a: Attempt)
    requires Filled(b) && b.updated <= a.at && 0.0 <= a.tokens
    ensures Filled(After(b, a))
    ensures After(b, a).tokens + (if Grants(b, a) then a.tokens else 0.0) <= b.tokens + Amount(a.at - b.updated, b.rate)
  {
    assert (a.at - b.updated) * b.rate >= 0.0;
  }

  /** What is handed out, plus what is left, is at most what was there plus what flowed in. */
  lemma {:induction false} TokensAreConserved(b: Bucket, attempts: seq<Attempt>)
    requires Filled(b) && Ordered(b.updated, attempts)
    ensures Filled(RunBucket(b, attempts))
    ensures RunBucket(b, attempts).updated >= b.updated
    ensures Granted(b, attempts) + RunBucket(b, attempts).tokens
         <= b.tokens + Amount(RunBucket(b, attempts).updated - b.updated, b.rate)
    decreases |attempts|
  {
    if attempts == [] {
      assert Amount(0.0, b.rate) == 0.0;
    } else {
      var c := After(b, attempts[0]);
      AttemptKeepsFilled(b, attempts[0]);
      TokensAreConserved(c, attempts[1..]);
      AmountAdds(attempts[0].at - b.updated, RunBucket(b, attempts).updated - attempts[0].at, b.rate);
      assert attempts[0].at - b.updated + (RunBucket(b, attempts).updated - attempts[0].at) == RunBucket(b, attempts).updated - b.updated;
    }
  }

  /** The promise: whatever came before, and however many threads share the bucket, the tokens granted from one
      attempt to a later one are at most the capacity plus the rate times the time between them. */
  lemma BurstThenRate(b: Bucket, attempts: seq<Attempt>)
    requires Filled(b) && Ordered(b.updated, attempts) && attempts != []
    ensures Granted(b, attempts) <= b.capacity + Amount(RunBucket(b, attempts).updated - attempts[0].at, b.rate)
    ensures 0.0 <= RunBucket(b, attempts).tokens <= b.capacity
  {
    var first := attempts[0];
    AttemptKeepsFilled(b, first);
    TokensAreConserved(After(b, first), attempts[1..]);
    RunKeepsRates(b, attempts);
    assert After(b, first).tokens + (if Grants(b, first) then first.tokens else 0.0) <= b.capacity;
  }

  lemma {:induction false} RunKeepsRates(b: Bucket, attempts: seq<Attempt>)
    ensures RunBucket(b, attempts).capacity == b.capacity && RunBucket(b, attempts).rate == b.rate
    decreases |attempts|
  {
    if attempts != [] {
      RunKeepsRates(After(b, attempts[0]), attempts[1..]);
    }
  }

  /** How long a refused caller sleeps before its next turn. */
  function Sleep(b: Bucket, wanted: real): real
    requires b.rate > 0.0
  {
    Min((wanted - b.tokens) / b.rate, 1.0)
  }

  /** The loop of one caller, with no competition, waking at the given times. */
  function Acquired(b: Bucket, wanted: real, turns: seq<real>): (Bucket, bool)
    decreases |turns|
  {
    if turns == [] then (b, false)
    else
      var c := After(b, Attempt(turns[0], wanted));
      if Grants(b, Attempt(turns[0], wanted)) then (c, true) else Acquired(c, wanted, turns[1..])
  }

  /** After every refusal the caller sleeps at least as long as it was told, and a second at most need pass. */
  predicate SleepsBetween(b: Bucket, wanted: real, turns: seq<real>)
    requires b.rate > 0.0
    decreases |turns|
  {
    turns == [] ||
    (b.updated <= turns[0] &&
     (!Grants(b, Attempt(turns[0], wanted)) ==>
        var c := After(b, Attempt(turns[0], wanted));
        && (|turns| > 1 ==> turns[1] >= turns[0] + Sleep(c, wanted))
        && SleepsBetween(c, wanted, turns[1..])))
  }

  /** By the time the caller wakes, all it lacked has flowed in, or a second's tokens. */
  lemma SleepingFills(b: Bucket, wanted: real, now: real)
    requires b.rate > 0.0 && now >= b.updated + Sleep(b, wanted)
    ensures Amount(now - b.updated, b.rate) >= Min(wanted - b.tokens, b.rate)
  {
    var wait := (wanted - b.tokens) / b.rate;
    assert wait * b.rate == wanted - b.tokens;
    var slept := Min(wait, 1.0);
    var late := now - b.updated - slept;
    assert Amount(late, b.rate) >= 0.0;
    AmountAdds(late, slept, b.rate);
    assert late + slept == now - b.updated;
  }

  /** Between two refusals of a request the bucket could hold, a second's tokens flow in. */
  lemma RefusedTwice(b: Bucket, wanted: real, now: real)
    requires b.rate > 0.0 && wanted <= b.capacity
    requires now >= b.updated + Sleep(b, wanted) && !Grants(b, Attempt(now, wanted))
    ensures Refilled(b, now) >= b.tokens + b.rate
  {
    SleepingFills(b, wanted, now);
  }

  /** A caller that is refused at every turn, though the bucket could hold what it wants, has had few turns. */
  lemma {:induction false} RefusalsAreFew(b: Bucket, wanted: real, turns: seq<real>)
    requires Filled(b) && b.rate > 0.0 && wanted <= b.capacity && turns != []
    requires SleepsBetween(b, wanted, turns) && !Acquired(b, wanted, turns).1
    ensures Amount((|turns| - 1) as real, b.rate) <= wanted - Refilled(b, turns[0])
    decreases |turns|
  {
    if |turns| == 1 {
      assert Amount(0.0, b.rate) == 0.0;
    } else {
      var c := After(b, Attempt(turns[0], wanted));
      AttemptKeepsFilled(b, Attempt(turns[0], wanted));
      RefusalsAreFew(c, wanted, turns[1..]);
      RefusedTwice(c, wanted, turns[1]);
      AmountAdds((|turns| - 2) as real, 1.0, b.rate);
      assert (|turns| - 2) as real + 1.0 == (|turns| - 1) as real;
    }
  }

  lemma {:induction false} TooMuchIsRefused(b: Bucket, wanted: real, turns: seq<real>)
    requires wanted > b.capacity
    ensures !Acquired(b, wanted, turns).1
    decreases |turns|
  {
    if turns != [] {
      TooMuchIsRefused(After(b, Attempt(turns[0], wanted)), wanted, turns[1..]);
    }
  }

  /** A caller that meets no competition, given more turns than the seconds its tokens take to flow in and one more,
      acquires exactly when the bucket can ever hold what it wants: a request above the capacity waits for ever. */
  lemma WaitingSucceedsExactly(b: Bucket, wanted: real, turns: seq<real>)
    requires Filled(b) && b.rate > 0.0 && 0.0 <= wanted
    requires SleepsBetween(b, wanted, turns) && Amount((|turns| - 1) as real, b.rate) > wanted
    ensures Acquired(b, wanted, turns).1 <==> wanted <= b.capacity
  {
    if wanted > b.capacity {
      TooMuchIsRefused(b, wanted, turns);
    } else if !Acquired(b, wanted, turns).1 {
      NoTurns(|turns| - 1, b.rate);
      AttemptKeepsFilled(b, Attempt(turns[0], wanted));
      RefusalsAreFew(b, wanted, turns);
    }
  }

  lemma NoTurns(n: int, rate: real)
    requires rate > 0.0
    ensures n <= 0 ==> Amount(n as real, rate) <= 0.0
  {
    if n <= 0 {
      assert (-n) as real * rate >= 0.0;
    }
  }

  // --- Circuit breaker --------------------------------------------------------------------------------

  datatype Breaker = Breaker(threshold: nat, timeout: real, failures: nat, openedAt: Option<real>, halfOpen: bool)

  predicate LetsThrough(b: Breaker, now: real)
  {
    b.openedAt.None? || now - b.openedAt.value >= b.timeout
  }

  function Called(b: Breaker, now: real): Breaker
  {
    if b.openedAt.Some? && LetsThrough(b, now) then b.(halfOpen := true) else b
  }

  function Succeeded(b: Breaker): Breaker
  {
    b.(failures := 0, openedAt := None, halfOpen := false)
  }

  function FailedAt(b: Breaker, now: real): Breaker
  {
    if b.halfOpen then b.(openedAt := Some(now), halfOpen := false)
    else
      b.(failures := b.failures + 1,
         openedAt := if b.failures + 1 >= b.threshold && b.openedAt.None? then Some(now) else b.openedAt)
  }

  class CircuitBreaker {
    const threshold: nat
    const timeout: real
    var failures: nat
    var openedAt: Option<real>
    var halfOpen: bool

    ghost function State(): Breaker
      reads this
    {
      Breaker(threshold, timeout, failures, openedAt, halfOpen)
    }

    constructor (failureThreshold: nat, resetTimeout: real)
      ensures State() == Breaker(failureThreshold, resetTimeout, 0, None, false)
    {
      threshold, timeout, failures, openedAt, halfOpen := failureThreshold, resetTimeout, 0, None, false;
    }

    /** False when the provider is out of rotation. */
    method BeforeCall(now: real) returns (allowed: bool)
      modifies `halfOpen
      ensures allowed == LetsThrough(old(State()), now) && State() == Called(old(State()), now)
    {
      if openedAt.None? {
        return true;
      }
      if now - openedAt.value < timeout {
        return false;
      }
      halfOpen := true;
      allowed := true;
    }

    method RecordSuccess()
      modifies this
      ensures State() == Succeeded(old(State()))
    {
      failures, openedAt, halfOpen := 0, None, false;
    }

    method RecordFailure(now: real)
      modifies this
      ensures State() == FailedAt(old(State()), now)
    {
      if halfOpen {
        openedAt, halfOpen := Some(now), false;
        return;
      }
      failures := failures + 1;
      if failures >= threshold && openedAt.None? {
        openedAt := Some(now);
      }
    }
  }

  /** What a caller can do to a breaker. */
  datatype Event = Call(at: real) | Success | Failure(at: real)

  function Handled(b: Breaker, e: Event): Breaker
  {
    match e
    case Call(at) => Called(b, at)
    case Success => Succeeded(b)
    case Failure(at) => FailedAt(b, at)
  }

  function HandledAll(b: Breaker, es: seq<Event>): Breaker
    decreases |es|
  {
    if es == [] then b else HandledAll(Handled(b, es[0]), es[1..])
  }

  predicate NoOutcome(es: seq<Event>)
  {
    forall e :: e in es ==> e.Call?
  }

  /** Failures since the last success, on top of those before. */
  function Streak(before: nat, es: seq<Event>): nat
  {
    if es == [] then before
    else
      var earlier := Streak(before, es[..|es| - 1]);
      match es[|es| - 1]
      case Call(_) => earlier
      case Success => 0
      case Failure(_) => earlier + 1
  }

  /** A threshold of zero opens at the first failure, like a threshold of one. */
  function Tolerated(b: Breaker): nat
  {
    if b.threshold == 0 then 1 else b.threshold
  }

  lemma {:induction false} HandledLast(b: Breaker, es: seq<Event>)
    requires es != []
    ensures HandledAll(b, es) == Handled(HandledAll(b, es[..|es| - 1]), es[|es| - 1])
    decreases |es|
  {
    if |es| > 1 {
      HandledLast(Handled(b, es[0]), es[1..]);
      assert es[1..][..|es| - 2] == es[..|es| - 1][1..];
    } else {
      assert es[1..] == [] && es[..0] == [];
    }
  }

  /** Over any run of calls, successes and failures, a breaker that began closed is open exactly when the failures with no
      success between them have reached the threshold, and it opens at the failure that reaches it. */
  lemma {:induction false} OpensAtThreshold(b: Breaker, es: seq<Event>)
    requires b.openedAt.None? && !b.halfOpen && b.failures < Tolerated(b)
    ensures HandledAll(b, es).openedAt.Some? <==> Streak(b.failures, es) >= Tolerated(b)
    ensures es != [] && es[|es| - 1].Failure? && Streak(b.failures, es) == Tolerated(b)
        ==> HandledAll(b, es).openedAt == Some(es[|es| - 1].at)
    ensures var c := HandledAll(b, es);
      c.threshold == b.threshold && (c.openedAt.None? ==> !c.halfOpen && c.failures == Streak(b.failures, es))
  {
    if es != [] {
      OpensAtThreshold(b, es[..|es| - 1]);
      HandledLast(b, es);
    }
  }

  /** While open and cooling down nothing gets through; once cooled down everything does until an outcome is
      recorded, so the number of probes is not limited to one. */
  lemma {:induction false} ProbesUntilOutcome(b: Breaker, es: seq<Event>, now: real)
    requires b.openedAt.Some? && NoOutcome(es)
    ensures LetsThrough(HandledAll(b, es), now) <==> now - b.openedAt.value >= b.timeout
    decreases |es|
  {
    if es != [] {
      assert es[0] in es;
      ProbesUntilOutcome(Handled(b, es[0]), es[1..], now);
    }
  }

  /** A failed probe restarts the whole cooldown. */
  lemma FailedProbeRestarts(b: Breaker, probe: real, failed: real, now: real)
    requires b.openedAt.Some? && LetsThrough(b, probe)
    ensures LetsThrough(FailedAt(Called(b, probe), failed), now) <==> now - failed >= b.timeout
  {
  }
}
