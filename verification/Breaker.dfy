/** The circuit breaker shared by the Redis-backed components. Times are milliseconds. */
module Breaker {
  import opened Basics

  const DEFAULT_THRESHOLD: nat := 5
  const DEFAULT_OPEN_TIMEOUT: nat := 30000

  datatype CbState = Closed | Open | HalfOpen

  datatype Event = Allow(now: int) | Success | Failure(now: int)

  datatype Cb = Cb(state: CbState, failures: int, openedAt: int)

  const INITIAL: Cb := Cb(Closed, 0, 0)

  predicate Grants(cb: Cb, openTimeout: int, now: int)
  {
    !cb.state.Open? || now - cb.openedAt >= openTimeout
  }

  function Apply(cb: Cb, threshold: int, openTimeout: int, e: Event): Cb
  {
    match e
    case Allow(now) => if cb.state.Open? && Grants(cb, openTimeout, now) then cb.(state := HalfOpen) else cb
    case Success => cb.(state := Closed, failures := 0)
    case Failure(now) =>
      if cb.state.HalfOpen? || cb.failures + 1 >= threshold then Cb(Open, 0, now)
      else cb.(failures := cb.failures + 1)
  }

  function After(threshold: int, openTimeout: int, history: seq<Event>): Cb
  {
    if history == [] then INITIAL
    else Apply(After(threshold, openTimeout, history[..|history| - 1]), threshold, openTimeout, history[|history| - 1])
  }

  /** The times of the failures recorded since the last success. */
  function TrailingFailures(history: seq<Event>): seq<int>
  {
    if history == [] then []
    else
      var before := TrailingFailures(history[..|history| - 1]);
      match history[|history| - 1]
      case Allow(_) => before
      case Success => []
      case Failure(now) => before + [now]
  }

  /** The breaker's state is a function of what was recorded: it is closed exactly while the trailing run
      of failures is shorter than the threshold, and was opened by a failure at or past it. */
  lemma {:induction false} StateOfHistory(threshold: nat, openTimeout: nat, history: seq<Event>)
    requires threshold > 0
    ensures var cb, run := After(threshold, openTimeout, history), TrailingFailures(history);
      && 0 <= cb.failures < threshold
      && (cb.state.Closed? <==> |run| < threshold)
      && (cb.state.Closed? ==> cb.failures == |run|)
      && (!cb.state.Closed? ==> cb.openedAt in run[threshold - 1..])
  {
    if history != [] {
      var before := history[..|history| - 1];
      StateOfHistory(threshold, openTimeout, before);
      var cb, run := After(threshold, openTimeout, before), TrailingFailures(before);
      if history[|history| - 1].Failure? && |run| + 1 >= threshold {
        var now := history[|history| - 1].now;
        assert (run + [now])[threshold - 1..] == run[threshold - 1..] + [now];
      }
    }
  }

  /** A call is refused only if as many failures as the threshold have been recorded without a success
      in between, one of them, at or past the threshold, less than the timeout ago. */
  lemma RefusedOnlyAfterOpening(threshold: nat, openTimeout: nat, history: seq<Event>, now: int)
    requires threshold > 0 && !Grants(After(threshold, openTimeout, history), openTimeout, now)
    ensures var run := TrailingFailures(history);
      && |run| >= threshold
      && exists i :: threshold - 1 <= i < |run| && now - run[i] < openTimeout
  {
    StateOfHistory(threshold, openTimeout, history);
    var cb, run := After(threshold, openTimeout, history), TrailingFailures(history);
    var j :| 0 <= j < |run[threshold - 1..]| && run[threshold - 1..][j] == cb.openedAt;
    assert run[threshold - 1 + j] == cb.openedAt;
  }

  /** Does the failure open the circuit, now or anew? Stragglers recorded while it is open count towards the next
      opening. */
  predicate Opens(cb: Cb, threshold: int, e: Event)
  {
    e.Failure? && (cb.state.HalfOpen? || cb.failures + 1 >= threshold)
  }

  /** The latest opening and what was recorded since. */
  datatype Opening = Never | Opened(at: int, since: seq<Event>)

  function LatestOpening(threshold: int, openTimeout: int, history: seq<Event>): Opening
  {
    if history == [] then Never
    else
      var before, e := history[..|history| - 1], history[|history| - 1];
      if Opens(After(threshold, openTimeout, before), threshold, e) then Opened(e.now, [])
      else
        match LatestOpening(threshold, openTimeout, before)
        case Never => Never
        case Opened(at, since) => Opened(at, since + [e])
  }

  /** Nothing since the opening has closed the circuit or let a probe through. */
  predicate StillOpen(o: Opening, openTimeout: int)
  {
    o.Opened? && forall e | e in o.since :: !e.Success? && (e.Allow? ==> e.now - o.at < openTimeout)
  }

  /** The circuit remembers the time of its latest opening, and is open as long as nothing since has ended that. */
  lemma {:induction false} OpeningRemembered(threshold: nat, openTimeout: int, history: seq<Event>)
    requires threshold > 0
    ensures var cb, o := After(threshold, openTimeout, history), LatestOpening(threshold, openTimeout, history);
      && (o.Opened? ==> cb.openedAt == o.at)
      && (o.Never? ==> cb.state.Closed?)
      && (cb.state.Open? <==> StillOpen(o, openTimeout))
    decreases |history|
  {
    if history != [] {
      var before, e := history[..|history| - 1], history[|history| - 1];
      OpeningRemembered(threshold, openTimeout, before);
      var was, o := LatestOpening(threshold, openTimeout, before), LatestOpening(threshold, openTimeout, history);
      if o.Opened? && o.since != [] {
        assert forall d | d in o.since :: d in was.since || d == e;
        assert forall d | d in was.since :: d in o.since;
        assert e in o.since;
      }
    }
  }

  /** A call is refused exactly within the open timeout of the latest opening, if since then no success was recorded
      and no call came after the timeout. */
  lemma RefusedExactlyAfterOpening(threshold: nat, openTimeout: int, history: seq<Event>, now: int)
    requires threshold > 0
    ensures var o := LatestOpening(threshold, openTimeout, history);
      !Grants(After(threshold, openTimeout, history), openTimeout, now) <==>
        StillOpen(o, openTimeout) && now - o.at < openTimeout
  {
    OpeningRemembered(threshold, openTimeout, history);
  }

  /** The half-open state is no single probe: once the timeout is over, any number of calls pass before
      the first of them reports back. */
  lemma {:induction false} HalfOpenLetsEverybodyThrough(
    threshold: nat, openTimeout: nat, history: seq<Event>, now: int, calls: nat)
    requires threshold > 0 && Grants(After(threshold, openTimeout, history), openTimeout, now)
    ensures Grants(After(threshold, openTimeout, history + seq(calls, _ => Allow(now))), openTimeout, now)
  {
    var more := history + seq(calls, _ => Allow(now));
    if calls == 0 {
      assert more == history;
    } else {
      HalfOpenLetsEverybodyThrough(threshold, openTimeout, history, now, calls - 1);
      assert more[..|more| - 1] == history + seq(calls - 1, _ => Allow(now));
    }
  }

  // ----- What a Redis call tells the breaker -----

  /** The reply arrives, or an error does, and then the command may have run all the same. A missing key
      or the caller's cancellation is no infrastructure error. */
  datatype Reply = Answered | Failed(executed: bool, infrastructure: bool)

  predicate Executes(reply: Reply)
  {
    reply.Answered? || reply.executed
  }

  function Reports(reply: Reply, done: int): seq<Event>
  {
    if reply.Answered? then [Success]
    else if reply.infrastructure then [Failure(done)]
    else []
  }

  function Told(cb: Cb, threshold: int, openTimeout: int, events: seq<Event>): Cb
    decreases |events|
  {
    if events == [] then cb
    else Told(Apply(cb, threshold, openTimeout, events[0]), threshold, openTimeout, events[1..])
  }

  lemma ToldTwo(cb: Cb, threshold: int, openTimeout: int, a: Event, b: seq<Event>)
    ensures Told(cb, threshold, openTimeout, [a] + b) ==
      Told(Apply(cb, threshold, openTimeout, a), threshold, openTimeout, b)
  {
    assert ([a] + b)[1..] == b;
  }

  /** What a call that is let through does to the circuit: an answer closes it, an infrastructure failure counts and may
      open it, and any other failure leaves the count alone. */
  lemma CallsCount(cb: Cb, threshold: int, openTimeout: int, asked: int, reply: Reply, done: int)
    requires Grants(cb, openTimeout, asked)
    ensures var told := Told(cb, threshold, openTimeout, [Allow(asked)] + Reports(reply, done));
      && (reply.Answered? ==> told.state.Closed? && told.failures == 0)
      && (reply.Failed? && !reply.infrastructure ==> told.failures == cb.failures && !told.state.Open?)
      && (reply.Failed? && reply.infrastructure ==>
            if cb.state.Closed? && cb.failures + 1 < threshold then told == cb.(failures := cb.failures + 1)
            else told == Cb(Open, 0, done))
  {
    ToldTwo(cb, threshold, openTimeout, Allow(asked), Reports(reply, done));
    var events := Reports(reply, done);
    if events != [] {
      assert events[1..] == [];
    }
  }

  /** Calls, each with the time it is asked at and the time its failure is reported. */
  function FailedCalls(calls: seq<(int, int)>, executed: bool): seq<Event>
  {
    if calls == [] then []
    else [Allow(calls[0].0)] + Reports(Failed(executed, true), calls[0].1) + FailedCalls(calls[1..], executed)
  }

  lemma {:induction false} ToldAdds(cb: Cb, threshold: int, openTimeout: int, a: seq<Event>, b: seq<Event>)
    ensures Told(cb, threshold, openTimeout, a + b)
      == Told(Told(cb, threshold, openTimeout, a), threshold, openTimeout, b)
    decreases |a|
  {
    if a == [] {
      assert a + b == b;
    } else {
      assert (a + b)[1..] == a[1..] + b;
      ToldAdds(Apply(cb, threshold, openTimeout, a[0]), threshold, openTimeout, a[1..], b);
    }
  }

  /** An outage opens a closed circuit with the failure that makes up the threshold, and not before. */
  lemma {:induction false} OutageOpens(
    cb: Cb, threshold: int, openTimeout: int, calls: seq<(int, int)>, executed: bool)
    requires cb.state.Closed? && cb.failures + |calls| <= threshold && calls != []
    ensures Told(cb, threshold, openTimeout, FailedCalls(calls, executed)) ==
      if cb.failures + |calls| == threshold then Cb(Open, 0, calls[|calls| - 1].1)
      else cb.(failures := cb.failures + |calls|)
    decreases |calls|
  {
    var first := [Allow(calls[0].0)] + Reports(Failed(executed, true), calls[0].1);
    CallsCount(cb, threshold, openTimeout, calls[0].0, Failed(executed, true), calls[0].1);
    ToldAdds(cb, threshold, openTimeout, first, FailedCalls(calls[1..], executed));
    assert FailedCalls(calls, executed) == first + FailedCalls(calls[1..], executed);
    if |calls| > 1 {
      OutageOpens(cb.(failures := cb.failures + 1), threshold, openTimeout, calls[1..], executed);
    } else {
      assert FailedCalls(calls[1..], executed) == [];
    }
  }

  class CircuitBreaker {
    var state: CbState
    var failures: int
    var openedAt: int
    const threshold: int
    const openTimeout: int

    function View(): Cb
      reads this
    {
      Cb(state, failures, openedAt)
    }

    constructor (threshold: int, openTimeout: int)
      ensures View() == INITIAL
      ensures this.threshold == (if threshold <= 0 then DEFAULT_THRESHOLD else threshold) && this.threshold > 0
      ensures this.openTimeout == (if openTimeout <= 0 then DEFAULT_OPEN_TIMEOUT else openTimeout)
      ensures this.openTimeout > 0
      ensures (threshold <= 0 ==> this.threshold == 5) && (openTimeout <= 0 ==> this.openTimeout == 30 * 1000)
    {
      this.threshold := if threshold <= 0 then DEFAULT_THRESHOLD else threshold;
      this.openTimeout := if openTimeout <= 0 then DEFAULT_OPEN_TIMEOUT else openTimeout;
      state, failures, openedAt := Closed, 0, 0;
    }

    method Allow(now: int) returns (allowed: bool)
      modifies this
      ensures View() == Apply(old(View()), threshold, openTimeout, Event.Allow(now))
      ensures allowed == Grants(old(View()), openTimeout, now)
    {
      match state {
        case Closed => return true;
        case Open =>
          if now - openedAt >= openTimeout {
            state := HalfOpen;
            return true;
          }
          return false;
        case HalfOpen => return true;
      }
    }

    method RecordSuccess()
      modifies this
      ensures View() == Apply(old(View()), threshold, openTimeout, Success)
    {
      failures := 0;
      state := Closed;
    }

    method RecordFailure(now: int)
      modifies this
      ensures View() == Apply(old(View()), threshold, openTimeout, Failure(now))
    {
      failures := failures + 1;
      if state == HalfOpen || failures >= threshold {
        state := Open;
        openedAt := now;
        failures := 0;
      }
    }
  }
}
