/** The rate limiter over many keys: the script behind the circuit breaker, failing open. */
module RateLimiting {
  import opened Basics
  import opened Domain
  import Breaker
  import opened TokenBucket

  function Lookup(keys: map<string, Bucket>, key: string): Option<Bucket>
  {
    if key in keys then Some(keys[key]) else None
  }

  /** The script's effect on the keys, and its answer. */
  function ScriptOn(keys: map<string, Bucket>, key: string, p: Params, c: Call): (map<string, Bucket>, bool)
  {
    var (bucket, allowed) := Script(p, Live(Lookup(keys, key), c), c.now);
    (keys[key := bucket], allowed)
  }

  /** A limit or a window that is not positive switches the limiter off. */
  predicate Limits(limit: int, window: int)
  {
    limit > 0 && window > 0
  }

  /** bypassed: the breaker refused the call. */
  function KeysAfter(
    keys: map<string, Bucket>, key: string, limit: int, window: int, c: Call, bypassed: bool,
    reply: Breaker.Reply): map<string, Bucket>
  {
    if Limits(limit, window) && !bypassed && Breaker.Executes(reply)
    then ScriptOn(keys, key, ParamsOf(limit, window), c).0 else keys
  }

  /** guarded: a breaker is configured. */
  function Answer(
    keys: map<string, Bucket>, key: string, limit: int, window: int, c: Call, guarded: bool, bypassed: bool,
    reply: Breaker.Reply): Result<bool>
  {
    if !Limits(limit, window) || bypassed then Ok(true)
    else if reply.Failed? then (if guarded && reply.infrastructure then Ok(true) else Err(Infrastructure))
    else Ok(ScriptOn(keys, key, ParamsOf(limit, window), c).1)
  }

  /** The script admits a call exactly if it finds a token, and finds one in a bucket that is not there. */
  lemma ScriptAdmits(limit: int, window: int, b: Option<Bucket>, now: int)
    requires Limits(limit, window)
    ensures Script(ParamsOf(limit, window), b, now).1 <==> Refill(ParamsOf(limit, window), b, now) >= 1.0
    ensures b.None? ==> Script(ParamsOf(limit, window), b, now).1
  {
    hide Round6, Milliseconds, ToInt64, Seconds;
  }

  class RateLimiter {
    var keys: map<string, Bucket>
    const cb: Breaker.CircuitBreaker?

    constructor (keys: map<string, Bucket>, cb: Breaker.CircuitBreaker?)
      ensures this.keys == keys && this.cb == cb
    {
      this.keys, this.cb := keys, cb;
    }

    predicate Refuses(asked: int)
      reads cb
    {
      cb != null && !Breaker.Grants(cb.View(), cb.openTimeout, asked)
    }

    /** c.now is the time of the Redis server; asked and done are the breaker's. */
    method Allow(key: string, limit: int, window: int, c: Call, reply: Breaker.Reply, asked: int, done: int)
      returns (r: Result<bool>)
      modifies this`keys, cb
      ensures keys == KeysAfter(old(keys), key, limit, window, c, old(Refuses(asked)), reply)
      ensures r == Answer(old(keys), key, limit, window, c, cb != null, old(Refuses(asked)), reply)
      ensures limit <= 0 || window <= 0 || old(Refuses(asked)) ==> r == Ok(true) && keys == old(keys)
      ensures limit > 0 && window > 0 && !old(Refuses(asked)) && reply.Answered? ==>
        var found := if key in old(keys) && !c.dropped then Some(old(keys)[key]) else None;
        r == Ok(Refill(ParamsOf(limit, window), found, c.now) >= 1.0) && (found.None? ==> r == Ok(true))
      ensures limit > 0 && window > 0 && !old(Refuses(asked)) && reply.Failed? ==>
        r == if cb != null && reply.infrastructure then Ok(true) else Err(Infrastructure)
      ensures keys - {key} == old(keys) - {key} && (reply.Failed? && !reply.executed ==> keys == old(keys))
      ensures limit > 0 && window > 0 && !old(Refuses(asked)) && (reply.Answered? || reply.executed) ==>
        key in keys && keys[key].ts == c.now
      ensures cb != null ==>
        cb.View() == Breaker.Told(old(cb.View()), cb.threshold, cb.openTimeout,
                          if !Limits(limit, window) then []
                          else [Breaker.Event.Allow(asked)]
                               + if old(Refuses(asked)) then [] else Breaker.Reports(reply, done))
    {
      if Limits(limit, window) {
        ScriptAdmits(limit, window, Live(Lookup(keys, key), c), c.now);
      }
      hide Script, ParamsOf, Breaker.Apply, Refill;
      if limit <= 0 || window <= 0 {
        return Ok(true);
      }
      if cb != null {
        Breaker.ToldTwo(cb.View(), cb.threshold, cb.openTimeout, Breaker.Event.Allow(asked),
                if Refuses(asked) then [] else Breaker.Reports(reply, done));
        var allowed := cb.Allow(asked);
        if !allowed {
          return Ok(true);
        }
      }
      var allowed := false;
      if Breaker.Executes(reply) {
        var (bucket, one) := Script(ParamsOf(limit, window), Live(Lookup(keys, key), c), c.now);
        keys := keys[key := bucket];
        allowed := one;
      }
      if reply.Failed? {
        if cb != null && reply.infrastructure {
          cb.RecordFailure(done);
          return Ok(true);
        }
        return Err(Infrastructure);
      }
      if cb != null {
        cb.RecordSuccess();
      }
      return Ok(allowed);
    }
  }

  // ----- Many keys, one after the other -----

  /** A turn of the run: the script may or may not have been run for it. */
  datatype Ask = Ask(key: string, params: Params, call: Call, ran: bool)

  function Keys(asks: seq<Ask>): map<string, Bucket>
  {
    if asks == [] then map[]
    else
      var a := asks[|asks| - 1];
      var before := Keys(asks[..|asks| - 1]);
      if a.ran then ScriptOn(before, a.key, a.params, a.call).0 else before
  }

  predicate Concerns(a: Ask, key: string)
  {
    a.ran && a.key == key
  }

  /** Does the script admit the i-th call? */
  predicate Admits(asks: seq<Ask>, i: nat)
    requires i < |asks|
  {
    asks[i].ran && ScriptOn(Keys(asks[..i]), asks[i].key, asks[i].params, asks[i].call).1
  }

  /** The history of one key. */
  function On(asks: seq<Ask>, key: string): seq<Call>
  {
    if asks == [] then []
    else
      var before := On(asks[..|asks| - 1], key);
      if Concerns(asks[|asks| - 1], key) then before + [asks[|asks| - 1].call] else before
  }

  function Admitted(asks: seq<Ask>, key: string, i: nat, k: nat): nat
    requires k <= |asks|
    decreases k
  {
    if k <= i then 0
    else Admitted(asks, key, i, k - 1) + if Concerns(asks[k - 1], key) && Admits(asks, k - 1) then 1 else 0
  }

  predicate SameParams(asks: seq<Ask>, key: string, p: Params)
  {
    forall i | 0 <= i < |asks| && Concerns(asks[i], key) :: asks[i].params == p
  }

  /** The other keys do not matter to a key. */
  lemma {:induction false} KeyAlone(asks: seq<Ask>, key: string, p: Params)
    requires SameParams(asks, key, p)
    ensures Lookup(Keys(asks), key) == After(p, On(asks, key))
    decreases |asks|
  {
    if asks != [] {
      hide Script;
      var before := asks[..|asks| - 1];
      assert SameParams(before, key, p) by {
        assert forall i | 0 <= i < |before| :: before[i] == asks[i];
      }
      KeyAlone(before, key, p);
      var h := On(asks, key);
      if Concerns(asks[|asks| - 1], key) {
        assert h[..|h| - 1] == On(before, key);
      }
    }
  }

  lemma {:induction false} OnPrefix(asks: seq<Ask>, key: string, k: nat)
    requires k <= |asks|
    ensures On(asks[..k], key) <= On(asks, key)
    decreases |asks|
  {
    if k == |asks| {
      assert asks[..k] == asks;
    } else {
      var before := asks[..|asks| - 1];
      assert before[..k] == asks[..k];
      OnPrefix(before, key, k);
    }
  }

  lemma AdmitsIsGranted(asks: seq<Ask>, key: string, p: Params, k: nat)
    requires SameParams(asks, key, p) && k < |asks| && Concerns(asks[k], key)
    ensures On(asks[..k + 1], key) == On(asks[..k], key) + [asks[k].call]
    ensures On(asks[..k + 1], key) <= On(asks, key)
    ensures Admits(asks, k) == Granted(p, On(asks, key), |On(asks[..k], key)|)
  {
    var before, upTo := asks[..k], asks[..k + 1];
    assert upTo[..k] == before;
    OnPrefix(asks, key, k + 1);
    assert SameParams(before, key, p) by {
      assert forall i | 0 <= i < |before| :: before[i] == asks[i];
    }
    KeyAlone(before, key, p);
    assert On(asks, key)[..|On(before, key)|] == On(before, key);
  }

  /** The calls admitted on a key in a stretch of the run are those of a stretch of its history. */
  lemma {:induction false} AdmittedIsCount(asks: seq<Ask>, key: string, p: Params, i: nat, k: nat)
    requires SameParams(asks, key, p) && i <= k <= |asks|
    ensures On(asks[..i], key) <= On(asks[..k], key) <= On(asks, key)
    ensures Admitted(asks, key, i, k) == Count(p, On(asks, key), |On(asks[..i], key)|, |On(asks[..k], key)|)
    decreases k
  {
    hide Admits, Granted;
    OnPrefix(asks, key, k);
    if i < k {
      AdmittedIsCount(asks, key, p, i, k - 1);
      assert asks[..k][..k - 1] == asks[..k - 1];
      if Concerns(asks[k - 1], key) {
        AdmitsIsGranted(asks, key, p, k - 1);
      }
    }
  }

  /** Every call a stretch of the run adds to the history was made in that stretch. */
  lemma {:induction false} CallsOfStretch(asks: seq<Ask>, key: string, i: nat, k: nat, x: nat) returns (m: nat)
    requires i <= k <= |asks| && |On(asks[..i], key)| <= x < |On(asks[..k], key)|
    ensures i <= m < k && Concerns(asks[m], key) && On(asks[..k], key)[x] == asks[m].call
    decreases k
  {
    assert i < k;
    assert asks[..k][..k - 1] == asks[..k - 1];
    if x < |On(asks[..k - 1], key)| {
      m := CallsOfStretch(asks, key, i, k - 1, x);
    } else {
      m := k - 1;
    }
  }

  /** All calls on the key in the stretch fall within so many milliseconds of the first. */
  predicate Within(asks: seq<Ask>, key: string, i: nat, k: nat, from: int, span: int)
    requires k <= |asks|
  {
    forall m | i <= m < k && Concerns(asks[m], key) :: from <= asks[m].call.now <= from + span
  }

  lemma CeilingGrows(limit: int, window: int, a: int, b: int)
    requires limit > 0 && window > 0 && a <= b
    ensures Ceiling(limit, window, a) <= Ceiling(limit, window, b)
  {
    var slope := limit as real / Seconds(window) + 0.0000005;
    assert Seconds(window) > 0.0;
    assert slope >= 0.0;
    hide Seconds;
    var x, y := a as real / 1000.0, b as real / 1000.0;
    assert x <= y;
    assert slope * x <= slope * y;
  }

  /** On each key, whatever happens on the others, the runs of the script admit no more in any span of time
      than the ceiling of that span. */
  lemma KeyBounded(asks: seq<Ask>, key: string, limit: int, window: int, i: nat, k: nat, from: int, span: nat)
    requires Limits(limit, window) && Sustains(ParamsOf(limit, window))
    requires SameParams(asks, key, ParamsOf(limit, window)) && Admissible(ParamsOf(limit, window), On(asks, key))
    requires i <= k <= |asks| && Within(asks, key, i, k, from, span)
    ensures Admitted(asks, key, i, k) as real <= Ceiling(limit, window, span)
  {
    hide Sustains, ParamsOf, Ceiling, Count, Admissible, Admitted, SameParams;
    var p, h := ParamsOf(limit, window), On(asks, key);
    var a, b := |On(asks[..i], key)|, |On(asks[..k], key)|;
    AdmittedIsCount(asks, key, p, i, k);
    if a < b {
      var m := CallsOfStretch(asks, key, i, k, a);
      var n := CallsOfStretch(asks, key, i, k, b - 1);
      assert h[a].now >= from && h[b - 1].now <= from + span;
      AdmissionsBounded(limit, window, h, a, b);
      CeilingGrows(limit, window, h[b - 1].now - h[a].now, span);
    } else {
      CeilingPositive(limit, window, span);
      CountNothing(p, h, a, b);
    }
  }

  lemma CountNothing(p: Params, h: seq<Call>, a: nat, b: nat)
    requires b <= a && b <= |h|
    ensures Count(p, h, a, b) == 0
  {}

  lemma CeilingPositive(limit: int, window: int, span: nat)
    requires limit > 0 && window > 0
    ensures Ceiling(limit, window, span) >= 0.0
  {
    CeilingGrows(limit, window, 0, span);
    assert Ceiling(limit, window, 0) == limit as real;
  }

  // ----- What the limiter answers -----

  /** On the keys of a run, a call that the breaker lets through and Redis answers is allowed exactly if its key's own
      history grants it. */
  lemma AllowedExactlyIfGranted(asks: seq<Ask>, limit: int, window: int, i: nat, guarded: bool)
    requires Limits(limit, window) && i < |asks| && asks[i].ran
    requires SameParams(asks, asks[i].key, ParamsOf(limit, window))
    ensures |On(asks[..i], asks[i].key)| < |On(asks, asks[i].key)|
    ensures var key := asks[i].key;
      Answer(Keys(asks[..i]), key, limit, window, asks[i].call, guarded, false, Breaker.Answered)
        == Ok(Granted(ParamsOf(limit, window), On(asks, key), |On(asks[..i], key)|))
  {
    hide Keys, On, ScriptOn, ParamsOf, Granted, SameParams;
    AdmitsIsGranted(asks, asks[i].key, ParamsOf(limit, window), i);
    ParamsHere(asks, asks[i].key, ParamsOf(limit, window), i);
  }

  lemma ParamsHere(asks: seq<Ask>, key: string, p: Params, i: nat)
    requires SameParams(asks, key, p) && i < |asks| && Concerns(asks[i], key)
    ensures asks[i].params == p
  {}

  /** On a key that has not expired the limiter refuses exactly when one more admission would overdraw the limit and the
      refill since some earlier call on the key; the first call on a key is allowed. */
  lemma RefusesExactlyWhenOverdrawn(asks: seq<Ask>, limit: int, window: int, i: nat, guarded: bool)
    requires Limits(limit, window) && i < |asks| && asks[i].ran
    requires SameParams(asks, asks[i].key, ParamsOf(limit, window))
    requires var h := On(asks[..i + 1], asks[i].key); Alive(h) && InOrder(h)
    ensures
      var p, h, now := ParamsOf(limit, window), On(asks[..i], asks[i].key), asks[i].call.now;
      var r := Answer(Keys(asks[..i]), asks[i].key, limit, window, asks[i].call, guarded, false, Breaker.Answered);
      && (r == Ok(false) <==> exists j | 0 <= j < |h| ::
            Count(p, h, j, |h|) as real + 1.0 > limit as real + Gain(p, h[j].now, now))
      && (r == Ok(true) || r == Ok(false))
      && (h == [] ==> r == Ok(true))
  {
    var p, key := ParamsOf(limit, window), asks[i].key;
    var h, c := On(asks[..i], key), asks[i].call;
    ParamsSound(limit, window);
    assert p.capacity == limit;
    hide Keys, On, ScriptOn, ParamsOf, SameParams, Script, Answer;
    AllowedExactlyIfGranted(asks, limit, window, i, guarded);
    AdmitsIsGranted(asks, key, p, i);
    assert On(asks[..i + 1], key) == h + [c];
    assert (h + [c])[|h|] == c && c == Call(c.now, false);
    GrantedEarly(p, On(asks, key), |h|);
    assert On(asks, key)[..|h| + 1] == h + [c];
    assert Alive(h) by { assert forall j | 0 <= j < |h| :: (h + [c])[j] == h[j]; }
    RefusedExactlyWhenOverdrawn(p, h, c.now);
  }
}
