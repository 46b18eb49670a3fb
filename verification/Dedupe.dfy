/** The deduplication claim: set a key if it is absent, behind the breaker, failing open. */
module Dedupe {
  import opened Basics
  import opened Domain
  import opened Submit
  import Breaker

  /** When each claim lapses; none for a claim without a time to live. */
  type Claims = map<string, Option<int>>

  predicate Held(claims: Claims, key: string, now: int)
  {
    key in claims && (claims[key].None? || now < claims[key].value)
  }

  /** The command's effect. */
  function Set(claims: Claims, key: string, ttl: nat, now: int): Claims
  {
    if Held(claims, key, now) then claims
    else claims[key := if ttl == 0 then None else Some(now + ttl)]
  }

  class Deduper {
    var claims: Claims
    const cb: Breaker.CircuitBreaker?

    constructor (claims: Claims, cb: Breaker.CircuitBreaker?)
      ensures this.claims == claims && this.cb == cb
    {
      this.claims, this.cb := claims, cb;
    }

    predicate Refuses(asked: int)
      reads cb
    {
      cb != null && !Breaker.Grants(cb.View(), cb.openTimeout, asked)
    }

    /** Only a reply that finds the claim taken refuses; an outage grants. */
    method Claim(eventId: string, ttl: nat, now: int, reply: Breaker.Reply, asked: int, done: int)
      returns (r: Result<bool>)
      modifies this`claims, cb
      ensures claims == if old(Refuses(asked)) || (reply.Failed? && !reply.executed) then old(claims)
                        else Set(old(claims), CLAIM_PREFIX + eventId, ttl, now)
      ensures r == if old(Refuses(asked)) then Ok(true)
                   else if reply.Answered? then Ok(!Held(old(claims), CLAIM_PREFIX + eventId, now))
                   else if cb != null && reply.infrastructure then Ok(true)
                   else Err(Infrastructure)
      ensures cb != null ==>
        cb.View() == Breaker.Told(
          old(cb.View()), cb.threshold, cb.openTimeout,
          [Breaker.Allow(asked)] + if old(Refuses(asked)) then [] else Breaker.Reports(reply, done))
    {
      hide Breaker.Apply;
      if cb != null {
        Breaker.ToldTwo(cb.View(), cb.threshold, cb.openTimeout, Breaker.Allow(asked),
                        if Refuses(asked) then [] else Breaker.Reports(reply, done));
        var allowed := cb.Allow(asked);
        if !allowed {
          return Ok(true);
        }
      }
      var ok := false;
      var key := CLAIM_PREFIX + eventId;
      if Breaker.Executes(reply) {
        ok := !Held(claims, key, now);
        if ok {
          claims := claims[key := if ttl == 0 then None else Some(now + ttl)];
        }
      }
      if reply.Failed? {
        if cb != null && reply.infrastructure {
          cb.RecordFailure(done);
          return Ok(true);
        }
        return Err(Infrastructure);
      }
      if cb != null {
        cb.RecordSuccess();
      }
      return Ok(ok);
    }
  }

  // ----- Runs of claims -----

  /** A command that Redis ran. */
  datatype Try = Try(key: string, now: int)

  function ClaimsAfter(tries: seq<Try>, ttl: nat): Claims
  {
    if tries == [] then map[]
    else
      var last := tries[|tries| - 1];
      Set(ClaimsAfter(tries[..|tries| - 1], ttl), last.key, ttl, last.now)
  }

  /** Does the i-th command take the claim? */
  predicate Takes(tries: seq<Try>, ttl: nat, i: nat)
    requires i < |tries|
  {
    !Held(ClaimsAfter(tries[..i], ttl), tries[i].key, tries[i].now)
  }

  predicate InOrder(tries: seq<Try>)
  {
    forall i, j | 0 <= i < j < |tries| :: tries[i].now <= tries[j].now
  }

  /** Was the claim taken among the first n commands and is still held? */
  predicate TakenSince(tries: seq<Try>, ttl: nat, n: nat, key: string, now: int)
    requires n <= |tries|
  {
    exists i :: 0 <= i < n && tries[i].key == key && Takes(tries, ttl, i) && now < tries[i].now + ttl
  }

  /** A claim is refused exactly while one that took it is younger than the time to live. */
  lemma {:induction false} HeldIsTaken(tries: seq<Try>, ttl: nat, n: nat, key: string, now: int)
    requires ttl > 0 && n <= |tries| && InOrder(tries) && (n > 0 ==> tries[n - 1].now <= now)
    ensures Held(ClaimsAfter(tries[..n], ttl), key, now) <==> TakenSince(tries, ttl, n, key, now)
    decreases n
  {
    if n > 0 {
      HeldIsTaken(tries, ttl, n - 1, key, now);
      HeldStep(tries, ttl, n, key, now);
      TakenStep(tries, ttl, n, key, now);
    }
  }

  /** Without a time to live a claim is held by the first command that took it, for ever. */
  lemma {:induction false} HeldForever(tries: seq<Try>, n: nat, key: string, now: int)
    requires n <= |tries|
    ensures var claims := ClaimsAfter(tries[..n], 0);
      && (Held(claims, key, now) <==> exists i :: 0 <= i < n && tries[i].key == key)
      && (key in claims ==> claims[key].None?)
    decreases n
  {
    if n > 0 {
      HeldForever(tries, n - 1, key, now);
      assert tries[..n][..n - 1] == tries[..n - 1] && tries[..n][n - 1] == tries[n - 1];
    }
  }

  predicate LastTakes(tries: seq<Try>, ttl: nat, n: nat, key: string)
    requires 0 < n <= |tries|
  {
    tries[n - 1].key == key && Takes(tries, ttl, n - 1)
  }

  lemma HeldStep(tries: seq<Try>, ttl: nat, n: nat, key: string, now: int)
    requires ttl > 0 && 0 < n <= |tries| && tries[n - 1].now <= now
    ensures Held(ClaimsAfter(tries[..n], ttl), key, now)
      <==> if LastTakes(tries, ttl, n, key) then now < tries[n - 1].now + ttl
           else Held(ClaimsAfter(tries[..n - 1], ttl), key, now)
  {
    assert tries[..n][..n - 1] == tries[..n - 1] && tries[..n][n - 1] == tries[n - 1];
  }

  lemma TakenStep(tries: seq<Try>, ttl: nat, n: nat, key: string, now: int)
    requires ttl > 0 && 0 < n <= |tries| && InOrder(tries) && tries[n - 1].now <= now
    requires Held(ClaimsAfter(tries[..n - 1], ttl), key, now) <==> TakenSince(tries, ttl, n - 1, key, now)
    ensures TakenSince(tries, ttl, n, key, now)
      <==> if LastTakes(tries, ttl, n, key) then now < tries[n - 1].now + ttl
           else TakenSince(tries, ttl, n - 1, key, now)
  {
    if LastTakes(tries, ttl, n, key) {
      LastFinds(tries, ttl, n, key, now);
    }
    hide Takes, Held, ClaimsAfter;
    if i :| 0 <= i < n - 1 && tries[i].key == key && Takes(tries, ttl, i) && now < tries[i].now + ttl {
      assert TakenSince(tries, ttl, n, key, now);
    }
  }

  /** A command that takes the claim found none held, nor is an older one held later. */
  lemma LastFinds(tries: seq<Try>, ttl: nat, n: nat, key: string, now: int)
    requires 0 < n <= |tries| && tries[n - 1].now <= now && LastTakes(tries, ttl, n, key)
    ensures !Held(ClaimsAfter(tries[..n - 1], ttl), key, now)
  {
    hide ClaimsAfter;
  }

  /** Two commands that take the same claim are at least the time to live apart. */
  lemma TakesAreSpaced(tries: seq<Try>, ttl: nat, i: nat, j: nat)
    requires ttl > 0 && InOrder(tries) && i < j < |tries| && tries[i].key == tries[j].key
    requires Takes(tries, ttl, i) && Takes(tries, ttl, j)
    ensures tries[j].now - tries[i].now >= ttl
  {
    HeldIsTaken(tries, ttl, j, tries[j].key, tries[j].now);
  }
}
