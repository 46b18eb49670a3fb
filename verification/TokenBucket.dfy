/** The rate limiter's token bucket: the script over the reals, on a clock of whole milliseconds.
    A bucket's key may be gone once it has idled for its time to live. */
module TokenBucket {
  import opened Basics

  datatype Bucket = Bucket(tokens: real, ts: int)

  /** The script's arguments: capacity in tokens, rate in tokens per second, time to live in milliseconds. */
  datatype Params = Params(capacity: int, rate: real, ttl: int)

  /** dropped: the key has expired before this call. */
  datatype Call = Call(now: int, dropped: bool)

  predicate Sound(p: Params)
  {
    p.capacity >= 1 && p.rate >= 0.0
  }

  // ----- The script -----

  /** What the rate yields between two times; nothing when the clock goes back. */
  function Gain(p: Params, from: int, to: int): real
  {
    (if to > from then (to - from) as real / 1000.0 else 0.0) * p.rate
  }

  /** The tokens a call finds. */
  function Refill(p: Params, b: Option<Bucket>, now: int): real
  {
    match b
    case None => p.capacity as real
    case Some(bucket) =>
      var tokens := bucket.tokens + Gain(p, bucket.ts, now);
      if tokens <= p.capacity as real then tokens else p.capacity as real
  }

  /** One run of the script: the bucket it leaves and whether it admits the call. */
  function Script(p: Params, b: Option<Bucket>, now: int): (Bucket, bool)
  {
    var tokens := Refill(p, b, now);
    if tokens >= 1.0 then (Bucket(tokens - 1.0, now), true) else (Bucket(tokens, now), false)
  }

  // ----- Histories -----

  function Live(b: Option<Bucket>, c: Call): Option<Bucket>
  {
    if c.dropped then None else b
  }

  /** The bucket after a history of calls. */
  function After(p: Params, h: seq<Call>): Option<Bucket>
  {
    if h == [] then None
    else
      var c := h[|h| - 1];
      Some(Script(p, Live(After(p, h[..|h| - 1]), c), c.now).0)
  }

  /** Does the history's i-th call get its token? */
  predicate Granted(p: Params, h: seq<Call>, i: nat)
    requires i < |h|
  {
    Script(p, Live(After(p, h[..i]), h[i]), h[i].now).1
  }

  /** The calls admitted among the i-th to the one before the k-th. */
  function Count(p: Params, h: seq<Call>, i: nat, k: nat): (n: nat)
    requires k <= |h|
    ensures n <= if i < k then k - i else 0
    decreases k
  {
    if k <= i then 0 else Count(p, h, i, k - 1) + if Granted(p, h, k - 1) then 1 else 0
  }

  predicate InOrder(h: seq<Call>)
  {
    forall i, j | 0 <= i < j < |h| :: h[i].now <= h[j].now
  }

  /** A key is still there before its time to live is over, and is gone after it; at the very
      millisecond it may be either. */
  predicate Admissible(p: Params, h: seq<Call>)
  {
    && InOrder(h)
    && forall i | 0 < i < |h| ::
         && (h[i].dropped ==> h[i].now - h[i - 1].now >= p.ttl)
         && (h[i].now - h[i - 1].now > p.ttl ==> h[i].dropped)
  }

  /** The same calls on a key that never expires. */
  function Kept(h: seq<Call>): (k: seq<Call>)
    ensures |k| == |h| && forall i | 0 <= i < |h| :: k[i] == Call(h[i].now, false)
  {
    seq(|h|, i requires 0 <= i < |h| => Call(h[i].now, false))
  }

  predicate Alive(h: seq<Call>)
  {
    forall i | 0 <= i < |h| :: !h[i].dropped
  }

  // ----- Small facts -----

  lemma GainAdds(p: Params, from: int, mid: int, to: int)
    requires from <= mid <= to
    ensures Gain(p, from, to) == Gain(p, from, mid) + Gain(p, mid, to)
  {
    var a, b := (mid - from) as real / 1000.0, (to - mid) as real / 1000.0;
    assert (to - from) as real / 1000.0 == a + b;
    assert (a + b) * p.rate == a * p.rate + b * p.rate;
  }

  lemma GainGrows(p: Params, from: int, a: int, b: int)
    requires p.rate >= 0.0 && a <= b
    ensures 0.0 <= Gain(p, from, a) <= Gain(p, from, b)
  {
    var x := if a > from then (a - from) as real / 1000.0 else 0.0;
    var y := if b > from then (b - from) as real / 1000.0 else 0.0;
    assert 0.0 <= x <= y;
    assert 0.0 * p.rate <= x * p.rate <= y * p.rate;
  }

  lemma {:induction false} CountPrefix(p: Params, h: seq<Call>, more: seq<Call>, i: nat, k: nat)
    requires k <= |h|
    ensures Count(p, h + more, i, k) == Count(p, h, i, k)
    decreases k
  {
    if k > i {
      CountPrefix(p, h, more, i, k - 1);
      assert (h + more)[..k - 1] == h[..k - 1];
    }
  }

  lemma GainNow(p: Params, now: int)
    ensures Gain(p, now, now) == 0.0
  {}

  lemma RefillRange(p: Params, b: Option<Bucket>, now: int)
    requires Sound(p) && (b.Some? ==> b.value.tokens >= 0.0)
    ensures 0.0 <= Refill(p, b, now) <= p.capacity as real
  {
    if b.Some? {
      GainGrows(p, b.value.ts, now, now);
    }
  }

  /** The bucket remembers the time of its last call and never holds less than nothing. */
  lemma {:induction false} AfterShape(p: Params, h: seq<Call>)
    requires Sound(p)
    ensures h == [] ==> After(p, h) == None
    ensures h != [] ==> After(p, h).Some? && After(p, h).value.ts == h[|h| - 1].now
    ensures After(p, h).Some? ==> 0.0 <= After(p, h).value.tokens
    decreases |h|
  {
    if h != [] {
      var c := h[|h| - 1];
      AfterShape(p, h[..|h| - 1]);
      RefillRange(p, Live(After(p, h[..|h| - 1]), c), c.now);
    }
  }

  // ----- The closed form -----

  /** What is left of capacity and gain since the j-th call, less what was admitted from then on; for the
      call itself, the capacity. */
  function Bound(p: Params, h: seq<Call>, now: int, j: nat): real
    requires j <= |h|
  {
    if j == |h| then p.capacity as real
    else p.capacity as real + Gain(p, h[j].now, now) - Count(p, h, j, |h|) as real
  }

  lemma BoundStep(p: Params, h: seq<Call>, c: Call, now: int, j: nat)
    requires j <= |h| && InOrder(h + [c]) && c.now <= now
    ensures Bound(p, h + [c], now, j)
      == Bound(p, h, c.now, j) + Gain(p, c.now, now) - (if Granted(p, h + [c], |h|) then 1.0 else 0.0)
  {
    var h' := h + [c];
    CountPrefix(p, h, [c], j, |h|);
    assert Count(p, h', j, |h| + 1) == Count(p, h', j, |h|) + if Granted(p, h', |h|) then 1 else 0;
    if j < |h| {
      assert h'[j] == h[j] && h'[|h|] == c;
      GainAdds(p, h[j].now, c.now, now);
    }
  }

  lemma InOrderPrefix(h: seq<Call>, next: Call)
    requires h != [] && InOrder(h + [next])
    ensures InOrder(h) && h[|h| - 1].now <= next.now
    ensures InOrder(h[..|h| - 1] + [Call(h[|h| - 1].now, false)])
  {
    var all := h + [next];
    assert all[|h|] == next && forall i | 0 <= i < |h| :: all[i] == h[i];
    var before := h[..|h| - 1] + [Call(h[|h| - 1].now, false)];
    assert forall i | 0 <= i < |before| :: before[i].now == h[i].now;
  }

  /** On a live key the tokens found are the least of all the bounds. */
  lemma {:induction false} ClosedForm(p: Params, h: seq<Call>, now: int) returns (least: nat)
    requires Sound(p) && Alive(h) && InOrder(h + [Call(now, false)])
    ensures forall j | 0 <= j <= |h| :: Refill(p, After(p, h), now) <= Bound(p, h, now, j)
    ensures least <= |h| && Refill(p, After(p, h), now) == Bound(p, h, now, least)
    decreases |h|
  {
    if h == [] {
      least := 0;
    } else {
      var before, c := h[..|h| - 1], h[|h| - 1];
      assert h == before + [c];
      InOrderPrefix(h, Call(now, false));
      var l := ClosedForm(p, before, c.now);
      var found := Refill(p, After(p, before), c.now);
      var g := if Granted(p, h, |before|) then 1.0 else 0.0;
      assert After(p, h) == Some(Bucket(found - g, c.now)) by {
        assert h[..|before|] == before;
      }
      forall j | 0 <= j <= |before|
        ensures Bound(p, h, now, j) == Bound(p, before, c.now, j) + Gain(p, c.now, now) - g
      {
        BoundStep(p, before, c, now, j);
      }
      least := if found - g + Gain(p, c.now, now) <= p.capacity as real then l else |h|;
    }
  }

  /** A call is refused exactly when admitting it would break the bound of some earlier call's interval,
      or the capacity itself. */
  lemma RefusedExactlyWhenOverdrawn(p: Params, h: seq<Call>, now: int)
    requires Sound(p) && Alive(h) && InOrder(h + [Call(now, false)])
    ensures !Granted(p, h + [Call(now, false)], |h|)
      <==> exists j | 0 <= j < |h| :: Count(p, h, j, |h|) as real + 1.0 > p.capacity as real + Gain(p, h[j].now, now)
  {
    var least := ClosedForm(p, h, now);
    assert (h + [Call(now, false)])[..|h|] == h;
    var tokens := Refill(p, After(p, h), now);
    assert Granted(p, h + [Call(now, false)], |h|) <==> tokens >= 1.0;
    if tokens < 1.0 {
      assert Count(p, h, least, |h|) as real + 1.0 > p.capacity as real + Gain(p, h[least].now, now);
    } else {
      forall j | 0 <= j < |h|
        ensures Count(p, h, j, |h|) as real + 1.0 <= p.capacity as real + Gain(p, h[j].now, now)
      {
        assert tokens <= Bound(p, h, now, j);
      }
    }
  }

  // ----- The bound on any interval -----

  /** The bound as the last call of an interval is admitted. */
  lemma AdmittedFits(p: Params, h: seq<Call>, i: nat, k: nat)
    requires Sound(p) && Alive(h) && InOrder(h) && i < k <= |h| && Granted(p, h, k - 1)
    ensures Count(p, h, i, k) as real <= p.capacity as real + Gain(p, h[i].now, h[k - 1].now)
  {
    var before, now := h[..k - 1], h[k - 1].now;
    assert h == before + h[k - 1..];
    CountPrefix(p, before, h[k - 1..], i, k - 1);
    assert InOrder(before + [Call(now, false)]) by {
      assert forall m | 0 <= m < |before| :: before[m].now == h[m].now;
    }
    GainNow(p, now);
    var _ := ClosedForm(p, before, now);
    hide Gain, After, Sound;
    assert Refill(p, After(p, before), now) >= 1.0;
    hide Refill;
    if i < k - 1 {
      assert Refill(p, After(p, before), now) <= Bound(p, before, now, i);
      assert before[i] == h[i];
    } else {
      assert Refill(p, After(p, before), now) <= Bound(p, before, now, k - 1);
    }
  }

  lemma {:induction false} IntervalBoundAlive(p: Params, h: seq<Call>, i: nat, k: nat)
    requires Sound(p) && Alive(h) && InOrder(h) && i < k <= |h|
    ensures Count(p, h, i, k) as real <= p.capacity as real + Gain(p, h[i].now, h[k - 1].now)
    decreases k
  {
    GainGrows(p, h[i].now, h[i].now, h[k - 1].now);
    hide Granted, Gain;
    if Granted(p, h, k - 1) {
      AdmittedFits(p, h, i, k);
    } else if i < k - 1 {
      IntervalBoundAlive(p, h, i, k - 1);
      GainGrows(p, h[i].now, h[k - 2].now, h[k - 1].now);
    }
  }

  // ----- Expiry -----

  /** The time to live is long enough to fill an empty bucket. */
  predicate Sustains(p: Params)
  {
    p.ttl >= 0 && Gain(p, 0, p.ttl) >= p.capacity as real
  }

  ghost predicate ExpiryInvisible(p: Params)
  {
    forall h: seq<Call>, i | Admissible(p, h) && 0 <= i < |h| :: Granted(p, h, i) == Granted(p, Kept(h), i)
  }

  ghost predicate IntervalsBounded(p: Params)
  {
    forall h: seq<Call>, i, k | Admissible(p, h) && 0 <= i < k <= |h| ::
      Count(p, h, i, k) as real <= p.capacity as real + Gain(p, h[i].now, h[k - 1].now)
  }

  /** A call on an expired key finds what the idle time would have refilled anyway. */
  lemma ExpiredFindsFull(p: Params, bucket: Bucket, now: int)
    requires Sound(p) && Sustains(p) && bucket.tokens >= 0.0 && now - bucket.ts >= p.ttl
    ensures Refill(p, Some(bucket), now) == Refill(p, None, now)
  {
    GainGrows(p, 0, p.ttl, now - bucket.ts);
    assert Gain(p, bucket.ts, now) == Gain(p, 0, now - bucket.ts);
  }

  lemma SameStep(p: Params, h: seq<Call>)
    requires Sound(p) && Sustains(p) && Admissible(p, h) && h != []
    requires After(p, h[..|h| - 1]) == After(p, Kept(h[..|h| - 1]))
    ensures After(p, h) == After(p, Kept(h))
    ensures Granted(p, h, |h| - 1) == Granted(p, Kept(h), |h| - 1)
  {
    var before, c := h[..|h| - 1], h[|h| - 1];
    assert Kept(h)[..|h| - 1] == Kept(before);
    AfterShape(p, before);
    if c.dropped && before != [] {
      assert before[|before| - 1] == h[|h| - 2];
      ExpiredFindsFull(p, After(p, before).value, c.now);
    }
    hide After, Refill, Gain;
    assert Refill(p, Live(After(p, before), c), c.now) == Refill(p, After(p, before), c.now);
    AfterUnfolds(p, h);
    AfterUnfolds(p, Kept(h));
  }

  lemma AfterUnfolds(p: Params, h: seq<Call>)
    requires h != []
    ensures After(p, h) == Some(Script(p, Live(After(p, h[..|h| - 1]), h[|h| - 1]), h[|h| - 1].now).0)
  {}

  lemma AdmissiblePrefix(p: Params, h: seq<Call>)
    requires h != [] && Admissible(p, h)
    ensures Admissible(p, h[..|h| - 1])
  {
    assert forall i | 0 <= i < |h| - 1 :: h[..|h| - 1][i] == h[i];
  }

  lemma GrantedEarly(p: Params, h: seq<Call>, i: nat)
    requires i < |h|
    ensures Granted(p, h, i) == Granted(p, h[..i + 1], i)
  {
    hide After, Script;
    assert h[..i + 1][..i] == h[..i];
  }

  lemma {:induction false} AdmissibleStart(p: Params, h: seq<Call>, n: nat)
    requires Admissible(p, h) && n <= |h|
    ensures Admissible(p, h[..n])
    decreases |h|
  {
    if n == |h| {
      assert h[..n] == h;
    } else {
      AdmissiblePrefix(p, h);
      hide Admissible;
      AdmissibleStart(p, h[..|h| - 1], n);
      assert h[..|h| - 1][..n] == h[..n];
    }
  }

  lemma {:induction false} SameAfter(p: Params, h: seq<Call>)
    requires Sound(p) && Sustains(p) && Admissible(p, h)
    ensures After(p, h) == After(p, Kept(h))
    decreases |h|
  {
    if h != [] {
      AdmissiblePrefix(p, h);
      hide After, Script, Sustains, Sound, Admissible, Granted;
      SameAfter(p, h[..|h| - 1]);
      SameStep(p, h);
    }
  }

  lemma SameGrant(p: Params, h: seq<Call>, i: nat)
    requires Sound(p) && Sustains(p) && Admissible(p, h) && i < |h|
    ensures Granted(p, h, i) == Granted(p, Kept(h), i)
  {
    hide After, Script, Sustains, Sound, Admissible, Granted;
    var g := h[..i + 1];
    assert g[..|g| - 1] == h[..i] && Kept(h)[..i + 1] == Kept(g);
    AdmissibleStart(p, h, i);
    AdmissibleStart(p, h, i + 1);
    SameAfter(p, h[..i]);
    SameStep(p, g);
    GrantedEarly(p, h, i);
    GrantedEarly(p, Kept(h), i);
  }

  lemma SameBucket(p: Params, h: seq<Call>)
    requires Sound(p) && Sustains(p) && Admissible(p, h)
    ensures After(p, h) == After(p, Kept(h))
    ensures forall i | 0 <= i < |h| :: Granted(p, h, i) == Granted(p, Kept(h), i)
  {
    hide After, Sustains, Sound, Admissible, Granted;
    SameAfter(p, h);
    forall i | 0 <= i < |h| ensures Granted(p, h, i) == Granted(p, Kept(h), i) {
      SameGrant(p, h, i);
    }
  }

  /** A burst, an idle time as long as the key lives, and a second burst. */
  function TwoBursts(p: Params): (h: seq<Call>)
    requires Sound(p)
    ensures |h| == 2 * p.capacity
  {
    seq(2 * p.capacity, i =>
      Call(if i < p.capacity || p.ttl < 0 then 0 else p.ttl, i == p.capacity || p.ttl < 0))
  }

  function BurstBucket(p: Params, k: nat): Bucket
  {
    if k <= p.capacity then Bucket((p.capacity - k) as real, 0) else Bucket((2 * p.capacity - k) as real, p.ttl)
  }

  lemma TwoBurstsAdmissible(p: Params)
    requires Sound(p)
    ensures Admissible(p, TwoBursts(p))
  {}

  lemma BurstStep(p: Params, k: nat)
    requires Sound(p) && 0 < k <= 2 * p.capacity
    requires p.ttl >= 0 && k > 1 ==> After(p, TwoBursts(p)[..k - 1]) == Some(BurstBucket(p, k - 1))
    ensures Granted(p, TwoBursts(p), k - 1)
    ensures p.ttl >= 0 ==> After(p, TwoBursts(p)[..k]) == Some(BurstBucket(p, k))
  {
    hide Gain;
    var h := TwoBursts(p);
    GainNow(p, h[k - 1].now);
    AfterUnfolds(p, h[..k]);
    assert h[..k][..k - 1] == h[..k - 1] && h[..k][k - 1] == h[k - 1];
    if k == 1 {
      assert h[..k - 1] == [];
    }
  }

  lemma {:induction false} BurstsPass(p: Params, k: nat)
    requires Sound(p) && k <= 2 * p.capacity
    ensures Count(p, TwoBursts(p), 0, k) == k
    ensures p.ttl >= 0 && k > 0 ==> After(p, TwoBursts(p)[..k]) == Some(BurstBucket(p, k))
    decreases k
  {
    if k > 0 {
      hide Granted, After, BurstBucket;
      BurstsPass(p, k - 1);
      BurstStep(p, k);
    }
  }

  /** If the time to live cannot fill an empty bucket, the two bursts pass in full. */
  lemma ExpiryShows(p: Params)
    requires Sound(p) && !Sustains(p)
    ensures !ExpiryInvisible(p)
    ensures !IntervalsBounded(p)
  {
    var h := TwoBursts(p);
    var n := 2 * p.capacity;
    TwoBurstsAdmissible(p);
    BurstsPass(p, n);
    var k := Kept(h);
    IntervalBoundAlive(p, k, 0, n);
    assert Gain(p, h[0].now, h[n - 1].now) < p.capacity as real;
    assert Count(p, k, 0, n) < n;
    if ExpiryInvisible(p) {
      SameCount(p, h, k, n);
      assert false;
    }
    assert Count(p, h, 0, n) as real > p.capacity as real + Gain(p, h[0].now, h[n - 1].now);
  }

  lemma {:induction false} SameCount(p: Params, h: seq<Call>, k: seq<Call>, n: nat)
    requires |h| == |k| && n <= |h| && forall i | 0 <= i < |h| :: Granted(p, h, i) == Granted(p, k, i)
    ensures forall i | 0 <= i <= n :: Count(p, h, i, n) == Count(p, k, i, n)
    decreases n
  {
    if n > 0 {
      SameCount(p, h, k, n - 1);
      assert Granted(p, h, n - 1) == Granted(p, k, n - 1);
    }
  }

  /** A bucket whose key expires admits what one that never expires admits, over all histories, if and
      only if the time to live fills an empty bucket. The same condition decides whether the admissions
      of every interval stay within capacity plus gain. */
  lemma ExpiryTheorem(p: Params)
    requires Sound(p)
    ensures ExpiryInvisible(p) <==> Sustains(p)
    ensures IntervalsBounded(p) <==> Sustains(p)
  {
    if Sustains(p) {
      forall h: seq<Call>, i | Admissible(p, h) && 0 <= i < |h| ensures Granted(p, h, i) == Granted(p, Kept(h), i) {
        SameBucket(p, h);
      }
      forall h: seq<Call>, i, k | Admissible(p, h) && 0 <= i < k <= |h|
        ensures Count(p, h, i, k) as real <= p.capacity as real + Gain(p, h[i].now, h[k - 1].now)
      {
        SameBucket(p, h);
        SameCount(p, h, Kept(h), k);
        IntervalBoundAlive(p, Kept(h), i, k);
      }
    } else {
      ExpiryShows(p);
    }
  }

  // ----- The arguments the limiter computes -----

  /** Rounding to six decimals, as the rate is printed. */
  function Round6(x: real): real
  {
    (x * 1000000.0 + 0.5).Floor as real / 1000000.0
  }

  function ToInt64(x: int): int
  {
    (x + 0x8000_0000_0000_0000) % 0x1_0000_0000_0000_0000 - 0x8000_0000_0000_0000
  }

  /** Whole milliseconds of a duration in nanoseconds, rounding towards zero. */
  function Milliseconds(d: int): int
  {
    if d >= 0 then d / 1000000 else -(-d / 1000000)
  }

  function Seconds(window: int): real
  {
    window as real / 1000000000.0
  }

  /** The script's arguments for a limit per window of so many nanoseconds. */
  function ParamsOf(limit: int, window: int): Params
    requires limit > 0 && window > 0
  {
    Params(limit, Round6(limit as real / Seconds(window)), Milliseconds(ToInt64(2 * window)))
  }

  lemma RoundNear(x: real)
    ensures -0.0000005 <= Round6(x) - x <= 0.0000005
    ensures x >= 0.0 ==> Round6(x) >= 0.0
  {
    var y := x * 1000000.0 + 0.5;
    assert y.Floor as real <= y < y.Floor as real + 1.0;
    if x >= 0.0 {
      assert y.Floor >= 0;
    }
  }

  lemma ParamsSound(limit: int, window: int)
    requires limit > 0 && window > 0
    ensures Sound(ParamsOf(limit, window))
  {
    assert limit as real / Seconds(window) >= 0.0;
    RoundNear(limit as real / Seconds(window));
  }

  /** A window of whole milliseconds, less than 2^62 nanoseconds, and at least one token per million
      seconds: twice the window fills the bucket in spite of the rounding. */
  lemma WindowSustains(limit: int, window: int)
    requires limit > 0 && 0 < window < 0x4000_0000_0000_0000 && window % 1000000 == 0
    requires limit as real / Seconds(window) >= 0.000001
    ensures Sustains(ParamsOf(limit, window))
  {
    var p, s := ParamsOf(limit, window), Seconds(window);
    RoundNear(limit as real / s);
    TwiceTheWindow(window);
    Filled(limit, s, p.rate);
    hide Round6, Seconds, Milliseconds, ToInt64;
    assert Gain(p, 0, p.ttl) == p.ttl as real / 1000.0 * p.rate;
  }

  lemma TwiceTheWindow(window: int)
    requires 0 < window < 0x4000_0000_0000_0000 && window % 1000000 == 0
    ensures var ttl := Milliseconds(ToInt64(2 * window));
      ttl > 0 && ttl as real / 1000.0 == 2.0 * Seconds(window) && Seconds(window) > 0.0
  {
    var ms := window / 1000000;
    assert window == ms * 1000000;
    assert Milliseconds(ToInt64(2 * window)) == 2 * ms;
    assert Seconds(window) == ms as real / 1000.0;
  }

  /** Twice the time at a rate at most half too low. */
  lemma Filled(limit: int, s: real, rate: real)
    requires s > 0.0 && limit as real / s >= 0.000001 && rate >= limit as real / s - 0.0000005
    ensures 2.0 * s * rate >= limit as real
  {
    var x := limit as real / s;
    assert x * s == limit as real;
    Doubled(s, rate, x);
  }

  lemma Doubled(s: real, rate: real, x: real)
    requires s > 0.0 && 2.0 * rate >= x
    ensures 2.0 * s * rate >= x * s
  {
    assert 2.0 * s * rate == (2.0 * rate) * s;
    assert (2.0 * rate) * s >= x * s;
  }

  /** Limit plus (limit/window and half a millionth) times the span, in milliseconds. */
  function Ceiling(limit: int, window: int, span: int): real
    requires window > 0
  {
    limit as real + (limit as real / Seconds(window) + 0.0000005) * (span as real / 1000.0)
  }

  lemma GainBounded(limit: int, window: int, from: int, to: int)
    requires limit > 0 && window > 0 && from <= to
    ensures limit as real + Gain(ParamsOf(limit, window), from, to) <= Ceiling(limit, window, to - from)
  {
    var d := (to - from) as real / 1000.0;
    var rate, x := ParamsOf(limit, window).rate, limit as real / Seconds(window);
    RoundNear(x);
    hide Round6, Seconds;
    assert Gain(ParamsOf(limit, window), from, to) == d * rate;
    assert d >= 0.0 && rate <= x + 0.0000005;
    assert d * rate <= d * (x + 0.0000005);
  }

  /** The documented bound over any span of time. */
  lemma AdmissionsBounded(limit: int, window: int, h: seq<Call>, i: nat, k: nat)
    requires limit > 0 && window > 0 && Sustains(ParamsOf(limit, window))
    requires Admissible(ParamsOf(limit, window), h) && i < k <= |h|
    ensures Count(ParamsOf(limit, window), h, i, k) as real <= Ceiling(limit, window, h[k - 1].now - h[i].now)
  {
    hide Sustains, Gain, Sound, Seconds, Round6, Ceiling, Count;
    var p := ParamsOf(limit, window);
    ParamsSound(limit, window);
    ExpiryTheorem(p);
    assert Count(p, h, i, k) as real <= p.capacity as real + Gain(p, h[i].now, h[k - 1].now);
    GainBounded(limit, window, h[i].now, h[k - 1].now);
  }

  /** One token in thirty days: the printed rate is zero, and only the loss of the key ever refills the bucket. */
  lemma SlowLimitReliesOnExpiry()
    ensures var window := 30 * 24 * 3600 * 1000000000;
      ParamsOf(1, window).rate == 0.0 && !ExpiryInvisible(ParamsOf(1, window))
  {
    var window := 30 * 24 * 3600 * 1000000000;
    var x := 1.0 / Seconds(window);
    assert Seconds(window) == 2592000.0;
    assert 0.0 < x * 1000000.0 < 0.5;
    assert (x * 1000000.0 + 0.5).Floor == 0;
    ParamsSound(1, window);
    ExpiryTheorem(ParamsOf(1, window));
  }

  /** The arguments are what the caller asked for: the limit, its rate per second up to the printing, and twice the
      window in whole milliseconds. */
  lemma ParamsMean(limit: int, window: int)
    requires limit > 0 && window > 0
    ensures var p := ParamsOf(limit, window);
      && p.capacity == limit
      && -0.0000005 <= p.rate - limit as real / (window as real / 1000000000.0) <= 0.0000005
      && (window < 0x4000_0000_0000_0000 ==> 0 <= 2 * window - p.ttl * 1000000 < 1000000)
  {
    RoundNear(limit as real / Seconds(window));
  }

  /** Of any number of calls at one moment on a key that is not there, exactly the first as many as the capacity are
      admitted. */
  lemma {:induction false} BurstIsCapacity(p: Params, now: int, n: nat, i: nat)
    requires Sound(p) && i < n
    ensures Granted(p, seq(n, _ => Call(now, false)), i) <==> i < p.capacity
  {
    var h := seq(n, _ => Call(now, false));
    BurstBuckets(p, now, n, i);
    GainNow(p, now);
    if i == 0 {
      assert h[..0] == [];
    }
  }

  lemma {:induction false} BurstBuckets(p: Params, now: int, n: nat, k: nat)
    requires Sound(p) && k <= n
    ensures var b := After(p, seq(n, _ => Call(now, false))[..k]);
      k > 0 ==> b == Some(Bucket(if k <= p.capacity then (p.capacity - k) as real else 0.0, now))
    decreases k
  {
    var h := seq(n, _ => Call(now, false));
    GainNow(p, now);
    if k > 0 {
      BurstBuckets(p, now, n, k - 1);
      assert h[..k][..k - 1] == h[..k - 1];
      if k == 1 {
        assert h[..0] == [];
      }
    }
  }
}
