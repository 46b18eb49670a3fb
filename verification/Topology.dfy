/** Queue names, the broker's routing by name, and where a retried message goes. */
module Topology {
  import opened Basics
  import opened Domain

  const EXCHANGE: string := "notifications"

  function RoutingKey(c: Channel): string { "notification." + c }
  function WorkQueue(c: Channel): string { "notifications." + c }
  function RetryQueue(c: Channel): string { "notifications." + c + ".retry" }
  function DeadQueue(c: Channel): string { "notifications." + c + ".dead" }

  datatype Queue = Work(channel: Channel) | Retry(channel: Channel) | Dead(channel: Channel)

  function Name(q: Queue): string
  {
    match q
    case Work(c) => WorkQueue(c)
    case Retry(c) => RetryQueue(c)
    case Dead(c) => DeadQueue(c)
  }

  /** The queues declared for a list of channels. */
  function Declared(channels: seq<Channel>): (qs: seq<Queue>)
    ensures forall q :: q in qs <==> q.channel in channels
  {
    if channels == [] then []
    else [Dead(channels[0]), Work(channels[0]), Retry(channels[0])] + Declared(channels[1..])
  }

  function FindByName(qs: seq<Queue>, name: string): Option<Queue>
  {
    if qs == [] then None else if Name(qs[0]) == name then Some(qs[0]) else FindByName(qs[1..], name)
  }

  function FindByBinding(channels: seq<Channel>, key: string): Option<Queue>
  {
    if channels == [] then None
    else if RoutingKey(channels[0]) == key then Some(Work(channels[0]))
    else FindByBinding(channels[1..], key)
  }

  /** The broker's routing: the default exchange delivers to the queue named by the key, the topic
      exchange to the work queue bound to it. None is a message nobody gets. */
  function Resolve(exchange: string, key: string): Option<Queue>
  {
    if exchange == "" then FindByName(Declared(ALL_CHANNELS), key)
    else if exchange == EXCHANGE then FindByBinding(ALL_CHANNELS, key)
    else None
  }

  /** The routing key with which a declared queue dead-letters. */
  function DeadLetterKey(q: Queue): string
    requires !q.Dead?
  {
    if q.Work? then RetryQueue(q.channel) else WorkQueue(q.channel)
  }

  lemma ChannelHasNoDot(c: Channel)
    requires ValidChannel(c)
    ensures '.' !in c
  {}

  lemma NameTail(c: Channel, d: Channel, suffix: string)
    requires '.' !in c && |suffix| > 0 && suffix[0] == '.'
    ensures "notifications." + c != "notifications." + d + suffix
  {
    assert ("notifications." + d + suffix)[14 + |d|] == '.';
  }

  lemma NameSuffix(c: Channel, d: Channel)
    ensures RetryQueue(c) != DeadQueue(d)
    ensures RetryQueue(c) == RetryQueue(d) ==> c == d
    ensures DeadQueue(c) == DeadQueue(d) ==> c == d
    ensures WorkQueue(c) == WorkQueue(d) ==> c == d
    ensures RoutingKey(c) == RoutingKey(d) ==> c == d
  {
    var r, e := RetryQueue(c), DeadQueue(d);
    assert r[|r| - 1] == 'y' && e[|e| - 1] == 'd';
    if RetryQueue(c) == RetryQueue(d) {
      assert c == RetryQueue(c)[14..|RetryQueue(c)| - 6] == RetryQueue(d)[14..|RetryQueue(d)| - 6] == d;
    }
    if DeadQueue(c) == DeadQueue(d) {
      assert c == DeadQueue(c)[14..|DeadQueue(c)| - 5] == DeadQueue(d)[14..|DeadQueue(d)| - 5] == d;
    }
    if WorkQueue(c) == WorkQueue(d) {
      assert c == WorkQueue(c)[14..] == WorkQueue(d)[14..] == d;
    }
    if RoutingKey(c) == RoutingKey(d) {
      assert c == RoutingKey(c)[13..] == RoutingKey(d)[13..] == d;
    }
  }

  /** Declared queues have pairwise distinct names. */
  lemma NamesDistinct(q: Queue, p: Queue)
    requires ValidChannel(q.channel) && ValidChannel(p.channel)
    ensures Name(q) == Name(p) <==> q == p
  {
    ChannelHasNoDot(q.channel);
    ChannelHasNoDot(p.channel);
    NameSuffix(q.channel, p.channel);
    NameSuffix(p.channel, q.channel);
    NameTail(q.channel, p.channel, ".retry");
    NameTail(q.channel, p.channel, ".dead");
    NameTail(p.channel, q.channel, ".retry");
    NameTail(p.channel, q.channel, ".dead");
  }

  lemma {:induction false} FindByNameFinds(qs: seq<Queue>, q: Queue)
    requires q in qs && forall p | p in qs :: ValidChannel(p.channel)
    ensures FindByName(qs, Name(q)) == Some(q)
  {
    NamesDistinct(q, qs[0]);
    if qs[0] != q {
      FindByNameFinds(qs[1..], q);
    }
  }

  lemma {:induction false} FindByBindingFinds(channels: seq<Channel>, c: Channel)
    requires c in channels
    ensures FindByBinding(channels, RoutingKey(c)) == Some(Work(c))
  {
    NameSuffix(c, channels[0]);
    if channels[0] != c {
      FindByBindingFinds(channels[1..], c);
    }
  }

  lemma ResolveName(q: Queue)
    requires ValidChannel(q.channel)
    ensures Resolve("", Name(q)) == Some(q)
  {
    FindByNameFinds(Declared(ALL_CHANNELS), q);
  }

  lemma ResolveBinding(c: Channel)
    requires ValidChannel(c)
    ensures Resolve(EXCHANGE, RoutingKey(c)) == Some(Work(c))
  {
    FindByBindingFinds(ALL_CHANNELS, c);
  }

  /** Every publish the system makes reaches the queue it means, and dead-lettering swaps the work
      queue and the retry queue of one channel. */
  lemma RoutesMeanTheirQueues(c: Channel)
    requires ValidChannel(c)
    ensures Resolve(EXCHANGE, RoutingKey(c)) == Some(Work(c))
    ensures Resolve("", RetryQueue(c)) == Some(Retry(c))
    ensures Resolve("", DeadQueue(c)) == Some(Dead(c))
    ensures Resolve("", DeadLetterKey(Retry(c))) == Some(Work(c))
    ensures Resolve("", DeadLetterKey(Work(c))) == Some(Retry(c))
  {
    hide Resolve;
    ResolveBinding(c);
    ResolveName(Work(c));
    ResolveName(Retry(c));
    ResolveName(Dead(c));
  }

  /** Milliseconds a retried message waits, by the attempt that failed. */
  const BACKOFF_SCHEDULE: seq<int> := [30000, 120000, 600000, 3600000, 21600000]

  /** A publish to make: exchange, key, attempt header and time to live. */
  datatype Publishing = Publishing(exchange: string, key: string, attempt: int, ttl: Option<int>)

  /** The number of retries a message can be given. */
  function Budget(maxRetries: nat): (b: nat)
    ensures b <= maxRetries && b <= |BACKOFF_SCHEDULE|
  {
    if maxRetries < |BACKOFF_SCHEDULE| then maxRetries else |BACKOFF_SCHEDULE|
  }

  predicate GoesToDead(attempt: int, maxAttempts: int)
  {
    attempt >= maxAttempts || attempt >= |BACKOFF_SCHEDULE|
  }

  /** Where a failed message goes next; a negative attempt would index outside the schedule. */
  function RetryPublishing(c: Channel, attempt: int, maxAttempts: int): Publishing
    requires attempt >= 0
  {
    if GoesToDead(attempt, maxAttempts) then Publishing("", DeadQueue(c), attempt, None)
    else Publishing("", RetryQueue(c), attempt + 1, Some(BACKOFF_SCHEDULE[attempt]))
  }

  /** The waits of a message whose every attempt fails, from its first attempt to the dead queue. */
  function Waits(c: Channel, attempt: nat, maxRetries: nat): seq<int>
    decreases |BACKOFF_SCHEDULE| - attempt
  {
    var p := RetryPublishing(c, attempt, maxRetries);
    if p.ttl.None? then [] else [p.ttl.value] + Waits(c, p.attempt, maxRetries)
  }

  /** Entering at an attempt below the budget a message waits out the rest of the schedule up to the
      budget, entering later not at all; and it is declared dead exactly when the budget is spent. */
  lemma {:induction false} WaitsAreTheSchedule(c: Channel, attempt: nat, maxRetries: nat)
    ensures GoesToDead(attempt, maxRetries) <==> attempt >= Budget(maxRetries)
    ensures Waits(c, attempt, maxRetries) ==
      if attempt < Budget(maxRetries) then BACKOFF_SCHEDULE[attempt..Budget(maxRetries)] else []
    decreases |BACKOFF_SCHEDULE| - attempt
  {
    if attempt < Budget(maxRetries) {
      WaitsAreTheSchedule(c, attempt + 1, maxRetries);
    }
  }

  /** With all retries allowed: half a minute, two minutes, ten minutes, an hour and six hours. */
  lemma FullSchedule(c: Channel, maxRetries: nat)
    requires maxRetries >= 5
    ensures Waits(c, 0, maxRetries) == [30 * 1000, 2 * 60 * 1000, 10 * 60 * 1000, 3600 * 1000, 6 * 3600 * 1000]
  {
    WaitsAreTheSchedule(c, 0, maxRetries);
  }

  const MAX_INT32: int := 0x7fff_ffff

  /** A signed 32-bit conversion: the attempt header's type. */
  function ToInt32(x: int): int
  {
    (x + 0x8000_0000) % 0x1_0000_0000 - 0x8000_0000
  }

  /** The conversion keeps what fits and otherwise takes the number of the same low bits that does. */
  lemma Int32Wraps(x: int)
    ensures -0x8000_0000 <= ToInt32(x) <= MAX_INT32 && (ToInt32(x) - x) % 0x1_0000_0000 == 0
    ensures ToInt32(x) == x <==> -0x8000_0000 <= x <= MAX_INT32
  {
    var r := x + 0x8000_0000;
    assert ToInt32(x) - x == -(r / 0x1_0000_0000) * 0x1_0000_0000;
  }
}
