/** What holds of every run of the pipeline, whatever the interleaving and the faults. */
module PipelineTheorems {
  import opened Basics
  import opened Uuids
  import opened Domain
  import opened Wire
  import opened Topology
  import opened Pipeline
  import opened PipelineInvariant
  import opened PipelineSteps
  import opened PipelineTokens

  ghost predicate Reachable(cfg: Config, s: State)
  {
    exists acts :: Runs(cfg, INITIAL, acts) && Final(cfg, INITIAL, acts) == s
  }

  lemma ReachableOk(cfg: Config, s: State)
    requires Reachable(cfg, s)
    ensures Inv(cfg, s)
  {
    hide Inv;
    var acts :| Runs(cfg, INITIAL, acts) && Final(cfg, INITIAL, acts) == s;
    InitialOk(cfg);
    RunKeeps(cfg, INITIAL, acts);
  }

  // ----- No loss, and the exact number of duplicates -----

  /** The duplicating faults of a run that concern one notification. */
  function DuplicatesOver(cfg: Config, s: State, acts: seq<Action>, t: string): nat
    requires Runs(cfg, s, acts)
    decreases |acts|
  {
    if acts == [] then 0
    else Duplicates(s, acts[0], t) + DuplicatesOver(cfg, Next(cfg, s, acts[0]), acts[1..], t)
  }

  lemma StoreKeys(core: Core, id: Uuid, status: Status, attempt: int, lastError: string, stored: bool)
    ensures Store(core, id, status, attempt, lastError, stored).log.Keys == core.log.Keys
  {}

  /** Only a submit adds a row, and no row is ever removed. */
  lemma StepKeys(cfg: Config, s: State, a: Action)
    requires Enabled(cfg, s, a)
    ensures Next(cfg, s, a).core.log.Keys == s.core.log.Keys + if a.Submit? then {a.content.id} else {}
  {
    hide Resolve, HandleOps, ItemsOps, Encode, LockRows, Release, ShipEffect, MarkEffect, RescueOps, Sealed, Store;
    match a
    case WorkerStep(f) => PerformKeys(s.core, s.flights[f]);
    case RescueStep(j) =>
      var op := s.rescues[j][0];
      if op.Reset? {
        StoreKeys(s.core, op.id, Enqueued, op.attempt, RESCUED, op.stored);
      }
    case _ =>
  }

  lemma PerformKeys(core: Core, f: Flight)
    requires f.ops != []
    ensures Perform(core, f.copy, f.settled, f.ops[0]).0.log.Keys == core.log.Keys
    ensures Conclude(core, f.copy, f.ops[0]).log.Keys == core.log.Keys
  {
    hide Resolve, Sealed;
  }

  lemma KnownOnce(cfg: Config, s: State, a: Action, t: string)
    requires Inv(cfg, s) && Enabled(cfg, s, a)
    ensures One(Known(Next(cfg, s, a).core.log, t)) == One(Known(s.core.log, t)) + Created(a, t)
  {
    hide Inv, Next, Uuids.Print;
    var s' := Next(cfg, s, a);
    StepKeys(cfg, s, a);
    if Known(s.core.log, t) {
      var id :| id in s.core.log && Uuids.Print(id) == t;
      assert id in s'.core.log;
      if a.Submit? && Uuids.Print(a.content.id) == t {
        Uuids.PrintInjective(id, a.content.id);
        assert false;
      }
    } else if a.Submit? && Uuids.Print(a.content.id) == t {
      assert a.content.id in s'.core.log;
    }
  }

  lemma {:induction false} RunTokens(cfg: Config, s: State, acts: seq<Action>, t: string)
    requires Inv(cfg, s) && Runs(cfg, s, acts)
    ensures var s' := Final(cfg, s, acts);
      Tokens(s', t) + One(Known(s.core.log, t))
        == Tokens(s, t) + One(Known(s'.core.log, t)) + DuplicatesOver(cfg, s, acts, t)
    decreases |acts|
  {
    hide Inv, Tokens, Known, Next, Enabled, Duplicates, Created;
    if acts != [] {
      NextKeeps(cfg, s, acts[0]);
      StepTokens(cfg, s, acts[0], t);
      KnownOnce(cfg, s, acts[0], t);
      RunTokens(cfg, Next(cfg, s, acts[0]), acts[1..], t);
    }
  }

  /** The exact account of a run: a notification in the log has one token, and one more for every
      duplicating fault that concerned it; any other identifier has none. */
  lemma TokensOfRun(cfg: Config, acts: seq<Action>, t: string)
    requires Runs(cfg, INITIAL, acts)
    ensures var s := Final(cfg, INITIAL, acts);
      Tokens(s, t) == One(Known(s.core.log, t)) + DuplicatesOver(cfg, INITIAL, acts, t)
  {
    InitialOk(cfg);
    assert Tokens(INITIAL, t) == 0 by {
      assert Pending(INITIAL.outbox, t) == {} && Carried(INITIAL.flights, t) == {};
      assert Waiting(INITIAL.core.copies, t) == {} && Verdicts(INITIAL.core.settlements, t) == {};
    }
    RunTokens(cfg, INITIAL, acts, t);
  }

  /** No accepted notification is lost: in every reachable state a row of the log still has a pending
      outbox row, a message in a work or retry queue, a delivery in a handler's hands that is not yet
      moved on, or a final verdict. */
  lemma NoLoss(cfg: Config, s: State, id: Uuid)
    requires Reachable(cfg, s) && id in s.core.log
    ensures var t := Uuids.Print(id);
      || (exists r :: r in s.outbox && PendingFor(s.outbox[r], t))
      || (exists k :: k in s.core.copies && WaitingFor(s.core.copies[k], t))
      || (exists f :: f in s.flights && CarriedFor(s.flights[f], t))
      || (exists k :: 0 <= k < |s.core.settlements| && s.core.settlements[k].id == t)
  {
    hide PendingFor, WaitingFor, CarriedFor, Uuids.Print;
    var t := Uuids.Print(id);
    var acts :| Runs(cfg, INITIAL, acts) && Final(cfg, INITIAL, acts) == s;
    TokensOfRun(cfg, acts, t);
    assert Known(s.core.log, t);
    if Pending(s.outbox, t) != {} {
      var r :| r in Pending(s.outbox, t);
    } else if Waiting(s.core.copies, t) != {} {
      var k :| k in Waiting(s.core.copies, t);
    } else if Carried(s.flights, t) != {} {
      var f :| f in Carried(s.flights, t);
    } else {
      assert Verdicts(s.core.settlements, t) != {};
      var k :| k in Verdicts(s.core.settlements, t);
    }
  }

  /** At least once and boundedly often: verdicts, acceptances by the provider among them, never exceed
      one plus the duplicating faults. */
  lemma VerdictsBounded(cfg: Config, acts: seq<Action>, t: string)
    requires Runs(cfg, INITIAL, acts)
    ensures |Verdicts(Final(cfg, INITIAL, acts).core.settlements, t)| <= 1 + DuplicatesOver(cfg, INITIAL, acts, t)
  {
    hide Known, Runs, Final;
    TokensOfRun(cfg, acts, t);
  }

  // ----- Content, routing and retries -----

  /** Every message in any queue, and every delivery in hand, decodes to the content of its log row, on
      the channel of the queue that holds it. */
  lemma ContentPreserved(cfg: Config, s: State, copy: Copy)
    requires Reachable(cfg, s)
    requires (exists k :: k in s.core.copies && s.core.copies[k] == copy)
      || (exists f :: f in s.flights && s.flights[f].copy == copy)
    ensures Decode(copy.body).Some?
    ensures var n := Decode(copy.body).value.content;
      n.id in s.core.log && n == Normal(s.core.log[n.id].content) && n.channel == copy.queue.channel
  {
    hide Decode, Carries, OutboxOk, PassesOk, RescuesOk;
    ReachableOk(cfg, s);
    assert CopyOk(cfg, s.core.log, copy) by {
      if f :| f in s.flights && s.flights[f].copy == copy {
        assert FlightOk(cfg, s.core.log, s.flights[f]);
      }
    }
    CarriesDecodes(s.core.log, copy.queue.channel, copy.body);
  }

  /** The slice of the schedule that a message entering at an attempt can wait out. */
  function Schedule(cfg: Config, entered: int): seq<int>
  {
    if 0 <= entered < Budget(cfg.maxRetries) then BACKOFF_SCHEDULE[entered..Budget(cfg.maxRetries)] else []
  }

  predicate WaitsOnSchedule(cfg: Config, copy: Copy)
  {
    && 0 <= copy.entered
    && copy.waited <= Schedule(cfg, copy.entered)
    && (!copy.queue.Dead? ==> copy.attempt == copy.entered + |copy.waited|)
    && (copy.queue.Dead? ==>
          || (copy.attempt == copy.entered + |copy.waited| >= Budget(cfg.maxRetries)
              && copy.waited == Schedule(cfg, copy.entered))
          || copy.attempt == ToInt32(cfg.maxRetries))
  }

  lemma LineageOnSchedule(cfg: Config, copy: Copy)
    requires Lineage(cfg, copy)
    ensures copy.attempt == copy.entered + |copy.waited| && copy.waited <= Schedule(cfg, copy.entered)
    ensures copy.attempt >= Budget(cfg.maxRetries) ==> copy.waited == Schedule(cfg, copy.entered)
  {
    if copy.attempt > copy.entered {
      assert BACKOFF_SCHEDULE[copy.entered..copy.attempt] <= BACKOFF_SCHEDULE[copy.entered..Budget(cfg.maxRetries)];
    }
  }

  lemma OkWaitsOnSchedule(cfg: Config, log: map<Uuid, LogRow>, copy: Copy)
    requires CopyOk(cfg, log, copy)
    ensures WaitsOnSchedule(cfg, copy)
  {
    hide Carries, ValidChannel;
    if copy.queue.Dead? {
      LineageOnSchedule(cfg, copy.(attempt := copy.entered + |copy.waited|));
    } else {
      LineageOnSchedule(cfg, copy);
    }
    hide Lineage, Schedule, Budget, ToInt32;
  }

  ghost predicate InBroker(s: State, copy: Copy)
  {
    || (exists k :: k in s.core.copies && s.core.copies[k] == copy)
    || (exists f :: f in s.flights && s.flights[f].copy == copy)
  }

  lemma InBrokerOk(cfg: Config, s: State, copy: Copy)
    requires Inv(cfg, s) && InBroker(s, copy)
    ensures CopyOk(cfg, s.core.log, copy)
  {
    hide CopyOk, OutboxOk, PassesOk, RescuesOk, Safe;
    if f :| f in s.flights && s.flights[f].copy == copy {
      assert FlightOk(cfg, s.core.log, s.flights[f]);
    }
  }

  /** Every message in any queue, the dead ones among them, and every delivery in hand has waited out a prefix of
      the schedule from the attempt it entered with to the budget, one wait an attempt. In a dead queue the whole of
      it, unless its header is the spent budget of a rejected message. */
  lemma RetryBudget(cfg: Config, s: State, copy: Copy)
    requires Reachable(cfg, s) && InBroker(s, copy)
    ensures WaitsOnSchedule(cfg, copy)
    ensures |copy.waited| <= if copy.entered < Budget(cfg.maxRetries) then Budget(cfg.maxRetries) - copy.entered else 0
    ensures copy.queue.Dead? && cfg.maxRetries <= MAX_INT32 ==> copy.attempt >= Budget(cfg.maxRetries)
  {
    hide Inv, CopyOk, InBroker;
    ReachableOk(cfg, s);
    InBrokerOk(cfg, s, copy);
    OkWaitsOnSchedule(cfg, s.core.log, copy);
  }

  /** A handler that declares a message dead after a transient failure has a copy in hand that waited out the whole
      schedule from its entry to the budget. */
  lemma ExhaustedWaitedAll(cfg: Config, s: State, f: nat)
    requires Reachable(cfg, s) && f in s.flights && s.flights[f].ops != [] && !s.flights[f].settled
    requires s.flights[f].ops[0].Forward? && s.flights[f].ops[0].publishing.ttl.None?
    ensures var copy := s.flights[f].copy;
      copy.attempt >= Budget(cfg.maxRetries) && copy.waited == Schedule(cfg, copy.entered)
  {
    hide OutboxOk, PassesOk, RescuesOk, Carries, CoreOk, ValidChannel, Schedule;
    ReachableOk(cfg, s);
    var flight := s.flights[f];
    assert FlightOk(cfg, s.core.log, flight);
    assert GoesToDead(flight.copy.attempt, cfg.maxRetries);
    LineageOnSchedule(cfg, flight.copy);
  }

  // ----- The sign of the attempt header -----

  ghost predicate HeadersNonNegative(cfg: Config)
  {
    forall s, copy | Reachable(cfg, s) && InBroker(s, copy) :: copy.attempt >= 0
  }

  lemma {:induction false} RunsSnoc(cfg: Config, s: State, acts: seq<Action>, a: Action)
    requires Runs(cfg, s, acts) && Enabled(cfg, Final(cfg, s, acts), a)
    ensures Runs(cfg, s, acts + [a]) && Final(cfg, s, acts + [a]) == Next(cfg, Final(cfg, s, acts), a)
    decreases |acts|
  {
    hide Enabled, Next;
    if acts == [] {
      assert [a][1..] == [] && acts + [a] == [a];
    } else {
      RunsSnoc(cfg, Next(cfg, s, acts[0]), acts[1..], a);
      assert (acts + [a])[1..] == acts[1..] + [a];
    }
  }

  lemma ReachableNext(cfg: Config, s: State, a: Action)
    requires Reachable(cfg, s) && Enabled(cfg, s, a)
    ensures Reachable(cfg, Next(cfg, s, a))
  {
    hide Enabled, Next;
    var acts :| Runs(cfg, INITIAL, acts) && Final(cfg, INITIAL, acts) == s;
    RunsSnoc(cfg, INITIAL, acts, a);
  }

  lemma InitialReachable(cfg: Config)
    ensures Reachable(cfg, INITIAL)
  {
    assert Runs(cfg, INITIAL, []) && Final(cfg, INITIAL, []) == INITIAL;
  }

  lemma Claimed(cfg: Config) returns (s: State)
    requires cfg.relayBatch > 0
    ensures Reachable(cfg, s) && 1 in s.passes && s.passes[1].ops != []
    ensures s.core.next == 2 && s.core.copies == map[] && s.flights == map[]
    ensures var op := s.passes[1].ops[0];
      op.Ship? && op.fate == Confirmed && op.publishing == Publishing(EXCHANGE, RoutingKey(EMAIL), 0, None)
  {
    var content := Content(0, "event", EMAIL, Recipient(None, "a@b", "", "", ""), None, None, "", "text");
    var answers := [RelayAnswers(Confirmed, true)];
    hide Reachable, Encode, RoutingKey;
    InitialReachable(cfg);
    ReachableNext(cfg, INITIAL, Submit(content));
    var s1 := SubmitNext(INITIAL, content);
    assert s1.outbox[0].lock.Free? && !s1.outbox[0].published;
    assert s1.outbox[0].channel == EMAIL && s1.outbox[0].attempts == 0;
    ReachableNext(cfg, s1, Claim([0], answers, true));
    s := ClaimNext(s1, [0], answers, true);
  }

  /** A first submit and the first call of a relay bring a message into a work queue. */
  lemma Arrives(cfg: Config) returns (s: State)
    requires cfg.relayBatch > 0
    ensures Reachable(cfg, s) && s.core.copies.Keys == {2} && s.core.copies[2].queue == Work(EMAIL)
    ensures s.flights == map[]
  {
    hide Reachable, Resolve, RoutingKey;
    var before := Claimed(cfg);
    ReachableNext(cfg, before, RelayStep(1));
    ResolveBinding(EMAIL);
    s := RelayNext(before, 1);
  }

  lemma WorkerGoesOn(cfg: Config, s: State, f: nat)
    requires Reachable(cfg, s) && f in s.flights && s.flights[f].ops != [] && !LeavesBroker(s.flights[f].ops[0])
    ensures var s' := WorkerNext(s, f);
      && Reachable(cfg, s') && f in s'.flights && s'.flights[f].ops == s.flights[f].ops[1..]
      && s'.flights[f].copy == s.flights[f].copy
      && s'.core == Perform(s.core, s.flights[f].copy, s.flights[f].settled, s.flights[f].ops[0]).0
  {
    hide Reachable, Perform;
    ReachableNext(cfg, s, WorkerStep(f));
  }

  lemma Taken(cfg: Config, s: State, k: nat, a: WorkerAnswers)
    requires Reachable(cfg, s) && k in s.core.copies && s.core.copies[k].queue.Work? && a.reply.TerminalError?
    ensures var c, f, s' := s.core.copies[k].queue.channel, s.core.next, DeliverNext(cfg, s, k, a);
      && Reachable(cfg, s') && ValidChannel(c) && f in s'.flights
      && var ops := s'.flights[f].ops;
         |ops| == 5 && ops[0].StoreStatus? && ops[1] == Send(TerminalError) && ops[2].StoreStatus? && ops[4].Ack?
         && ops[3] == Forward(RetryPublishing(c, cfg.maxRetries, cfg.maxRetries), a.forward)
  {
    ContentPreserved(cfg, s, s.core.copies[k]);
    WorkChannel(cfg, s, k);
    ReachableNext(cfg, s, Deliver(k, a));
    hide Reachable, Decode, ValidChannel, RetryPublishing;
  }

  /** A rejected message ends in the dead queue with the attempt limit as its header. */
  lemma Dies(cfg: Config, s: State, k: nat) returns (s': State, copy: Copy)
    requires Reachable(cfg, s) && k in s.core.copies && s.core.copies[k].queue.Work?
    ensures Reachable(cfg, s') && InBroker(s', copy) && copy.queue.Dead? && copy.attempt == ToInt32(cfg.maxRetries)
  {
    hide Reachable, Decode, ValidChannel, Perform, HandleOps, DeliverNext, WorkerNext, RetryPublishing, ToInt32;
    var a := WorkerAnswers(true, TerminalError, "", Confirmed, true);
    var c, f, s1 := s.core.copies[k].queue.channel, s.core.next, DeliverNext(cfg, s, k, a);
    Taken(cfg, s, k, a);
    var ops := s1.flights[f].ops;
    WorkerGoesOn(cfg, s1, f);
    var s2 := WorkerNext(s1, f);
    WorkerGoesOn(cfg, s2, f);
    var s3 := WorkerNext(s2, f);
    WorkerGoesOn(cfg, s3, f);
    var s4 := WorkerNext(s3, f);
    assert s4.flights[f].ops[0] == ops[3];
    WorkerGoesOn(cfg, s4, f);
    s' := WorkerNext(s4, f);
    copy := ForwardedDead(cfg, s4.core, s4.flights[f].copy, s4.flights[f].settled, c);
    assert s4.core.next in s'.core.copies && s'.core.copies[s4.core.next] == copy;
  }

  lemma WorkChannel(cfg: Config, s: State, k: nat)
    requires Reachable(cfg, s) && k in s.core.copies
    ensures ValidChannel(s.core.copies[k].queue.channel)
  {
    hide OutboxOk, PassesOk, FlightsOk, RescuesOk, LogOk, Known, Carries, ValidChannel, Lineage, DeadLineage;
    ReachableOk(cfg, s);
    assert CopyOk(cfg, s.core.log, s.core.copies[k]);
  }

  lemma ForwardedDead(cfg: Config, core: Core, copy: Copy, settled: bool, c: Channel) returns (dead: Copy)
    requires ValidChannel(c)
    ensures dead.queue == Dead(c) && dead.attempt == ToInt32(cfg.maxRetries)
    ensures var forward := Forward(RetryPublishing(c, cfg.maxRetries, cfg.maxRetries), Confirmed);
      var core' := Perform(core, copy, settled, forward).0;
      core.next in core'.copies && core'.copies[core.next] == dead
  {
    hide Resolve, ToInt32, ValidChannel;
    RetryResolves(c, cfg.maxRetries, cfg.maxRetries);
    dead := Sealed(RetryPublishing(c, cfg.maxRetries, cfg.maxRetries), copy.body, copy.entered,
                   copy.waited).(queue := Dead(c));
  }

  /** The attempt header is never negative if and only if the attempt limit, cut to the header's 32 bits, is not. */
  lemma HeadersTheorem(cfg: Config)
    ensures ToInt32(cfg.maxRetries) >= 0 ==> HeadersNonNegative(cfg)
    ensures cfg.relayBatch > 0 ==> (HeadersNonNegative(cfg) <==> ToInt32(cfg.maxRetries) >= 0)
  {
    hide Reachable, InBroker, ToInt32, Budget, Schedule;
    if ToInt32(cfg.maxRetries) >= 0 {
      forall s, copy | Reachable(cfg, s) && InBroker(s, copy) ensures copy.attempt >= 0 {
        RetryBudget(cfg, s, copy);
        assert copy.attempt >= 0;
      }
    } else if cfg.relayBatch > 0 {
      var s := Arrives(cfg);
      var s', copy := Dies(cfg, s, 2);
    }
  }

  /** A limit of 2^31, which the configuration accepts, is an input for which it becomes negative. */
  lemma LimitWraps(cfg: Config)
    requires cfg.maxRetries == 0x8000_0000 && cfg.relayBatch > 0
    ensures ToInt32(cfg.maxRetries) == -0x8000_0000 && !HeadersNonNegative(cfg)
  {
    HeadersTheorem(cfg);
    hide HeadersNonNegative;
  }

  /** No handler ever discards a message as undecodable or indexes outside the schedule, and whoever
      acknowledges has moved the message on. */
  lemma HandlersAreOrderly(cfg: Config, s: State, f: nat)
    requires Reachable(cfg, s) && f in s.flights
    ensures s.flights[f].ops != []
    ensures var op := s.flights[f].ops[0];
      !op.Reject? && !op.Panic? && (op.Ack? ==> s.flights[f].settled) && (op.Nack? ==> !s.flights[f].settled)
  {
    hide OutboxOk, PassesOk, RescuesOk, CopyOk;
    ReachableOk(cfg, s);
    assert FlightOk(cfg, s.core.log, s.flights[f]);
    SafeHead(cfg, s.flights[f].copy, s.flights[f].ops, s.flights[f].settled);
  }

  // ----- Relays -----

  /** Two open relay passes never work on the same row, however many relays run. */
  lemma PassesDisjoint(cfg: Config, s: State, p: nat, q: nat, i: nat, j: nat)
    requires Reachable(cfg, s) && p in s.passes && q in s.passes && p != q
    requires i < |s.passes[p].items| && j < |s.passes[q].items|
    ensures s.passes[p].items[i].row != s.passes[q].items[j].row
  {
    hide OutboxOk, FlightsOk, RescuesOk, CoreOk, RelaySafe;
    ReachableOk(cfg, s);
    assert PassOk(s.outbox, p, s.passes[p]) && PassOk(s.outbox, q, s.passes[q]);
  }

  /** A row committed as published had exactly its payload, the encoding of its log row, published and
      confirmed to its channel; a row of a transaction that does not commit is pending as before. */
  lemma PublishedWasShipped(cfg: Config, s: State, r: nat)
    requires Reachable(cfg, s) && r in s.outbox
    ensures var row := s.outbox[r];
      && row.notification in s.core.log
      && row.payload == Encode(s.core.log[row.notification].content, 0)
      && (row.published ==> (row.channel, row.payload) in s.core.shipments)
    ensures forall p | Holds(s.outbox, r, p) ::
      RelayCrashNext(s, p).outbox[r] == s.outbox[r].(lock := Free) && !s.outbox[r].published
  {
    hide Encode, PassesOk, FlightsOk, RescuesOk, CopyOk, Known;
    ReachableOk(cfg, s);
    assert RowOk(s.core, s.outbox[r]);
  }

  /** Nothing but its own state holds a process up: in every state each waiting message may be delivered or expire, each
      open pass, handling and rescue may make its next call or crash, each connection may be lost, any new event may be
      submitted, and what is in flight may be listed. */
  lemma AnyoneMayMove(cfg: Config, s: State)
    ensures forall k, a | k in s.core.copies && s.core.copies[k].queue.Work? :: Enabled(cfg, s, Deliver(k, a))
    ensures forall k | k in s.core.copies && s.core.copies[k].queue.Retry? :: Enabled(cfg, s, Expire(k))
    ensures forall p | p in s.passes ::
      Enabled(cfg, s, RelayCrash(p)) && (s.passes[p].ops != [] ==> Enabled(cfg, s, RelayStep(p)))
    ensures forall f | f in s.flights ::
      && Enabled(cfg, s, WorkerCrash(f)) && (s.flights[f].ops != [] ==> Enabled(cfg, s, WorkerStep(f)))
      && (s.flights[f].owned ==> Enabled(cfg, s, ConnectionLost(f)))
    ensures forall j | j in s.rescues ::
      Enabled(cfg, s, RescueCrash(j)) && (s.rescues[j] != [] ==> Enabled(cfg, s, RescueStep(j)))
    ensures forall c: Content |
      ValidChannel(c.channel) && c.id !in s.core.log
      && (forall id | id in s.core.log :: s.core.log[id].content.eventId != c.eventId) ::
        Enabled(cfg, s, Action.Submit(c))
  {}
}
