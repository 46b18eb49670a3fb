/** Who is in a dead queue: exactly the notifications of which a forward to it has arrived. */
module PipelineDeadLetters {
  import opened Basics
  import opened Uuids
  import opened Domain
  import opened Wire
  import opened Topology
  import opened Pipeline
  import opened PipelineInvariant
  import opened PipelineSteps
  import opened PipelineTokens
  import opened PipelineTheorems

  predicate DeadFor(copy: Copy, t: string)
  {
    copy.queue.Dead? && copy.body.id == t
  }

  /** Is a copy of the notification in a dead queue? */
  predicate InDead(core: Core, t: string)
  {
    exists k :: k in core.copies && DeadFor(core.copies[k], t)
  }

  /** A publish to the dead queue that arrives, seen to or not. */
  predicate ForwardArrives(op: WorkerOp)
  {
    op.Forward? && op.publishing.ttl.None? && !op.fate.Dropped?
  }

  /** Is the step a forward of the notification to a dead queue that arrives? */
  predicate ArrivesDead(s: State, a: Action, t: string)
  {
    && a.WorkerStep? && a.flight in s.flights && s.flights[a.flight].ops != []
    && s.flights[a.flight].copy.body.id == t && ForwardArrives(s.flights[a.flight].ops[0])
  }

  // ----- How the calls change the dead queues -----

  lemma PutDead(core: Core, copy: Copy, t: string)
    requires core.next !in core.copies
    ensures InDead(Put(core, copy), t) <==> InDead(core, t) || DeadFor(copy, t)
  {
    hide DeadFor;
    var core' := Put(core, copy);
    assert core'.copies[core.next] == copy;
    if InDead(core, t) {
      var k :| k in core.copies && DeadFor(core.copies[k], t);
      assert core'.copies[k] == core.copies[k];
    }
  }

  lemma DepositDead(core: Core, q: Queue, copy: Copy, fate: Fate, t: string)
    requires core.next !in core.copies
    ensures InDead(Deposit(core, Some(q), copy, fate), t) <==>
      InDead(core, t) || (!fate.Dropped? && DeadFor(copy.(queue := q), t))
  {
    hide InDead, DeadFor;
    PutDead(core, copy.(queue := q), t);
  }

  lemma SameDead(core: Core, core': Core, t: string)
    requires core'.copies == core.copies
    ensures InDead(core', t) == InDead(core, t)
  {}

  lemma RemovedDead(core: Core, k: nat, t: string)
    requires k in core.copies && !core.copies[k].queue.Dead?
    ensures InDead(Removed(core, k), t) == InDead(core, t)
  {
    if InDead(core, t) {
      var j :| j in core.copies && DeadFor(core.copies[j], t);
      assert j in Removed(core, k).copies && Removed(core, k).copies[j] == core.copies[j];
    }
  }

  /** A publish to a work queue adds no dead letter. */
  lemma EnterDead(cfg: Config, core: Core, c: Channel, attempt: int, body: Message, fate: Fate, t: string)
    requires CoreOk(cfg, core) && ValidChannel(c)
    ensures var p := Publishing(EXCHANGE, RoutingKey(c), attempt, None);
      InDead(Post(core, p, body, fate, attempt, []), t) == InDead(core, t)
  {
    hide Resolve, RoutingKey, ValidChannel, CoreOk, InDead;
    FreshKeys(cfg, core);
    ResolveBinding(c);
    DepositDead(core, Work(c), Sealed(Publishing(EXCHANGE, RoutingKey(c), attempt, None), body, attempt, []), fate, t);
  }

  lemma RelayDead(cfg: Config, s: State, p: nat, t: string)
    requires Inv(cfg, s) && p in s.passes && s.passes[p].ops != []
    ensures InDead(RelayNext(s, p).core, t) == InDead(s.core, t)
  {
    hide Inv, InDead, RowOk, CoreOk, LogOk, RoutingKey, ValidChannel, Post, Carries, ShipEffect, MarkEffect, Release;
    var op := s.passes[p].ops[0];
    if op.Ship? {
      ShipsOwn(cfg, s, p);
      CoreLogOk(cfg, s);
      RowCarries(s.core, s.outbox[op.row]);
      EnterDead(cfg, s.core, s.outbox[op.row].channel, op.publishing.attempt, op.payload, op.fate, t);
      var posted := Post(s.core, op.publishing, op.payload, op.fate, op.publishing.attempt, []);
      SameDead(posted, RelayNext(s, p).core, t);
    } else {
      SameDead(s.core, RelayNext(s, p).core, t);
    }
  }

  lemma DeliverDead(cfg: Config, s: State, k: nat, a: WorkerAnswers, t: string)
    requires k in s.core.copies && s.core.copies[k].queue.Work?
    ensures InDead(DeliverNext(cfg, s, k, a).core, t) == InDead(s.core, t)
  {
    hide InDead, HandleOps;
    RemovedDead(s.core, k, t);
    SameDead(Removed(s.core, k), DeliverNext(cfg, s, k, a).core, t);
  }

  lemma ForwardDead(cfg: Config, core: Core, f: Flight, t: string)
    requires CoreOk(cfg, core) && FlightOk(cfg, core.log, f) && f.ops[0].Forward?
    ensures var op := f.ops[0];
      InDead(Post(core, op.publishing, f.copy.body, op.fate, f.copy.entered, f.copy.waited), t) <==>
        InDead(core, t) || (f.copy.body.id == t && ForwardArrives(op))
  {
    hide Resolve, Carries, Lineage, DeadLineage, CoreOk, InDead, ValidChannel;
    var c, op := f.copy.queue.channel, f.ops[0];
    var attempt := if f.settled then cfg.maxRetries else f.copy.attempt;
    assert ValidChannel(c);
    FreshKeys(cfg, core);
    RetryResolves(c, attempt, cfg.maxRetries);
    var q := if GoesToDead(attempt, cfg.maxRetries) then Dead(c) else Retry(c);
    DepositDead(core, q, Sealed(op.publishing, f.copy.body, f.copy.entered, f.copy.waited), op.fate, t);
  }

  lemma PerformDead(cfg: Config, core: Core, f: Flight, t: string)
    requires CoreOk(cfg, core) && FlightOk(cfg, core.log, f) && f.ops != [] && !LeavesBroker(f.ops[0])
    ensures InDead(Perform(core, f.copy, f.settled, f.ops[0]).0, t) <==>
      InDead(core, t) || (f.copy.body.id == t && ForwardArrives(f.ops[0]))
  {
    hide CoreOk, CopyOk, Safe, InDead, Post;
    var op, core' := f.ops[0], Perform(core, f.copy, f.settled, f.ops[0]).0;
    if op.Forward? {
      ForwardDead(cfg, core, f, t);
      SameDead(Post(core, op.publishing, f.copy.body, op.fate, f.copy.entered, f.copy.waited), core', t);
    } else {
      SameDead(core, core', t);
    }
  }

  lemma WorkerDead(cfg: Config, s: State, f: nat, t: string)
    requires Inv(cfg, s) && f in s.flights && s.flights[f].ops != []
    ensures InDead(WorkerNext(s, f).core, t) <==> InDead(s.core, t) || ArrivesDead(s, WorkerStep(f), t)
  {
    hide CoreOk, OutboxOk, PassesOk, RescuesOk, CopyOk, Safe, InDead, Perform;
    var flight := s.flights[f];
    assert FlightOk(cfg, s.core.log, flight);
    if LeavesBroker(flight.ops[0]) {
      SafeHead(cfg, flight.copy, flight.ops, flight.settled);
      FreshKeys(cfg, s.core);
      PutDead(s.core, flight.copy, t);
    } else {
      PerformDead(cfg, s.core, flight, t);
    }
  }

  lemma GivenBackDead(cfg: Config, s: State, f: nat, t: string)
    requires Inv(cfg, s) && f in s.flights
    ensures InDead(WorkerCrashNext(s, f).core, t) == InDead(s.core, t)
    ensures InDead(ConnectionLostNext(s, f).core, t) == InDead(s.core, t)
  {
    hide CoreOk, OutboxOk, PassesOk, RescuesOk, CopyOk, Safe, InDead;
    assert FlightOk(cfg, s.core.log, s.flights[f]);
    FreshKeys(cfg, s.core);
    PutDead(s.core, s.flights[f].copy, t);
  }

  lemma ExpireDead(cfg: Config, s: State, k: nat, t: string)
    requires Inv(cfg, s) && k in s.core.copies && s.core.copies[k].queue.Retry?
    ensures InDead(ExpireNext(s, k).core, t) == InDead(s.core, t)
  {
    hide OutboxOk, PassesOk, FlightsOk, RescuesOk, CoreOk, ExpireNext, InDead;
    var copy := s.core.copies[k];
    ExpireKeeps(cfg, s, k);
    RemovedDead(s.core, k, t);
    RemovedKeeps(cfg, s.core, k);
    FreshKeys(cfg, Removed(s.core, k));
    PutDead(Removed(s.core, k), copy.(queue := Work(copy.queue.channel)), t);
  }

  lemma RescueDead(cfg: Config, s: State, j: nat, t: string)
    requires Inv(cfg, s) && j in s.rescues && s.rescues[j] != []
    ensures InDead(RescueNext(s, j).core, t) == InDead(s.core, t)
  {
    hide OutboxOk, PassesOk, FlightsOk, CoreOk, InDead, Carries, ValidChannel, Post, RoutingKey;
    var op := s.rescues[j][0];
    assert RescueSafe(s.core.log, op);
    match op
    case Republish(p, body, fate) => EnterDead(cfg, s.core, body.channel, p.attempt, body, fate, t);
    case Reset(_, _, _) => SameDead(s.core, RescueNext(s, j).core, t);
  }

  // ----- Who is in a dead queue -----

  /** A step brings a notification into a dead queue exactly if it is a forward of it there that arrives, and no step
      takes one out. */
  lemma StepDead(cfg: Config, s: State, a: Action, t: string)
    requires Inv(cfg, s) && Enabled(cfg, s, a)
    ensures InDead(Next(cfg, s, a).core, t) <==> InDead(s.core, t) || ArrivesDead(s, a, t)
  {
    hide Inv, InDead, SubmitNext, ClaimNext, RelayNext, RelayCrashNext, DeliverNext, WorkerNext, WorkerCrashNext,
         ConnectionLostNext, ExpireNext, ListStuckNext, RescueNext;
    match a
    case RelayStep(p) => RelayDead(cfg, s, p, t);
    case Deliver(k, answers) => DeliverDead(cfg, s, k, answers, t);
    case WorkerStep(f) => WorkerDead(cfg, s, f, t);
    case WorkerCrash(f) => GivenBackDead(cfg, s, f, t);
    case ConnectionLost(f) => GivenBackDead(cfg, s, f, t);
    case Expire(k) => ExpireDead(cfg, s, k, t);
    case RescueStep(j) => RescueDead(cfg, s, j, t);
    case _ => IdleDead(cfg, s, a, t);
  }

  lemma IdleDead(cfg: Config, s: State, a: Action, t: string)
    requires Enabled(cfg, s, a)
    requires a.Submit? || a.Claim? || a.RelayCrash? || a.ListStuck? || a.RescueCrash?
    ensures InDead(Next(cfg, s, a).core, t) == InDead(s.core, t)
  {
    hide InDead, Encode, ItemsOps, LockRows, Release, RescueOps;
    SameDead(s.core, Next(cfg, s, a).core, t);
  }

  /** Has a forward of the notification to a dead queue arrived in the run? */
  predicate ArrivedDead(cfg: Config, s: State, acts: seq<Action>, t: string)
    requires Runs(cfg, s, acts)
    decreases |acts|
  {
    acts != [] && (ArrivesDead(s, acts[0], t) || ArrivedDead(cfg, Next(cfg, s, acts[0]), acts[1..], t))
  }

  lemma {:induction false} RunDead(cfg: Config, s: State, acts: seq<Action>, t: string)
    requires Inv(cfg, s) && Runs(cfg, s, acts)
    ensures InDead(Final(cfg, s, acts).core, t) <==> InDead(s.core, t) || ArrivedDead(cfg, s, acts, t)
    decreases |acts|
  {
    hide Inv, InDead, ArrivesDead, Next, Enabled;
    if acts != [] {
      StepDead(cfg, s, acts[0], t);
      NextKeeps(cfg, s, acts[0]);
      RunDead(cfg, Next(cfg, s, acts[0]), acts[1..], t);
    }
  }

  /** After any run a notification is in a dead queue if and only if one of its forwards there has arrived. */
  lemma DeadExactlyIfForwarded(cfg: Config, acts: seq<Action>, t: string)
    requires Runs(cfg, INITIAL, acts)
    ensures InDead(Final(cfg, INITIAL, acts).core, t) <==> ArrivedDead(cfg, INITIAL, acts, t)
  {
    assert !InDead(INITIAL.core, t);
    hide Inv, InDead;
    InitialOk(cfg);
    RunDead(cfg, INITIAL, acts, t);
  }

  // ----- Exhausted notifications -----

  predicate ExhaustedDead(s: State)
  {
    forall k | 0 <= k < |s.core.settlements| && s.core.settlements[k].verdict.Exhausted? ::
      InDead(s.core, s.core.settlements[k].id)
  }

  /** A step adds at most one verdict, and Exhausted only as the notification's forward arrives in a dead queue. */
  lemma StepVerdict(cfg: Config, s: State, a: Action)
    requires Enabled(cfg, s, a)
    ensures var old', new' := s.core.settlements, Next(cfg, s, a).core.settlements;
      && old' <= new' && |new'| <= |old'| + 1
      && (|new'| > |old'| && new'[|old'|].verdict.Exhausted? ==> ArrivesDead(s, a, new'[|old'|].id))
  {
    hide HandleOps, ItemsOps, Encode, LockRows, Release, ShipEffect, MarkEffect, RescueOps, RelayNext, WorkerNext;
    match a
    case RelayStep(p) => RelayVerdict(s, p);
    case WorkerStep(f) => WorkerVerdict(s, f);
    case _ =>
  }

  lemma RelayVerdict(s: State, p: nat)
    requires p in s.passes && s.passes[p].ops != []
    ensures RelayNext(s, p).core.settlements == s.core.settlements
  {
    hide Resolve, Sealed, ShipEffect, MarkEffect, Release;
  }

  /** One call adds at most one verdict, of its own notification, and Exhausted only with a forward that
      arrives in a dead queue. */
  lemma PerformVerdict(core: Core, copy: Copy, settled: bool, op: WorkerOp)
    ensures var old', new' := core.settlements, Perform(core, copy, settled, op).0.settlements;
      && (new' == old' || (exists v | v in {Accepted, Rejected} :: new' == old' + [Settlement(copy.body.id, v)])
          || (new' == old' + [Settlement(copy.body.id, Exhausted)] && ForwardArrives(op)))
      && (op == Send(TerminalError) ==> new' == old' + [Settlement(copy.body.id, Rejected)])
  {
    hide Resolve, Sealed;
  }

  lemma WorkerVerdict(s: State, f: nat)
    requires f in s.flights && s.flights[f].ops != []
    ensures var old', new' := s.core.settlements, WorkerNext(s, f).core.settlements;
      && old' <= new' && |new'| <= |old'| + 1
      && (|new'| > |old'| && new'[|old'|].verdict.Exhausted? ==> ArrivesDead(s, WorkerStep(f), new'[|old'|].id))
  {
    hide Perform, ForwardArrives;
    var flight := s.flights[f];
    if !LeavesBroker(flight.ops[0]) { PerformVerdict(s.core, flight.copy, flight.settled, flight.ops[0]); }
  }

  lemma StepExhausted(cfg: Config, s: State, a: Action)
    requires Inv(cfg, s) && Enabled(cfg, s, a) && ExhaustedDead(s)
    ensures ExhaustedDead(Next(cfg, s, a))
  {
    hide Inv, InDead, ArrivesDead, Next, Enabled;
    var s' := Next(cfg, s, a);
    StepVerdict(cfg, s, a);
    forall k | 0 <= k < |s'.core.settlements| && s'.core.settlements[k].verdict.Exhausted?
      ensures InDead(s'.core, s'.core.settlements[k].id)
    {
      StepDead(cfg, s, a, s'.core.settlements[k].id);
      assert k < |s.core.settlements| ==> s'.core.settlements[k] == s.core.settlements[k];
    }
  }

  lemma {:induction false} RunExhausted(cfg: Config, s: State, acts: seq<Action>)
    requires Inv(cfg, s) && Runs(cfg, s, acts) && ExhaustedDead(s)
    ensures ExhaustedDead(Final(cfg, s, acts))
    decreases |acts|
  {
    hide Inv, ExhaustedDead, Next, Enabled;
    if acts != [] {
      StepExhausted(cfg, s, acts[0]);
      NextKeeps(cfg, s, acts[0]);
      RunExhausted(cfg, Next(cfg, s, acts[0]), acts[1..]);
    }
  }

  /** In every reachable state each notification declared exhausted has a copy in a dead queue. */
  lemma ExhaustedIsInDead(cfg: Config, s: State, k: nat)
    requires Reachable(cfg, s) && k < |s.core.settlements| && s.core.settlements[k].verdict.Exhausted?
    ensures InDead(s.core, s.core.settlements[k].id)
  {
    assert ExhaustedDead(INITIAL);
    hide Inv, InDead, Runs, Final;
    InitialOk(cfg);
    var acts :| Runs(cfg, INITIAL, acts) && Final(cfg, INITIAL, acts) == s;
    RunExhausted(cfg, INITIAL, acts);
  }

  // ----- A rejected notification in no dead queue -----

  lemma StaysOut(cfg: Config, s: State, f: nat, t: string)
    requires Reachable(cfg, s) && f in s.flights && s.flights[f].ops != [] && !InDead(s.core, t)
    requires !ForwardArrives(s.flights[f].ops[0])
    ensures !InDead(WorkerNext(s, f).core, t)
  {
    hide Inv, InDead, Reachable;
    ReachableOk(cfg, s);
    WorkerDead(cfg, s, f, t);
  }

  /** The calls of a rejection whose forward is lost. */
  lemma LostOps(cfg: Config, s: State, k: nat) returns (s': State)
    requires Reachable(cfg, s) && k in s.core.copies && s.core.copies[k].queue.Work? && s.flights == map[]
    requires !InDead(s.core, s.core.copies[k].body.id)
    ensures Reachable(cfg, s') && s'.flights.Keys == {s.core.next} && !InDead(s'.core, s.core.copies[k].body.id)
    ensures var f := s'.flights[s.core.next];
      && f.copy == s.core.copies[k] && f.owned && |f.ops| == 5
      && f.ops[0].StoreStatus? && f.ops[1] == Send(TerminalError) && f.ops[2].StoreStatus?
      && f.ops[3].Forward? && f.ops[3].fate.Dropped? && f.ops[4].Ack?
  {
    var a := WorkerAnswers(true, TerminalError, "", Dropped, true);
    Taken(cfg, s, k, a);
    DeliverDead(cfg, s, k, a, s.core.copies[k].body.id);
    s' := DeliverNext(cfg, s, k, a);
    hide Reachable, InDead, Decode, RetryPublishing, ValidChannel, Resolve;
  }

  lemma KeepsVerdict(s: State, f: nat, v: Settlement)
    requires f in s.flights && s.flights[f].ops != []
    ensures v in s.core.settlements ==> v in WorkerNext(s, f).core.settlements
    ensures s.flights[f].ops[0] == Send(TerminalError) ==>
      Settlement(s.flights[f].copy.body.id, Rejected) in WorkerNext(s, f).core.settlements
    ensures !LeavesBroker(s.flights[f].ops[0]) ==> WorkerNext(s, f).flights.Keys == s.flights.Keys
    ensures LeavesBroker(s.flights[f].ops[0]) ==> WorkerNext(s, f).flights == s.flights - {f}
  {
    hide Perform, ForwardArrives;
    var flight := s.flights[f];
    if !LeavesBroker(flight.ops[0]) { PerformVerdict(s.core, flight.copy, flight.settled, flight.ops[0]); }
  }

  /** One call of a handling that stays out of the dead queues. */
  lemma OneCall(cfg: Config, s: State, f: nat, t: string)
    requires Reachable(cfg, s) && s.flights.Keys == {f} && s.flights[f].ops != [] && !InDead(s.core, t)
    requires !LeavesBroker(s.flights[f].ops[0]) && !ForwardArrives(s.flights[f].ops[0])
    ensures var s', op := WorkerNext(s, f), s.flights[f].ops[0];
      && Reachable(cfg, s') && s'.flights.Keys == {f} && !InDead(s'.core, t)
      && s'.flights[f].ops == s.flights[f].ops[1..] && s'.flights[f].copy == s.flights[f].copy
      && (Settlement(t, Rejected) in s.core.settlements ==> Settlement(t, Rejected) in s'.core.settlements)
      && (op == Send(TerminalError) && s.flights[f].copy.body.id == t ==>
            Settlement(t, Rejected) in s'.core.settlements)
  {
    hide Reachable, InDead, WorkerNext;
    WorkerGoesOn(cfg, s, f);
    StaysOut(cfg, s, f, t);
    KeepsVerdict(s, f, Settlement(t, Rejected));
  }

  lemma LostForward(cfg: Config, s: State, k: nat) returns (s': State)
    requires Reachable(cfg, s) && k in s.core.copies && s.core.copies[k].queue.Work? && s.flights == map[]
    requires !InDead(s.core, s.core.copies[k].body.id)
    ensures var t := s.core.copies[k].body.id;
      && Reachable(cfg, s') && s'.flights == map[] && !InDead(s'.core, t)
      && Settlement(t, Rejected) in s'.core.settlements
  {
    hide Reachable, InDead, WorkerNext;
    var t, f := s.core.copies[k].body.id, s.core.next;
    var s1 := LostOps(cfg, s, k);
    var ops := s1.flights[f].ops;
    OneCall(cfg, s1, f, t);
    var s2 := WorkerNext(s1, f);
    OneCall(cfg, s2, f, t);
    var s3 := WorkerNext(s2, f);
    OneCall(cfg, s3, f, t);
    var s4 := WorkerNext(s3, f);
    assert s4.flights[f].ops[0] == ops[3];
    OneCall(cfg, s4, f, t);
    var s5 := WorkerNext(s4, f);
    assert s5.flights[f].ops[0] == ops[4];
    s' := Acked(cfg, s5, f, t);
  }

  lemma Acked(cfg: Config, s: State, f: nat, t: string) returns (s': State)
    requires Reachable(cfg, s) && s.flights.Keys == {f} && s.flights[f].ops != [] && s.flights[f].ops[0].Ack?
    requires !InDead(s.core, t) && Settlement(t, Rejected) in s.core.settlements
    ensures Reachable(cfg, s') && s'.flights == map[] && !InDead(s'.core, t)
    ensures Settlement(t, Rejected) in s'.core.settlements
  {
    hide Reachable, InDead;
    ReachableNext(cfg, s, WorkerStep(f));
    StaysOut(cfg, s, f, t);
    KeepsVerdict(s, f, Settlement(t, Rejected));
    s' := WorkerNext(s, f);
  }

  /** A reachable state in which a notification has been rejected for good, nothing of it is left in a handler's hands,
      and no dead queue holds it. */
  lemma RejectedNowhere(cfg: Config) returns (s: State, t: string)
    requires cfg.relayBatch > 0
    ensures Reachable(cfg, s) && Settlement(t, Rejected) in s.core.settlements && s.flights == map[]
    ensures !InDead(s.core, t)
  {
    var start := Arrives(cfg);
    t := start.core.copies[2].body.id;
    assert !InDead(start.core, t);
    hide Reachable, InDead;
    s := LostForward(cfg, start, 2);
  }
}
