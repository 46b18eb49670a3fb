/** Counting responsibility. A notification's tokens are its pending outbox row, its copies waiting in
    work and retry queues, its deliveries whose handler has not yet moved them on, and the verdicts
    reached. No step ever lowers the count, and only the named faults raise it. */
module PipelineTokens {
  import opened Basics
  import opened Uuids
  import opened Domain
  import opened Wire
  import opened Topology
  import opened Pipeline
  import opened PipelineInvariant
  import opened PipelineSteps

  // ----- The tokens of a notification, named by its printed identifier -----

  /** A pending row counts until a pass has had its publish confirmed; if that pass's transaction is
      lost it counts again. */
  predicate PendingFor(row: OutboxRow, t: string)
  {
    !row.published && !(row.lock.Held? && row.lock.shipped) && Uuids.Print(row.notification) == t
  }

  predicate WaitingFor(copy: Copy, t: string)
  {
    !copy.queue.Dead? && copy.body.id == t
  }

  predicate CarriedFor(f: Flight, t: string)
  {
    f.owned && !f.settled && f.copy.body.id == t
  }

  function Pending(outbox: map<nat, OutboxRow>, t: string): set<nat>
  {
    set r | r in outbox && PendingFor(outbox[r], t)
  }

  function Waiting(copies: map<nat, Copy>, t: string): set<nat>
  {
    set k | k in copies && WaitingFor(copies[k], t)
  }

  function Carried(flights: map<nat, Flight>, t: string): set<nat>
  {
    set f | f in flights && CarriedFor(flights[f], t)
  }

  function Verdicts(settlements: seq<Settlement>, t: string): set<nat>
  {
    set k: nat | k < |settlements| && settlements[k].id == t
  }

  function CoreTokens(core: Core, t: string): nat
  {
    |Waiting(core.copies, t)| + |Verdicts(core.settlements, t)|
  }

  function Tokens(s: State, t: string): nat
  {
    |Pending(s.outbox, t)| + |Carried(s.flights, t)| + CoreTokens(s.core, t)
  }

  // ----- The faults that duplicate -----

  /** Rows whose confirmed publish is forgotten when a relay transaction ends. */
  function Forgotten(outbox: map<nat, OutboxRow>, p: nat, applied: bool, t: string): set<nat>
  {
    set r | r in outbox && HeldBy(outbox[r], p) && outbox[r].lock.shipped
            && !(applied && outbox[r].lock.mark.Published?) && Uuids.Print(outbox[r].notification) == t
  }

  function One(b: bool): nat { if b then 1 else 0 }

  function RelayDuplicates(s: State, p: nat, t: string): nat
    requires p in s.passes && s.passes[p].ops != []
  {
    match s.passes[p].ops[0]
    case Ship(_, _, payload, fate) => One(fate.Unconfirmed? && payload.id == t)
    case MarkRow(_, _, _) => 0
    case Commit(applied) => |Forgotten(s.outbox, p, applied, t)|
  }

  function WorkerDuplicates(f: Flight, t: string): nat
    requires f.ops != []
  {
    match f.ops[0]
    case Send(reply) => One(!reply.TransientError? && !f.owned && f.copy.body.id == t)
    case Forward(p, fate) =>
      One(f.copy.body.id == t
          && ((fate.Confirmed? && !f.settled && !f.owned) || (fate.Unconfirmed? && p.ttl.Some?)))
    case _ => 0
  }

  /** How many tokens a step adds to a notification: an outbox or retry publish that arrived though it
      looked failed, a relay transaction lost after a confirmed publish, a handling repeated because
      the message was given back after it had been moved on, and every rescue by the janitor. */
  function Duplicates(s: State, a: Action, t: string): nat
  {
    match a
    case RelayStep(p) => if p in s.passes && s.passes[p].ops != [] then RelayDuplicates(s, p, t) else 0
    case RelayCrash(p) => |Forgotten(s.outbox, p, false, t)|
    case WorkerStep(f) => if f in s.flights && s.flights[f].ops != [] then WorkerDuplicates(s.flights[f], t) else 0
    case WorkerCrash(f) => if f in s.flights then GivenBack(s.flights[f], t) else 0
    case ConnectionLost(f) => if f in s.flights then GivenBack(s.flights[f], t) else 0
    case RescueStep(j) => if j in s.rescues && s.rescues[j] != [] then RescueDuplicates(s.rescues[j][0], t) else 0
    case _ => 0
  }

  /** A message that is given back although its handler has moved it on. */
  function GivenBack(f: Flight, t: string): nat
  {
    One(f.owned && f.settled && f.copy.body.id == t)
  }

  function RescueDuplicates(op: RescueOp, t: string): nat
  {
    One(op.Republish? && !op.fate.Dropped? && op.body.id == t)
  }

  function Created(a: Action, t: string): nat
  {
    One(a.Submit? && Uuids.Print(a.content.id) == t)
  }

  // ----- How the calls change the counts -----

  lemma PutTokens(core: Core, copy: Copy, t: string)
    requires core.next !in core.copies
    ensures CoreTokens(Put(core, copy), t) == CoreTokens(core, t) + One(WaitingFor(copy, t))
  {
    var w, w' := Waiting(core.copies, t), Waiting(Put(core, copy).copies, t);
    assert w' == if WaitingFor(copy, t) then w + {core.next} else w;
  }

  lemma SettleTokens(core: Core, id: string, verdict: Verdict, t: string)
    ensures CoreTokens(Settle(core, id, verdict), t) == CoreTokens(core, t) + One(id == t)
  {
    var v, v' := Verdicts(core.settlements, t), Verdicts(Settle(core, id, verdict).settlements, t);
    assert v' == if id == t then v + {|core.settlements|} else v;
  }

  lemma RemovedTokens(core: Core, k: nat, t: string)
    requires k in core.copies
    ensures CoreTokens(Removed(core, k), t) + One(WaitingFor(core.copies[k], t)) == CoreTokens(core, t)
  {
    var w, w' := Waiting(core.copies, t), Waiting(Removed(core, k).copies, t);
    assert w' == w - {k};
  }

  lemma DepositTokens(core: Core, q: Queue, copy: Copy, fate: Fate, t: string)
    requires core.next !in core.copies
    ensures CoreTokens(Deposit(core, Some(q), copy, fate), t)
         == CoreTokens(core, t) + One(!fate.Dropped? && !q.Dead? && copy.body.id == t)
  {
    PutTokens(core, copy.(queue := q), t);
  }

  lemma FlightTaken(flights: map<nat, Flight>, f: nat, t: string)
    requires f in flights
    ensures |Carried(flights, t)| == |Carried(flights - {f}, t)| + One(CarriedFor(flights[f], t))
  {
    var c := Carried(flights - {f}, t);
    assert Carried(flights, t) == if CarriedFor(flights[f], t) then c + {f} else c;
  }

  lemma FlightPut(flights: map<nat, Flight>, f: nat, flight: Flight, t: string)
    ensures |Carried(flights[f := flight], t)| == |Carried(flights - {f}, t)| + One(CarriedFor(flight, t))
  {
    var flights' := flights[f := flight];
    assert flights' - {f} == flights - {f};
    FlightTaken(flights', f, t);
  }

  lemma RowTaken(outbox: map<nat, OutboxRow>, r: nat, t: string)
    requires r in outbox
    ensures |Pending(outbox, t)| == |Pending(outbox - {r}, t)| + One(PendingFor(outbox[r], t))
  {
    hide PendingFor;
    var c := Pending(outbox - {r}, t);
    assert Pending(outbox, t) == if PendingFor(outbox[r], t) then c + {r} else c;
  }

  lemma RowPut(outbox: map<nat, OutboxRow>, r: nat, row: OutboxRow, t: string)
    ensures |Pending(outbox[r := row], t)| == |Pending(outbox - {r}, t)| + One(PendingFor(row, t))
  {
    var outbox' := outbox[r := row];
    assert outbox' - {r} == outbox - {r};
    RowTaken(outbox', r, t);
  }

  lemma LockTokens(outbox: map<nat, OutboxRow>, rows: seq<nat>, p: nat, t: string)
    requires forall r | r in rows :: r in outbox && outbox[r].lock.Free?
    ensures |Pending(LockRows(outbox, rows, p), t)| == |Pending(outbox, t)|
  {
    assert Pending(LockRows(outbox, rows, p), t) == Pending(outbox, t);
  }

  lemma ReleaseTokens(outbox: map<nat, OutboxRow>, p: nat, applied: bool, t: string)
    requires forall r | r in outbox && outbox[r].lock.Held? ::
      !outbox[r].published && (outbox[r].lock.mark.Published? ==> outbox[r].lock.shipped)
    ensures |Pending(Release(outbox, p, applied), t)| == |Pending(outbox, t)| + |Forgotten(outbox, p, applied, t)|
  {
    var before, after := Pending(outbox, t), Pending(Release(outbox, p, applied), t);
    var forgotten := Forgotten(outbox, p, applied, t);
    assert after == before + forgotten && before !! forgotten;
  }

  // ----- The accounting of every step -----

  lemma SubmitTokens(s: State, content: Content, t: string)
    requires s.core.next !in s.outbox
    ensures Tokens(SubmitNext(s, content), t) == Tokens(s, t) + One(Uuids.Print(content.id) == t)
  {
    hide Carried, Pending, Encode, Uuids.Print;
    var row := OutboxRow(content.id, content.channel, Encode(content, 0), false, 0, Free);
    RowPut(s.outbox, s.core.next, row, t);
    assert s.outbox - {s.core.next} == s.outbox;
  }

  lemma ClaimTokens(s: State, rows: seq<nat>, answers: seq<RelayAnswers>, applied: bool, t: string)
    requires |rows| == |answers| && forall r | r in rows :: r in s.outbox && s.outbox[r].lock.Free?
    ensures Tokens(ClaimNext(s, rows, answers, applied), t) == Tokens(s, t)
  {
    hide Carried, Pending, LockRows, ItemsOps;
    LockTokens(s.outbox, rows, s.core.next, t);
  }

  lemma ShipTokens(cfg: Config, s: State, p: nat, t: string)
    requires Inv(cfg, s) && p in s.passes && s.passes[p].ops != [] && s.passes[p].ops[0].Ship?
    ensures Tokens(RelayNext(s, p), t) == Tokens(s, t) + RelayDuplicates(s, p, t)
  {
    hide Carried, Pending, Encode, Post, RowOk, LockOk, CoreTokens, ShipEffect, PendingFor, RelaySafe,
         FlightsOk, RescuesOk;
    var op, s' := s.passes[p].ops[0], RelayNext(s, p);
    assert PassOk(s.outbox, p, s.passes[p]);
    HeadHolds(s.outbox, p, s.passes[p].ops);
    var row := s.outbox[op.row];
    assert RowOk(s.core, row);
    RowIdentity(s.core, row);
    ShipPosts(cfg, s, op.row, op, t);
    ShipRow(s.outbox, op.row, op.fate, t);
    var posted := Post(s.core, op.publishing, op.payload, op.fate, op.publishing.attempt, []);
    assert CoreTokens(s'.core, t) == CoreTokens(posted, t) by { SameTokens(s'.core, posted, t); }
  }

  lemma SameTokens(core: Core, core': Core, t: string)
    requires core.copies == core'.copies && core.settlements == core'.settlements
    ensures CoreTokens(core, t) == CoreTokens(core', t)
  {}

  /** A confirmed publish takes the row's token to the copy. */
  lemma ShipRow(outbox: map<nat, OutboxRow>, r: nat, fate: Fate, t: string)
    requires r in outbox && outbox[r].lock.Held? && !outbox[r].lock.shipped && !outbox[r].published
    ensures |Pending(ShipEffect(outbox, r, fate), t)| + One(fate.Confirmed? && Uuids.Print(outbox[r].notification) == t)
         == |Pending(outbox, t)|
  {
    hide Pending, Uuids.Print;
    RowTaken(outbox, r, t);
    if fate.Confirmed? {
      RowPut(outbox, r, outbox[r].(lock := outbox[r].lock.(shipped := true)), t);
    }
  }

  lemma RowIdentity(core: Core, row: OutboxRow)
    requires LogOk(core.log) && RowOk(core, row)
    ensures row.payload.id == Uuids.Print(row.notification) && ValidChannel(row.channel)
    ensures row.lock.Held? ==> !row.published && (row.lock.mark.Published? ==> row.lock.shipped)
  {}

  lemma ShipPosts(cfg: Config, s: State, r: nat, op: RelayOp, t: string)
    requires CoreOk(cfg, s.core) && op.Ship? && r in s.outbox && ValidChannel(s.outbox[r].channel)
    requires op.publishing == Publishing(EXCHANGE, RoutingKey(s.outbox[r].channel), op.publishing.attempt, None)
    ensures CoreTokens(Post(s.core, op.publishing, op.payload, op.fate, op.publishing.attempt, []), t)
         == CoreTokens(s.core, t) + One(!op.fate.Dropped? && op.payload.id == t)
  {
    hide Resolve, CoreTokens;
    ResolveBinding(s.outbox[r].channel);
    FreshKeys(cfg, s.core);
    DepositTokens(s.core, Work(s.outbox[r].channel), Sealed(op.publishing, op.payload, op.publishing.attempt, []),
                  op.fate, t);
  }

  lemma FreshKeys(cfg: Config, core: Core)
    requires CoreOk(cfg, core)
    ensures core.next !in core.copies
  {
    hide CopyOk, Known, LogOk;
  }

  lemma MarkTokens(s: State, p: nat, t: string)
    requires p in s.passes && s.passes[p].ops != [] && s.passes[p].ops[0].MarkRow?
    ensures Tokens(RelayNext(s, p), t) == Tokens(s, t)
  {
    hide Carried, Pending, CoreTokens, Uuids.Print;
    var op := s.passes[p].ops[0];
    if MarkEffect(s.outbox, op.row, op.mark, op.stored) != s.outbox {
      RowTaken(s.outbox, op.row, t);
      RowPut(s.outbox, op.row, s.outbox[op.row].(lock := s.outbox[op.row].lock.(mark := op.mark)), t);
    }
  }

  lemma EndTokens(cfg: Config, s: State, p: nat, applied: bool, t: string)
    requires Inv(cfg, s)
    ensures Tokens(s.(outbox := Release(s.outbox, p, applied), passes := s.passes - {p}), t)
         == Tokens(s, t) + |Forgotten(s.outbox, p, applied, t)|
  {
    hide Carried, Pending, CoreTokens, Forgotten, Release, RowOk, Uuids.Print, PassOk, FlightsOk, RescuesOk,
         CopyOk, Known;
    forall r | r in s.outbox && s.outbox[r].lock.Held?
      ensures !s.outbox[r].published && (s.outbox[r].lock.mark.Published? ==> s.outbox[r].lock.shipped)
    {
      RowIdentity(s.core, s.outbox[r]);
    }
    ReleaseTokens(s.outbox, p, applied, t);
  }

  lemma DeliverTokens(cfg: Config, s: State, k: nat, a: WorkerAnswers, t: string)
    requires Inv(cfg, s) && k in s.core.copies && s.core.copies[k].queue.Work?
    ensures Tokens(DeliverNext(cfg, s, k, a), t) == Tokens(s, t)
  {
    hide Carried, Pending, CoreTokens, HandleOps, CoreOk, OutboxOk, PassesOk, RescuesOk, FlightOk;
    var s' := DeliverNext(cfg, s, k, a);
    RemovedTokens(s.core, k, t);
    SameTokens(Removed(s.core, k), s'.core, t);
    assert s.core.next !in s.flights;
    assert s.flights - {s.core.next} == s.flights;
    FlightPut(s.flights, s.core.next, s'.flights[s.core.next], t);
  }

  /** A call of a handler moves its token to a verdict or a retry copy, or leaves it where it is. */
  lemma PerformTokens(cfg: Config, core: Core, f: Flight, t: string)
    requires CoreOk(cfg, core) && FlightOk(cfg, core.log, f) && !LeavesBroker(f.ops[0])
    ensures var (core', settled) := Perform(core, f.copy, f.settled, f.ops[0]);
      CoreTokens(core', t) + One(CarriedFor(f.(settled := settled), t))
        == CoreTokens(core, t) + One(CarriedFor(f, t)) + WorkerDuplicates(f, t)
  {
    hide CoreTokens, CopyOk, Known, LogOk, Post;
    FreshKeys(cfg, core);
    match f.ops[0]
    case StoreStatus(id, status, attempt, lastError, stored) =>
      SameTokens(core, Store(core, id, status, attempt, lastError, stored), t);
    case Send(reply) =>
      SettleTokens(core, f.copy.body.id, if reply.Delivered? then Accepted else Rejected, t);
    case Forward(p, fate) =>
      var posted := Post(core, p, f.copy.body, fate, f.copy.entered, f.copy.waited);
      ForwardPosts(cfg, core, f, t);
      SettleTokens(posted, f.copy.body.id, Exhausted, t);
    case _ =>
  }

  lemma ForwardPosts(cfg: Config, core: Core, f: Flight, t: string)
    requires CoreOk(cfg, core) && FlightOk(cfg, core.log, f) && f.ops[0].Forward?
    ensures var op := f.ops[0];
      var posted := Post(core, op.publishing, f.copy.body, op.fate, f.copy.entered, f.copy.waited);
      && CoreTokens(posted, t)
           == CoreTokens(core, t) + One(!op.fate.Dropped? && op.publishing.ttl.Some? && f.copy.body.id == t)
      && (f.settled ==> op.publishing.ttl.None?)
  {
    hide CoreTokens, Resolve, Carries, Lineage, Known, LogOk;
    var c, op := f.copy.queue.channel, f.ops[0];
    var attempt := if f.settled then cfg.maxRetries else f.copy.attempt;
    FreshKeys(cfg, core);
    assert ValidChannel(c);
    RetryResolves(c, attempt, cfg.maxRetries);
    DepositTokens(core, if GoesToDead(attempt, cfg.maxRetries) then Dead(c) else Retry(c),
                  Sealed(op.publishing, f.copy.body, f.copy.entered, f.copy.waited), op.fate, t);
  }

  lemma WorkerTokens(cfg: Config, s: State, f: nat, t: string)
    requires Inv(cfg, s) && f in s.flights && s.flights[f].ops != []
    ensures Tokens(WorkerNext(s, f), t) == Tokens(s, t) + WorkerDuplicates(s.flights[f], t)
  {
    hide Carried, Pending, CoreTokens, OutboxOk, PassesOk, RescuesOk, CoreOk, Perform, WorkerDuplicates, Safe, CopyOk;
    var flight, s' := s.flights[f], WorkerNext(s, f);
    assert FlightOk(cfg, s.core.log, flight);
    FlightTaken(s.flights, f, t);
    if LeavesBroker(flight.ops[0]) {
      SafeHead(cfg, flight.copy, flight.ops, flight.settled);
      ConcludeTokens(cfg, s.core, flight, t);
    } else {
      PerformTokens(cfg, s.core, flight, t);
      FlightPut(s.flights, f, s'.flights[f], t);
    }
  }

  lemma ConcludeTokens(cfg: Config, core: Core, f: Flight, t: string)
    requires CoreOk(cfg, core) && f.copy.queue.Work? && f.ops != []
    requires (f.ops[0].Ack? && f.settled) || (f.ops[0].Nack? && !f.settled)
    ensures CoreTokens(if f.owned then Conclude(core, f.copy, f.ops[0]) else core, t)
         == CoreTokens(core, t) + One(CarriedFor(f, t))
    ensures WorkerDuplicates(f, t) == 0
  {
    hide CoreTokens;
    FreshKeys(cfg, core);
    PutTokens(core, f.copy, t);
  }

  lemma GiveBackTokens(cfg: Config, s: State, f: nat, t: string)
    requires Inv(cfg, s) && f in s.flights
    ensures var dup := GivenBack(s.flights[f], t);
      && Tokens(WorkerCrashNext(s, f), t) == Tokens(s, t) + dup
      && (s.flights[f].owned ==> Tokens(ConnectionLostNext(s, f), t) == Tokens(s, t) + dup)
  {
    hide Carried, Pending, CoreTokens, OutboxOk, PassesOk, RescuesOk, Safe, CopyOk, LogOk, Known;
    var flight := s.flights[f];
    assert FlightOk(cfg, s.core.log, flight);
    FreshKeys(cfg, s.core);
    FlightTaken(s.flights, f, t);
    FlightPut(s.flights, f, flight.(owned := false), t);
    PutTokens(s.core, flight.copy, t);
  }

  lemma ExpireTokens(cfg: Config, s: State, k: nat, t: string)
    requires Inv(cfg, s) && k in s.core.copies && s.core.copies[k].queue.Retry?
    ensures Tokens(ExpireNext(s, k), t) == Tokens(s, t)
  {
    hide Carried, Pending, CoreTokens, OutboxOk, PassesOk, FlightsOk, RescuesOk, CoreOk, ExpireNext;
    var copy := s.core.copies[k];
    ExpireKeeps(cfg, s, k);
    RemovedTokens(s.core, k, t);
    RemovedKeeps(cfg, s.core, k);
    FreshKeys(cfg, Removed(s.core, k));
    PutTokens(Removed(s.core, k), copy.(queue := Work(copy.queue.channel)), t);
  }

  lemma RescueTokens(cfg: Config, s: State, j: nat, t: string)
    requires Inv(cfg, s) && j in s.rescues && s.rescues[j] != []
    ensures Tokens(RescueNext(s, j), t) == Tokens(s, t) + RescueDuplicates(s.rescues[j][0], t)
  {
    hide Carried, Pending, CoreTokens, OutboxOk, PassesOk, FlightsOk, CoreOk, Resolve, Carries;
    var op := s.rescues[j][0];
    assert RescueSafe(s.core.log, op);
    FreshKeys(cfg, s.core);
    match op
    case Republish(p, body, fate) =>
      ResolveBinding(body.channel);
      DepositTokens(s.core, Work(body.channel), Sealed(p, body, p.attempt, []), fate, t);
    case Reset(id, attempt, stored) =>
      SameTokens(s.core, Store(s.core, id, Enqueued, attempt, RESCUED, stored), t);
  }

  lemma RelayTokens(cfg: Config, s: State, p: nat, t: string)
    requires Inv(cfg, s) && p in s.passes && s.passes[p].ops != []
    ensures Tokens(RelayNext(s, p), t) == Tokens(s, t) + RelayDuplicates(s, p, t)
  {
    hide Inv, Tokens, Forgotten, Release;
    match s.passes[p].ops[0]
    case Ship(_, _, _, _) => ShipTokens(cfg, s, p, t);
    case MarkRow(_, _, _) => MarkTokens(s, p, t);
    case Commit(applied) => EndTokens(cfg, s, p, applied, t);
  }

  /** The exact account: a step adds one token to the notification it creates, one for every duplicating
      fault it is, and takes none away. */
  lemma StepTokens(cfg: Config, s: State, a: Action, t: string)
    requires Inv(cfg, s) && Enabled(cfg, s, a)
    ensures Tokens(Next(cfg, s, a), t) == Tokens(s, t) + Created(a, t) + Duplicates(s, a, t)
  {
    hide Inv, Tokens, SubmitNext, ClaimNext, DeliverNext, WorkerNext, WorkerCrashNext, ConnectionLostNext,
         ExpireNext, ListStuckNext, RescueNext, Forgotten, RelayDuplicates, WorkerDuplicates,
         GivenBack, RescueDuplicates;
    match a
    case Submit(content) => FreshRow(cfg, s); SubmitTokens(s, content, t);
    case Claim(rows, answers, applied) => ClaimTokens(s, rows, answers, applied, t);
    case RelayStep(p) => RelayTokens(cfg, s, p, t);
    case RelayCrash(p) => EndTokens(cfg, s, p, false, t);
    case Deliver(k, answers) => DeliverTokens(cfg, s, k, answers, t);
    case WorkerStep(f) => WorkerTokens(cfg, s, f, t);
    case WorkerCrash(f) => GiveBackTokens(cfg, s, f, t);
    case ConnectionLost(f) => GiveBackTokens(cfg, s, f, t);
    case Expire(k) => ExpireTokens(cfg, s, k, t);
    case ListStuck(ids, answers) => ListTokens(s, ids, answers, t);
    case RescueStep(j) => RescueTokens(cfg, s, j, t);
    case RescueCrash(j) => IdleTokens(s, s.(rescues := s.rescues - {j}), t);
  }

  lemma ListTokens(s: State, ids: seq<Uuid>, answers: seq<RescueAnswers>, t: string)
    requires |ids| == |answers| && forall id | id in ids :: id in s.core.log
    ensures Tokens(ListStuckNext(s, ids, answers), t) == Tokens(s, t)
  {
    hide Tokens, RescueOps;
    IdleTokens(s, ListStuckNext(s, ids, answers), t);
  }

  lemma FreshRow(cfg: Config, s: State)
    requires Inv(cfg, s)
    ensures s.core.next !in s.outbox
  {
    hide RowOk, PassesOk, FlightsOk, RescuesOk, CoreOk;
  }

  lemma IdleTokens(s: State, s': State, t: string)
    requires s'.outbox == s.outbox && s'.flights == s.flights
    requires s'.core.copies == s.core.copies && s'.core.settlements == s.core.settlements
    ensures Tokens(s', t) == Tokens(s, t)
  {}
}
