/** The delivery pipeline as a step system. Submits, relay passes, worker handlings and janitor
    passes interleave freely; one step is one call on the database, the broker or the provider.
    What the ports will answer is fixed when a pass or a handling starts, so that its remaining calls
    are a list; any process may crash between two calls, and the broker may drop a connection and
    redeliver a message whose handler still runs. */
module Pipeline {
  import opened Basics
  import opened Uuids
  import opened Domain
  import opened Wire
  import opened Topology

  // ----- The stored state -----

  datatype LogRow = LogRow(content: Content, status: Status, attempt: int, lastError: string)

  /** What an open relay transaction has written to a row it holds. */
  datatype Mark = Unmarked | Published | StillPending(attempts: int)

  /** shipped: the holding pass has had this row's publish confirmed. */
  datatype Lock = Free | Held(pass: nat, shipped: bool, mark: Mark)

  datatype OutboxRow = OutboxRow(
    notification: Uuid, channel: Channel, payload: Message, published: bool, attempts: int, lock: Lock)

  /** A message in a queue: the attempt header, the attempt it entered the broker with and the waits
      it has been given since. */
  datatype Copy = Copy(queue: Queue, body: Message, attempt: int, entered: int, waited: seq<int>)

  datatype Verdict = Accepted | Rejected | Exhausted

  /** A final answer reached for a notification: the provider accepted it, rejected it for good, or
      the retries ran out. */
  datatype Settlement = Settlement(id: string, verdict: Verdict)

  /** What the calls of the use cases change; shipments are the confirmed publishes of outbox rows. */
  datatype Core = Core(
    log: map<Uuid, LogRow>, copies: map<nat, Copy>, settlements: seq<Settlement>,
    shipments: set<(Channel, Message)>, next: nat)

  /** A publish arrives and is confirmed, arrives though the publisher sees an error, or is lost. */
  datatype Fate = Confirmed | Unconfirmed | Dropped

  function Store(core: Core, id: Uuid, status: Status, attempt: int, lastError: string, stored: bool): Core
  {
    if stored && id in core.log then
      core.(log := core.log[id := core.log[id].(status := status, attempt := attempt, lastError := lastError)])
    else core
  }

  function Put(core: Core, copy: Copy): Core
  {
    core.(copies := core.copies[core.next := copy], next := core.next + 1)
  }

  function Deposit(core: Core, q: Option<Queue>, copy: Copy, fate: Fate): Core
  {
    if fate.Dropped? || q.None? then core else Put(core, copy.(queue := q.value))
  }

  /** The message a publish makes: its header, and the waits so far with the new one. */
  function Sealed(p: Publishing, body: Message, entered: int, waited: seq<int>): Copy
  {
    Copy(Dead(""), body, ToInt32(p.attempt), entered, if p.ttl.Some? then waited + [p.ttl.value] else waited)
  }

  /** A publish: the broker routes by name and drops what no queue is bound to. */
  function Post(core: Core, p: Publishing, body: Message, fate: Fate, entered: int, waited: seq<int>): Core
  {
    Deposit(core, Resolve(p.exchange, p.key), Sealed(p, body, entered, waited), fate)
  }

  function Settle(core: Core, id: string, verdict: Verdict): Core
  {
    core.(settlements := core.settlements + [Settlement(id, verdict)])
  }

  // ----- The worker -----

  datatype Reply = Delivered | TransientError | TerminalError

  datatype WorkerAnswers = WorkerAnswers(
    inFlightStored: bool, reply: Reply, error: string, forward: Fate, finalStored: bool)

  datatype WorkerOp =
    | StoreStatus(id: Uuid, status: Status, attempt: int, lastError: string, stored: bool)
    | Send(reply: Reply)
    | Forward(publishing: Publishing, fate: Fate)
    | Ack
    | Nack
    | Reject
    | Panic

  /** The calls of one delivery attempt, given what the ports answer, and what it has the consumer tell
      the broker at the end. */
  function ExecuteOps(c: Channel, id: Uuid, header: int, maxRetries: nat, a: WorkerAnswers): seq<WorkerOp>
  {
    [StoreStatus(id, InFlight, header, "", a.inFlightStored), Send(a.reply)] +
    match a.reply
    case Delivered => [StoreStatus(id, Sent, header, "", a.finalStored), Ack]
    case TerminalError =>
      [StoreStatus(id, DeadLetter, header, a.error, a.finalStored),
       Forward(RetryPublishing(c, maxRetries, maxRetries), a.forward), Ack]
    case TransientError =>
      if header < 0 then [Panic]  // an index outside the schedule
      else
        [Forward(RetryPublishing(c, header, maxRetries), a.forward)] +
        if !a.forward.Confirmed? then [Nack]
        else [StoreStatus(id, if GoesToDead(header, maxRetries) then DeadLetter else Retrying,
                          header, a.error, a.finalStored), Ack]
  }

  /** The calls of one handling of a delivered message. */
  function HandleOps(c: Channel, body: Message, header: int, maxRetries: nat, a: WorkerAnswers): seq<WorkerOp>
  {
    match Decode(body)
    case None => [Reject]
    case Some(n) => ExecuteOps(c, n.content.id, header, maxRetries, a)
  }

  /** owned: the broker still counts the message as unacknowledged by this handler.
      settled: the handler has moved the message on, to a verdict or to the retry queue. */
  datatype Flight = Flight(copy: Copy, owned: bool, settled: bool, ops: seq<WorkerOp>)

  /** A worker's call on the database, the provider or the publisher. */
  function Perform(core: Core, copy: Copy, settled: bool, op: WorkerOp): (Core, bool)
  {
    match op
    case StoreStatus(id, status, attempt, lastError, stored) =>
      (Store(core, id, status, attempt, lastError, stored), settled)
    case Send(Delivered) => (Settle(core, copy.body.id, Accepted), true)
    case Send(TerminalError) => (Settle(core, copy.body.id, Rejected), true)
    case Forward(p, fate) =>
      var posted := Post(core, p, copy.body, fate, copy.entered, copy.waited);
      if settled || !fate.Confirmed? then (posted, settled)
      else (if p.ttl.None? then Settle(posted, copy.body.id, Exhausted) else posted, true)
    case _ => (core, settled)
  }

  predicate LeavesBroker(op: WorkerOp)
  {
    op.Ack? || op.Nack? || op.Reject? || op.Panic?
  }

  /** The broker's side of the last call of a handling. */
  function Conclude(core: Core, copy: Copy, op: WorkerOp): Core
  {
    match op
    case Nack => Put(core, copy)
    case Panic => Put(core, copy)
    case Reject =>
      if copy.queue.Dead? then core
      else Post(core, Publishing("", DeadLetterKey(copy.queue), copy.attempt, None), copy.body, Confirmed,
                copy.entered, copy.waited)
    case _ => core
  }

  // ----- The relay -----

  datatype Item = Item(row: nat, channel: Channel, payload: Message, attempts: int)

  datatype RelayAnswers = RelayAnswers(fate: Fate, stored: bool)

  datatype RelayOp =
    | Ship(row: nat, publishing: Publishing, payload: Message, fate: Fate)
    | MarkRow(row: nat, mark: Mark, stored: bool)
    | Commit(applied: bool)

  function ItemOps(it: Item, a: RelayAnswers): seq<RelayOp>
  {
    [Ship(it.row, Publishing(EXCHANGE, RoutingKey(it.channel), it.attempts, None), it.payload, a.fate),
     MarkRow(it.row, if a.fate.Confirmed? then Published else StillPending(it.attempts + 1), a.stored)]
  }

  function ItemsOps(items: seq<Item>, answers: seq<RelayAnswers>): seq<RelayOp>
    requires |items| == |answers|
  {
    if items == [] then [] else ItemOps(items[0], answers[0]) + ItemsOps(items[1..], answers[1..])
  }

  datatype Pass = Pass(items: seq<Item>, ops: seq<RelayOp>)

  function LockRows(outbox: map<nat, OutboxRow>, rows: seq<nat>, pass: nat): map<nat, OutboxRow>
  {
    map r | r in outbox :: if r in rows then outbox[r].(lock := Held(pass, false, Unmarked)) else outbox[r]
  }

  function ItemsOf(outbox: map<nat, OutboxRow>, rows: seq<nat>): (items: seq<Item>)
    requires forall r | r in rows :: r in outbox
    ensures |items| == |rows|
  {
    seq(|rows|, i requires 0 <= i < |rows| =>
      Item(rows[i], outbox[rows[i]].channel, outbox[rows[i]].payload, outbox[rows[i]].attempts))
  }

  /** A row when the transaction holding it ends. */
  function Freed(row: OutboxRow, applied: bool): OutboxRow
    requires row.lock.Held?
  {
    if !applied || row.lock.mark.Unmarked? then row.(lock := Free)
    else if row.lock.mark.Published? then row.(published := true, lock := Free)
    else row.(attempts := row.lock.mark.attempts, lock := Free)
  }

  predicate HeldBy(row: OutboxRow, pass: nat)
  {
    row.lock.Held? && row.lock.pass == pass
  }

  function Release(outbox: map<nat, OutboxRow>, pass: nat, applied: bool): map<nat, OutboxRow>
  {
    map r | r in outbox :: if HeldBy(outbox[r], pass) then Freed(outbox[r], applied) else outbox[r]
  }

  function ShipEffect(outbox: map<nat, OutboxRow>, row: nat, fate: Fate): map<nat, OutboxRow>
  {
    if row in outbox && outbox[row].lock.Held? && fate.Confirmed? then
      outbox[row := outbox[row].(lock := outbox[row].lock.(shipped := true))]
    else outbox
  }

  /** The attempts column is a 32-bit integer: a larger count is refused. */
  function MarkEffect(outbox: map<nat, OutboxRow>, row: nat, mark: Mark, stored: bool): map<nat, OutboxRow>
  {
    if row in outbox && outbox[row].lock.Held? && stored
       && (mark.StillPending? ==> mark.attempts <= MAX_INT32) then
      outbox[row := outbox[row].(lock := outbox[row].lock.(mark := mark))]
    else outbox
  }

  // ----- The janitor -----

  datatype RescueAnswers = RescueAnswers(fate: Fate, stored: bool)

  datatype RescueOp =
    | Republish(publishing: Publishing, body: Message, fate: Fate)
    | Reset(id: Uuid, attempt: int, stored: bool)

  const RESCUED: string := "rescued by janitor"

  function RowOps(row: LogRow, a: RescueAnswers): seq<RescueOp>
  {
    [Republish(Publishing(EXCHANGE, RoutingKey(row.content.channel), row.attempt, None),
               Encode(row.content, row.attempt), a.fate)] +
    if a.fate.Confirmed? then [Reset(row.content.id, row.attempt, a.stored)] else []
  }

  function RescueOps(rows: seq<LogRow>, answers: seq<RescueAnswers>): seq<RescueOp>
    requires |rows| == |answers|
  {
    if rows == [] then [] else RowOps(rows[0], answers[0]) + RescueOps(rows[1..], answers[1..])
  }

  function Rescue(core: Core, op: RescueOp): Core
  {
    match op
    case Republish(p, body, fate) => Post(core, p, body, fate, p.attempt, [])
    case Reset(id, attempt, stored) => Store(core, id, Enqueued, attempt, RESCUED, stored)
  }

  // ----- The step system -----

  datatype State = State(
    core: Core, outbox: map<nat, OutboxRow>, passes: map<nat, Pass>, flights: map<nat, Flight>,
    rescues: map<nat, seq<RescueOp>>)

  datatype Config = Config(maxRetries: nat, relayBatch: nat, rescueBatch: nat)

  const INITIAL: State := State(Core(map[], map[], [], {}, 0), map[], map[], map[], map[])

  datatype Action =
    | Submit(content: Content)
    | Claim(rows: seq<nat>, relayAnswers: seq<RelayAnswers>, applied: bool)
    | RelayStep(pass: nat)
    | RelayCrash(pass: nat)
    | Deliver(copy: nat, workerAnswers: WorkerAnswers)
    | WorkerStep(flight: nat)
    | WorkerCrash(flight: nat)
    | ConnectionLost(flight: nat)
    | Expire(copy: nat)
    | ListStuck(ids: seq<Uuid>, rescueAnswers: seq<RescueAnswers>)
    | RescueStep(rescue: nat)
    | RescueCrash(rescue: nat)

  predicate Distinct(rows: seq<nat>)
  {
    forall i, j | 0 <= i < j < |rows| :: rows[i] != rows[j]
  }

  /** The unique indexes on the log's identifier and event identifier. */
  predicate Insertable(log: map<Uuid, LogRow>, content: Content)
  {
    content.id !in log && forall id | id in log :: log[id].content.eventId != content.eventId
  }

  predicate Enabled(cfg: Config, s: State, a: Action)
  {
    match a
    case Submit(content) => ValidChannel(content.channel) && Insertable(s.core.log, content)
    case Claim(rows, answers, _) =>
      && 0 < |rows| == |answers| <= cfg.relayBatch
      && Distinct(rows)
      && forall r | r in rows :: r in s.outbox && !s.outbox[r].published && s.outbox[r].lock.Free?
    case RelayStep(p) => p in s.passes && s.passes[p].ops != []
    case RelayCrash(p) => p in s.passes
    case Deliver(k, _) => k in s.core.copies && s.core.copies[k].queue.Work?
    case WorkerStep(f) => f in s.flights && s.flights[f].ops != []
    case WorkerCrash(f) => f in s.flights
    case ConnectionLost(f) => f in s.flights && s.flights[f].owned
    case Expire(k) => k in s.core.copies && s.core.copies[k].queue.Retry?
    case ListStuck(ids, answers) =>
      && |ids| == |answers| <= cfg.rescueBatch
      && forall id | id in ids :: id in s.core.log && s.core.log[id].status == InFlight
    case RescueStep(j) => j in s.rescues && s.rescues[j] != []
    case RescueCrash(j) => j in s.rescues
  }

  function Tick(core: Core): Core
  {
    core.(next := core.next + 1)
  }

  /** The log row and the pending outbox row of one transaction. */
  function SubmitNext(s: State, content: Content): State
  {
    s.(core := Tick(s.core.(log := s.core.log[content.id := LogRow(content, Enqueued, 0, "")])),
       outbox := s.outbox[s.core.next :=
         OutboxRow(content.id, content.channel, Encode(content, 0), false, 0, Free)])
  }

  function ClaimNext(s: State, rows: seq<nat>, answers: seq<RelayAnswers>, applied: bool): State
    requires |rows| == |answers| && forall r | r in rows :: r in s.outbox
  {
    var items := ItemsOf(s.outbox, rows);
    s.(core := Tick(s.core), outbox := LockRows(s.outbox, rows, s.core.next),
       passes := s.passes[s.core.next := Pass(items, ItemsOps(items, answers) + [Commit(applied)])])
  }

  function RelayNext(s: State, p: nat): State
    requires p in s.passes && s.passes[p].ops != []
  {
    var pass := s.passes[p];
    var rest := s.passes[p := pass.(ops := pass.ops[1..])];
    match pass.ops[0]
    case Ship(row, publishing, payload, fate) =>
      var core := Post(s.core, publishing, payload, fate, publishing.attempt, []);
      var core' := if fate.Confirmed? && row in s.outbox
                   then core.(shipments := core.shipments + {(s.outbox[row].channel, payload)}) else core;
      s.(core := core', outbox := ShipEffect(s.outbox, row, fate), passes := rest)
    case MarkRow(row, mark, stored) => s.(outbox := MarkEffect(s.outbox, row, mark, stored), passes := rest)
    case Commit(applied) => s.(outbox := Release(s.outbox, p, applied), passes := s.passes - {p})
  }

  function RelayCrashNext(s: State, p: nat): State
  {
    s.(outbox := Release(s.outbox, p, false), passes := s.passes - {p})
  }

  function Removed(core: Core, k: nat): Core
  {
    core.(copies := core.copies - {k})
  }

  function DeliverNext(cfg: Config, s: State, k: nat, a: WorkerAnswers): State
    requires k in s.core.copies
  {
    var copy := s.core.copies[k];
    s.(core := Tick(Removed(s.core, k)),
       flights := s.flights[s.core.next :=
         Flight(copy, true, false, HandleOps(copy.queue.channel, copy.body, copy.attempt, cfg.maxRetries, a))])
  }

  function WorkerNext(s: State, f: nat): State
    requires f in s.flights && s.flights[f].ops != []
  {
    var flight := s.flights[f];
    var op := flight.ops[0];
    if LeavesBroker(op) then
      s.(core := if flight.owned then Conclude(s.core, flight.copy, op) else s.core, flights := s.flights - {f})
    else
      var (core, settled) := Perform(s.core, flight.copy, flight.settled, op);
      s.(core := core, flights := s.flights[f := flight.(settled := settled, ops := flight.ops[1..])])
  }

  function WorkerCrashNext(s: State, f: nat): State
    requires f in s.flights
  {
    s.(core := if s.flights[f].owned then Put(s.core, s.flights[f].copy) else s.core, flights := s.flights - {f})
  }

  function ConnectionLostNext(s: State, f: nat): State
    requires f in s.flights
  {
    s.(core := Put(s.core, s.flights[f].copy), flights := s.flights[f := s.flights[f].(owned := false)])
  }

  /** The waiting time is over: the retry queue dead-letters the message, headers kept. */
  function ExpireNext(s: State, k: nat): State
    requires k in s.core.copies && s.core.copies[k].queue.Retry?
  {
    var copy := s.core.copies[k];
    s.(core := Post(Removed(s.core, k), Publishing("", DeadLetterKey(copy.queue), copy.attempt, None), copy.body,
                    Confirmed, copy.entered, copy.waited))
  }

  function ListStuckNext(s: State, ids: seq<Uuid>, answers: seq<RescueAnswers>): State
    requires |ids| == |answers| && forall id | id in ids :: id in s.core.log
  {
    var rows := seq(|ids|, i requires 0 <= i < |ids| => s.core.log[ids[i]]);
    s.(core := Tick(s.core), rescues := s.rescues[s.core.next := RescueOps(rows, answers)])
  }

  function RescueNext(s: State, j: nat): State
    requires j in s.rescues && s.rescues[j] != []
  {
    s.(core := Rescue(s.core, s.rescues[j][0]), rescues := s.rescues[j := s.rescues[j][1..]])
  }

  function Next(cfg: Config, s: State, a: Action): State
    requires Enabled(cfg, s, a)
  {
    match a
    case Submit(content) => SubmitNext(s, content)
    case Claim(rows, answers, applied) => ClaimNext(s, rows, answers, applied)
    case RelayStep(p) => RelayNext(s, p)
    case RelayCrash(p) => RelayCrashNext(s, p)
    case Deliver(k, answers) => DeliverNext(cfg, s, k, answers)
    case WorkerStep(f) => WorkerNext(s, f)
    case WorkerCrash(f) => WorkerCrashNext(s, f)
    case ConnectionLost(f) => ConnectionLostNext(s, f)
    case Expire(k) => ExpireNext(s, k)
    case ListStuck(ids, answers) => ListStuckNext(s, ids, answers)
    case RescueStep(j) => RescueNext(s, j)
    case RescueCrash(j) => s.(rescues := s.rescues - {j})
  }

  /** Can the actions be taken one after the other from this state? */
  predicate Runs(cfg: Config, s: State, acts: seq<Action>)
    decreases |acts|
  {
    acts == [] || (Enabled(cfg, s, acts[0]) && Runs(cfg, Next(cfg, s, acts[0]), acts[1..]))
  }

  function Final(cfg: Config, s: State, acts: seq<Action>): State
    requires Runs(cfg, s, acts)
    decreases |acts|
  {
    if acts == [] then s else Final(cfg, Next(cfg, s, acts[0]), acts[1..])
  }
}
