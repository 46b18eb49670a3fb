/** What every step of the pipeline keeps: content and routing of every message, the retry lineage of
    every copy, the exclusive row locks of the relays, and the order in which a handler makes its calls. */
module PipelineInvariant {
  import opened Basics
  import opened Uuids
  import opened Domain
  import opened Wire
  import opened Topology
  import opened Pipeline

  // ----- Messages -----

  ghost predicate CarriesAs(log: map<Uuid, LogRow>, c: Channel, m: Message, id: Uuid)
  {
    id in log && log[id].content.channel == c && m == Encode(log[id].content, m.attempt)
  }

  /** The message is an encoding of a log row of this channel, whatever attempt it mentions. */
  ghost predicate Carries(log: map<Uuid, LogRow>, c: Channel, m: Message)
  {
    exists id :: CarriesAs(log, c, m, id)
  }

  /** The waits so far are the schedule from the attempt of entry up to the present attempt. */
  predicate Lineage(cfg: Config, copy: Copy)
  {
    && 0 <= copy.entered <= copy.attempt <= MAX_INT32
    && (copy.attempt == copy.entered ==> copy.waited == [])
    && (copy.attempt > copy.entered ==>
          copy.attempt <= Budget(cfg.maxRetries) && copy.waited == BACKOFF_SCHEDULE[copy.entered..copy.attempt])
  }

  /** A dead copy was live with as many attempts as it has waits and entries. It then either had spent the
      budget, or was rejected and given the header of a spent budget, cut to 32 bits. */
  predicate DeadLineage(cfg: Config, copy: Copy)
  {
    && Lineage(cfg, copy.(attempt := copy.entered + |copy.waited|))
    && ((copy.attempt == copy.entered + |copy.waited| && copy.attempt >= Budget(cfg.maxRetries))
        || copy.attempt == ToInt32(cfg.maxRetries))
  }

  ghost predicate CopyOk(cfg: Config, log: map<Uuid, LogRow>, copy: Copy)
  {
    && ValidChannel(copy.queue.channel)
    && Carries(log, copy.queue.channel, copy.body)
    && if copy.queue.Dead? then DeadLineage(cfg, copy) else Lineage(cfg, copy)
  }

  predicate LogOk(log: map<Uuid, LogRow>)
  {
    && (forall id | id in log ::
          log[id].content.id == id && ValidChannel(log[id].content.channel) && 0 <= log[id].attempt <= MAX_INT32)
    && (forall id, id' | id in log && id' in log && log[id].content.eventId == log[id'].content.eventId :: id == id')
  }

  ghost predicate CoreOk(cfg: Config, core: Core)
  {
    && LogOk(core.log)
    && (forall k | k in core.copies :: k < core.next && CopyOk(cfg, core.log, core.copies[k]))
    && (forall k | 0 <= k < |core.settlements| :: Known(core.log, core.settlements[k].id))
  }

  ghost predicate Known(log: map<Uuid, LogRow>, text: string)
  {
    exists id :: id in log && Uuids.Print(id) == text
  }

  /** Rows are never removed and their content never changes. */
  predicate LogGrows(log: map<Uuid, LogRow>, log': map<Uuid, LogRow>)
  {
    forall id | id in log :: id in log' && log'[id].content == log[id].content
  }

  predicate Grows(core: Core, core': Core)
  {
    LogGrows(core.log, core'.log) && core.shipments <= core'.shipments && core.next <= core'.next
  }

  // ----- Handlers -----

  /** The remaining calls of a handling: it acknowledges only what it has moved on, gives back only
      what it has not, forwards to the queue the attempt calls for, and neither rejects nor panics. */
  predicate Safe(cfg: Config, copy: Copy, ops: seq<WorkerOp>, settled: bool)
    decreases |ops|
  {
    ops != [] &&
    match ops[0]
    case StoreStatus(_, _, attempt, _, _) => attempt == copy.attempt && Safe(cfg, copy, ops[1..], settled)
    case Send(reply) => !settled && Safe(cfg, copy, ops[1..], !reply.TransientError?)
    case Forward(p, fate) =>
      && copy.attempt >= 0
      && p == RetryPublishing(copy.queue.channel, if settled then cfg.maxRetries else copy.attempt, cfg.maxRetries)
      && Safe(cfg, copy, ops[1..], settled || fate.Confirmed?)
    case Ack => settled && ops[1..] == []
    case Nack => !settled && ops[1..] == []
    case _ => false
  }

  ghost predicate FlightOk(cfg: Config, log: map<Uuid, LogRow>, f: Flight)
  {
    f.copy.queue.Work? && CopyOk(cfg, log, f.copy) && Safe(cfg, f.copy, f.ops, f.settled)
  }

  ghost predicate FlightsOk(cfg: Config, core: Core, flights: map<nat, Flight>)
  {
    forall f | f in flights :: f < core.next && FlightOk(cfg, core.log, flights[f])
  }

  // ----- Relays -----

  predicate LockOk(core: Core, row: OutboxRow)
  {
    row.lock.Held? ==>
      && !row.published
      && (row.lock.shipped ==> (row.channel, row.payload) in core.shipments)
      && (row.lock.mark.Published? ==> row.lock.shipped)
      && (row.lock.mark.StillPending? ==> 0 <= row.lock.mark.attempts <= MAX_INT32)
  }

  predicate RowOk(core: Core, row: OutboxRow)
  {
    && row.notification in core.log
    && row.channel == core.log[row.notification].content.channel
    && row.payload == Encode(core.log[row.notification].content, 0)
    && 0 <= row.attempts <= MAX_INT32
    && (row.published ==> (row.channel, row.payload) in core.shipments)
    && LockOk(core, row)
  }

  predicate OutboxOk(core: Core, outbox: map<nat, OutboxRow>)
  {
    forall r | r in outbox :: r < core.next && RowOk(core, outbox[r])
  }

  predicate Holds(outbox: map<nat, OutboxRow>, r: nat, p: nat)
  {
    r in outbox && HeldBy(outbox[r], p)
  }

  predicate MarkFollows(ship: RelayOp, mark: RelayOp)
    requires mark.MarkRow?
  {
    ship.Ship? && ship.row == mark.row && ship.fate.Confirmed?
  }

  /** A relay's remaining calls only concern rows it holds; it publishes a row's own payload, each row
      once, and marks as published only what was confirmed right before. */
  predicate RelaySafe(outbox: map<nat, OutboxRow>, p: nat, ops: seq<RelayOp>)
  {
    && ops != [] && ops[|ops| - 1].Commit?
    && (forall i | 0 <= i < |ops| - 1 :: !ops[i].Commit?)
    && (forall i | 0 <= i < |ops| && ops[i].Ship? ::
          && Holds(outbox, ops[i].row, p) && !outbox[ops[i].row].lock.shipped
          && ops[i].payload == outbox[ops[i].row].payload
          && ops[i].publishing
               == Publishing(EXCHANGE, RoutingKey(outbox[ops[i].row].channel), ops[i].publishing.attempt, None)
          && 0 <= ops[i].publishing.attempt <= MAX_INT32)
    && (forall i, j | 0 <= i < j < |ops| && ops[i].Ship? && ops[j].Ship? :: ops[i].row != ops[j].row)
    && (forall i | 0 <= i < |ops| && ops[i].MarkRow? ::
          && Holds(outbox, ops[i].row, p)
          && (ops[i].mark.StillPending? ==> 0 <= ops[i].mark.attempts))
    && (ops[0].MarkRow? && ops[0].mark.Published? ==> outbox[ops[0].row].lock.shipped)
    && (forall i | 0 < i < |ops| && ops[i].MarkRow? && ops[i].mark.Published? :: MarkFollows(ops[i - 1], ops[i]))
  }

  /** What a relay has claimed is locked for it, which makes two open passes disjoint. */
  predicate PassOk(outbox: map<nat, OutboxRow>, p: nat, pass: Pass)
  {
    && (forall i | 0 <= i < |pass.items| :: Holds(outbox, pass.items[i].row, p))
    && RelaySafe(outbox, p, pass.ops)
  }

  predicate PassesOk(core: Core, outbox: map<nat, OutboxRow>, passes: map<nat, Pass>)
  {
    && (forall p | p in passes :: p < core.next && PassOk(outbox, p, passes[p]))
    && (forall r | r in outbox && outbox[r].lock.Held? :: outbox[r].lock.pass in passes)
  }

  // ----- The janitor -----

  ghost predicate RescueSafe(log: map<Uuid, LogRow>, op: RescueOp)
  {
    match op
    case Republish(p, body, _) =>
      && ValidChannel(body.channel) && Carries(log, body.channel, body)
      && p == Publishing(EXCHANGE, RoutingKey(body.channel), p.attempt, None)
      && 0 <= p.attempt <= MAX_INT32
    case Reset(_, attempt, _) => 0 <= attempt <= MAX_INT32
  }

  ghost predicate RescuesOk(core: Core, rescues: map<nat, seq<RescueOp>>)
  {
    forall j | j in rescues :: j < core.next && forall i | 0 <= i < |rescues[j]| :: RescueSafe(core.log, rescues[j][i])
  }

  ghost predicate Inv(cfg: Config, s: State)
  {
    && CoreOk(cfg, s.core)
    && OutboxOk(s.core, s.outbox)
    && PassesOk(s.core, s.outbox, s.passes)
    && FlightsOk(cfg, s.core, s.flights)
    && RescuesOk(s.core, s.rescues)
  }

  // ----- Core calls keep the core -----

  lemma CarriesGrows(log: map<Uuid, LogRow>, log': map<Uuid, LogRow>, c: Channel, m: Message)
    requires LogGrows(log, log') && Carries(log, c, m)
    ensures Carries(log', c, m)
  {
    var id :| CarriesAs(log, c, m, id);
    assert CarriesAs(log', c, m, id);
  }

  lemma CopiesGrow(cfg: Config, core: Core, log': map<Uuid, LogRow>)
    requires CoreOk(cfg, core) && LogGrows(core.log, log')
    ensures forall k | k in core.copies :: CopyOk(cfg, log', core.copies[k])
    ensures forall k | 0 <= k < |core.settlements| :: Known(log', core.settlements[k].id)
  {
    forall k | k in core.copies ensures CopyOk(cfg, log', core.copies[k]) {
      CarriesGrows(core.log, log', core.copies[k].queue.channel, core.copies[k].body);
    }
    forall k | 0 <= k < |core.settlements| ensures Known(log', core.settlements[k].id) {
      assert Known(core.log, core.settlements[k].id);
      var id :| id in core.log && Uuids.Print(id) == core.settlements[k].id;
      assert id in log';
    }
  }

  lemma StoreKeeps(cfg: Config, core: Core, id: Uuid, status: Status, attempt: int, lastError: string, stored: bool)
    requires CoreOk(cfg, core) && 0 <= attempt <= MAX_INT32
    ensures var core' := Store(core, id, status, attempt, lastError, stored); CoreOk(cfg, core') && Grows(core, core')
  {
    var core' := Store(core, id, status, attempt, lastError, stored);
    CopiesGrow(cfg, core, core'.log);
  }

  lemma PutKeeps(cfg: Config, core: Core, copy: Copy)
    requires CoreOk(cfg, core) && CopyOk(cfg, core.log, copy)
    ensures CoreOk(cfg, Put(core, copy)) && Grows(core, Put(core, copy))
  {}

  lemma SettleKeeps(cfg: Config, core: Core, id: string, verdict: Verdict)
    requires CoreOk(cfg, core) && Known(core.log, id)
    ensures CoreOk(cfg, Settle(core, id, verdict)) && Grows(core, Settle(core, id, verdict))
  {}

  lemma CarriesKnown(log: map<Uuid, LogRow>, c: Channel, m: Message)
    requires LogOk(log) && Carries(log, c, m)
    ensures Known(log, m.id)
  {
    var id :| CarriesAs(log, c, m, id);
    assert log[id].content.id == id;
  }

  lemma DepositKeeps(cfg: Config, core: Core, q: Queue, copy: Copy, fate: Fate)
    requires CoreOk(cfg, core) && CopyOk(cfg, core.log, copy.(queue := q))
    ensures var core' := Deposit(core, Some(q), copy, fate); CoreOk(cfg, core') && Grows(core, core')
  {}

  /** A fresh publish to a channel's work queue. */
  lemma EnterKeeps(cfg: Config, core: Core, c: Channel, attempt: int, body: Message, fate: Fate)
    requires CoreOk(cfg, core) && ValidChannel(c) && Carries(core.log, c, body) && 0 <= attempt <= MAX_INT32
    ensures var core' := Post(core, Publishing(EXCHANGE, RoutingKey(c), attempt, None), body, fate, attempt, []);
      CoreOk(cfg, core') && Grows(core, core')
  {
    hide Resolve, RoutingKey, ValidChannel, LogGrows, CoreOk, Carries, Deposit;
    var p := Publishing(EXCHANGE, RoutingKey(c), attempt, None);
    ResolveBinding(c);
    DepositKeeps(cfg, core, Work(c), Sealed(p, body, attempt, []), fate);
  }

  /** The queue a retry publishing names. */
  lemma RetryResolves(c: Channel, attempt: nat, maxRetries: nat)
    requires ValidChannel(c)
    ensures var p := RetryPublishing(c, attempt, maxRetries);
      Resolve(p.exchange, p.key) == Some(if GoesToDead(attempt, maxRetries) then Dead(c) else Retry(c))
  {
    hide Resolve;
    ResolveName(Dead(c));
    ResolveName(Retry(c));
  }

  /** A retry lengthens the lineage by one wait of the schedule; a dead-lettered copy ends it. */
  lemma ForwardKeeps(cfg: Config, core: Core, copy: Copy, attempt: nat, fate: Fate)
    requires CoreOk(cfg, core) && CopyOk(cfg, core.log, copy) && copy.queue.Work?
    requires attempt == copy.attempt || attempt == cfg.maxRetries
    ensures var p := RetryPublishing(copy.queue.channel, attempt, cfg.maxRetries);
      var core' := Post(core, p, copy.body, fate, copy.entered, copy.waited);
      CoreOk(cfg, core') && Grows(core, core')
  {
    var c := copy.queue.channel;
    var p := RetryPublishing(c, attempt, cfg.maxRetries);
    var sealed := Sealed(p, copy.body, copy.entered, copy.waited);
    assert ValidChannel(c) && Lineage(cfg, copy) && sealed.body == copy.body;
    RetryResolves(c, attempt, cfg.maxRetries);
    hide Resolve, CoreOk, Carries, LogGrows, ValidChannel, Lineage, DeadLineage, RetryPublishing, Deposit,
         GoesToDead, Sealed;
    if GoesToDead(attempt, cfg.maxRetries) {
      DeadLineageEnds(cfg, copy, attempt);
      SealedOk(cfg, core.log, copy, sealed, Dead(c));
      DepositKeeps(cfg, core, Dead(c), sealed, fate);
    } else {
      assert attempt == copy.attempt by { DeadAtTheLast(cfg.maxRetries); }
      LineageGrows(cfg, copy);
      SealedOk(cfg, core.log, copy, sealed, Retry(c));
      DepositKeeps(cfg, core, Retry(c), sealed, fate);
    }
  }

  /** A message of a channel's body is in order in a queue of the channel. */
  lemma SealedOk(cfg: Config, log: map<Uuid, LogRow>, copy: Copy, sealed: Copy, q: Queue)
    requires CopyOk(cfg, log, copy) && q.channel == copy.queue.channel && sealed.body == copy.body
    requires if q.Dead? then DeadLineage(cfg, sealed) else Lineage(cfg, sealed)
    ensures CopyOk(cfg, log, sealed.(queue := q))
  {
    hide Carries, ValidChannel, Budget, ToInt32;
  }

  lemma DeadAtTheLast(maxRetries: nat)
    ensures GoesToDead(maxRetries, maxRetries)
  {}

  /** One attempt more for every wait. */
  lemma LineageCounts(cfg: Config, copy: Copy)
    requires Lineage(cfg, copy)
    ensures copy.attempt == copy.entered + |copy.waited|
  {}

  lemma DeadLineageEnds(cfg: Config, copy: Copy, attempt: nat)
    requires Lineage(cfg, copy) && GoesToDead(attempt, cfg.maxRetries)
    requires attempt == copy.attempt || attempt == cfg.maxRetries
    ensures DeadLineage(cfg, Sealed(RetryPublishing(copy.queue.channel, attempt, cfg.maxRetries), copy.body,
                                    copy.entered, copy.waited))
  {
    LineageCounts(cfg, copy);
    var sealed := Sealed(RetryPublishing(copy.queue.channel, attempt, cfg.maxRetries), copy.body, copy.entered,
                         copy.waited);
    assert sealed.waited == copy.waited && sealed.attempt == ToInt32(attempt);
    assert attempt == copy.attempt ==> ToInt32(attempt) == attempt;
    hide ToInt32;
  }

  lemma LineageGrows(cfg: Config, copy: Copy)
    requires Lineage(cfg, copy) && !GoesToDead(copy.attempt, cfg.maxRetries)
    ensures var p := RetryPublishing(copy.queue.channel, copy.attempt, cfg.maxRetries);
      Lineage(cfg, Sealed(p, copy.body, copy.entered, copy.waited))
  {
    SliceSnoc(BACKOFF_SCHEDULE, copy.entered, copy.attempt);
    assert ToInt32(copy.attempt + 1) == copy.attempt + 1;
  }

  lemma SliceSnoc(s: seq<int>, i: nat, j: nat)
    requires i <= j < |s|
    ensures s[i..j + 1] == s[i..j] + [s[j]]
    ensures i == j ==> s[i..j] == []
  {}

  // ----- Each process keeps its part -----

  lemma FrameRescues(core: Core, core': Core, rescues: map<nat, seq<RescueOp>>)
    requires Grows(core, core') && RescuesOk(core, rescues)
    ensures RescuesOk(core', rescues)
  {
    forall j, i | j in rescues && 0 <= i < |rescues[j]| ensures RescueSafe(core'.log, rescues[j][i]) {
      var op := rescues[j][i];
      assert RescueSafe(core.log, op);
      if op.Republish? {
        CarriesGrows(core.log, core'.log, op.body.channel, op.body);
      }
    }
  }

  lemma FrameFlights(cfg: Config, core: Core, core': Core, flights: map<nat, Flight>)
    requires Grows(core, core') && FlightsOk(cfg, core, flights)
    ensures FlightsOk(cfg, core', flights)
  {
    forall f | f in flights ensures FlightOk(cfg, core'.log, flights[f]) {
      assert FlightOk(cfg, core.log, flights[f]);
      CarriesGrows(core.log, core'.log, flights[f].copy.queue.channel, flights[f].copy.body);
    }
  }

  lemma FrameOutbox(core: Core, core': Core, outbox: map<nat, OutboxRow>)
    requires Grows(core, core') && OutboxOk(core, outbox)
    ensures OutboxOk(core', outbox)
  {
    forall r | r in outbox ensures RowOk(core', outbox[r]) {
      assert RowOk(core, outbox[r]);
    }
  }

  /** A call that only changes the core, and lets it grow, leaves everybody else's part in order. */
  lemma FrameAll(cfg: Config, s: State, core': Core)
    requires Inv(cfg, s) && CoreOk(cfg, core') && Grows(s.core, core')
    ensures Inv(cfg, s.(core := core'))
  {
    FrameRescues(s.core, core', s.rescues);
    FrameFlights(cfg, s.core, core', s.flights);
    FrameOutbox(s.core, core', s.outbox);
  }

  lemma EncodedCarries(log: map<Uuid, LogRow>, id: Uuid, attempt: int)
    requires id in log
    ensures Carries(log, log[id].content.channel, Encode(log[id].content, attempt))
  {
    assert CarriesAs(log, log[id].content.channel, Encode(log[id].content, attempt), id);
  }

  /** Every message the pipeline carries decodes, to the content of its row. */
  lemma CarriesDecodes(log: map<Uuid, LogRow>, c: Channel, m: Message)
    requires LogOk(log) && Carries(log, c, m)
    ensures Decode(m).Some?
    ensures var n := Decode(m).value;
      && n.content.id in log && n.attempt == m.attempt && n.status == Enqueued
      && n.content == Normal(log[n.content.id].content) && n.content.channel == c
  {
    var id :| CarriesAs(log, c, m, id);
    DecodeEncode(log[id].content, m.attempt);
  }

  /** The calls of a handling are in the safe order whatever the ports answer. */
  lemma HandleIsSafe(cfg: Config, copy: Copy, a: WorkerAnswers)
    requires copy.queue.Work? && copy.attempt >= 0 && Decode(copy.body).Some?
    ensures Safe(cfg, copy, HandleOps(copy.queue.channel, copy.body, copy.attempt, cfg.maxRetries, a), false)
  {
    var c, n := copy.queue.channel, Decode(copy.body).value;
    var id := n.content.id;
    var ops := HandleOps(c, copy.body, copy.attempt, cfg.maxRetries, a);
    var tail := ops[2..];
    match a.reply
    case Delivered =>
      assert tail == [StoreStatus(id, Sent, copy.attempt, "", a.finalStored), Ack];
      assert Safe(cfg, copy, tail[1..], true);
      assert Safe(cfg, copy, tail, true);
      SafeStart(cfg, copy, ops, true);
    case TerminalError =>
      var p := RetryPublishing(c, cfg.maxRetries, cfg.maxRetries);
      assert tail == [StoreStatus(id, DeadLetter, copy.attempt, a.error, a.finalStored), Forward(p, a.forward), Ack];
      assert Safe(cfg, copy, tail[1..][1..], true);
      assert Safe(cfg, copy, tail[1..], true);
      assert Safe(cfg, copy, tail, true);
      SafeStart(cfg, copy, ops, true);
    case TransientError =>
      var p := RetryPublishing(c, copy.attempt, cfg.maxRetries);
      if !a.forward.Confirmed? {
        assert tail == [Forward(p, a.forward), Nack];
        assert Safe(cfg, copy, tail[1..], false);
      } else {
        var status := if GoesToDead(copy.attempt, cfg.maxRetries) then DeadLetter else Retrying;
        assert tail == [Forward(p, a.forward), StoreStatus(id, status, copy.attempt, a.error, a.finalStored), Ack];
        assert Safe(cfg, copy, tail[1..][1..], true);
        assert Safe(cfg, copy, tail[1..], true);
      }
      assert Safe(cfg, copy, tail, false);
      SafeStart(cfg, copy, ops, false);
  }

  lemma SafeStart(cfg: Config, copy: Copy, ops: seq<WorkerOp>, settled: bool)
    requires |ops| > 2 && ops[0].StoreStatus? && ops[0].attempt == copy.attempt && ops[1].Send?
    requires settled == !ops[1].reply.TransientError? && Safe(cfg, copy, ops[2..], settled)
    ensures Safe(cfg, copy, ops, false)
  {
    assert ops[1..][1..] == ops[2..];
    assert Safe(cfg, copy, ops[1..], false);
  }
}
