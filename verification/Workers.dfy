/** The processes of the pipeline as they are written: the publisher's retry, the worker's handling of a
    delivery, the relay's pass and the janitor's pass. Each is proved to make exactly the calls of the
    step system, so that a process left alone has the effect of its steps taken in a row. */
module Workers {
  import opened Basics
  import opened Uuids
  import opened Domain
  import opened Wire
  import opened Topology
  import opened Lifecycle
  import opened Pipeline
  import opened Calls

  // ----- The outside world -----

  /** The pending rows that no transaction holds. */
  function ClaimableRows(outbox: map<nat, OutboxRow>): set<nat>
  {
    set r | r in outbox && !outbox[r].published && outbox[r].lock.Free?
  }

  /** The rows in flight that were last updated before a time. */
  function StuckRows(log: map<Uuid, LogRow>, updatedAt: nat -> int, cutoff: int): set<nat>
  {
    set id: Uuid | id in log && log[id].status == InFlight && updatedAt(id) < cutoff
  }

  /** What an ordered and limited query may select: distinct rows, the oldest first, none left out that is older, at
      most so many, and fewer only if there are no more. */
  ghost predicate Picks(open: set<nat>, rows: seq<nat>, limit: nat, at: nat -> int)
  {
    && |rows| <= limit && Distinct(rows)
    && (forall r | r in rows :: r in open)
    && (forall i, j | 0 <= i < j < |rows| :: at(rows[i]) <= at(rows[j]))
    && (forall i, r | 0 <= i < |rows| && r in open && r !in rows :: at(rows[i]) <= at(r))
    && (|rows| < limit ==> forall r | r in open :: r in rows)
  }

  function Chosen(rows: seq<nat>): set<nat>
  {
    set r | r in rows
  }

  /** The selected rows are as many as the limit or the open rows allow, in order, and no open row that was left out is
      older than one of them. */
  lemma PickedAreOldest(open: set<nat>, rows: seq<nat>, limit: nat, at: nat -> int)
    requires Picks(open, rows, limit, at)
    ensures |rows| == (if |open| <= limit then |open| else limit) && Chosen(rows) <= open
    ensures forall i, j | 0 <= i <= j < |rows| :: at(rows[i]) <= at(rows[j]) && (rows[i] == rows[j] ==> i == j)
    ensures forall r, q | r in rows && q in open && at(q) < at(r) :: q in rows
  {
    var chosen := Chosen(rows);
    DistinctSize(rows);
    assert chosen <= open;
    SubsetSize(chosen, open);
    forall r, q | r in rows && q in open && at(q) < at(r) ensures q in rows {
      var i :| 0 <= i < |rows| && rows[i] == r;
    }
    if |rows| < limit {
      assert chosen == open;
    }
  }

  lemma SubsetSize(a: set<nat>, b: set<nat>)
    requires a <= b
    ensures |a| <= |b|
  {
    assert b == a + (b - a);
  }

  lemma {:induction false} DistinctSize(rows: seq<nat>)
    requires Distinct(rows)
    ensures |Chosen(rows)| == |rows|
    decreases |rows|
  {
    if rows != [] {
      var rest := rows[..|rows| - 1];
      DistinctSize(rest);
      assert forall i | 0 <= i < |rest| :: rest[i] == rows[i];
      assert Chosen(rows) == Chosen(rest) + {rows[|rows| - 1]};
    }
  }

  /** Any open row may be among those selected: the others are taken to be younger. */
  lemma {:induction false} SomePick(open: set<nat>, r: nat, limit: nat) returns (rows: seq<nat>)
    requires r in open && limit > 0
    ensures r in rows && Picks(open, rows, limit, (q: nat) => if q == r then 0 else 1)
  {
    rows := [r] + SomeOf(open - {r}, limit - 1);
    assert rows[0] == r;
  }

  ghost function SomeOf(open: set<nat>, limit: nat): (rows: seq<nat>)
    ensures |rows| <= limit && Distinct(rows) && (forall r | r in rows :: r in open)
    ensures |rows| < limit ==> forall r | r in open :: r in rows
  {
    if limit == 0 || open == {} then []
    else
      var r :| r in open;
      [r] + SomeOf(open - {r}, limit - 1)
  }

  method Oldest(open: set<nat>, at: nat -> int) returns (oldest: nat)
    requires open != {}
    ensures oldest in open && forall r | r in open :: at(oldest) <= at(r)
  {
    oldest :| oldest in open;
    var rest := open - {oldest};
    while rest != {}
      invariant rest <= open && oldest in open
      invariant forall r | r in open && r !in rest :: at(oldest) <= at(r)
      decreases |rest|
    {
      var r :| r in rest;
      if at(r) < at(oldest) {
        oldest := r;
      }
      rest := rest - {r};
    }
  }

  /** An ordered and limited query. */
  method Pick(open: set<nat>, limit: nat, at: nat -> int) returns (rows: seq<nat>)
    ensures Picks(open, rows, limit, at)
  {
    rows := [];
    var left := open;
    while |rows| < limit && left != {}
      invariant |rows| <= limit && Distinct(rows) && left <= open
      invariant forall r :: r in open <==> r in rows || r in left
      invariant forall r | r in rows :: r !in left
      invariant forall i, j | 0 <= i < j < |rows| :: at(rows[i]) <= at(rows[j])
      invariant forall i, r | 0 <= i < |rows| && r in left :: at(rows[i]) <= at(r)
      decreases limit - |rows|
    {
      var r := Oldest(left, at);
      rows, left := rows + [r], left - {r};
    }
  }

  /** The database and the broker as the use cases see them. The verdicts are an observer's record. */
  class World {
    var log: map<Uuid, LogRow>
    var copies: map<nat, Copy>
    var outbox: map<nat, OutboxRow>
    var next: nat
    ghost var settlements: seq<Settlement>
    ghost var shipments: set<(Channel, Message)>

    ghost function View(): Core
      reads this
    {
      Core(log, copies, settlements, shipments, next)
    }

    constructor (s: State)
      ensures View() == s.core && outbox == s.outbox
    {
      log, copies, next, outbox := s.core.log, s.core.copies, s.core.next, s.outbox;
      settlements, shipments := s.core.settlements, s.core.shipments;
    }

    /** A row that does not exist is no error. */
    method UpdateStatus(id: Uuid, status: Status, attempt: int, lastError: string, stored: bool) returns (ok: bool)
      modifies this`log
      ensures View() == Store(old(View()), id, status, attempt, lastError, stored)
      ensures log == if stored && id in old(log)
                     then old(log)[id := LogRow(old(log)[id].content, status, attempt, lastError)] else old(log)
      ensures ok == stored
    {
      if stored && id in log {
        log := log[id := log[id].(status := status, attempt := attempt, lastError := lastError)];
      }
      ok := stored;
    }

    /** A publish that waits for the broker's confirm. */
    method Publish(p: Publishing, body: Message, fate: Fate, entered: int, waited: seq<int>) returns (ok: bool)
      modifies this`copies, this`next
      ensures View() == Post(old(View()), p, body, fate, entered, waited)
      ensures var q := Resolve(p.exchange, p.key);
        if fate.Dropped? || q.None? then copies == old(copies) && next == old(next)
        else
          var waits := if p.ttl.Some? then waited + [p.ttl.value] else waited;
          && next == old(next) + 1
          && copies == old(copies)[old(next) := Copy(q.value, body, ToInt32(p.attempt), entered, waits)]
      ensures ok == fate.Confirmed?
    {
      var q := Resolve(p.exchange, p.key);
      if !fate.Dropped? && q.Some? {
        copies := copies[next := Copy(q.value, body, ToInt32(p.attempt), entered,
                                      if p.ttl.Some? then waited + [p.ttl.value] else waited)];
        next := next + 1;
      }
      ok := fate.Confirmed?;
    }

    /** The broker takes an unacknowledged message back. */
    method GiveBack(copy: Copy)
      modifies this`copies, this`next
      ensures View() == Put(old(View()), copy) && copies == old(copies)[old(next) := copy]
    {
      copies := copies[next := copy];
      next := next + 1;
    }

    /** The broker dead-letters a rejected message of a work queue to the retry queue of its channel. */
    method Reject(copy: Copy)
      requires copy.queue.Work?
      modifies this`copies, this`next
      ensures View() == Conclude(old(View()), copy, WorkerOp.Reject)
      ensures ValidChannel(copy.queue.channel) ==>
        copies == old(copies)[old(next) :=
          Copy(Retry(copy.queue.channel), copy.body, ToInt32(copy.attempt), copy.entered, copy.waited)]
    {
      if ValidChannel(copy.queue.channel) {
        RoutesMeanTheirQueues(copy.queue.channel);
      }
      hide Resolve, ValidChannel;
      var _ := Publish(Publishing("", DeadLetterKey(copy.queue), copy.attempt, None), copy.body, Confirmed,
                       copy.entered, copy.waited);
    }

    /** Locks the oldest pending rows that no other transaction holds, up to a batch, and reads them; or fails and locks
        none. */
    method Claim(limit: nat, pass: nat, createdAt: nat -> int, fails: bool)
      returns (ok: bool, rows: seq<nat>, items: seq<Item>)
      modifies this`outbox
      ensures ok == !fails
      ensures !ok ==> outbox == old(outbox) && rows == [] && items == []
      ensures ok ==>
        && Picks(ClaimableRows(old(outbox)), rows, limit, createdAt)
        && outbox == LockRows(old(outbox), rows, pass)
        && items == ItemsOf(old(outbox), rows)
    {
      if fails {
        return false, [], [];
      }
      rows := Pick(ClaimableRows(outbox), limit, createdAt);
      items := [];
      for i := 0 to |rows|
        invariant |items| == i
        invariant forall j | 0 <= j < i :: items[j] == ItemsOf(outbox, rows)[j]
      {
        assert rows[i] in rows;
        var row := outbox[rows[i]];
        items := items + [Item(rows[i], row.channel, row.payload, row.attempts)];
      }
      outbox := LockRows(outbox, rows, pass);
      ok := true;
    }

    /** Reads the rows in flight that have not been updated for long, the longest first, up to a batch; or fails. */
    method ListStuckInFlight(limit: nat, updatedAt: nat -> int, cutoff: int, fails: bool)
      returns (ok: bool, ids: seq<nat>, rows: seq<LogRow>)
      ensures ok == !fails
      ensures !ok ==> ids == [] && rows == []
      ensures ok ==>
        && Picks(StuckRows(log, updatedAt, cutoff), ids, limit, updatedAt) && |rows| == |ids|
        && forall i | 0 <= i < |ids| :: ids[i] in log && rows[i] == log[ids[i]] && rows[i].status == InFlight
    {
      if fails {
        return false, [], [];
      }
      ids := Pick(StuckRows(log, updatedAt, cutoff), limit, updatedAt);
      rows := [];
      for i := 0 to |ids|
        invariant |rows| == i
        invariant forall j | 0 <= j < i :: ids[j] in log && rows[j] == log[ids[j]] && rows[j].status == InFlight
      {
        assert ids[i] in ids;
        rows := rows + [log[ids[i]]];
      }
      ok := true;
    }

    /** A mark in a relay's transaction; the attempts column refuses what 32 bits do not hold. Nothing of the row but
        its mark changes, and no other row does. */
    method MarkRow(row: nat, mark: Mark, stored: bool) returns (ok: bool)
      modifies this`outbox
      ensures outbox == MarkEffect(old(outbox), row, mark, stored)
      ensures outbox.Keys == old(outbox).Keys && forall r | r in outbox && r != row :: outbox[r] == old(outbox)[r]
      ensures row in outbox ==>
        outbox[row].published == old(outbox)[row].published && outbox[row].attempts == old(outbox)[row].attempts
      ensures ok && row in outbox && outbox[row].lock.Held? ==> outbox[row].lock.mark == mark
      ensures !ok ==> outbox == old(outbox)
      ensures ok <==> stored && (mark.StillPending? ==> mark.attempts <= 0x7fff_ffff)
    {
      if !stored || (mark.StillPending? && mark.attempts > MAX_INT32) {
        return false;
      }
      if row in outbox && outbox[row].lock.Held? {
        outbox := outbox[row := outbox[row].(lock := outbox[row].lock.(mark := mark))];
      }
      return true;
    }

    /** The publish of a claimed row; a confirmed one is on record. */
    method Ship(row: nat, p: Publishing, payload: Message, fate: Fate, pass: nat) returns (ok: bool)
      modifies this`copies, this`next, this`outbox, this`shipments
      ensures (View(), outbox) == RelayEffect(old(View()), old(outbox), pass, RelayOp.Ship(row, p, payload, fate))
      ensures ok == fate.Confirmed?
    {
      hide Post, ShipEffect;
      ok := Publish(p, payload, fate, p.attempt, []);
      if ok && row in outbox {
        shipments := shipments + {(outbox[row].channel, payload)};
      }
      outbox := ShipEffect(outbox, row, fate);
    }

    /** The end of a relay's transaction, by commit or by rollback. It frees the rows the transaction holds and no
        others; a row becomes published exactly if that is its mark and the transaction applies, and one of a
        transaction that does not apply is left as it was claimed. */
    method End(pass: nat, applied: bool)
      modifies this`outbox
      ensures outbox == Release(old(outbox), pass, applied)
      ensures forall r | r in outbox :: !HeldBy(outbox[r], pass)
      ensures outbox.Keys == old(outbox).Keys
      ensures forall r | r in outbox && !HeldBy(old(outbox)[r], pass) :: outbox[r] == old(outbox)[r]
      ensures forall r | r in outbox && HeldBy(old(outbox)[r], pass) ::
        && outbox[r].payload == old(outbox)[r].payload && outbox[r].lock.Free?
        && (outbox[r].published <==> old(outbox)[r].published || (applied && old(outbox)[r].lock.mark.Published?))
        && (outbox[r].attempts == if applied && old(outbox)[r].lock.mark.StillPending?
                                  then old(outbox)[r].lock.mark.attempts else old(outbox)[r].attempts)
        && (!applied ==> outbox[r] == old(outbox)[r].(lock := Free))
    {
      outbox := Release(outbox, pass, applied);
    }

    ghost method Observe(id: string, verdict: Verdict)
      modifies this`settlements
      ensures View() == Settle(old(View()), id, verdict)
    {
      settlements := settlements + [Settlement(id, verdict)];
    }
  }

  // ----- The worker -----

  datatype Outcome = SentOutcome | RetryOutcome | DeadOutcome

  /** How an execution ends: with a result, or with a panic of the process. */
  datatype Ending = Returns(result: Result<Outcome>) | Panics

  class Publisher {
    const world: World

    constructor (world: World)
      ensures this.world == world
    {
      this.world := world;
    }

    /** To the retry queue with one more attempt and its wait, or to the dead queue once the budget is
        spent. A negative attempt indexes outside the schedule and panics. */
    method Retry(copy: Copy, c: Channel, attempt: int, maxAttempts: int, fate: Fate)
      returns (sentToDead: bool, ok: bool, panics: bool)
      modifies world`copies, world`next
      ensures panics <==> attempt < 0 && !GoesToDead(attempt, maxAttempts)
      ensures panics ==> world.View() == old(world.View())
      ensures attempt >= 0 ==>
        && world.View()
             == Post(old(world.View()), RetryPublishing(c, attempt, maxAttempts), copy.body, fate, copy.entered,
                     copy.waited)
        && ok == fate.Confirmed? && sentToDead == GoesToDead(attempt, maxAttempts)
      ensures attempt < 0 && !panics ==>
        && world.View()
             == Post(old(world.View()), Publishing("", DeadQueue(c), attempt, None), copy.body, fate, copy.entered,
                     copy.waited)
        && ok == fate.Confirmed? && sentToDead
    {
      if attempt >= maxAttempts || attempt >= |BACKOFF_SCHEDULE| {
        ok := world.Publish(Publishing("", DeadQueue(c), attempt, None), copy.body, fate, copy.entered, copy.waited);
        return true, ok, false;
      }
      if attempt < 0 {
        return false, false, true;
      }
      var ttl := BACKOFF_SCHEDULE[attempt];
      ok := world.Publish(Publishing("", RetryQueue(c), attempt + 1, Some(ttl)), copy.body, fate, copy.entered,
                          copy.waited);
      return false, ok, false;
    }
  }

  class ProcessNotification {
    const world: World
    const publisher: Publisher
    const maxRetries: nat

    constructor (world: World, publisher: Publisher, maxRetries: nat)
      requires publisher.world == world
      ensures this.world == world && this.publisher == publisher && this.maxRetries == maxRetries
    {
      this.world, this.publisher, this.maxRetries := world, publisher, maxRetries;
    }

    ghost predicate Valid()
    {
      publisher.world == world
    }

    /** The provider has accepted the message. */
    method Succeed(n: Notification, copy: Copy, attempt: int, now: int, a: WorkerAnswers)
      modifies n, world`log, world`settlements
      ensures old(n.status) == InFlight && old(n.attempt) == attempt ==>
        && world.View() == Store(Settle(old(world.View()), copy.body.id, Accepted), old(n.id), Sent, attempt, "",
                                 a.finalStored)
        && n.Value().content == old(n.Value()).content && n.attempt == attempt && n.status == Sent
    {
      hide Store, Settle, Apply, After;
      InFlightMarks(n.Value(), now, a.error);
      world.Observe(copy.body.id, Accepted);
      var _ := n.MarkSent(now);
      var _ := world.UpdateStatus(n.id, n.status, n.attempt, "", a.finalStored);
    }

    /** The provider may accept it another time: to the retry queue, or to the dead queue after the last. */
    method RetryLater(n: Notification, copy: Copy, attempt: int, c: Channel, now: int, a: WorkerAnswers)
      returns (r: Ending)
      requires Valid() && a.reply.TransientError?
      modifies n, world`log, world`copies, world`next, world`settlements
      ensures r == EndingOf(a, attempt, maxRetries)
      ensures r.Panics? ==> world.View() == old(world.View()) && n.Value() == old(n.Value())
      ensures old(n.status) == InFlight && old(n.attempt) == attempt && r.Returns? ==>
        var retried := Post(old(world.View()), RetryPublishing(c, attempt, maxRetries), copy.body, a.forward,
                            copy.entered, copy.waited);
        && world.View() ==
             (if r.result.Err? then retried
              else if r.result.value.DeadOutcome? then
                Store(Settle(retried, copy.body.id, Exhausted), old(n.id), DeadLetter, attempt, a.error, a.finalStored)
              else Store(retried, old(n.id), Retrying, attempt, a.error, a.finalStored))
        && n.Value().content == old(n.Value()).content && n.attempt == attempt && n.status == FinalStatus(r)
    {
      NegativeIsAlive(attempt, maxRetries);
      hide Post, RetryPublishing, GoesToDead, Store, Settle, Apply, After;
      InFlightMarks(n.Value(), now, a.error);
      var dead, ok, panics := publisher.Retry(copy, c, attempt, maxRetries, a.forward);
      if panics {
        return Panics;
      }
      if !ok {
        return Returns(Err(Infrastructure));
      }
      if dead {
        world.Observe(copy.body.id, Exhausted);
        var _ := n.MarkDeadLetter(a.error, now);
        var _ := world.UpdateStatus(n.id, n.status, n.attempt, a.error, a.finalStored);
        return Returns(Ok(DeadOutcome));
      }
      var _ := n.MarkRetrying(a.error, now);
      var _ := world.UpdateStatus(n.id, n.status, n.attempt, a.error, a.finalStored);
      return Returns(Ok(RetryOutcome));
    }

    /** The provider has rejected it for good; whether the copy reaches the dead queue is not looked at. */
    method GiveUp(n: Notification, copy: Copy, attempt: int, c: Channel, now: int, a: WorkerAnswers)
      requires Valid()
      modifies n, world`log, world`copies, world`next, world`settlements
      ensures old(n.status) == InFlight && old(n.attempt) == attempt ==>
        && world.View() ==
             Post(Store(Settle(old(world.View()), copy.body.id, Rejected), old(n.id), DeadLetter, attempt, a.error,
                        a.finalStored),
                  RetryPublishing(c, maxRetries, maxRetries), copy.body, a.forward, copy.entered, copy.waited)
        && n.Value().content == old(n.Value()).content && n.attempt == attempt && n.status == DeadLetter
    {
      hide Post, RetryPublishing, GoesToDead, Store, Settle, Apply, After;
      InFlightMarks(n.Value(), now, a.error);
      world.Observe(copy.body.id, Rejected);
      var _ := n.MarkDeadLetter(a.error, now);
      var _ := world.UpdateStatus(n.id, n.status, n.attempt, a.error, a.finalStored);
      var _, _, _ := publisher.Retry(copy, c, maxRetries, maxRetries, a.forward);
    }

    /** One delivery attempt. On an entity as the consumer decodes it every Mark call succeeds, the calls
        made are those of the step system, and the entity's final status is the outcome's. */
    method Execute(n: Notification, copy: Copy, attempt: int, c: Channel, now: int, a: WorkerAnswers)
      returns (r: Ending, ghost settled: bool)
      requires Valid()
      modifies n, world`log, world`copies, world`next, world`settlements
      ensures old(n.status) == Enqueued ==>
        && (world.View(), settled)
             == Carry(old(world.View()), copy, false, ExecuteOps(c, old(n.id), attempt, maxRetries, a))
        && n.Value().content == old(n.Value()).content && n.attempt == attempt
        && n.status == FinalStatus(r)
      ensures r ==
        match a.reply
        case Delivered => Returns(Ok(SentOutcome))
        case TerminalError => Returns(Ok(DeadOutcome))
        case TransientError =>
          if attempt < 0 then Panics
          else if !a.forward.Confirmed? then Returns(Err(Infrastructure))
          else if attempt >= maxRetries || attempt >= 5 then Returns(Ok(DeadOutcome))
          else Returns(Ok(RetryOutcome))
      ensures settled <==> r.Returns? && r.result.Ok?
      ensures old(n.status) == Enqueued ==>
        StatusStored(old(world.log), world.log, old(n.id), attempt, maxRetries, r.Returns? && r.result.Ok?, a)
    {
      AttemptLog(world.View(), copy, c, n.id, attempt, maxRetries, a);
      Endings(a, attempt, maxRetries);
      hide Carry, ExecuteOps, Post, RetryPublishing, GoesToDead, Store, Settle, After, Apply, StatusStored,
           EndingOf;
      DecodedMarks(n.Value(), attempt, now);
      AttemptEffects(world.View(), copy, c, n.id, attempt, maxRetries, a);
      var marked := n.MarkInFlight(attempt, now);
      if marked {
        var _ := world.UpdateStatus(n.id, n.status, n.attempt, "", a.inFlightStored);
      }
      match a.reply {
        case Delivered =>
          Succeed(n, copy, attempt, now, a);
          r := Returns(Ok(SentOutcome));
        case TransientError =>
          r := RetryLater(n, copy, attempt, c, now, a);
        case TerminalError =>
          GiveUp(n, copy, attempt, c, now, a);
          r := Returns(Ok(DeadOutcome));
      }
      settled := r.Returns? && r.result.Ok?;
    }
  }

  lemma NegativeIsAlive(attempt: int, maxRetries: nat)
    ensures attempt < 0 ==> !GoesToDead(attempt, maxRetries)
  {}

  /** On an entity as decoded, the worker's first Mark call succeeds, and whichever comes then. */
  lemma DecodedMarks(e: Entity, attempt: int, now: int)
    ensures e.status == Enqueued ==>
      && Apply(e, MarkInFlight(attempt, now)).Ok?
      && After(e, MarkInFlight(attempt, now)) == e.(status := InFlight, lastError := "", updatedAt := now,
                                                    attempt := attempt)
  {}

  lemma InFlightMarks(e: Entity, now: int, reason: string)
    ensures e.status == InFlight ==>
      && After(e, MarkSent(now)) == e.(status := Sent, lastError := "", updatedAt := now)
      && After(e, MarkRetrying(reason, now)) == e.(status := Retrying, lastError := reason, updatedAt := now)
      && After(e, MarkDeadLetter(reason, now)) == e.(status := DeadLetter, lastError := reason, updatedAt := now)
  {}

  /** The consumer's handling of one delivery: exactly the calls of the step system's handling. A panic leaves the
      message unacknowledged, and the broker takes it back, as it does after a failure; a message that does not decode
      is dead-lettered to the retry queue of its channel. */
  method Handle(uc: ProcessNotification, copy: Copy, now: int, a: WorkerAnswers)
    requires uc.Valid() && copy.queue.Work?
    modifies uc.world`log, uc.world`copies, uc.world`next, uc.world`settlements
    ensures var ops := HandleOps(copy.queue.channel, copy.body, copy.attempt, uc.maxRetries, a);
      uc.world.View() == Conclude(Carry(old(uc.world.View()), copy, false, ops).0, copy, ops[|ops| - 1])
    ensures Decode(copy.body).None? && ValidChannel(copy.queue.channel) ==>
      && uc.world.log == old(uc.world.log)
      && uc.world.copies == old(uc.world.copies)[old(uc.world.next) :=
           Copy(Retry(copy.queue.channel), copy.body, ToInt32(copy.attempt), copy.entered, copy.waited)]
    ensures Decode(copy.body).Some? ==>
      var concludes := a.reply.TransientError? ==> copy.attempt >= 0 && a.forward.Confirmed?;
      && StatusStored(old(uc.world.log), uc.world.log, Decode(copy.body).value.content.id, copy.attempt,
                      uc.maxRetries, concludes, a)
      && (!concludes ==> uc.world.next > 0 && uc.world.next - 1 in uc.world.copies
                         && uc.world.copies[uc.world.next - 1] == copy)
  {
    hide Carry, Decode, StatusStored, ValidChannel, ExecuteOps, Conclude;
    var decoded := Decode(copy.body);
    if decoded.None? {
      uc.world.Reject(copy);
      RejectCarries(old(uc.world.View()), copy);
      return;
    }
    var n := new Notification(decoded.value);
    assert n.status == Enqueued by { DecodedIsEnqueued(copy.body); }
    var ending, settled := uc.Execute(n, copy, copy.attempt, copy.queue.channel, now, a);
    LastCall(uc.world.View(), copy, decoded.value.content.id, copy.attempt, uc.maxRetries, a);
    if ending.Panics? || ending.result.Err? {
      uc.world.GiveBack(copy);
    }
  }

  /** A handling of a decoded message ends by giving it back exactly if it comes to no conclusion. */
  lemma LastCall(core: Core, copy: Copy, id: Uuid, header: int, max: nat, a: WorkerAnswers)
    ensures var ops := ExecuteOps(copy.queue.channel, id, header, max, a);
      && |ops| > 0
      && Conclude(core, copy, ops[|ops| - 1])
           == if a.reply.TransientError? && (header < 0 || !a.forward.Confirmed?) then Put(core, copy) else core
  {
    hide RetryPublishing;
  }

  lemma DecodedIsEnqueued(m: Message)
    ensures Decode(m).Some? ==> Decode(m).value.status == Enqueued
  {}

  lemma RejectCarries(core: Core, copy: Copy)
    ensures Carry(core, copy, false, [Reject]).0 == core
  {
    assert [Reject][1..] == [];
  }

  function EndingOf(a: WorkerAnswers, attempt: int, maxRetries: nat): Ending
  {
    if a.reply.Delivered? then Returns(Ok(SentOutcome))
    else if a.reply.TerminalError? then Returns(Ok(DeadOutcome))
    else if attempt < 0 then Panics
    else if !a.forward.Confirmed? then Returns(Err(Infrastructure))
    else if GoesToDead(attempt, maxRetries) then Returns(Ok(DeadOutcome))
    else Returns(Ok(RetryOutcome))
  }

  lemma Endings(a: WorkerAnswers, attempt: int, maxRetries: nat)
    ensures EndingOf(a, attempt, maxRetries) ==
      match a.reply
      case Delivered => Returns(Ok(SentOutcome))
      case TerminalError => Returns(Ok(DeadOutcome))
      case TransientError =>
        if attempt < 0 then Panics
        else if !a.forward.Confirmed? then Returns(Err(Infrastructure))
        else if attempt >= maxRetries || attempt >= 5 then Returns(Ok(DeadOutcome))
        else Returns(Ok(RetryOutcome))
  {}

  function FinalStatus(r: Ending): Status
  {
    match r
    case Returns(Ok(SentOutcome)) => Sent
    case Returns(Ok(RetryOutcome)) => Retrying
    case Returns(Ok(DeadOutcome)) => DeadLetter
    case _ => InFlight
  }

  // ----- The relay -----

  datatype RelayResult = RelayResult(examined: nat, published: nat, failed: nat)

  lemma LockNothing(outbox: map<nat, OutboxRow>, pass: nat)
    ensures LockRows(outbox, [], pass) == outbox
  {}

  /** What the queries select is what the step system lets a relay claim and a janitor list. */
  lemma PicksEnable(
    cfg: Config, s: State, rows: seq<nat>, answers: seq<RelayAnswers>, applied: bool, ids: seq<Uuid>,
    rescueAnswers: seq<RescueAnswers>, at: nat -> int, updatedAt: nat -> int, cutoff: int)
    requires Picks(ClaimableRows(s.outbox), rows, cfg.relayBatch, at) && |answers| == |rows|
    requires Picks(StuckRows(s.core.log, updatedAt, cutoff), ids, cfg.rescueBatch, updatedAt)
    requires |rescueAnswers| == |ids|
    ensures rows != [] ==> Enabled(cfg, s, Action.Claim(rows, answers, applied))
    ensures Enabled(cfg, s, ListStuck(ids, rescueAnswers))
  {}

  /** Conversely, the step system lets a relay claim a row alone, or a janitor list one, exactly if the query may
      select it. */
  lemma EnabledExactlyIfPicked(
    cfg: Config, s: State, r: nat, id: Uuid, a: RelayAnswers, applied: bool, b: RescueAnswers)
    ensures cfg.relayBatch > 0 ==>
      (Enabled(cfg, s, Action.Claim([r], [a], applied)) <==>
         exists rows, at: nat -> int :: Picks(ClaimableRows(s.outbox), rows, cfg.relayBatch, at) && r in rows)
    ensures cfg.rescueBatch > 0 ==>
      (Enabled(cfg, s, ListStuck([id], [b])) <==>
         exists ids, at: nat -> int, cutoff ::
           Picks(StuckRows(s.core.log, at, cutoff), ids, cfg.rescueBatch, at) && id in ids)
  {
    assert Enabled(cfg, s, Action.Claim([r], [a], applied)) ==> r in ClaimableRows(s.outbox) by {
      assert r in [r];
    }
    if cfg.relayBatch > 0 && r in ClaimableRows(s.outbox) {
      var _ := SomePick(ClaimableRows(s.outbox), r, cfg.relayBatch);
    }
    assert Enabled(cfg, s, ListStuck([id], [b])) ==> id in s.core.log && s.core.log[id].status == InFlight by {
      assert id in [id];
    }
    if cfg.rescueBatch > 0 && id in s.core.log && s.core.log[id].status == InFlight {
      var at: nat -> int := (q: nat) => if q == id then 0 else 1;
      assert id in StuckRows(s.core.log, at, 2);
      var _ := SomePick(StuckRows(s.core.log, at, 2), id, cfg.rescueBatch);
    }
  }

  lemma MarkIsEffect(core: Core, outbox: map<nat, OutboxRow>, p: nat, row: nat, mark: Mark, stored: bool)
    ensures RelayEffect(core, outbox, p, RelayOp.MarkRow(row, mark, stored)) ==
      (core, MarkEffect(outbox, row, mark, stored))
  {}

  /** One claimed row: published, then marked as published or as failed once more. */
  method RelayItem(world: World, it: Item, answer: RelayAnswers, pass: nat) returns (done: bool)
    modifies world`copies, world`next, world`outbox, world`shipments
    ensures var ops := ItemOps(it, answer);
      var (core, outbox) := RelayEffect(old(world.View()), old(world.outbox), pass, ops[0]);
      (world.View(), world.outbox) == RelayEffect(core, outbox, pass, ops[1])
    ensures done == (answer.fate.Confirmed? && answer.stored)
  {
    hide MarkEffect, RelayEffect, RoutingKey;
    var ok := world.Ship(it.row, Publishing(EXCHANGE, RoutingKey(it.channel), it.attempts, None), it.payload,
                         answer.fate, pass);
    if !ok {
      MarkIsEffect(world.View(), world.outbox, pass, it.row, StillPending(it.attempts + 1), answer.stored);
      var _ := world.MarkRow(it.row, StillPending(it.attempts + 1), answer.stored);
      return false;
    }
    MarkIsEffect(world.View(), world.outbox, pass, it.row, Published, answer.stored);
    done := world.MarkRow(it.row, Published, answer.stored);
  }

  /** The answers to the first n rows of a batch. */
  function AnswersTo(answerTo: nat -> RelayAnswers, n: nat): (s: seq<RelayAnswers>)
    ensures |s| == n
  {
    seq(n, i requires 0 <= i < n => answerTo(i))
  }

  /** The rows of a batch that were published and marked so. */
  function PublishedOf(answerTo: nat -> RelayAnswers, n: nat): set<nat>
  {
    set i | 0 <= i < n && answerTo(i).fate.Confirmed? && answerTo(i).stored
  }

  lemma CountNext(before: set<nat>, after: set<nat>, k: nat, counted: bool)
    requires after == (if counted then before + {k} else before) && k !in before
    ensures |after| == |before| + if counted then 1 else 0
  {}

  /** One pass over the batch it claims: the calls of the step system's pass. The batch is of pending rows that nobody
      holds, all of them if they are fewer than the limit; alone, the pass makes a row published exactly if its publish
      was confirmed, its mark stored and the commit applied, counts a failed publish if that was stored, and touches no
      other row. A claim that fails and a commit that fails are errors. */
  method RelayOutbox(
    world: World, limit: nat, pass: nat, createdAt: nat -> int, claimFails: bool, answerTo: nat -> RelayAnswers,
    applied: bool)
    returns (res: RelayResult, err: bool, ghost rows: seq<nat>)
    modifies world`copies, world`next, world`outbox, world`shipments
    ensures claimFails ==> rows == []
    ensures !claimFails ==> Picks(ClaimableRows(old(world.outbox)), rows, limit, createdAt)
    ensures forall r | r in rows ::
      r in old(world.outbox) && !old(world.outbox)[r].published && old(world.outbox)[r].lock.Free?
    ensures !claimFails && |rows| < limit ==>
      forall r | r in old(world.outbox) && !old(world.outbox)[r].published && old(world.outbox)[r].lock.Free? ::
        r in rows
    ensures res.examined == |rows| && res.examined == res.published + res.failed
    ensures res.published == |set i | 0 <= i < |rows| && answerTo(i).fate.Confirmed? && answerTo(i).stored|
    ensures err <==> claimFails || (rows != [] && !applied)
    ensures rows != [] ==>
      (world.View(), world.outbox)
        == RunRelay(old(world.View()), LockRows(old(world.outbox), rows, pass), pass,
                    ItemsOps(ItemsOf(old(world.outbox), rows), AnswersTo(answerTo, |rows|)) + [Commit(applied)])
    ensures rows == [] ==> world.View() == old(world.View()) && world.outbox == old(world.outbox)
    ensures HoldsNone(old(world.outbox), pass) ==>
      RowsRelayed(old(world.outbox), world.outbox, rows, AnswersTo(answerTo, |rows|), applied)
    ensures (forall r | r in rows :: ValidChannel(old(world.outbox)[r].channel)) ==>
      Appended(old(world.View()), world.View(),
               Arriving(RowCopies(old(world.outbox), rows), RelayFates(AnswersTo(answerTo, |rows|))))
  {
    LockNothing(world.outbox, pass);
    AppendedNone(world.View(), world.View());
    assert RowsRelayed(world.outbox, world.outbox, [], [], applied);
    var ok, claimed, items := world.Claim(limit, pass, createdAt, claimFails);
    rows := claimed;
    assert forall r | r in rows :: r in old(world.outbox) && old(world.outbox)[r].lock.Free?;
    hide LockRows, RunRelay, ItemsOps, Picks, Appended, ValidChannel, HoldsNone, RowsRelayed;
    if !ok {
      return RelayResult(0, 0, 0), true, rows;
    }
    if |items| == 0 {
      return RelayResult(0, 0, 0), false, rows;
    }
    res, err := RelayBatch(world, items, pass, answerTo, applied);
    RelayMeans(old(world.View()), old(world.outbox), pass, rows, AnswersTo(answerTo, |rows|), applied);
  }

  lemma RelayRest(
    core: Core, outbox: map<nat, OutboxRow>, p: nat, items: seq<Item>, answers: seq<RelayAnswers>, i: nat,
    applied: bool)
    requires i < |items| == |answers|
    ensures var ops := ItemOps(items[i], answers[i]);
      var (core1, outbox1) := RelayEffect(core, outbox, p, ops[0]);
      var (core2, outbox2) := RelayEffect(core1, outbox1, p, ops[1]);
      RunRelay(core, outbox, p, ItemsOps(items[i..], answers[i..]) + [Commit(applied)])
        == RunRelay(core2, outbox2, p, ItemsOps(items[i + 1..], answers[i + 1..]) + [Commit(applied)])
  {
    RelayUnfold(core, outbox, p, items[i..], answers[i..], applied);
    hide RelayEffect, RunRelay, ItemsOps;
    assert items[i..][1..] == items[i + 1..] && answers[i..][1..] == answers[i + 1..];
  }

  lemma PublishedNext(answerTo: nat -> RelayAnswers, i: nat)
    ensures |PublishedOf(answerTo, i + 1)|
      == |PublishedOf(answerTo, i)| + if answerTo(i).fate.Confirmed? && answerTo(i).stored then 1 else 0
  {
    CountNext(PublishedOf(answerTo, i), PublishedOf(answerTo, i + 1), i,
              answerTo(i).fate.Confirmed? && answerTo(i).stored);
  }

  method RelayBatch(world: World, items: seq<Item>, pass: nat, answerTo: nat -> RelayAnswers, applied: bool)
    returns (res: RelayResult, err: bool)
    modifies world`copies, world`next, world`outbox, world`shipments
    ensures res.examined == |items| && res.examined == res.published + res.failed && err == !applied
    ensures res.published == |PublishedOf(answerTo, |items|)|
    ensures (world.View(), world.outbox)
      == RunRelay(old(world.View()), old(world.outbox), pass,
                  ItemsOps(items, AnswersTo(answerTo, |items|)) + [Commit(applied)])
  {
    assert PublishedOf(answerTo, 0) == {};
    hide Release, RelayEffect, RunRelay, ItemsOps, ItemOps, PublishedOf;
    var answers := AnswersTo(answerTo, |items|);
    ghost var all := RunRelay(world.View(), world.outbox, pass, ItemsOps(items, answers) + [Commit(applied)]);
    var published, failed := 0, 0;
    assert items[0..] == items && answers[0..] == answers;
    for i := 0 to |items|
      invariant published + failed == i
      invariant published == |PublishedOf(answerTo, i)|
      invariant all == RunRelay(world.View(), world.outbox, pass,
                                ItemsOps(items[i..], answers[i..]) + [Commit(applied)])
    {
      var it, answer := items[i], answers[i];
      RelayRest(world.View(), world.outbox, pass, items, answers, i, applied);
      var done := RelayItem(world, it, answer, pass);
      PublishedNext(answerTo, i);
      if done {
        published := published + 1;
      } else {
        failed := failed + 1;
      }
    }
    RelayEnd(world.View(), world.outbox, pass, items[|items|..], answers[|items|..], applied);
    world.End(pass, applied);
    return RelayResult(|items|, published, failed), !applied;
  }

  lemma RelayMeans(
    core: Core, outbox: map<nat, OutboxRow>, p: nat, rows: seq<nat>, answers: seq<RelayAnswers>, applied: bool)
    requires Distinct(rows) && |answers| == |rows|
    requires forall r | r in rows :: r in outbox && outbox[r].lock.Free?
    ensures
      var ops := ItemsOps(ItemsOf(outbox, rows), answers) + [Commit(applied)];
      var (core', outbox') := RunRelay(core, LockRows(outbox, rows, p), p, ops);
      && (HoldsNone(outbox, p) ==> RowsRelayed(outbox, outbox', rows, answers, applied))
      && ((forall r | r in rows :: ValidChannel(outbox[r].channel)) ==>
            Appended(core, core', Arriving(RowCopies(outbox, rows), RelayFates(answers))))
  {
    hide Appended, ItemsOps, RunRelay, LockRows, Arriving, ValidChannel, HoldsNone, RowsRelayed;
    if HoldsNone(outbox, p) {
      RelayedRows(core, outbox, p, rows, answers, applied);
    }
    if forall r | r in rows :: ValidChannel(outbox[r].channel) {
      RelayedCopies(core, outbox, p, rows, answers, applied);
    }
  }

  // ----- The janitor -----

  datatype RescueResult = RescueResult(examined: nat, rescued: nat, errors: nat)

  function RescueAnswersTo(answerTo: nat -> RescueAnswers, n: nat): (s: seq<RescueAnswers>)
    ensures |s| == n
  {
    seq(n, i requires 0 <= i < n => answerTo(i))
  }

  /** The rows of a batch that were published and reset. */
  function RescuedOf(answerTo: nat -> RescueAnswers, n: nat): set<nat>
  {
    set i | 0 <= i < n && answerTo(i).fate.Confirmed? && answerTo(i).stored
  }

  /** Every row of the batch is back to Enqueued with its own attempt if its publish was confirmed and the write stored,
      and otherwise as it was; every other row is as it was. */
  predicate RowsRescued(
    log: map<Uuid, LogRow>, log': map<Uuid, LogRow>, ids: seq<nat>, answers: seq<RescueAnswers>)
    requires |answers| == |ids| && forall id | id in ids :: id in log
  {
    && log'.Keys == log.Keys
    && (forall id | id in log && id !in ids :: log'[id] == log[id])
    && (forall i | 0 <= i < |ids| ::
          log'[ids[i]] == if answers[i].fate.Confirmed? && answers[i].stored
                          then LogRow(log[ids[i]].content, Enqueued, log[ids[i]].attempt, "rescued by janitor")
                          else log[ids[i]])
  }

  lemma RescueMeans(core: Core, ids: seq<nat>, stuck: seq<LogRow>, answers: seq<RescueAnswers>)
    requires Distinct(ids) && |stuck| == |ids| == |answers|
    requires forall i | 0 <= i < |ids| :: ids[i] in core.log && stuck[i] == core.log[ids[i]]
    ensures var core' := RunRescue(core, RescueOps(stuck, answers));
      && ((forall id | id in core.log :: core.log[id].content.id == id) ==>
            RowsRescued(core.log, core'.log, ids, answers))
      && ((forall id | id in ids :: ValidChannel(core.log[id].content.channel)) ==>
            Appended(core, core', Arriving(Rescued(stuck), RescueFates(answers))))
  {
    hide RunRescue, RescueOps, Appended, Arriving, ValidChannel;
    var log, log' := core.log, RunRescue(core, RescueOps(stuck, answers)).log;
    if forall id | id in log :: log[id].content.id == id {
      assert forall i | 0 <= i < |ids| :: stuck[i].content.id == ids[i];
      forall id | id in log
        ensures log'.Keys == log.Keys && (id !in ids ==> log'[id] == log[id])
        ensures forall i | 0 <= i < |ids| && ids[i] == id ::
          log'[id] == if answers[i].fate.Confirmed? && answers[i].stored
                      then LogRow(log[id].content, Enqueued, stuck[i].attempt, "rescued by janitor") else log[id]
      {
        RescuedLog(core, stuck, answers, id);
      }
      RescueKeys(core, stuck, answers);
    }
    if forall id | id in ids :: ValidChannel(log[id].content.channel) {
      assert forall i | 0 <= i < |ids| :: ids[i] in ids;
      RescuedCopies(core, stuck, answers);
    }
  }

  /** One pass over the stuck rows: each is published anew with its own attempt and, if that was confirmed, put back
      to Enqueued past the transition table. The batch is of rows in flight not updated since the cutoff, all of them
      if they are fewer than the limit. A listing that fails is an error. */
  method RescueStuck(
    world: World, limit: nat, updatedAt: nat -> int, cutoff: int, listFails: bool, answerTo: nat -> RescueAnswers)
    returns (res: RescueResult, err: bool, ghost ids: seq<nat>, ghost stuck: seq<LogRow>)
    modifies world`log, world`copies, world`next
    ensures err == listFails
    ensures err ==> ids == [] && stuck == []
    ensures !err ==> Picks(StuckRows(old(world.log), updatedAt, cutoff), ids, limit, updatedAt)
    ensures |stuck| == |ids| && forall i | 0 <= i < |ids| ::
      && ids[i] in old(world.log) && stuck[i] == old(world.log)[ids[i]]
      && stuck[i].status == InFlight && updatedAt(ids[i]) < cutoff
    ensures !err && |ids| < limit ==>
      forall id | id in old(world.log) && old(world.log)[id].status == InFlight && updatedAt(id) < cutoff :: id in ids
    ensures res.examined == |stuck| && res.examined == res.rescued + res.errors
    ensures res.rescued == |set i | 0 <= i < |ids| && answerTo(i).fate.Confirmed? && answerTo(i).stored|
    ensures world.View() == RunRescue(old(world.View()), RescueOps(stuck, RescueAnswersTo(answerTo, |stuck|)))
    ensures (forall id | id in old(world.log) :: old(world.log)[id].content.id == id) ==>
      RowsRescued(old(world.log), world.log, ids, RescueAnswersTo(answerTo, |ids|))
    ensures (forall id | id in ids :: ValidChannel(old(world.log)[id].content.channel)) ==>
      Appended(old(world.View()), world.View(),
               Arriving(Rescued(stuck), RescueFates(RescueAnswersTo(answerTo, |stuck|))))
  {
    var ok, listed, rows := world.ListStuckInFlight(limit, updatedAt, cutoff, listFails);
    ids, stuck := listed, rows;
    assert !listFails ==> Distinct(ids);
    assert forall i | 0 <= i < |ids| :: ids[i] in ids;
    NoRescue(world.View());
    RescueMeans(world.View(), ids, stuck, RescueAnswersTo(answerTo, |stuck|));
    hide Picks, StuckRows, RunRescue, RescueOps, Appended, Arriving, RowsRescued, ValidChannel;
    if !ok {
      return RescueResult(0, 0, 0), true, ids, stuck;
    }
    res := RescueBatch(world, rows, answerTo);
    err := false;
  }

  /** One stuck row: published anew, and put back to Enqueued if that was confirmed. */
  method RescueRow(world: World, row: LogRow, answer: RescueAnswers) returns (done: bool)
    modifies world`log, world`copies, world`next
    ensures world.View() == RunRescue(old(world.View()), RowOps(row, answer))
    ensures done == (answer.fate.Confirmed? && answer.stored)
  {
    RowRescued(world.View(), row, answer);
    hide Post, Store, Encode, RunRescue, RowOps, RoutingKey;
    var p := Publishing(EXCHANGE, RoutingKey(row.content.channel), row.attempt, None);
    var ok := world.Publish(p, Encode(row.content, row.attempt), answer.fate, row.attempt, []);
    if !ok {
      return false;
    }
    done := world.UpdateStatus(row.content.id, Enqueued, row.attempt, RESCUED, answer.stored);
  }

  lemma RescueRest(core: Core, rows: seq<LogRow>, answers: seq<RescueAnswers>, i: nat)
    requires i < |rows| == |answers|
    ensures RunRescue(core, RescueOps(rows[i..], answers[i..]))
      == RunRescue(RunRescue(core, RowOps(rows[i], answers[i])), RescueOps(rows[i + 1..], answers[i + 1..]))
  {
    RescueUnfold(core, rows[i..], answers[i..]);
    hide RowOps, RescueOps, RunRescue;
    assert rows[i..][1..] == rows[i + 1..] && answers[i..][1..] == answers[i + 1..];
  }

  lemma RescuedNext(answerTo: nat -> RescueAnswers, i: nat)
    ensures |RescuedOf(answerTo, i + 1)|
      == |RescuedOf(answerTo, i)| + if answerTo(i).fate.Confirmed? && answerTo(i).stored then 1 else 0
  {
    CountNext(RescuedOf(answerTo, i), RescuedOf(answerTo, i + 1), i,
              answerTo(i).fate.Confirmed? && answerTo(i).stored);
  }

  method RescueBatch(world: World, rows: seq<LogRow>, answerTo: nat -> RescueAnswers) returns (res: RescueResult)
    modifies world`log, world`copies, world`next
    ensures res.examined == |rows| && res.examined == res.rescued + res.errors
    ensures res.rescued == |RescuedOf(answerTo, |rows|)|
    ensures world.View() == RunRescue(old(world.View()), RescueOps(rows, RescueAnswersTo(answerTo, |rows|)))
  {
    assert RescuedOf(answerTo, 0) == {};
    hide RowOps, RescueOps, RunRescue, RescuedOf;
    var answers := RescueAnswersTo(answerTo, |rows|);
    ghost var all := RunRescue(world.View(), RescueOps(rows, answers));
    var rescued, errors := 0, 0;
    assert rows[0..] == rows && answers[0..] == answers;
    for i := 0 to |rows|
      invariant rescued + errors == i
      invariant rescued == |RescuedOf(answerTo, i)|
      invariant all == RunRescue(world.View(), RescueOps(rows[i..], answers[i..]))
    {
      var row, answer := rows[i], answers[i];
      RescueRest(world.View(), rows, answers, i);
      RescuedNext(answerTo, i);
      var done := RescueRow(world, row, answer);
      if done {
        rescued := rescued + 1;
      } else {
        errors := errors + 1;
      }
    }
    NoRescue(world.View());
    assert rows[|rows|..] == [] && answers[|rows|..] == [];
    return RescueResult(|rows|, rescued, errors);
  }
}
