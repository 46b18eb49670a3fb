/** The calls of the pipeline's processes taken in a row: what a handling, a relay's pass and a janitor's pass do to
    log, queues and outbox when nobody else moves. */
module Calls {
  import opened Basics
  import opened Uuids
  import opened Domain
  import opened Wire
  import opened Topology
  import opened Pipeline

  // ----- A process left alone -----

  /** The calls of a handling on the database, the provider and the publisher, one after the other. */
  function Carry(core: Core, copy: Copy, settled: bool, ops: seq<WorkerOp>): (Core, bool)
    decreases |ops|
  {
    if ops == [] then (core, settled)
    else
      var (core', settled') := Perform(core, copy, settled, ops[0]);
      Carry(core', copy, settled', ops[1..])
  }

  function Step(p: (Core, bool), copy: Copy, op: WorkerOp): (Core, bool)
  {
    Perform(p.0, copy, p.1, op)
  }

  lemma CarryFour(p: (Core, bool), copy: Copy, a: WorkerOp, b: WorkerOp, c: WorkerOp, d: WorkerOp)
    ensures Carry(p.0, copy, p.1, [a, b, c, d]) == Step(Step(Step(Step(p, copy, a), copy, b), copy, c), copy, d)
  {
    hide Perform;
    var pa := Step(p, copy, a);
    var pb := Step(pa, copy, b);
    var pc := Step(pb, copy, c);
    var pd := Step(pc, copy, d);
    assert [d][1..] == [] && Carry(pc.0, copy, pc.1, [d]) == Carry(pd.0, copy, pd.1, []);
    assert [c, d][1..] == [d] && Carry(pb.0, copy, pb.1, [c, d]) == Carry(pc.0, copy, pc.1, [d]);
    assert [b, c, d][1..] == [c, d] && Carry(pa.0, copy, pa.1, [b, c, d]) == Carry(pb.0, copy, pb.1, [c, d]);
    assert [a, b, c, d][1..] == [b, c, d];
  }

  lemma CarryFive(p: (Core, bool), copy: Copy, a: WorkerOp, b: WorkerOp, c: WorkerOp, d: WorkerOp, e: WorkerOp)
    ensures Carry(p.0, copy, p.1, [a, b, c, d, e])
      == Step(Step(Step(Step(Step(p, copy, a), copy, b), copy, c), copy, d), copy, e)
  {
    hide Perform;
    assert [a, b, c, d, e][1..] == [b, c, d, e];
    CarryFour(Step(p, copy, a), copy, b, c, d, e);
  }

  lemma CarryThree(p: (Core, bool), copy: Copy, a: WorkerOp, b: WorkerOp, c: WorkerOp)
    ensures Carry(p.0, copy, p.1, [a, b, c]) == Step(Step(Step(p, copy, a), copy, b), copy, c)
  {
    hide Perform;
    var pa := Step(p, copy, a);
    var pb := Step(pa, copy, b);
    var pc := Step(pb, copy, c);
    assert [c][1..] == [] && Carry(pb.0, copy, pb.1, [c]) == Carry(pc.0, copy, pc.1, []);
    assert [b, c][1..] == [c] && Carry(pa.0, copy, pa.1, [b, c]) == Carry(pb.0, copy, pb.1, [c]);
    assert [a, b, c][1..] == [b, c];
  }

  /** The state after the calls of a delivery attempt, one nested in the other. */
  function Attempted(
    p: (Core, bool), copy: Copy, c: Channel, id: Uuid, header: int, max: nat, a: WorkerAnswers): (Core, bool)
  {
    var sent := Step(Step(p, copy, StoreStatus(id, InFlight, header, "", a.inFlightStored)), copy, Send(a.reply));
    match a.reply
    case Delivered => Step(sent, copy, StoreStatus(id, Sent, header, "", a.finalStored))
    case TerminalError =>
      Step(Step(sent, copy, StoreStatus(id, DeadLetter, header, a.error, a.finalStored)),
           copy, Forward(RetryPublishing(c, max, max), a.forward))
    case TransientError =>
      if header < 0 then sent
      else
        var forwarded := Step(sent, copy, Forward(RetryPublishing(c, header, max), a.forward));
        if !a.forward.Confirmed? then forwarded
        else Step(forwarded, copy, StoreStatus(id, if GoesToDead(header, max) then DeadLetter else Retrying,
                                               header, a.error, a.finalStored))
  }

  lemma CarryAttempt(p: (Core, bool), copy: Copy, c: Channel, id: Uuid, header: int, max: nat, a: WorkerAnswers)
    ensures Carry(p.0, copy, p.1, ExecuteOps(c, id, header, max, a)) == Attempted(p, copy, c, id, header, max, a)
  {
    hide Carry, RetryPublishing, Store, Settle, Post;
    var ops := ExecuteOps(c, id, header, max, a);
    if |ops| == 3 {
      assert ops == [ops[0], ops[1], ops[2]];
      CarryThree(p, copy, ops[0], ops[1], ops[2]);
    } else if |ops| == 4 {
      assert ops == [ops[0], ops[1], ops[2], ops[3]];
      CarryFour(p, copy, ops[0], ops[1], ops[2], ops[3]);
    } else {
      assert ops == [ops[0], ops[1], ops[2], ops[3], ops[4]];
      CarryFive(p, copy, ops[0], ops[1], ops[2], ops[3], ops[4]);
    }
  }

  /** The same with every call's effect written out. */
  lemma AttemptEffects(core: Core, copy: Copy, c: Channel, id: Uuid, header: int, max: nat, a: WorkerAnswers)
    ensures var inFlight := Store(core, id, InFlight, header, "", a.inFlightStored);
      Carry(core, copy, false, ExecuteOps(c, id, header, max, a)) ==
        match a.reply
        case Delivered => (Store(Settle(inFlight, copy.body.id, Accepted), id, Sent, header, "", a.finalStored), true)
        case TerminalError =>
          (Post(Store(Settle(inFlight, copy.body.id, Rejected), id, DeadLetter, header, a.error, a.finalStored),
                RetryPublishing(c, max, max), copy.body, a.forward, copy.entered, copy.waited), true)
        case TransientError =>
          if header < 0 then (inFlight, false)
          else
            var retried := Post(inFlight, RetryPublishing(c, header, max), copy.body, a.forward, copy.entered,
                                copy.waited);
            if !a.forward.Confirmed? then (retried, false)
            else if GoesToDead(header, max) then
              (Store(Settle(retried, copy.body.id, Exhausted), id, DeadLetter, header, a.error, a.finalStored), true)
            else (Store(retried, id, Retrying, header, a.error, a.finalStored), true)
  {
    hide Carry, ExecuteOps, Post, Store, Settle;
    CarryAttempt((core, false), copy, c, id, header, max, a);
  }

  // ----- What a handling leaves in the log -----

  lemma PostLog(core: Core, p: Publishing, body: Message, fate: Fate, entered: int, waited: seq<int>)
    ensures Post(core, p, body, fate, entered, waited).log == core.log
  {
    hide Resolve, Sealed;
  }

  lemma StoreLog(core: Core, id: Uuid, status: Status, attempt: int, lastError: string, stored: bool)
    ensures Store(core, id, status, attempt, lastError, stored).log ==
      if stored && id in core.log then core.log[id := LogRow(core.log[id].content, status, attempt, lastError)]
      else core.log
  {}

  /** The row of the notification, if it is there, holds what the last of the two status writes that was stored said,
      and nothing else is touched. final: the attempt came to a final status. */
  predicate StatusStored(
    log: map<Uuid, LogRow>, log': map<Uuid, LogRow>, id: Uuid, attempt: int, maxRetries: nat, final: bool,
    a: WorkerAnswers)
  {
    if id in log && final && a.finalStored then
      var status := match a.reply
        case Delivered => Sent
        case TerminalError => DeadLetter
        case TransientError => if attempt >= maxRetries || attempt >= 5 then DeadLetter else Retrying;
      log' == log[id := LogRow(log[id].content, status, attempt, if a.reply.Delivered? then "" else a.error)]
    else if id in log && a.inFlightStored then log' == log[id := LogRow(log[id].content, InFlight, attempt, "")]
    else log' == log
  }

  /** The log after a delivery attempt. */
  lemma AttemptLog(core: Core, copy: Copy, c: Channel, id: Uuid, header: int, max: nat, a: WorkerAnswers)
    ensures var log := Carry(core, copy, false, ExecuteOps(c, id, header, max, a)).0.log;
      var final := a.reply.TransientError? ==> header >= 0 && a.forward.Confirmed?;
      StatusStored(core.log, log, id, header, max, final, a)
  {
    AttemptEffects(core, copy, c, id, header, max, a);
    var inFlight := Store(core, id, InFlight, header, "", a.inFlightStored);
    StoreLog(core, id, InFlight, header, "", a.inFlightStored);
    hide Carry, ExecuteOps, Store, Post;
    match a.reply
    case Delivered =>
      StoreLog(Settle(inFlight, copy.body.id, Accepted), id, Sent, header, "", a.finalStored);
    case TerminalError =>
      var given := Store(Settle(inFlight, copy.body.id, Rejected), id, DeadLetter, header, a.error, a.finalStored);
      StoreLog(Settle(inFlight, copy.body.id, Rejected), id, DeadLetter, header, a.error, a.finalStored);
      PostLog(given, RetryPublishing(c, max, max), copy.body, a.forward, copy.entered, copy.waited);
    case TransientError =>
      if header >= 0 {
        var p := RetryPublishing(c, header, max);
        var retried := Post(inFlight, p, copy.body, a.forward, copy.entered, copy.waited);
        PostLog(inFlight, p, copy.body, a.forward, copy.entered, copy.waited);
        StoreLog(Settle(retried, copy.body.id, Exhausted), id, DeadLetter, header, a.error, a.finalStored);
        StoreLog(retried, id, Retrying, header, a.error, a.finalStored);
      }
  }

  // ----- Steps in a row -----

  function Repeat(a: Action, n: nat): (acts: seq<Action>)
    ensures |acts| == n
  {
    if n == 0 then [] else [a] + Repeat(a, n - 1)
  }

  /** The last call and only the last is one to the broker's delivery. */
  predicate Ended(ops: seq<WorkerOp>)
  {
    ops != [] && LeavesBroker(ops[|ops| - 1]) && forall i | 0 <= i < |ops| - 1 :: !LeavesBroker(ops[i])
  }

  /** The steps of one flight, nobody else moving, are its calls in a row. */
  lemma {:induction false} WorkerAlone(cfg: Config, s: State, f: nat)
    requires f in s.flights && s.flights[f].owned && Ended(s.flights[f].ops)
    ensures var flight := s.flights[f];
      var acts := Repeat(WorkerStep(f), |flight.ops|);
      && Runs(cfg, s, acts)
      && Final(cfg, s, acts)
           == s.(core := Conclude(Carry(s.core, flight.copy, flight.settled, flight.ops).0, flight.copy,
                                  flight.ops[|flight.ops| - 1]),
                 flights := s.flights - {f})
    decreases |s.flights[f].ops|
  {
    hide Conclude;
    var flight := s.flights[f];
    var s' := WorkerNext(s, f);
    assert Next(cfg, s, WorkerStep(f)) == s';
    assert Repeat(WorkerStep(f), |flight.ops|)[1..] == Repeat(WorkerStep(f), |flight.ops| - 1);
    if |flight.ops| > 1 {
      assert s'.flights - {f} == s.flights - {f};
      assert Ended(flight.ops[1..]) by {
        assert forall i | 0 <= i < |flight.ops| - 1 :: flight.ops[1..][i] == flight.ops[i + 1];
      }
      WorkerAlone(cfg, s', f);
    }
  }

  /** What a relay's call does to the broker and to the rows. */
  function RelayEffect(core: Core, outbox: map<nat, OutboxRow>, p: nat, op: RelayOp): (Core, map<nat, OutboxRow>)
  {
    match op
    case Ship(row, publishing, payload, fate) =>
      var posted := Post(core, publishing, payload, fate, publishing.attempt, []);
      (if fate.Confirmed? && row in outbox
       then posted.(shipments := posted.shipments + {(outbox[row].channel, payload)}) else posted,
       ShipEffect(outbox, row, fate))
    case MarkRow(row, mark, stored) => (core, MarkEffect(outbox, row, mark, stored))
    case Commit(applied) => (core, Release(outbox, p, applied))
  }

  function RunRelay(core: Core, outbox: map<nat, OutboxRow>, p: nat, ops: seq<RelayOp>): (Core, map<nat, OutboxRow>)
    decreases |ops|
  {
    if ops == [] then (core, outbox)
    else
      var (core', outbox') := RelayEffect(core, outbox, p, ops[0]);
      RunRelay(core', outbox', p, ops[1..])
  }

  /** The steps of one pass, nobody else moving, are its calls in a row. */
  lemma {:induction false} RelayAlone(cfg: Config, s: State, p: nat)
    requires p in s.passes && s.passes[p].ops != [] && s.passes[p].ops[|s.passes[p].ops| - 1].Commit?
    requires forall i | 0 <= i < |s.passes[p].ops| - 1 :: !s.passes[p].ops[i].Commit?
    ensures var ops := s.passes[p].ops;
      var acts := Repeat(RelayStep(p), |ops|);
      && Runs(cfg, s, acts)
      && Final(cfg, s, acts) == s.(core := RunRelay(s.core, s.outbox, p, ops).0,
                                   outbox := RunRelay(s.core, s.outbox, p, ops).1, passes := s.passes - {p})
    decreases |s.passes[p].ops|
  {
    hide Post, ShipEffect, MarkEffect, Release;
    var ops := s.passes[p].ops;
    var s' := RelayNext(s, p);
    assert Next(cfg, s, RelayStep(p)) == s';
    assert Repeat(RelayStep(p), |ops|)[1..] == Repeat(RelayStep(p), |ops| - 1);
    if |ops| > 1 {
      assert s'.passes - {p} == s.passes - {p};
      assert forall i | 0 <= i < |ops| - 1 :: ops[1..][i] == ops[i + 1];
      RelayAlone(cfg, s', p);
    }
  }

  function RunRescue(core: Core, ops: seq<RescueOp>): Core
    decreases |ops|
  {
    if ops == [] then core else RunRescue(Rescue(core, ops[0]), ops[1..])
  }

  /** The steps of one janitor pass, nobody else moving, are its calls in a row. */
  lemma {:induction false} RescueAlone(cfg: Config, s: State, j: nat)
    requires j in s.rescues
    ensures var acts := Repeat(RescueStep(j), |s.rescues[j]|);
      && Runs(cfg, s, acts)
      && Final(cfg, s, acts) == s.(core := RunRescue(s.core, s.rescues[j]), rescues := s.rescues[j := []])
    decreases |s.rescues[j]|
  {
    hide Rescue;
    var ops := s.rescues[j];
    if ops == [] {
      assert s.rescues[j := []] == s.rescues;
    } else {
      var s' := RescueNext(s, j);
      assert Next(cfg, s, RescueStep(j)) == s';
      assert Repeat(RescueStep(j), |ops|)[1..] == Repeat(RescueStep(j), |ops| - 1);
      RescueAlone(cfg, s', j);
      assert s'.rescues[j := []] == s.rescues[j := []];
    }
  }

  // ----- What a pass leaves in the queues -----

  /** The publishes that arrive. */
  function Arriving(copies: seq<Copy>, fates: seq<Fate>): seq<Copy>
    requires |copies| == |fates|
  {
    if copies == [] then []
    else (if fates[0].Dropped? then [] else [copies[0]]) + Arriving(copies[1..], fates[1..])
  }

  /** New copies come in, in order; none is changed or removed. */
  ghost predicate Appended(core: Core, core': Core, more: seq<Copy>)
  {
    && core'.next == core.next + |more|
    && (forall k :: k in core'.copies <==> k in core.copies || core.next <= k < core'.next)
    && (forall k | core.next <= k < core'.next :: core'.copies[k] == more[k - core.next])
    && (forall k | k in core.copies && k < core.next :: core'.copies[k] == core.copies[k])
  }

  lemma AppendedTwice(a: Core, b: Core, c: Core, x: seq<Copy>, y: seq<Copy>)
    requires Appended(a, b, x) && Appended(b, c, y)
    ensures Appended(a, c, x + y)
  {}

  lemma AppendedNone(a: Core, b: Core)
    requires a.copies == b.copies && a.next == b.next
    ensures Appended(a, b, [])
  {}

  /** A publish through the exchange reaches the channel's work queue, with its attempt in 32 bits. */
  lemma PostWork(core: Core, c: Channel, header: int, body: Message, fate: Fate)
    requires ValidChannel(c)
    ensures Appended(core, Post(core, Publishing(EXCHANGE, RoutingKey(c), header, None), body, fate, header, []),
                     if fate.Dropped? then [] else [Copy(Work(c), body, ToInt32(header), header, [])])
  {
    hide Resolve, RoutingKey, ValidChannel;
    ResolveBinding(c);
  }

  // ----- A relay's pass -----

  lemma RelayUnfold(
    core: Core, outbox: map<nat, OutboxRow>, p: nat, items: seq<Item>, answers: seq<RelayAnswers>, applied: bool)
    requires |items| == |answers| > 0
    ensures var ops := ItemOps(items[0], answers[0]);
      var (core1, outbox1) := RelayEffect(core, outbox, p, ops[0]);
      var (core2, outbox2) := RelayEffect(core1, outbox1, p, ops[1]);
      RunRelay(core, outbox, p, ItemsOps(items, answers) + [Commit(applied)])
        == RunRelay(core2, outbox2, p, ItemsOps(items[1..], answers[1..]) + [Commit(applied)])
  {
    hide RelayEffect;
    var ops, rest := ItemOps(items[0], answers[0]), ItemsOps(items[1..], answers[1..]) + [Commit(applied)];
    assert ItemsOps(items, answers) + [Commit(applied)] == ops + rest;
    assert (ops + rest)[1..] == [ops[1]] + rest;
    assert ([ops[1]] + rest)[1..] == rest;
  }

  lemma RelayEnd(
    core: Core, outbox: map<nat, OutboxRow>, p: nat, items: seq<Item>, answers: seq<RelayAnswers>, applied: bool)
    requires items == [] && answers == []
    ensures RunRelay(core, outbox, p, ItemsOps(items, answers) + [Commit(applied)]) ==
      (core, Release(outbox, p, applied))
  {
    hide Release;
    assert ItemsOps(items, answers) + [Commit(applied)] == [Commit(applied)];
    assert [Commit(applied)][1..] == [];
  }

  /** A claimed row when its pass has ended. */
  predicate Relayed(row: OutboxRow, row': OutboxRow, a: RelayAnswers, applied: bool)
  {
    row' ==
      if !applied || !a.stored then row.(lock := Free)
      else if a.fate.Confirmed? then row.(published := true, lock := Free)
      else if row.attempts < MAX_INT32 then row.(attempts := row.attempts + 1, lock := Free)
      else row.(lock := Free)
  }

  /** The items are rows the pass has locked and not touched yet. */
  predicate Claims(outbox: map<nat, OutboxRow>, p: nat, items: seq<Item>)
  {
    && (forall i, j | 0 <= i < j < |items| :: items[i].row != items[j].row)
    && (forall i | 0 <= i < |items| ::
          && items[i].row in outbox && outbox[items[i].row].lock == Held(p, false, Unmarked)
          && items[i].attempts == outbox[items[i].row].attempts)
  }

  lemma ClaimsTail(outbox: map<nat, OutboxRow>, p: nat, items: seq<Item>, row: OutboxRow)
    requires items != [] && Claims(outbox, p, items)
    ensures Claims(outbox[items[0].row := row], p, items[1..])
  {
    assert forall i | 0 <= i < |items| - 1 :: items[1..][i] == items[i + 1];
  }

  /** The outbox after the first two calls of a pass, and the rest of it. */
  lemma PassUnfolds(
    core: Core, outbox: map<nat, OutboxRow>, p: nat, items: seq<Item>, answers: seq<RelayAnswers>, applied: bool)
    returns (core': Core, row: OutboxRow)
    requires |items| == |answers| > 0 && Claims(outbox, p, items)
    ensures RunRelay(core, outbox, p, ItemsOps(items, answers) + [Commit(applied)])
      == RunRelay(core', outbox[items[0].row := row], p, ItemsOps(items[1..], answers[1..]) + [Commit(applied)])
    ensures Claims(outbox[items[0].row := row], p, items[1..])
    ensures HeldBy(row, p) && Relayed(outbox[items[0].row], Freed(row, applied), answers[0], applied)
  {
    var ops := ItemOps(items[0], answers[0]);
    var (core1, outbox1) := RelayEffect(core, outbox, p, ops[0]);
    var (core2, outbox2) := RelayEffect(core1, outbox1, p, ops[1]);
    assert outbox[items[0].row].lock == Held(p, false, Unmarked);
    hide RelayEffect, RunRelay, Freed, Relayed;
    RelayUnfold(core, outbox, p, items, answers, applied);
    ItemMarks(core, outbox, p, items[0], answers[0], applied);
    core', row := core2, outbox2[items[0].row];
    ClaimsTail(outbox, p, items, row);
  }

  /** A row that the pass has not claimed. */
  lemma {:induction false} PassOther(
    core: Core, outbox: map<nat, OutboxRow>, p: nat, items: seq<Item>, answers: seq<RelayAnswers>, applied: bool,
    r: nat)
    requires |items| == |answers| && Claims(outbox, p, items) && r in outbox
    requires forall i | 0 <= i < |items| :: items[i].row != r
    ensures var outbox' := RunRelay(core, outbox, p, ItemsOps(items, answers) + [Commit(applied)]).1;
      r in outbox' && outbox'[r] == if HeldBy(outbox[r], p) then Freed(outbox[r], applied) else outbox[r]
    decreases |items|
  {
    hide RelayEffect, RunRelay, Freed, Relayed, ItemsOps, Claims;
    if items == [] {
      RelayEnd(core, outbox, p, items, answers, applied);
    } else {
      var core', row := PassUnfolds(core, outbox, p, items, answers, applied);
      assert items[0].row != r;
      var outbox1 := outbox[items[0].row := row];
      PassOther(core', outbox1, p, items[1..], answers[1..], applied, r);
    }
  }

  lemma RowsThere(outbox: map<nat, OutboxRow>, p: nat, items: seq<Item>)
    requires Claims(outbox, p, items)
    ensures forall i | 0 <= i < |items| :: items[i].row in outbox
    ensures forall i | 0 < i < |items| :: items[i].row != items[0].row
  {}

  /** A row that the pass has claimed. */
  lemma {:induction false} PassOwn(
    core: Core, outbox: map<nat, OutboxRow>, p: nat, items: seq<Item>, answers: seq<RelayAnswers>, applied: bool,
    i: nat)
    requires i < |items| == |answers| && Claims(outbox, p, items)
    ensures var outbox' := RunRelay(core, outbox, p, ItemsOps(items, answers) + [Commit(applied)]).1;
      && items[i].row in outbox && items[i].row in outbox'
      && Relayed(outbox[items[i].row], outbox'[items[i].row], answers[i], applied)
    decreases |items|
  {
    hide RelayEffect, RunRelay, Freed, Relayed, ItemsOps, Claims;
    RowsThere(outbox, p, items);
    var core', row := PassUnfolds(core, outbox, p, items, answers, applied);
    var outbox1 := outbox[items[0].row := row];
    if i == 0 {
      assert forall j | 0 <= j < |items| - 1 :: items[1..][j] == items[j + 1];
      PassOther(core', outbox1, p, items[1..], answers[1..], applied, items[0].row);
    } else {
      PassOwn(core', outbox1, p, items[1..], answers[1..], applied, i - 1);
    }
  }

  /** The two calls on one row touch that row alone, and what they mark is what the end of the pass makes of it. */
  lemma ItemMarks(core: Core, outbox: map<nat, OutboxRow>, p: nat, it: Item, a: RelayAnswers, applied: bool)
    requires it.row in outbox && outbox[it.row].lock == Held(p, false, Unmarked)
    requires it.attempts == outbox[it.row].attempts
    ensures var ops := ItemOps(it, a);
      var (core1, outbox1) := RelayEffect(core, outbox, p, ops[0]);
      var outbox2 := RelayEffect(core1, outbox1, p, ops[1]).1;
      && it.row in outbox2 && HeldBy(outbox2[it.row], p) && outbox2 == outbox[it.row := outbox2[it.row]]
      && Relayed(outbox[it.row], Freed(outbox2[it.row], applied), a, applied)
  {
    hide Post, RoutingKey;
  }

  lemma LockedClaims(outbox: map<nat, OutboxRow>, p: nat, rows: seq<nat>)
    requires Distinct(rows) && forall r | r in rows :: r in outbox
    ensures var items, locked := ItemsOf(outbox, rows), LockRows(outbox, rows, p);
      && Claims(locked, p, items) && locked.Keys == outbox.Keys
      && (forall r | r in outbox && r !in rows :: locked[r] == outbox[r])
      && (forall i | 0 <= i < |rows| ::
            items[i].row == rows[i] && locked[rows[i]] == outbox[rows[i]].(lock := Held(p, false, Unmarked)))
  {
    assert forall i | 0 <= i < |rows| :: rows[i] in rows && ItemsOf(outbox, rows)[i].row == rows[i];
  }

  predicate HoldsNone(outbox: map<nat, OutboxRow>, p: nat)
  {
    forall r | r in outbox :: !HeldBy(outbox[r], p)
  }

  /** Each row of the batch is published, or has failed once more, or is as it was; every other row is as it was. */
  predicate RowsRelayed(
    outbox: map<nat, OutboxRow>, outbox': map<nat, OutboxRow>, rows: seq<nat>, answers: seq<RelayAnswers>,
    applied: bool)
    requires |answers| == |rows| && forall r | r in rows :: r in outbox
  {
    && outbox'.Keys == outbox.Keys
    && (forall r | r in outbox && r !in rows :: outbox'[r] == outbox[r])
    && (forall i | 0 <= i < |rows| :: var row, a := outbox[rows[i]], answers[i];
          outbox'[rows[i]] ==
            if !applied || !a.stored then row
            else if a.fate.Confirmed? then row.(published := true)
            else if row.attempts < MAX_INT32 then row.(attempts := row.attempts + 1)
            else row)
  }

  /** The outbox after a pass that runs alone. */
  lemma RelayedRows(
    core: Core, outbox: map<nat, OutboxRow>, p: nat, rows: seq<nat>, answers: seq<RelayAnswers>, applied: bool)
    requires Distinct(rows) && |answers| == |rows|
    requires forall r | r in rows :: r in outbox && outbox[r].lock.Free?
    requires HoldsNone(outbox, p)
    ensures
      var ops := ItemsOps(ItemsOf(outbox, rows), answers) + [Commit(applied)];
      RowsRelayed(outbox, RunRelay(core, LockRows(outbox, rows, p), p, ops).1, rows, answers, applied)
  {
    var items, locked := ItemsOf(outbox, rows), LockRows(outbox, rows, p);
    LockedClaims(outbox, p, rows);
    hide RunRelay, ItemsOps, Claims, ItemsOf, LockRows;
    var outbox' := RunRelay(core, locked, p, ItemsOps(items, answers) + [Commit(applied)]).1;
    forall i | 0 <= i < |rows|
      ensures rows[i] in outbox' && Relayed(outbox[rows[i]], outbox'[rows[i]], answers[i], applied)
    {
      PassOwn(core, locked, p, items, answers, applied, i);
    }
    forall r | r in outbox && r !in rows ensures r in outbox' && outbox'[r] == outbox[r] {
      PassOther(core, locked, p, items, answers, applied, r);
    }
    KeysKept(core, locked, p, ItemsOps(items, answers) + [Commit(applied)]);
  }

  lemma {:induction false} KeysKept(core: Core, outbox: map<nat, OutboxRow>, p: nat, ops: seq<RelayOp>)
    ensures RunRelay(core, outbox, p, ops).1.Keys == outbox.Keys
    decreases |ops|
  {
    hide Post;
    if ops != [] {
      var (core', outbox') := RelayEffect(core, outbox, p, ops[0]);
      KeysKept(core', outbox', p, ops[1..]);
    }
  }

  /** What a pass publishes: every claimed row's payload to its channel, with its attempts as the header. */
  function RowCopies(outbox: map<nat, OutboxRow>, rows: seq<nat>): (copies: seq<Copy>)
    requires forall r | r in rows :: r in outbox
    ensures |copies| == |rows|
  {
    seq(|rows|, i requires 0 <= i < |rows| =>
      Copy(Work(outbox[rows[i]].channel), outbox[rows[i]].payload, ToInt32(outbox[rows[i]].attempts),
           outbox[rows[i]].attempts, []))
  }

  function ItemCopies(items: seq<Item>): (copies: seq<Copy>)
    ensures |copies| == |items|
  {
    seq(|items|, i requires 0 <= i < |items| =>
      Copy(Work(items[i].channel), items[i].payload, ToInt32(items[i].attempts), items[i].attempts, []))
  }

  function RelayFates(answers: seq<RelayAnswers>): (fates: seq<Fate>)
    ensures |fates| == |answers|
  {
    seq(|answers|, i requires 0 <= i < |answers| => answers[i].fate)
  }

  /** The queues and the log change by the one publish alone. */
  lemma ItemPublishes(core: Core, outbox: map<nat, OutboxRow>, p: nat, it: Item, a: RelayAnswers)
    requires ValidChannel(it.channel)
    ensures var ops := ItemOps(it, a);
      var (core1, outbox1) := RelayEffect(core, outbox, p, ops[0]);
      var core2 := RelayEffect(core1, outbox1, p, ops[1]).0;
      && Appended(core, core2, if a.fate.Dropped? then [] else ItemCopies([it]))
      && core2.log == core.log && core2.settlements == core.settlements
  {
    PostWork(core, it.channel, it.attempts, it.payload, a.fate);
    PostKeeps(core, Publishing(EXCHANGE, RoutingKey(it.channel), it.attempts, None), it.payload, a.fate, it.attempts,
              []);
    hide Post, RoutingKey, ValidChannel;
  }

  lemma PostKeeps(core: Core, p: Publishing, body: Message, fate: Fate, entered: int, waited: seq<int>)
    ensures var core' := Post(core, p, body, fate, entered, waited);
      core'.log == core.log && core'.settlements == core.settlements
  {
    hide Resolve, Sealed;
  }

  lemma {:induction false} PassCopies(
    core: Core, outbox: map<nat, OutboxRow>, p: nat, items: seq<Item>, answers: seq<RelayAnswers>, applied: bool)
    requires |items| == |answers| && forall i | 0 <= i < |items| :: ValidChannel(items[i].channel)
    ensures var core' := RunRelay(core, outbox, p, ItemsOps(items, answers) + [Commit(applied)]).0;
      && Appended(core, core', Arriving(ItemCopies(items), RelayFates(answers)))
      && core'.log == core.log && core'.settlements == core.settlements
    decreases |items|
  {
    hide RunRelay, ItemsOps, ValidChannel, RelayEffect, Appended;
    if items == [] {
      RelayEnd(core, outbox, p, items, answers, applied);
      AppendedNone(core, core);
    } else {
      RelayUnfold(core, outbox, p, items, answers, applied);
      var ops := ItemOps(items[0], answers[0]);
      var (core1, outbox1) := RelayEffect(core, outbox, p, ops[0]);
      var (core2, outbox2) := RelayEffect(core1, outbox1, p, ops[1]);
      ItemPublishes(core, outbox, p, items[0], answers[0]);
      PassCopies(core2, outbox2, p, items[1..], answers[1..], applied);
      var core' := RunRelay(core, outbox, p, ItemsOps(items, answers) + [Commit(applied)]).0;
      assert ItemCopies(items)[1..] == ItemCopies(items[1..]) && RelayFates(answers)[1..] == RelayFates(answers[1..]);
      AppendedTwice(core, core2, core', if answers[0].fate.Dropped? then [] else ItemCopies([items[0]]),
                    Arriving(ItemCopies(items[1..]), RelayFates(answers[1..])));
      assert ItemCopies([items[0]]) == [ItemCopies(items)[0]];
    }
  }

  /** The queues after a pass that runs alone. */
  lemma RelayedCopies(
    core: Core, outbox: map<nat, OutboxRow>, p: nat, rows: seq<nat>, answers: seq<RelayAnswers>, applied: bool)
    requires |answers| == |rows| && forall r | r in rows :: r in outbox && ValidChannel(outbox[r].channel)
    ensures
      var ops := ItemsOps(ItemsOf(outbox, rows), answers) + [Commit(applied)];
      var core' := RunRelay(core, LockRows(outbox, rows, p), p, ops).0;
      && Appended(core, core', Arriving(RowCopies(outbox, rows), RelayFates(answers)))
      && core'.log == core.log && core'.settlements == core.settlements
  {
    var items := ItemsOf(outbox, rows);
    hide RunRelay, ItemsOps, ValidChannel, Appended, Arriving, LockRows;
    assert forall i | 0 <= i < |rows| :: rows[i] in rows;
    assert ItemCopies(items) == RowCopies(outbox, rows);
    PassCopies(core, LockRows(outbox, rows, p), p, items, answers, applied);
  }

  // ----- A janitor's pass -----

  lemma {:induction false} RunRescueConcat(core: Core, ops: seq<RescueOp>, rest: seq<RescueOp>)
    ensures RunRescue(core, ops + rest) == RunRescue(RunRescue(core, ops), rest)
    decreases |ops|
  {
    hide Rescue;
    if ops == [] {
      assert ops + rest == rest;
    } else {
      assert (ops + rest)[1..] == ops[1..] + rest;
      RunRescueConcat(Rescue(core, ops[0]), ops[1..], rest);
    }
  }

  lemma RescueUnfold(core: Core, rows: seq<LogRow>, answers: seq<RescueAnswers>)
    requires |rows| == |answers| > 0
    ensures RunRescue(core, RescueOps(rows, answers))
      == RunRescue(RunRescue(core, RowOps(rows[0], answers[0])), RescueOps(rows[1..], answers[1..]))
  {
    hide RunRescue, RowOps;
    RunRescueConcat(core, RowOps(rows[0], answers[0]), RescueOps(rows[1..], answers[1..]));
  }

  lemma RowRescued(core: Core, row: LogRow, a: RescueAnswers)
    ensures var p := Publishing(EXCHANGE, RoutingKey(row.content.channel), row.attempt, None);
      var posted := Post(core, p, Encode(row.content, row.attempt), a.fate, row.attempt, []);
      RunRescue(core, RowOps(row, a))
        == if a.fate.Confirmed? then Store(posted, row.content.id, Enqueued, row.attempt, RESCUED, a.stored) else posted
  {
    hide Post, Store, Encode;
    var ops := RowOps(row, a);
    var core1 := Rescue(core, ops[0]);
    if a.fate.Confirmed? {
      assert ops[1..] == [ops[1]] && [ops[1]][1..] == [];
      assert RunRescue(core1, [ops[1]]) == RunRescue(Rescue(core1, ops[1]), []);
    } else {
      assert ops[1..] == [];
    }
    assert RunRescue(core, ops) == RunRescue(core1, ops[1..]);
  }

  /** What a janitor publishes: every row anew, with its own attempt. */
  function Rescued(rows: seq<LogRow>): (copies: seq<Copy>)
    ensures |copies| == |rows|
  {
    seq(|rows|, i requires 0 <= i < |rows| =>
      Copy(Work(rows[i].content.channel), Encode(rows[i].content, rows[i].attempt), ToInt32(rows[i].attempt),
           rows[i].attempt, []))
  }

  function RescueFates(answers: seq<RescueAnswers>): (fates: seq<Fate>)
    ensures |fates| == |answers|
  {
    seq(|answers|, i requires 0 <= i < |answers| => answers[i].fate)
  }

  /** The queues after a janitor's pass that runs alone. */
  lemma {:induction false} RescuedCopies(core: Core, rows: seq<LogRow>, answers: seq<RescueAnswers>)
    requires |rows| == |answers| && forall i | 0 <= i < |rows| :: ValidChannel(rows[i].content.channel)
    ensures Appended(core, RunRescue(core, RescueOps(rows, answers)), Arriving(Rescued(rows), RescueFates(answers)))
    decreases |rows|
  {
    hide RescueOps, RunRescue, RowOps, ValidChannel, Appended, Encode;
    if rows == [] {
      NoRescue(core);
      AppendedNone(core, core);
    } else {
      RescueUnfold(core, rows, answers);
      var core1 := RunRescue(core, RowOps(rows[0], answers[0]));
      RowPublished(core, rows[0], answers[0]);
      RescuedCopies(core1, rows[1..], answers[1..]);
      assert Rescued(rows)[1..] == Rescued(rows[1..]) && RescueFates(answers)[1..] == RescueFates(answers[1..]);
      assert Rescued([rows[0]]) == [Rescued(rows)[0]];
      AppendedTwice(core, core1, RunRescue(core, RescueOps(rows, answers)),
                    if answers[0].fate.Dropped? then [] else Rescued([rows[0]]),
                    Arriving(Rescued(rows[1..]), RescueFates(answers[1..])));
    }
  }

  lemma NoRescue(core: Core)
    ensures RunRescue(core, RescueOps([], [])) == core
  {}

  lemma RowPublished(core: Core, row: LogRow, a: RescueAnswers)
    requires ValidChannel(row.content.channel)
    ensures Appended(core, RunRescue(core, RowOps(row, a)), if a.fate.Dropped? then [] else Rescued([row]))
  {
    var body := Encode(row.content, row.attempt);
    RowRescued(core, row, a);
    PostWork(core, row.content.channel, row.attempt, body, a.fate);
    var p := Publishing(EXCHANGE, RoutingKey(row.content.channel), row.attempt, None);
    assert Rescued([row]) == [Copy(Work(row.content.channel), body, ToInt32(row.attempt), row.attempt, [])];
    StoreQueues(Post(core, p, body, a.fate, row.attempt, []), row, a);
    hide Post, RunRescue, RowOps, Encode, Store, RoutingKey, ValidChannel;
  }

  lemma StoreQueues(core: Core, row: LogRow, a: RescueAnswers)
    ensures var core' := Store(core, row.content.id, Enqueued, row.attempt, RESCUED, a.stored);
      core'.copies == core.copies && core'.next == core.next
  {}

  /** One row of the log after a janitor's pass that runs alone: put back to Enqueued with its own attempt if its
      publish was confirmed and the write stored, and otherwise as it was. */
  lemma {:induction false} RescuedLog(core: Core, rows: seq<LogRow>, answers: seq<RescueAnswers>, id: Uuid)
    requires |rows| == |answers| && id in core.log
    requires forall i, j | 0 <= i < j < |rows| :: rows[i].content.id != rows[j].content.id
    ensures var log := RunRescue(core, RescueOps(rows, answers)).log;
      && log.Keys == core.log.Keys
      && ((forall i | 0 <= i < |rows| :: rows[i].content.id != id) ==> log[id] == core.log[id])
      && (forall i | 0 <= i < |rows| && rows[i].content.id == id ::
            log[id] == if answers[i].fate.Confirmed? && answers[i].stored
                       then LogRow(core.log[id].content, Enqueued, rows[i].attempt, "rescued by janitor")
                       else core.log[id])
    decreases |rows|
  {
    hide RescueOps, RunRescue, RowOps;
    if rows == [] {
      NoRescue(core);
    } else {
      RescueUnfold(core, rows, answers);
      var core1 := RunRescue(core, RowOps(rows[0], answers[0]));
      RowReset(core, rows[0], answers[0]);
      assert forall i | 0 <= i < |rows| - 1 :: rows[1..][i] == rows[i + 1] && answers[1..][i] == answers[i + 1];
      RescuedLog(core1, rows[1..], answers[1..], id);
    }
  }

  lemma {:induction false} RescueKeys(core: Core, rows: seq<LogRow>, answers: seq<RescueAnswers>)
    requires |rows| == |answers|
    ensures RunRescue(core, RescueOps(rows, answers)).log.Keys == core.log.Keys
    decreases |rows|
  {
    hide RescueOps, RunRescue, RowOps;
    if rows == [] {
      NoRescue(core);
    } else {
      RescueUnfold(core, rows, answers);
      RowReset(core, rows[0], answers[0]);
      RescueKeys(RunRescue(core, RowOps(rows[0], answers[0])), rows[1..], answers[1..]);
    }
  }

  lemma RowReset(core: Core, row: LogRow, a: RescueAnswers)
    ensures var log, id := RunRescue(core, RowOps(row, a)).log, row.content.id;
      log ==
        if id in core.log && a.fate.Confirmed? && a.stored
        then core.log[id := LogRow(core.log[id].content, Enqueued, row.attempt, "rescued by janitor")]
        else core.log
  {
    var body := Encode(row.content, row.attempt);
    RowRescued(core, row, a);
    var p := Publishing(EXCHANGE, RoutingKey(row.content.channel), row.attempt, None);
    PostLog(core, p, body, a.fate, row.attempt, []);
    var posted := Post(core, p, body, a.fate, row.attempt, []);
    StoreLog(posted, row.content.id, Enqueued, row.attempt, RESCUED, a.stored);
    hide Post, RunRescue, RowOps, Encode, Store;
  }
}
