/** Every step keeps the pipeline's invariant. */
module PipelineSteps {
  import opened Basics
  import opened Uuids
  import opened Domain
  import opened Wire
  import opened Topology
  import opened Pipeline
  import opened PipelineInvariant

  lemma InitialOk(cfg: Config)
    ensures Inv(cfg, INITIAL)
  {}

  // ----- Submit -----

  lemma SubmitCore(cfg: Config, core: Core, content: Content)
    requires CoreOk(cfg, core) && ValidChannel(content.channel) && Insertable(core.log, content)
    ensures var core' := Tick(core.(log := core.log[content.id := LogRow(content, Enqueued, 0, "")]));
      CoreOk(cfg, core') && Grows(core, core')
  {
    CopiesGrow(cfg, core, core.log[content.id := LogRow(content, Enqueued, 0, "")]);
  }

  lemma SubmitKeeps(cfg: Config, s: State, content: Content)
    requires Inv(cfg, s) && ValidChannel(content.channel) && Insertable(s.core.log, content)
    ensures Inv(cfg, SubmitNext(s, content))
  {
    hide OutboxOk, PassesOk, FlightsOk, RescuesOk, CoreOk, Grows, Insertable;
    var s' := SubmitNext(s, content);
    SubmitCore(cfg, s.core, content);
    FrameAll(cfg, s, s'.core);
    SubmitRow(s, content, s'.core);
    SubmitPasses(s, content);
  }

  lemma SubmitRow(s: State, content: Content, core': Core)
    requires OutboxOk(core', s.outbox)
    requires core' == SubmitNext(s, content).core
    ensures OutboxOk(core', SubmitNext(s, content).outbox)
  {
    hide Encode;
    var row := OutboxRow(content.id, content.channel, Encode(content, 0), false, 0, Free);
    assert RowOk(core', row);
  }

  lemma SubmitPasses(s: State, content: Content)
    requires OutboxOk(s.core, s.outbox) && PassesOk(s.core, s.outbox, s.passes)
    ensures var s' := SubmitNext(s, content); PassesOk(s'.core, s'.outbox, s'.passes)
  {
    hide Encode, PassOk, RowOk;
    var s' := SubmitNext(s, content);
    OthersUndisturbed(s.outbox, s'.outbox, s.passes);
  }

  // ----- The relay -----

  /** A pass is in order as long as nobody else writes to the rows it holds. */
  lemma PassUndisturbed(outbox: map<nat, OutboxRow>, outbox': map<nat, OutboxRow>, p: nat, pass: Pass)
    requires PassOk(outbox, p, pass)
    requires forall r | Holds(outbox, r, p) :: r in outbox' && outbox'[r] == outbox[r]
    ensures PassOk(outbox', p, pass)
  {}

  lemma OthersUndisturbed(outbox: map<nat, OutboxRow>, outbox': map<nat, OutboxRow>, passes: map<nat, Pass>)
    requires forall p | p in passes :: PassOk(outbox, p, passes[p])
    requires forall r, p | p in passes && Holds(outbox, r, p) :: r in outbox' && outbox'[r] == outbox[r]
    ensures forall p | p in passes :: PassOk(outbox', p, passes[p])
  {
    forall p | p in passes ensures PassOk(outbox', p, passes[p]) {
      PassUndisturbed(outbox, outbox', p, passes[p]);
    }
  }

  lemma {:induction false} ItemsOpsAt(items: seq<Item>, answers: seq<RelayAnswers>, i: nat)
    requires |items| == |answers| && i < |items|
    ensures |ItemsOps(items, answers)| == 2 * |items|
    ensures ItemsOps(items, answers)[2 * i] == ItemOps(items[i], answers[i])[0]
    ensures ItemsOps(items, answers)[2 * i + 1] == ItemOps(items[i], answers[i])[1]
  {
    var ops := ItemsOps(items, answers);
    if |items| > 1 {
      ItemsOpsAt(items[1..], answers[1..], if i == 0 then 0 else i - 1);
    } else {
      assert ItemsOps(items[1..], answers[1..]) == [];
    }
    assert ops == ItemOps(items[0], answers[0]) + ItemsOps(items[1..], answers[1..]);
  }

  lemma ItemsOpsForm(items: seq<Item>, answers: seq<RelayAnswers>)
    requires |items| == |answers|
    ensures |ItemsOps(items, answers)| == 2 * |items|
    ensures forall k | 0 <= k < 2 * |items| ::
      ItemsOps(items, answers)[k] == ItemOps(items[k / 2], answers[k / 2])[k % 2]
  {
    if |items| > 0 {
      ItemsOpsAt(items, answers, 0);
    }
    forall k | 0 <= k < 2 * |items|
      ensures ItemsOps(items, answers)[k] == ItemOps(items[k / 2], answers[k / 2])[k % 2]
    {
      ItemsOpsAt(items, answers, k / 2);
    }
  }

  /** A claimed item: held, unshipped, and as its row says. */
  predicate ItemSafe(outbox: map<nat, OutboxRow>, p: nat, it: Item)
  {
    && Holds(outbox, it.row, p) && !outbox[it.row].lock.shipped
    && it.payload == outbox[it.row].payload && it.channel == outbox[it.row].channel
    && 0 <= it.attempts <= MAX_INT32
  }

  /** The calls of a claimed item, in their order. */
  predicate OpsOfItem(outbox: map<nat, OutboxRow>, p: nat, it: Item, ship: RelayOp, mark: RelayOp)
  {
    && it.row in outbox
    && ship.Ship? && ship.row == it.row && ship.payload == outbox[it.row].payload
    && ship.publishing == Publishing(EXCHANGE, RoutingKey(outbox[it.row].channel), it.attempts, None)
    && mark.MarkRow? && mark.row == it.row && !mark.mark.Unmarked?
    && (mark.mark.StillPending? ==> 0 <= mark.mark.attempts)
    && (mark.mark.Published? ==> ship.fate.Confirmed?)
  }

  lemma ClaimedAt(outbox: map<nat, OutboxRow>, p: nat, items: seq<Item>, answers: seq<RelayAnswers>, i: nat)
    requires |items| == |answers| && i < |items| && ItemSafe(outbox, p, items[i])
    ensures |ItemsOps(items, answers)| == 2 * |items|
    ensures OpsOfItem(outbox, p, items[i], ItemsOps(items, answers)[2 * i], ItemsOps(items, answers)[2 * i + 1])
  {
    ItemsOpsAt(items, answers, i);
  }

  lemma ClaimedSafe(outbox: map<nat, OutboxRow>, p: nat, items: seq<Item>, answers: seq<RelayAnswers>, applied: bool)
    requires |items| == |answers|
    requires forall i | 0 <= i < |items| :: ItemSafe(outbox, p, items[i])
    requires forall i, j | 0 <= i < j < |items| :: items[i].row != items[j].row
    ensures RelaySafe(outbox, p, ItemsOps(items, answers) + [Commit(applied)])
  {
    hide ItemsOps;
    var body := ItemsOps(items, answers);
    var ops := body + [Commit(applied)];
    ItemsOpsForm(items, answers);
    forall i | 0 <= i < |items|
      ensures OpsOfItem(outbox, p, items[i], ops[2 * i], ops[2 * i + 1])
    {
      ClaimedAt(outbox, p, items, answers, i);
      assert ops[2 * i] == body[2 * i] && ops[2 * i + 1] == body[2 * i + 1];
    }
    PairsSafe(outbox, p, items, ops);
  }

  lemma PairsSafe(outbox: map<nat, OutboxRow>, p: nat, items: seq<Item>, ops: seq<RelayOp>)
    requires |ops| == 2 * |items| + 1 && ops[2 * |items|].Commit?
    requires forall i | 0 <= i < |items| :: ItemSafe(outbox, p, items[i])
    requires forall i, j | 0 <= i < j < |items| :: items[i].row != items[j].row
    requires forall i | 0 <= i < |items| :: OpsOfItem(outbox, p, items[i], ops[2 * i], ops[2 * i + 1])
    ensures RelaySafe(outbox, p, ops)
  {
    forall k | 0 <= k < 2 * |items| ensures PairFact(outbox, p, items, ops, k) {
      assert OpsOfItem(outbox, p, items[k / 2], ops[2 * (k / 2)], ops[2 * (k / 2) + 1]);
      assert ItemSafe(outbox, p, items[k / 2]);
    }
    FactsSafe(outbox, p, items, ops);
  }

  lemma FactsSafe(outbox: map<nat, OutboxRow>, p: nat, items: seq<Item>, ops: seq<RelayOp>)
    requires |ops| == 2 * |items| + 1 && ops[2 * |items|].Commit?
    requires forall i, j | 0 <= i < j < |items| :: items[i].row != items[j].row
    requires forall k | 0 <= k < 2 * |items| :: PairFact(outbox, p, items, ops, k)
    ensures RelaySafe(outbox, p, ops)
  {
    assert |items| > 0 ==> PairFact(outbox, p, items, ops, 0);
    forall k | 0 <= k < 2 * |items| ensures !ops[k].Commit? {
      assert PairFact(outbox, p, items, ops, k);
    }
    forall k | 0 <= k < |ops| && !ops[k].Commit? ensures k < 2 * |items| && PairFact(outbox, p, items, ops, k) {}
    forall i, j | 0 <= i < j < |ops| && ops[i].Ship? && ops[j].Ship? ensures ops[i].row != ops[j].row {
      assert PairFact(outbox, p, items, ops, i) && PairFact(outbox, p, items, ops, j);
    }
  }

  /** What the pairing says of the call at one position. */
  predicate PairFact(outbox: map<nat, OutboxRow>, p: nat, items: seq<Item>, ops: seq<RelayOp>, k: nat)
    requires k < 2 * |items| && |ops| == 2 * |items| + 1
  {
    var it, op := items[k / 2], ops[k];
    && ItemSafe(outbox, p, it)
    && if k % 2 == 0 then
         op.Ship? && op.row == it.row && op.payload == outbox[it.row].payload
         && op.publishing == Publishing(EXCHANGE, RoutingKey(outbox[it.row].channel), it.attempts, None)
       else
         op.MarkRow? && op.row == it.row
         && (op.mark.StillPending? ==> 0 <= op.mark.attempts)
         && (op.mark.Published? ==> MarkFollows(ops[k - 1], op))
  }

  lemma ClaimedItems(core: Core, outbox: map<nat, OutboxRow>, rows: seq<nat>, p: nat, i: nat)
    requires OutboxOk(core, outbox) && i < |rows| && forall r | r in rows :: r in outbox
    ensures ItemSafe(LockRows(outbox, rows, p), p, ItemsOf(outbox, rows)[i])
  {
    hide RowOk, Encode;
    assert rows[i] in rows;
    RowBounds(core, outbox, rows[i]);
  }

  lemma RowBounds(core: Core, outbox: map<nat, OutboxRow>, r: nat)
    requires OutboxOk(core, outbox) && r in outbox
    ensures 0 <= outbox[r].attempts <= MAX_INT32
  {
    hide Encode;
    assert RowOk(core, outbox[r]);
  }

  lemma ClaimPasses(s: State, rows: seq<nat>, answers: seq<RelayAnswers>, applied: bool)
    requires OutboxOk(s.core, s.outbox) && PassesOk(s.core, s.outbox, s.passes)
    requires |rows| == |answers| && Distinct(rows) && forall r | r in rows :: r in s.outbox && s.outbox[r].lock.Free?
    ensures var s' := ClaimNext(s, rows, answers, applied); PassesOk(s'.core, s'.outbox, s'.passes)
  {
    hide RowOk, PassOk, ItemsOps;
    var p := s.core.next;
    var s' := ClaimNext(s, rows, answers, applied);
    ClaimedPass(s, rows, answers, applied);
    OthersUndisturbed(s.outbox, s'.outbox, s.passes);
  }

  lemma ClaimedPass(s: State, rows: seq<nat>, answers: seq<RelayAnswers>, applied: bool)
    requires OutboxOk(s.core, s.outbox)
    requires |rows| == |answers| && Distinct(rows) && forall r | r in rows :: r in s.outbox
    ensures var s' := ClaimNext(s, rows, answers, applied); PassOk(s'.outbox, s.core.next, s'.passes[s.core.next])
  {
    hide RowOk, OutboxOk, RelaySafe, ItemsOps, LockRows;
    var p := s.core.next;
    var outbox' := LockRows(s.outbox, rows, p);
    var items := ItemsOf(s.outbox, rows);
    forall i | 0 <= i < |items| ensures ItemSafe(outbox', p, items[i]) {
      ClaimedItems(s.core, s.outbox, rows, p, i);
    }
    assert forall i | 0 <= i < |items| :: items[i].row == rows[i];
    ClaimedSafe(outbox', p, items, answers, applied);
  }

  lemma LockRowsKeeps(core: Core, outbox: map<nat, OutboxRow>, rows: seq<nat>, p: nat)
    requires OutboxOk(core, outbox) && forall r | r in rows :: r in outbox && !outbox[r].published
    ensures OutboxOk(core, LockRows(outbox, rows, p))
  {
    hide Encode;
  }

  lemma ClaimKeeps(cfg: Config, s: State, rows: seq<nat>, answers: seq<RelayAnswers>, applied: bool)
    requires Inv(cfg, s) && Enabled(cfg, s, Claim(rows, answers, applied))
    ensures Inv(cfg, ClaimNext(s, rows, answers, applied))
  {
    hide OutboxOk, PassesOk, FlightsOk, RescuesOk, CoreOk, LockRows, ItemsOps;
    var s' := ClaimNext(s, rows, answers, applied);
    TickKeeps(cfg, s.core);
    FrameAll(cfg, s, s'.core);
    LockRowsKeeps(s'.core, s.outbox, rows, s.core.next);
    ClaimPasses(s, rows, answers, applied);
  }

  lemma TickKeeps(cfg: Config, core: Core)
    requires CoreOk(cfg, core)
    ensures CoreOk(cfg, Tick(core)) && Grows(core, Tick(core))
  {
    hide CopyOk, Known, LogOk;
  }

  /** Dropping the first call leaves a safe list, given what that call did for the second. */
  lemma RelayTail(outbox: map<nat, OutboxRow>, outbox': map<nat, OutboxRow>, p: nat, ops: seq<RelayOp>)
    requires RelaySafe(outbox, p, ops) && !ops[0].Commit?
    requires forall r | Holds(outbox, r, p) ::
      && Holds(outbox', r, p)
      && outbox'[r].payload == outbox[r].payload && outbox'[r].channel == outbox[r].channel
      && (outbox[r].lock.shipped ==> outbox'[r].lock.shipped)
      && (outbox'[r].lock.shipped ==> outbox[r].lock.shipped || (ops[0].Ship? && ops[0].row == r))
    requires ops[0].Ship? && ops[0].fate.Confirmed? && Holds(outbox', ops[0].row, p) ==>
      outbox'[ops[0].row].lock.shipped
    ensures RelaySafe(outbox', p, ops[1..])
  {
    var tail := ops[1..];
    assert forall i | 0 <= i < |tail| :: tail[i] == ops[i + 1];
    assert |ops| > 1;
    assert tail[|tail| - 1].Commit?;
    forall i | 0 <= i < |tail| && tail[i].MarkRow? && tail[i].mark.Published?
      ensures Holds(outbox, tail[i].row, p)
      ensures if i == 0 then outbox'[tail[i].row].lock.shipped
              else tail[i - 1].Ship? && tail[i - 1].row == tail[i].row && tail[i - 1].fate.Confirmed?
    {
      assert ops[i + 1].MarkRow?;
      assert ops[i].Ship? && ops[i].row == tail[i].row && ops[i].fate.Confirmed?;
    }
  }

  /** A write to the locks of rows held by p, of which only one may become shipped. */
  predicate Writes(outbox: map<nat, OutboxRow>, outbox': map<nat, OutboxRow>, p: nat, shipped: set<nat>)
  {
    && outbox.Keys == outbox'.Keys
    && forall r | r in outbox ::
         && (!HeldBy(outbox[r], p) ==> outbox'[r] == outbox[r])
         && (HeldBy(outbox[r], p) ==>
               && HeldBy(outbox'[r], p)
               && outbox'[r].payload == outbox[r].payload && outbox'[r].channel == outbox[r].channel
               && (outbox[r].lock.shipped ==> outbox'[r].lock.shipped)
               && (outbox'[r].lock.shipped ==> outbox[r].lock.shipped || r in shipped))
  }

  function Shipped(op: RelayOp): set<nat>
  {
    if op.Ship? then {op.row} else {}
  }

  lemma WritePasses(s: State, s': State, p: nat)
    requires PassesOk(s.core, s.outbox, s.passes) && p in s.passes && s.passes[p].ops != []
    requires !s.passes[p].ops[0].Commit? && Writes(s.outbox, s'.outbox, p, Shipped(s.passes[p].ops[0]))
    requires var op := s.passes[p].ops[0];
      op.Ship? && op.fate.Confirmed? && Holds(s.outbox, op.row, p) ==> s'.outbox[op.row].lock.shipped
    requires s'.passes == s.passes[p := s.passes[p].(ops := s.passes[p].ops[1..])] && s'.core.next >= s.core.next
    ensures PassesOk(s'.core, s'.outbox, s'.passes)
  {
    hide RelaySafe;
    var pass := s.passes[p];
    assert PassOk(s.outbox, p, pass);
    HeadHolds(s.outbox, p, pass.ops);
    RelayTail(s.outbox, s'.outbox, p, pass.ops);
    assert PassOk(s'.outbox, p, s'.passes[p]);
    OthersUndisturbed(s.outbox, s'.outbox, s.passes - {p});
    forall q | q in s'.passes ensures PassOk(s'.outbox, q, s'.passes[q]) {
      if q != p {
        assert q in s.passes - {p} && PassOk(s'.outbox, q, (s.passes - {p})[q]);
      }
    }
  }

  lemma HeadHolds(outbox: map<nat, OutboxRow>, p: nat, ops: seq<RelayOp>)
    requires RelaySafe(outbox, p, ops)
    ensures !ops[0].Commit? ==> Holds(outbox, ops[0].row, p)
    ensures ops[0].Ship? ==>
      && ops[0].payload == outbox[ops[0].row].payload && !outbox[ops[0].row].lock.shipped
      && ops[0].publishing
           == Publishing(EXCHANGE, RoutingKey(outbox[ops[0].row].channel), ops[0].publishing.attempt, None)
    ensures ops[0].MarkRow? && ops[0].mark.Published? ==> outbox[ops[0].row].lock.shipped
    ensures ops[0].MarkRow? && ops[0].mark.StillPending? ==> 0 <= ops[0].mark.attempts
    ensures ops[0].Commit? ==> |ops| == 1
  {}

  /** The row a relay is about to publish is its own, with its own payload. */
  lemma ShipsOwn(cfg: Config, s: State, p: nat)
    requires Inv(cfg, s) && p in s.passes && s.passes[p].ops != [] && s.passes[p].ops[0].Ship?
    ensures var op := s.passes[p].ops[0];
      && op.row in s.outbox && RowOk(s.core, s.outbox[op.row]) && op.payload == s.outbox[op.row].payload
      && op.publishing == Publishing(EXCHANGE, RoutingKey(s.outbox[op.row].channel), op.publishing.attempt, None)
      && 0 <= op.publishing.attempt <= MAX_INT32
  {
    hide RowOk, CoreOk, FlightsOk, RescuesOk, RoutingKey;
    assert PassOk(s.outbox, p, s.passes[p]);
  }

  /** The effect on the core of publishing a row. */
  function RowShipped(core: Core, row: OutboxRow, op: RelayOp): Core
    requires op.Ship?
  {
    var posted := Post(core, op.publishing, op.payload, op.fate, op.publishing.attempt, []);
    if op.fate.Confirmed? then posted.(shipments := posted.shipments + {(row.channel, op.payload)}) else posted
  }

  lemma ShippedOk(cfg: Config, core: Core, row: OutboxRow, op: RelayOp)
    requires CoreOk(cfg, core) && op.Ship? && ValidChannel(row.channel) && Carries(core.log, row.channel, op.payload)
    requires op.publishing == Publishing(EXCHANGE, RoutingKey(row.channel), op.publishing.attempt, None)
    requires 0 <= op.publishing.attempt <= MAX_INT32
    ensures CoreOk(cfg, RowShipped(core, row, op)) && Grows(core, RowShipped(core, row, op))
  {
    hide CopyOk, Known, LogOk, Post, RoutingKey, Carries, ValidChannel, LogGrows;
    EnterKeeps(cfg, core, row.channel, op.publishing.attempt, op.payload, op.fate);
  }

  lemma RowCarries(core: Core, row: OutboxRow)
    requires LogOk(core.log) && RowOk(core, row)
    ensures ValidChannel(row.channel) && Carries(core.log, row.channel, row.payload)
  {
    EncodedCarries(core.log, row.notification, 0);
    hide Carries, ValidChannel;
  }

  lemma CoreLogOk(cfg: Config, s: State)
    requires Inv(cfg, s)
    ensures CoreOk(cfg, s.core) && LogOk(s.core.log)
  {
    hide OutboxOk, PassesOk, FlightsOk, RescuesOk, CopyOk, Known, LogOk;
  }

  lemma ShipCore(cfg: Config, s: State, p: nat)
    requires Inv(cfg, s) && p in s.passes && s.passes[p].ops != [] && s.passes[p].ops[0].Ship?
    ensures var core' := RelayNext(s, p).core; CoreOk(cfg, core') && Grows(s.core, core')
  {
    hide Inv, CoreOk, RowOk, LogOk, Grows, Post, RoutingKey, Carries, ValidChannel, ShipEffect;
    var op := s.passes[p].ops[0];
    ShipsOwn(cfg, s, p);
    CoreLogOk(cfg, s);
    RowCarries(s.core, s.outbox[op.row]);
    ShippedOk(cfg, s.core, s.outbox[op.row], op);
    assert RelayNext(s, p).core == RowShipped(s.core, s.outbox[op.row], op);
  }

  lemma ShipRows(core: Core, core': Core, outbox: map<nat, OutboxRow>, row: nat, fate: Fate)
    requires OutboxOk(core', outbox) && row in outbox
    requires fate.Confirmed? ==> (outbox[row].channel, outbox[row].payload) in core'.shipments
    ensures OutboxOk(core', ShipEffect(outbox, row, fate))
  {
    hide Encode;
  }

  lemma MarkRows(core: Core, outbox: map<nat, OutboxRow>, row: nat, mark: Mark, stored: bool)
    requires OutboxOk(core, outbox) && row in outbox
    requires mark.Published? && outbox[row].lock.Held? ==> outbox[row].lock.shipped
    requires mark.StillPending? ==> 0 <= mark.attempts
    ensures OutboxOk(core, MarkEffect(outbox, row, mark, stored))
  {
    hide Encode;
  }

  lemma ReleaseRows(core: Core, outbox: map<nat, OutboxRow>, p: nat, applied: bool)
    requires OutboxOk(core, outbox)
    ensures OutboxOk(core, Release(outbox, p, applied))
  {
    hide Encode;
  }

  lemma ReleasePasses(s: State, p: nat, applied: bool)
    requires PassesOk(s.core, s.outbox, s.passes)
    ensures PassesOk(s.core, Release(s.outbox, p, applied), s.passes - {p})
  {
    hide RelaySafe, PassOk;
    OthersUndisturbed(s.outbox, Release(s.outbox, p, applied), s.passes - {p});
  }

  lemma ShipKeeps(cfg: Config, s: State, p: nat)
    requires Inv(cfg, s) && p in s.passes && s.passes[p].ops != [] && s.passes[p].ops[0].Ship?
    ensures Inv(cfg, RelayNext(s, p))
  {
    hide OutboxOk, FlightsOk, RescuesOk, CoreOk, LogGrows, RelaySafe, Post;
    var s' := RelayNext(s, p);
    var op := s.passes[p].ops[0];
    assert PassOk(s.outbox, p, s.passes[p]);
    HeadHolds(s.outbox, p, s.passes[p].ops);
    ShipCore(cfg, s, p);
    FrameAll(cfg, s, s'.core);
    ShipRows(s.core, s'.core, s.outbox, op.row, op.fate);
    WritePasses(s, s', p);
  }

  lemma MarkKeeps(cfg: Config, s: State, p: nat)
    requires Inv(cfg, s) && p in s.passes && s.passes[p].ops != [] && s.passes[p].ops[0].MarkRow?
    ensures Inv(cfg, RelayNext(s, p))
  {
    hide OutboxOk, FlightsOk, RescuesOk, CoreOk, RelaySafe;
    var s' := RelayNext(s, p);
    var op := s.passes[p].ops[0];
    assert PassOk(s.outbox, p, s.passes[p]);
    HeadHolds(s.outbox, p, s.passes[p].ops);
    MarkRows(s.core, s.outbox, op.row, op.mark, op.stored);
    WritePasses(s, s', p);
  }

  lemma ReleaseKeeps(cfg: Config, s: State, p: nat, applied: bool)
    requires Inv(cfg, s)
    ensures Inv(cfg, s.(outbox := Release(s.outbox, p, applied), passes := s.passes - {p}))
  {
    hide OutboxOk, PassesOk, FlightsOk, RescuesOk, CoreOk, Release;
    ReleaseRows(s.core, s.outbox, p, applied);
    ReleasePasses(s, p, applied);
  }

  // ----- The worker -----

  lemma DeliverKeeps(cfg: Config, s: State, k: nat, a: WorkerAnswers)
    requires Inv(cfg, s) && k in s.core.copies && s.core.copies[k].queue.Work?
    ensures Inv(cfg, DeliverNext(cfg, s, k, a))
  {
    hide OutboxOk, PassesOk, RescuesOk, HandleOps, Safe, Lineage, LogOk, Carries, Known;
    var s' := DeliverNext(cfg, s, k, a);
    var copy := s.core.copies[k];
    assert CopyOk(cfg, s.core.log, copy);
    assert CoreOk(cfg, s'.core) && Grows(s.core, s'.core);
    FrameAll(cfg, s, s'.core);
    CopySafe(cfg, s.core.log, copy, a);
  }

  lemma CopySafe(cfg: Config, log: map<Uuid, LogRow>, copy: Copy, a: WorkerAnswers)
    requires LogOk(log) && CopyOk(cfg, log, copy) && copy.queue.Work?
    ensures Safe(cfg, copy, HandleOps(copy.queue.channel, copy.body, copy.attempt, cfg.maxRetries, a), false)
  {
    hide Safe, HandleOps;
    CarriesDecodes(log, copy.queue.channel, copy.body);
    HandleIsSafe(cfg, copy, a);
  }

  lemma PerformKeeps(cfg: Config, core: Core, f: Flight)
    requires CoreOk(cfg, core) && FlightOk(cfg, core.log, f) && !LeavesBroker(f.ops[0])
    ensures var (core', settled) := Perform(core, f.copy, f.settled, f.ops[0]);
      && CoreOk(cfg, core') && Grows(core, core')
      && Safe(cfg, f.copy, f.ops[1..], settled)
  {
    hide CopyOk, Known, Carries, Post, RetryPublishing;
    assert CopyOk(cfg, core.log, f.copy);
    FlightFacts(cfg, core.log, f);
    match f.ops[0]
    case StoreStatus(id, status, attempt, lastError, stored) =>
      StoreKeeps(cfg, core, id, status, attempt, lastError, stored);
    case Send(reply) =>
      SettleKeeps(cfg, core, f.copy.body.id, if reply.Delivered? then Accepted else Rejected);
    case Forward(p, fate) =>
      ForwardKeeps(cfg, core, f.copy, if f.settled then cfg.maxRetries else f.copy.attempt, fate);
      var posted := Post(core, p, f.copy.body, fate, f.copy.entered, f.copy.waited);
      KnownGrows(core.log, posted.log, f.copy.body.id);
      SettleKeeps(cfg, posted, f.copy.body.id, Exhausted);
    case _ =>
  }

  lemma KnownGrows(log: map<Uuid, LogRow>, log': map<Uuid, LogRow>, text: string)
    requires Known(log, text) && LogGrows(log, log')
    ensures Known(log', text)
  {}

  lemma FlightFacts(cfg: Config, log: map<Uuid, LogRow>, f: Flight)
    requires LogOk(log) && FlightOk(cfg, log, f)
    ensures 0 <= f.copy.attempt <= MAX_INT32 && Known(log, f.copy.body.id)
  {
    CarriesKnown(log, f.copy.queue.channel, f.copy.body);
  }

  lemma SafeHead(cfg: Config, copy: Copy, ops: seq<WorkerOp>, settled: bool)
    requires Safe(cfg, copy, ops, settled)
    ensures ops != [] && !ops[0].Reject? && !ops[0].Panic?
    ensures ops[0].Ack? ==> settled
    ensures ops[0].Nack? ==> !settled
  {}

  lemma ConcludeKeeps(cfg: Config, core: Core, copy: Copy, op: WorkerOp)
    requires CoreOk(cfg, core) && CopyOk(cfg, core.log, copy) && !op.Reject?
    ensures CoreOk(cfg, Conclude(core, copy, op)) && Grows(core, Conclude(core, copy, op))
  {
    hide CopyOk, Known, LogOk;
  }

  lemma WorkerKeeps(cfg: Config, s: State, f: nat)
    requires Inv(cfg, s) && f in s.flights && s.flights[f].ops != []
    ensures Inv(cfg, WorkerNext(s, f))
  {
    hide OutboxOk, PassesOk, RescuesOk, CopyOk, CoreOk, Grows, Safe, Perform;
    var s', flight := WorkerNext(s, f), s.flights[f];
    assert FlightOk(cfg, s.core.log, flight);
    if LeavesBroker(flight.ops[0]) {
      assert !flight.ops[0].Reject? by { SafeHead(cfg, flight.copy, flight.ops, flight.settled); }
      ConcludeKeeps(cfg, s.core, flight.copy, flight.ops[0]);
      FrameAll(cfg, s, s'.core);
    } else {
      PerformKeeps(cfg, s.core, flight);
      FrameAll(cfg, s, s'.core);
      assert FlightOk(cfg, s'.core.log, s'.flights[f]);
    }
  }

  lemma WorkerCrashKeeps(cfg: Config, s: State, f: nat)
    requires Inv(cfg, s) && f in s.flights
    ensures Inv(cfg, WorkerCrashNext(s, f))
  {
    hide OutboxOk, PassesOk, RescuesOk, CopyOk, CoreOk, Grows, Safe;
    var s' := WorkerCrashNext(s, f);
    assert FlightOk(cfg, s.core.log, s.flights[f]);
    ConcludeKeeps(cfg, s.core, s.flights[f].copy, if s.flights[f].owned then Nack else Ack);
    FrameAll(cfg, s, s'.core);
  }

  lemma ConnectionLostKeeps(cfg: Config, s: State, f: nat)
    requires Inv(cfg, s) && f in s.flights
    ensures Inv(cfg, ConnectionLostNext(s, f))
  {
    hide OutboxOk, PassesOk, RescuesOk, CopyOk, CoreOk, Grows, Safe;
    var s' := ConnectionLostNext(s, f);
    assert FlightOk(cfg, s.core.log, s.flights[f]);
    ConcludeKeeps(cfg, s.core, s.flights[f].copy, Nack);
    FrameAll(cfg, s, s'.core);
    assert FlightOk(cfg, s'.core.log, s'.flights[f]);
  }

  /** A retry copy whose time is up is the same message in its channel's work queue. */
  lemma ExpireMoves(core: Core, copy: Copy)
    requires ValidChannel(copy.queue.channel) && copy.queue.Retry? && 0 <= copy.attempt <= MAX_INT32
    ensures Post(core, Publishing("", DeadLetterKey(copy.queue), copy.attempt, None), copy.body, Confirmed,
                 copy.entered, copy.waited)
         == Put(core, copy.(queue := Work(copy.queue.channel)))
  {
    hide Resolve, WorkQueue;
    ResolveName(Work(copy.queue.channel));
  }

  lemma ExpireKeeps(cfg: Config, s: State, k: nat)
    requires Inv(cfg, s) && k in s.core.copies && s.core.copies[k].queue.Retry?
    ensures Inv(cfg, ExpireNext(s, k))
    ensures var copy := s.core.copies[k];
      ExpireNext(s, k) == s.(core := Put(Removed(s.core, k), copy.(queue := Work(copy.queue.channel))))
  {
    hide OutboxOk, PassesOk, RescuesOk, FlightsOk, CoreOk, LogGrows, Resolve, Deposit, Carries, DeadLetterKey;
    var s', copy := ExpireNext(s, k), s.core.copies[k];
    RemovedKeeps(cfg, s.core, k);
    ExpireMoves(Removed(s.core, k), copy);
    PutKeeps(cfg, Removed(s.core, k), copy.(queue := Work(copy.queue.channel)));
    FrameAll(cfg, s, s'.core);
  }

  lemma RemovedKeeps(cfg: Config, core: Core, k: nat)
    requires CoreOk(cfg, core)
    ensures CoreOk(cfg, Removed(core, k)) && Grows(core, Removed(core, k))
    ensures k in core.copies ==> CopyOk(cfg, core.log, core.copies[k])
  {
    hide CopyOk, Known, LogOk;
  }

  // ----- The janitor -----

  lemma {:induction false} RescueOpsSafe(log: map<Uuid, LogRow>, rows: seq<LogRow>, answers: seq<RescueAnswers>)
    requires |rows| == |answers|
    requires forall row | row in rows :: RowRescuable(log, row)
    ensures forall op | op in RescueOps(rows, answers) :: RescueSafe(log, op)
  {
    hide RescueSafe, RowRescuable;
    if rows != [] {
      RowOpsSafe(log, rows[0], answers[0]);
      RescueOpsSafe(log, rows[1..], answers[1..]);
    }
  }

  /** A log row as the janitor reads it, which may be stale by the time it is used. */
  ghost predicate RowRescuable(log: map<Uuid, LogRow>, row: LogRow)
  {
    && ValidChannel(row.content.channel) && 0 <= row.attempt <= MAX_INT32
    && exists id :: id in log && log[id].content == row.content
  }

  lemma RowOpsSafe(log: map<Uuid, LogRow>, row: LogRow, a: RescueAnswers)
    requires RowRescuable(log, row)
    ensures forall op | op in RowOps(row, a) :: RescueSafe(log, op)
  {
    hide ValidChannel, Carries, RoutingKey, Uuids.Print;
    var id :| id in log && log[id].content == row.content;
    EncodedCarries(log, id, row.attempt);
  }

  lemma ListStuckKeeps(cfg: Config, s: State, ids: seq<Uuid>, answers: seq<RescueAnswers>)
    requires Inv(cfg, s) && |ids| == |answers| && forall id | id in ids :: id in s.core.log
    ensures Inv(cfg, ListStuckNext(s, ids, answers))
  {
    hide OutboxOk, PassesOk, FlightsOk, CoreOk, LogGrows, RescueOps, RescueSafe;
    var s' := ListStuckNext(s, ids, answers);
    TickKeeps(cfg, s.core);
    FrameAll(cfg, s, s'.core);
    ListedSafe(cfg, s, ids, answers);
  }

  lemma ListedSafe(cfg: Config, s: State, ids: seq<Uuid>, answers: seq<RescueAnswers>)
    requires CoreOk(cfg, s.core) && |ids| == |answers| && forall id | id in ids :: id in s.core.log
    ensures var ops := ListStuckNext(s, ids, answers).rescues[s.core.next];
      forall i | 0 <= i < |ops| :: RescueSafe(s.core.log, ops[i])
  {
    hide RescueOps, RescueSafe;
    var rows := seq(|ids|, i requires 0 <= i < |ids| => s.core.log[ids[i]]);
    forall row | row in rows ensures RowRescuable(s.core.log, row) {
      var i :| 0 <= i < |rows| && rows[i] == row;
      assert ids[i] in ids && ids[i] in s.core.log;
    }
    RescueOpsSafe(s.core.log, rows, answers);
  }

  lemma RescueKeeps(cfg: Config, s: State, j: nat)
    requires Inv(cfg, s) && j in s.rescues && s.rescues[j] != []
    ensures Inv(cfg, RescueNext(s, j))
  {
    hide OutboxOk, PassesOk, FlightsOk, CoreOk, LogGrows, RescueSafe, Rescue;
    var s', op := RescueNext(s, j), s.rescues[j][0];
    RescueCore(cfg, s.core, op);
    FrameAll(cfg, s, s'.core);
    assert forall i | 0 <= i < |s'.rescues[j]| :: s'.rescues[j][i] == s.rescues[j][i + 1];
  }

  lemma RescueCore(cfg: Config, core: Core, op: RescueOp)
    requires CoreOk(cfg, core) && RescueSafe(core.log, op)
    ensures CoreOk(cfg, Rescue(core, op)) && Grows(core, Rescue(core, op))
  {
    hide CoreOk, LogGrows, Post, Store, Carries;
    match op
    case Republish(p, body, fate) => EnterKeeps(cfg, core, body.channel, p.attempt, body, fate);
    case Reset(id, attempt, stored) => StoreKeeps(cfg, core, id, Enqueued, attempt, RESCUED, stored);
  }

  lemma RescueCrashKeeps(cfg: Config, s: State, j: nat)
    requires Inv(cfg, s)
    ensures Inv(cfg, s.(rescues := s.rescues - {j}))
  {
    hide OutboxOk, PassesOk, FlightsOk, CoreOk, RescueSafe;
  }

  // ----- Every step, every run -----

  lemma NextKeeps(cfg: Config, s: State, a: Action)
    requires Inv(cfg, s) && Enabled(cfg, s, a)
    ensures Inv(cfg, Next(cfg, s, a))
  {
    hide Inv, SubmitNext, ClaimNext, RelayNext, DeliverNext, WorkerNext, WorkerCrashNext, ConnectionLostNext,
         ExpireNext, ListStuckNext, RescueNext;
    match a
    case Submit(content) => SubmitKeeps(cfg, s, content);
    case Claim(rows, answers, applied) => ClaimKeeps(cfg, s, rows, answers, applied);
    case RelayStep(p) => RelayKeeps(cfg, s, p);
    case RelayCrash(p) => ReleaseKeeps(cfg, s, p, false);
    case Deliver(k, answers) => DeliverKeeps(cfg, s, k, answers);
    case WorkerStep(f) => WorkerKeeps(cfg, s, f);
    case WorkerCrash(f) => WorkerCrashKeeps(cfg, s, f);
    case ConnectionLost(f) => ConnectionLostKeeps(cfg, s, f);
    case Expire(k) => ExpireKeeps(cfg, s, k);
    case ListStuck(ids, answers) => ListStuckKeeps(cfg, s, ids, answers);
    case RescueStep(j) => RescueKeeps(cfg, s, j);
    case RescueCrash(j) => RescueCrashKeeps(cfg, s, j);
  }

  lemma RelayKeeps(cfg: Config, s: State, p: nat)
    requires Inv(cfg, s) && p in s.passes && s.passes[p].ops != []
    ensures Inv(cfg, RelayNext(s, p))
  {
    hide Inv, Release;
    match s.passes[p].ops[0]
    case Ship(_, _, _, _) => ShipKeeps(cfg, s, p);
    case MarkRow(_, _, _) => MarkKeeps(cfg, s, p);
    case Commit(applied) => ReleaseKeeps(cfg, s, p, applied);
  }

  /** The invariant holds after every run, from every state in which it holds. */
  lemma {:induction false} RunKeeps(cfg: Config, s: State, acts: seq<Action>)
    requires Inv(cfg, s) && Runs(cfg, s, acts)
    ensures Inv(cfg, Final(cfg, s, acts))
    decreases |acts|
  {
    hide Inv, Enabled, Next;
    if acts != [] {
      NextKeeps(cfg, s, acts[0]);
      RunKeeps(cfg, Next(cfg, s, acts[0]), acts[1..]);
    }
  }
}
