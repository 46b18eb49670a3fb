/** Termination and settlement: whatever faults a run has met, from then on every run that meets no new one is
    finite, by a measure that falls with every step, and can be carried on until every accepted notification has
    its verdict. */
module PipelineProgress {
  import opened Basics
  import opened Uuids
  import opened Domain
  import opened Wire
  import opened Topology
  import opened Pipeline
  import opened PipelineInvariant
  import opened PipelineSteps
  import opened PipelineTokens
  import opened PipelineTheorems

  // ----- Progress -----

  predicate CleanAnswers(answers: seq<RelayAnswers>)
  {
    forall i | 0 <= i < |answers| :: answers[i].fate.Confirmed? && answers[i].stored
  }

  /** A step of a run that meets no new fault, submits apart: no crash, no lost connection, no janitor, and
      whatever starts meets neither a failed publish nor a failed transaction. What is in progress may be at any
      point of any failure and goes on as it will. The provider may answer anything, and status updates may fail. */
  predicate Progresses(a: Action)
  {
    match a
    case Claim(_, answers, applied) => CleanAnswers(answers) && applied
    case Deliver(_, answers) => answers.forward.Confirmed?
    case RelayStep(_) => true
    case WorkerStep(_) => true
    case Expire(_) => true
    case _ => false
  }

  // ----- The measure -----

  /** One unit covers the calls of a handling. */
  const UNIT: nat := 6

  function Left(cfg: Config, attempt: int): nat
  {
    var b := Budget(cfg.maxRetries);
    if attempt < 0 then b else if attempt >= b then 0 else b - attempt
  }

  function CopyWeight(cfg: Config, copy: Copy): nat
  {
    match copy.queue
    case Retry(_) => UNIT * (2 * Left(cfg, copy.attempt) + 2)
    case Work(_) => UNIT * (2 * Left(cfg, copy.attempt) + 1)
    case Dead(_) => 0
  }

  /** A new message in a work queue. */
  function EntryWeight(cfg: Config): nat
  {
    UNIT * (2 * Budget(cfg.maxRetries) + 1)
  }

  function PendingWeight(cfg: Config): nat
  {
    UNIT * (2 * Budget(cfg.maxRetries) + 2)
  }

  function MarkAfter(mark: Mark, op: RelayOp, r: nat): Mark
  {
    if op.MarkRow? && op.row == r && op.stored && (op.mark.StillPending? ==> op.mark.attempts <= MAX_INT32)
    then op.mark else mark
  }

  /** The mark a row will have at the end of a pass. */
  function FinalMark(mark: Mark, ops: seq<RelayOp>, r: nat): Mark
    decreases |ops|
  {
    if ops == [] then mark else FinalMark(MarkAfter(mark, ops[0], r), ops[1..], r)
  }

  /** Will the pass that holds the row commit it as published? */
  predicate GetsPublished(passes: map<nat, Pass>, r: nat, row: OutboxRow)
  {
    && row.lock.Held? && row.lock.pass in passes
    && var ops := passes[row.lock.pass].ops;
       ops != [] && ops[|ops| - 1] == Commit(true) && FinalMark(row.lock.mark, ops, r).Published?
  }

  /** A row that is pending, or will be pending again when the pass that holds it ends. */
  function RowWeight(cfg: Config, passes: map<nat, Pass>, r: nat, row: OutboxRow): nat
  {
    if row.published || GetsPublished(passes, r, row) then 0 else PendingWeight(cfg)
  }

  function RelayOpWeight(cfg: Config, op: RelayOp): nat
  {
    if op.Ship? && !op.fate.Dropped? then 1 + EntryWeight(cfg) else 1
  }

  /** What a pass will still do: its calls, and the messages some of them make. */
  function RelayOpsWeight(cfg: Config, ops: seq<RelayOp>): nat
  {
    if ops == [] then 0 else RelayOpWeight(cfg, ops[0]) + RelayOpsWeight(cfg, ops[1..])
  }

  /** What a handling will still do: its calls, the retry copy one of them may make, and its own copy if it gives
      that back. */
  function OpsWeight(cfg: Config, copy: Copy, ops: seq<WorkerOp>): nat
  {
    if ops == [] then 0 else OpWeight(cfg, copy, ops[0]) + OpsWeight(cfg, copy, ops[1..])
  }

  function OpWeight(cfg: Config, copy: Copy, op: WorkerOp): nat
  {
    if op.Forward? && op.publishing.ttl.Some? then 1 + UNIT * (2 * Left(cfg, op.publishing.attempt) + 2)
    else if op.Nack? then 1 + CopyWeight(cfg, copy)
    else 1
  }

  function RowWeights(cfg: Config, outbox: map<nat, OutboxRow>, passes: map<nat, Pass>): map<nat, nat>
  {
    map r | r in outbox :: RowWeight(cfg, passes, r, outbox[r])
  }

  function PassWeights(cfg: Config, passes: map<nat, Pass>): map<nat, nat>
  {
    map p | p in passes :: RelayOpsWeight(cfg, passes[p].ops)
  }

  function CopyWeights(cfg: Config, copies: map<nat, Copy>): map<nat, nat>
  {
    map k | k in copies :: CopyWeight(cfg, copies[k])
  }

  function FlightWeights(cfg: Config, flights: map<nat, Flight>): map<nat, nat>
  {
    map f | f in flights :: OpsWeight(cfg, flights[f].copy, flights[f].ops)
  }

  /** With B retries allowed and R left, a row that is or will be pending weighs 2B+2 units, a retry copy 2R+2 and
      a work copy 2R+1; calls still to be made weigh one each, and the messages they will make. */
  ghost function Measure(cfg: Config, s: State): nat
  {
    Sum(RowWeights(cfg, s.outbox, s.passes)) + Sum(PassWeights(cfg, s.passes))
    + Sum(CopyWeights(cfg, s.core.copies)) + Sum(FlightWeights(cfg, s.flights))
  }

  lemma CopyPut(cfg: Config, core: Core, copy: Copy)
    requires core.next !in core.copies
    ensures Sum(CopyWeights(cfg, Put(core, copy).copies)) == Sum(CopyWeights(cfg, core.copies)) + CopyWeight(cfg, copy)
  {
    var m := CopyWeights(cfg, core.copies);
    SumPut(m, core.next, CopyWeight(cfg, copy));
    assert CopyWeights(cfg, Put(core, copy).copies) == m[core.next := CopyWeight(cfg, copy)];
  }

  lemma CopyTaken(cfg: Config, core: Core, k: nat)
    requires k in core.copies
    ensures Sum(CopyWeights(cfg, Removed(core, k).copies)) + CopyWeight(cfg, core.copies[k])
      == Sum(CopyWeights(cfg, core.copies))
  {
    var m := CopyWeights(cfg, core.copies);
    SumRemove(m, k);
    assert CopyWeights(cfg, Removed(core, k).copies) == m - {k};
  }

  lemma FlightRemoved(cfg: Config, flights: map<nat, Flight>, f: nat)
    requires f in flights
    ensures Sum(FlightWeights(cfg, flights))
      == Sum(FlightWeights(cfg, flights - {f})) + OpsWeight(cfg, flights[f].copy, flights[f].ops)
  {
    var m := FlightWeights(cfg, flights);
    SumRemove(m, f);
    assert FlightWeights(cfg, flights - {f}) == m - {f};
  }

  lemma FlightAdded(cfg: Config, flights: map<nat, Flight>, f: nat, flight: Flight)
    ensures Sum(FlightWeights(cfg, flights[f := flight]))
      == Sum(FlightWeights(cfg, flights - {f})) + OpsWeight(cfg, flight.copy, flight.ops)
  {
    var flights' := flights[f := flight];
    FlightRemoved(cfg, flights', f);
    assert flights' - {f} == flights - {f};
  }

  lemma PassRemoved(cfg: Config, passes: map<nat, Pass>, p: nat)
    requires p in passes
    ensures Sum(PassWeights(cfg, passes)) == Sum(PassWeights(cfg, passes - {p})) + RelayOpsWeight(cfg, passes[p].ops)
  {
    var m := PassWeights(cfg, passes);
    SumRemove(m, p);
    assert PassWeights(cfg, passes - {p}) == m - {p};
  }

  lemma PassAdded(cfg: Config, passes: map<nat, Pass>, p: nat, pass: Pass)
    ensures Sum(PassWeights(cfg, passes[p := pass])) ==
      Sum(PassWeights(cfg, passes - {p})) + RelayOpsWeight(cfg, pass.ops)
  {
    var passes' := passes[p := pass];
    PassRemoved(cfg, passes', p);
    assert passes' - {p} == passes - {p};
  }

  // ----- The relay's steps -----

  lemma FinalMarkTail(mark: Mark, ops: seq<RelayOp>, r: nat)
    requires ops != []
    ensures FinalMark(mark, ops, r) == FinalMark(MarkAfter(mark, ops[0], r), ops[1..], r)
  {}

  /** A faultless pass marks every row it claims, and no row otherwise than as published. */
  lemma {:induction false} ClaimedGetsMarked(items: seq<Item>, answers: seq<RelayAnswers>, mark: Mark, r: nat)
    requires |items| == |answers| && CleanAnswers(answers)
    requires mark.Published? || exists i :: 0 <= i < |items| && items[i].row == r
    ensures FinalMark(mark, ItemsOps(items, answers) + [Commit(true)], r).Published?
    decreases |items|
  {
    var ops := ItemsOps(items, answers) + [Commit(true)];
    if items == [] {
      assert ops == [Commit(true)] && ops[1..] == [];
    } else {
      assert answers[0].fate.Confirmed? && answers[0].stored;
      var rest := ItemsOps(items[1..], answers[1..]) + [Commit(true)];
      assert ops == ItemOps(items[0], answers[0]) + rest;
      assert ops[1..][1..] == rest && ops[1..][0] == ItemOps(items[0], answers[0])[1];
      FinalMarkTail(mark, ops, r);
      FinalMarkTail(mark, ops[1..], r);
      var mark' := MarkAfter(mark, ops[1..][0], r);
      if !mark'.Published? {
        var i :| 0 <= i < |items| && items[i].row == r;
        assert items[1..][i - 1] == items[i];
      }
      assert CleanAnswers(answers[1..]) by {
        assert forall i | 0 <= i < |answers| - 1 :: answers[1..][i] == answers[i + 1];
      }
      ClaimedGetsMarked(items[1..], answers[1..], mark', r);
    }
  }

  lemma {:induction false} ClaimedWeight(cfg: Config, items: seq<Item>, answers: seq<RelayAnswers>)
    requires |items| == |answers|
    ensures RelayOpsWeight(cfg, ItemsOps(items, answers) + [Commit(true)]) <= |items| * (EntryWeight(cfg) + 2) + 1
    decreases |items|
  {
    hide EntryWeight;
    var ops := ItemsOps(items, answers) + [Commit(true)];
    if items == [] {
      assert ops == [Commit(true)] && ops[1..] == [];
    } else {
      var rest := ItemsOps(items[1..], answers[1..]) + [Commit(true)];
      assert ops == ItemOps(items[0], answers[0]) + rest;
      assert ops[1..][1..] == rest && ops[1..][0] == ItemOps(items[0], answers[0])[1];
      ClaimedWeight(cfg, items[1..], answers[1..]);
      assert |items| * (EntryWeight(cfg) + 2) == (|items| - 1) * (EntryWeight(cfg) + 2) + (EntryWeight(cfg) + 2);
    }
  }

  lemma DistinctTail(rows: seq<nat>)
    requires rows != [] && Distinct(rows)
    ensures Distinct(rows[1..]) && rows[0] !in rows[1..]
    ensures forall k :: k in rows <==> k == rows[0] || k in rows[1..]
  {
    assert forall i | 0 <= i < |rows| - 1 :: rows[1..][i] == rows[i + 1];
    assert rows == [rows[0]] + rows[1..];
  }

  /** Some keys lose all their weight. */
  lemma {:induction false} SumFreed(m: map<nat, nat>, n: map<nat, nat>, rows: seq<nat>, w: nat)
    requires m.Keys == n.Keys && Distinct(rows) && forall r | r in rows :: r in m && m[r] == w && n[r] == 0
    requires forall k | k in m && k !in rows :: n[k] == m[k]
    ensures Sum(m) == Sum(n) + |rows| * w
    decreases |rows|
  {
    hide Sum, Distinct;
    if rows == [] {
      assert m == n;
    } else {
      var m' := m[rows[0] := 0];
      DistinctTail(rows);
      SumPut(m, rows[0], 0);
      SumFreed(m', n, rows[1..], w);
      assert |rows| * w == (|rows| - 1) * w + w;
    }
  }

  lemma ClaimedRowWeight(cfg: Config, s: State, rows: seq<nat>, answers: seq<RelayAnswers>, r: nat)
    requires Enabled(cfg, s, Claim(rows, answers, true)) && CleanAnswers(answers) && r in rows
    ensures var s' := ClaimNext(s, rows, answers, true);
      RowWeight(cfg, s.passes, r, s.outbox[r]) == PendingWeight(cfg) && RowWeight(cfg, s'.passes, r, s'.outbox[r]) == 0
  {
    hide PendingWeight, ItemsOps, Distinct, CleanAnswers;
    var s', items := ClaimNext(s, rows, answers, true), ItemsOf(s.outbox, rows);
    var i :| 0 <= i < |rows| && rows[i] == r;
    assert items[i].row == r;
    ClaimedGetsMarked(items, answers, Unmarked, r);
    var ops := ItemsOps(items, answers) + [Commit(true)];
    assert s'.passes[s.core.next].ops == ops && ops[|ops| - 1] == Commit(true);
    assert s'.outbox[r].lock == Held(s.core.next, false, Unmarked);
  }

  lemma UnclaimedRowWeight(cfg: Config, s: State, rows: seq<nat>, answers: seq<RelayAnswers>, r: nat)
    requires PassesOk(s.core, s.outbox, s.passes) && Enabled(cfg, s, Claim(rows, answers, true)) && r in s.outbox
    requires r !in rows
    ensures var s' := ClaimNext(s, rows, answers, true);
      RowWeight(cfg, s'.passes, r, s'.outbox[r]) == RowWeight(cfg, s.passes, r, s.outbox[r])
  {
    hide PendingWeight, ItemsOps, Distinct, PassOk, FinalMark;
    assert s.outbox[r].lock.Held? ==> s.outbox[r].lock.pass in s.passes && s.outbox[r].lock.pass != s.core.next;
  }

  lemma ClaimRowWeights(cfg: Config, s: State, rows: seq<nat>, answers: seq<RelayAnswers>)
    requires Inv(cfg, s) && Enabled(cfg, s, Claim(rows, answers, true)) && CleanAnswers(answers)
    ensures var s' := ClaimNext(s, rows, answers, true);
      Sum(RowWeights(cfg, s.outbox, s.passes))
        == Sum(RowWeights(cfg, s'.outbox, s'.passes)) + |rows| * PendingWeight(cfg)
  {
    hide Sum, PendingWeight, PassesOk, ItemsOps, OutboxOk, CoreOk, FlightsOk, RescuesOk, RowWeight, CleanAnswers;
    var s' := ClaimNext(s, rows, answers, true);
    var m, n := RowWeights(cfg, s.outbox, s.passes), RowWeights(cfg, s'.outbox, s'.passes);
    forall r | r in rows ensures r in m && m[r] == PendingWeight(cfg) && n[r] == 0 {
      ClaimedRowWeight(cfg, s, rows, answers, r);
    }
    forall r | r in m && r !in rows ensures n[r] == m[r] {
      UnclaimedRowWeight(cfg, s, rows, answers, r);
    }
    hide RowWeights, LockRows;
    SumFreed(m, n, rows, PendingWeight(cfg));
  }

  lemma ClaimLowers(cfg: Config, s: State, rows: seq<nat>, answers: seq<RelayAnswers>)
    requires Inv(cfg, s) && Enabled(cfg, s, Claim(rows, answers, true)) && CleanAnswers(answers)
    ensures Measure(cfg, ClaimNext(s, rows, answers, true)) < Measure(cfg, s)
  {
    hide Inv, Sum, RowWeights, PassWeights, CopyWeights, FlightWeights, RelayOpsWeight, ItemsOps, CleanAnswers,
         LockRows, Distinct;
    var s', items := ClaimNext(s, rows, answers, true), ItemsOf(s.outbox, rows);
    ClaimRowWeights(cfg, s, rows, answers);
    FreshPass(cfg, s);
    ClaimedWeight(cfg, items, answers);
    PassAdded(cfg, s.passes, s.core.next, s'.passes[s.core.next]);
    assert s.passes - {s.core.next} == s.passes;
    assert PendingWeight(cfg) == EntryWeight(cfg) + UNIT;
    hide EntryWeight, PendingWeight;
    ClaimArithmetic(|rows|, EntryWeight(cfg), PendingWeight(cfg));
  }

  lemma ClaimArithmetic(n: nat, entry: nat, pending: nat)
    requires n > 0 && pending == entry + UNIT
    ensures n * (entry + 2) + 1 < n * pending
  {
    assert n * pending == n * (entry + 2) + n * (UNIT - 2);
  }

  lemma FreshPass(cfg: Config, s: State)
    requires Inv(cfg, s)
    ensures s.core.next !in s.passes
  {
    hide PassOk, OutboxOk, FlightsOk, RescuesOk, CoreOk;
  }

  /** A call of a pass touches its own rows only, and of their marks what it is for. */
  predicate Marks(outbox: map<nat, OutboxRow>, outbox': map<nat, OutboxRow>, p: nat, op: RelayOp)
  {
    && outbox'.Keys == outbox.Keys
    && (forall r | r in outbox && !HeldBy(outbox[r], p) :: outbox'[r] == outbox[r])
    && forall r | r in outbox && HeldBy(outbox[r], p) ::
         && HeldBy(outbox'[r], p) && outbox'[r].published == outbox[r].published
         && outbox'[r].lock.mark == MarkAfter(outbox[r].lock.mark, op, r)
  }

  lemma CallMarks(outbox: map<nat, OutboxRow>, p: nat, op: RelayOp)
    requires !op.Commit? && Holds(outbox, op.row, p)
    ensures op.Ship? ==> Marks(outbox, ShipEffect(outbox, op.row, op.fate), p, op)
    ensures op.MarkRow? ==> Marks(outbox, MarkEffect(outbox, op.row, op.mark, op.stored), p, op)
  {}

  /** A call of a pass leaves what will become of every row as it was. */
  lemma SameRowWeights(
    cfg: Config, outbox: map<nat, OutboxRow>, outbox': map<nat, OutboxRow>, passes: map<nat, Pass>, p: nat, pass': Pass)
    requires p in passes && |passes[p].ops| > 1 && pass'.ops == passes[p].ops[1..]
    requires Marks(outbox, outbox', p, passes[p].ops[0])
    ensures RowWeights(cfg, outbox', passes[p := pass']) == RowWeights(cfg, outbox, passes)
  {
    hide PendingWeight, MarkAfter;
    var ops, passes' := passes[p].ops, passes[p := pass'];
    forall r | r in outbox ensures RowWeight(cfg, passes', r, outbox'[r]) == RowWeight(cfg, passes, r, outbox[r]) {
      if HeldBy(outbox[r], p) {
        FinalMarkTail(outbox[r].lock.mark, ops, r);
        assert ops[1..][|ops| - 2] == ops[|ops| - 1];
      }
    }
  }

  lemma ShipLowers(cfg: Config, s: State, p: nat)
    requires Inv(cfg, s) && p in s.passes && s.passes[p].ops != [] && s.passes[p].ops[0].Ship?
    ensures Measure(cfg, RelayNext(s, p)) < Measure(cfg, s)
  {
    hide Inv, Post, RowOk, RowWeights, PassWeights, CopyWeights, FlightWeights, Sum, EntryWeight, RoutingKey,
         Marks, ShipEffect, RelayOpWeight;
    var op, s' := s.passes[p].ops[0], RelayNext(s, p);
    ShipsOwn(cfg, s, p);
    ShippedChannel(cfg, s, op.row);
    ShipCopyWeight(cfg, s.core, s.outbox[op.row].channel, op);
    RelayShape(cfg, s, p);
    CallMarks(s.outbox, p, op);
    SameRowWeights(cfg, s.outbox, s'.outbox, s.passes, p, s'.passes[p]);
    PassMoves(cfg, s.passes, p, s'.passes[p]);
  }

  lemma ShippedChannel(cfg: Config, s: State, r: nat)
    requires Inv(cfg, s) && r in s.outbox
    ensures CoreOk(cfg, s.core) && ValidChannel(s.outbox[r].channel)
  {
    hide PassesOk, FlightsOk, RescuesOk, CopyOk, Known, LockOk, Encode, ValidChannel;
    assert RowOk(s.core, s.outbox[r]);
  }

  lemma PassMoves(cfg: Config, passes: map<nat, Pass>, p: nat, pass': Pass)
    requires p in passes && passes[p].ops != [] && pass'.ops == passes[p].ops[1..]
    ensures Sum(PassWeights(cfg, passes)) ==
      Sum(PassWeights(cfg, passes[p := pass'])) + RelayOpWeight(cfg, passes[p].ops[0])
  {
    hide PassWeights, Sum, RelayOpWeight;
    PassRemoved(cfg, passes, p);
    PassAdded(cfg, passes, p, pass');
  }

  /** A pass ends with its only commit and writes to its own rows. */
  lemma RelayShape(cfg: Config, s: State, p: nat)
    requires Inv(cfg, s) && p in s.passes && s.passes[p].ops != []
    ensures var ops := s.passes[p].ops;
      && (ops[0].Commit? <==> |ops| == 1)
      && (!ops[0].Commit? ==> Holds(s.outbox, ops[0].row, p))
    ensures forall r | r in s.outbox && s.outbox[r].lock.Held? :: !s.outbox[r].published
  {
    hide FlightsOk, RescuesOk, CoreOk, Encode;
    assert PassOk(s.outbox, p, s.passes[p]);
    forall r | r in s.outbox && s.outbox[r].lock.Held? ensures !s.outbox[r].published {
      assert RowOk(s.core, s.outbox[r]);
    }
  }

  lemma ShipCopyWeight(cfg: Config, core: Core, c: Channel, op: RelayOp)
    requires CoreOk(cfg, core) && ValidChannel(c) && op.Ship?
    requires op.publishing == Publishing(EXCHANGE, RoutingKey(c), op.publishing.attempt, None)
    ensures Sum(CopyWeights(cfg, Post(core, op.publishing, op.payload, op.fate, op.publishing.attempt, []).copies)) + 1
      <= Sum(CopyWeights(cfg, core.copies)) + RelayOpWeight(cfg, op)
  {
    FreshKeys(cfg, core);
    hide Resolve, CopyWeights, Sum, CoreOk, ValidChannel, RoutingKey;
    ResolveBinding(c);
    CopyPut(cfg, core, Sealed(op.publishing, op.payload, op.publishing.attempt, []).(queue := Work(c)));
  }

  lemma MarkLowers(cfg: Config, s: State, p: nat)
    requires Inv(cfg, s) && p in s.passes && s.passes[p].ops != [] && s.passes[p].ops[0].MarkRow?
    ensures Measure(cfg, RelayNext(s, p)) < Measure(cfg, s)
  {
    hide Inv, RowWeights, PassWeights, CopyWeights, FlightWeights, Sum, Marks, MarkEffect;
    var s' := RelayNext(s, p);
    RelayShape(cfg, s, p);
    CallMarks(s.outbox, p, s.passes[p].ops[0]);
    SameRowWeights(cfg, s.outbox, s'.outbox, s.passes, p, s'.passes[p]);
    PassMoves(cfg, s.passes, p, s'.passes[p]);
  }

  lemma CommitLowers(cfg: Config, s: State, p: nat)
    requires Inv(cfg, s) && p in s.passes && s.passes[p].ops != [] && s.passes[p].ops[0].Commit?
    ensures Measure(cfg, RelayNext(s, p)) < Measure(cfg, s)
  {
    var s' := RelayNext(s, p);
    RelayShape(cfg, s, p);
    hide Inv, PassWeights, CopyWeights, FlightWeights, Sum;
    CommitRowWeights(cfg, s, p);
    hide RowWeights;
    PassRemoved(cfg, s.passes, p);
  }

  /** At the commit every row becomes what it was going to be. */
  lemma CommitRowWeights(cfg: Config, s: State, p: nat)
    requires p in s.passes && |s.passes[p].ops| == 1 && s.passes[p].ops[0].Commit?
    requires forall r | r in s.outbox && s.outbox[r].lock.Held? :: !s.outbox[r].published
    ensures RowWeights(cfg, RelayNext(s, p).outbox, RelayNext(s, p).passes) == RowWeights(cfg, s.outbox, s.passes)
  {
    hide PendingWeight;
    var s', ops := RelayNext(s, p), s.passes[p].ops;
    assert ops == [ops[0]] && ops[1..] == [];
    forall r | r in s.outbox
      ensures RowWeight(cfg, s'.passes, r, s'.outbox[r]) == RowWeight(cfg, s.passes, r, s.outbox[r])
    {
      if HeldBy(s.outbox[r], p) {
        FinalMarkTail(s.outbox[r].lock.mark, ops, r);
        assert FinalMark(s.outbox[r].lock.mark, ops, r) == s.outbox[r].lock.mark;
      }
    }
  }

  lemma RelayLowers(cfg: Config, s: State, p: nat)
    requires Inv(cfg, s) && p in s.passes && s.passes[p].ops != []
    ensures Measure(cfg, RelayNext(s, p)) < Measure(cfg, s)
  {
    hide Inv, Measure, RelayNext;
    match s.passes[p].ops[0]
    case Ship(_, _, _, _) => ShipLowers(cfg, s, p);
    case MarkRow(_, _, _) => MarkLowers(cfg, s, p);
    case Commit(_) => CommitLowers(cfg, s, p);
  }

  // ----- The worker's steps -----

  lemma WorkerLowers(cfg: Config, s: State, f: nat)
    requires Inv(cfg, s) && f in s.flights && s.flights[f].ops != []
    ensures Measure(cfg, WorkerNext(s, f)) < Measure(cfg, s)
  {
    hide RowWeights, PassWeights, CopyWeights, FlightWeights, Sum, OutboxOk, PassesOk, RescuesOk, CoreOk, Safe,
         CopyOk, Perform, CopyWeight;
    var flight, s' := s.flights[f], WorkerNext(s, f);
    assert FlightOk(cfg, s.core.log, flight);
    SafeHead(cfg, flight.copy, flight.ops, flight.settled);
    FlightRemoved(cfg, s.flights, f);
    if LeavesBroker(flight.ops[0]) {
      FreshKeys(cfg, s.core);
      CopyPut(cfg, s.core, flight.copy);
    } else {
      FlightAdded(cfg, s.flights, f, s'.flights[f]);
      PerformWeight(cfg, s.core, flight);
    }
  }

  lemma PerformWeight(cfg: Config, core: Core, f: Flight)
    requires CoreOk(cfg, core) && FlightOk(cfg, core.log, f) && !LeavesBroker(f.ops[0])
    ensures Sum(CopyWeights(cfg, Perform(core, f.copy, f.settled, f.ops[0]).0.copies)) + 1
      <= Sum(CopyWeights(cfg, core.copies)) + OpWeight(cfg, f.copy, f.ops[0])
  {
    hide CopyWeights, Sum, Resolve, Carries, Lineage, Known, LogOk;
    var op, c := f.ops[0], f.copy.queue.channel;
    if op.Forward? {
      var attempt := if f.settled then cfg.maxRetries else f.copy.attempt;
      FreshKeys(cfg, core);
      assert ValidChannel(c);
      RetryResolves(c, attempt, cfg.maxRetries);
      CopyPut(cfg, core, Sealed(op.publishing, f.copy.body, f.copy.entered, f.copy.waited).(
        queue := if GoesToDead(attempt, cfg.maxRetries) then Dead(c) else Retry(c)));
      RetryHeader(c, attempt, cfg.maxRetries);
    }
  }

  lemma RetryHeader(c: Channel, attempt: nat, maxRetries: nat)
    ensures var p := RetryPublishing(c, attempt, maxRetries); p.ttl.Some? ==> ToInt32(p.attempt) == p.attempt
  {}

  lemma DeliverLowers(cfg: Config, s: State, k: nat, a: WorkerAnswers)
    requires Inv(cfg, s) && k in s.core.copies && s.core.copies[k].queue.Work? && a.forward.Confirmed?
    ensures Measure(cfg, DeliverNext(cfg, s, k, a)) < Measure(cfg, s)
  {
    hide RowWeights, PassWeights, CopyWeights, FlightWeights, Sum, OutboxOk, PassesOk, RescuesOk, HandleOps,
         FlightOk, LogOk, Known, OpsWeight, Lineage, Carries;
    var s', copy := DeliverNext(cfg, s, k, a), s.core.copies[k];
    CopyTaken(cfg, s.core, k);
    assert s.core.next !in s.flights;
    assert s.flights - {s.core.next} == s.flights;
    FlightAdded(cfg, s.flights, s.core.next, s'.flights[s.core.next]);
    assert CopyOk(cfg, s.core.log, copy);
    HandleWeight(cfg, s.core.log, copy, a);
  }

  /** A whole handling weighs less than the work copy it consumes. */
  lemma HandleWeight(cfg: Config, log: map<Uuid, LogRow>, copy: Copy, a: WorkerAnswers)
    requires LogOk(log) && CopyOk(cfg, log, copy) && copy.queue.Work? && a.forward.Confirmed?
    ensures OpsWeight(cfg, copy, HandleOps(copy.queue.channel, copy.body, copy.attempt, cfg.maxRetries,
                                           a)) < CopyWeight(cfg, copy)
  {
    hide Decode, Carries;
    CarriesDecodes(log, copy.queue.channel, copy.body);
    var ops := HandleOps(copy.queue.channel, copy.body, copy.attempt, cfg.maxRetries, a);
    OpsWeightOf(cfg, copy, ops);
  }

  /** The weight of up to five calls, spelled out. */
  lemma OpsWeightOf(cfg: Config, copy: Copy, ops: seq<WorkerOp>)
    requires |ops| <= 5
    ensures OpsWeight(cfg, copy, ops) ==
      (if |ops| > 0 then OpWeight(cfg, copy, ops[0]) else 0) + (if |ops| > 1 then OpWeight(cfg, copy, ops[1]) else 0)
      + (if |ops| > 2 then OpWeight(cfg, copy, ops[2]) else 0) + (if |ops| > 3 then OpWeight(cfg, copy, ops[3]) else 0)
      + (if |ops| > 4 then OpWeight(cfg, copy, ops[4]) else 0)
  {
    hide OpWeight;
    if |ops| > 0 {
      OpsWeightTail(cfg, copy, ops[1..]);
    }
  }

  lemma OpsWeightTail(cfg: Config, copy: Copy, ops: seq<WorkerOp>)
    requires |ops| <= 4
    ensures OpsWeight(cfg, copy, ops) ==
      (if |ops| > 0 then OpWeight(cfg, copy, ops[0]) else 0) + (if |ops| > 1 then OpWeight(cfg, copy, ops[1]) else 0)
      + (if |ops| > 2 then OpWeight(cfg, copy, ops[2]) else 0) + (if |ops| > 3 then OpWeight(cfg, copy, ops[3]) else 0)
  {
    hide OpWeight;
    if |ops| > 1 {
      assert OpsWeight(cfg, copy, ops[1..][1..]) == OpsWeight(cfg, copy, ops[2..]) by {
        assert ops[1..][1..] == ops[2..];
      }
      if |ops| > 2 {
        assert ops[2..][1..] == ops[3..];
        if |ops| > 3 {
          assert ops[3..][1..] == [];
        }
      }
    }
  }

  lemma ExpireLowers(cfg: Config, s: State, k: nat)
    requires Inv(cfg, s) && k in s.core.copies && s.core.copies[k].queue.Retry?
    ensures Measure(cfg, ExpireNext(s, k)) < Measure(cfg, s)
  {
    hide RowWeights, PassWeights, CopyWeights, FlightWeights, Sum, OutboxOk, PassesOk, FlightsOk, RescuesOk,
         CoreOk, ExpireNext;
    var copy := s.core.copies[k];
    ExpireKeeps(cfg, s, k);
    CopyTaken(cfg, s.core, k);
    RemovedKeeps(cfg, s.core, k);
    FreshKeys(cfg, Removed(s.core, k));
    CopyPut(cfg, Removed(s.core, k), copy.(queue := Work(copy.queue.channel)));
  }

  /** Every step of such a run lowers the measure, from whatever state. */
  lemma StepProgresses(cfg: Config, s: State, a: Action)
    requires Inv(cfg, s) && Enabled(cfg, s, a) && Progresses(a)
    ensures Measure(cfg, Next(cfg, s, a)) < Measure(cfg, s)
  {
    hide Inv, Measure, ClaimNext, RelayNext, DeliverNext, WorkerNext, ExpireNext, CleanAnswers;
    match a
    case Claim(rows, answers, applied) => ClaimLowers(cfg, s, rows, answers);
    case RelayStep(p) => RelayLowers(cfg, s, p);
    case Deliver(k, answers) => DeliverLowers(cfg, s, k, answers);
    case WorkerStep(f) => WorkerLowers(cfg, s, f);
    case Expire(k) => ExpireLowers(cfg, s, k);
  }

  // ----- Settlement -----

  predicate AllProgress(acts: seq<Action>)
  {
    forall i | 0 <= i < |acts| :: Progresses(acts[i])
  }

  /** Whatever happened before, a run without new faults and submits takes no more steps than the measure of the
      state it starts from. */
  lemma {:induction false} RunsAreFinite(cfg: Config, s: State, acts: seq<Action>)
    requires Inv(cfg, s) && Runs(cfg, s, acts) && AllProgress(acts)
    ensures |acts| + Measure(cfg, Final(cfg, s, acts)) <= Measure(cfg, s)
    decreases |acts|
  {
    hide Inv, Measure, Next, Enabled, Progresses;
    if acts != [] {
      assert Progresses(acts[0]);
      StepProgresses(cfg, s, acts[0]);
      NextKeeps(cfg, s, acts[0]);
      assert forall i | 0 <= i < |acts| - 1 :: acts[1..][i] == acts[i + 1];
      RunsAreFinite(cfg, Next(cfg, s, acts[0]), acts[1..]);
    }
  }

  /** No step of a faultless run is possible any more. */
  ghost predicate Quiet(cfg: Config, s: State)
  {
    forall a: Action :: Enabled(cfg, s, a) ==> !Progresses(a)
  }

  /** Nothing is left but rows, verdicts and dead letters. */
  predicate Drained(s: State)
  {
    && s.flights == map[] && s.passes == map[]
    && (forall r | r in s.outbox :: s.outbox[r].published)
    && (forall k | k in s.core.copies :: s.core.copies[k].queue.Dead?)
  }

  /** As long as anything is left to do, a step can be taken without a fault. */
  lemma SomeStep(cfg: Config, s: State) returns (a: Action)
    requires Inv(cfg, s) && cfg.relayBatch > 0 && !Drained(s)
    ensures Enabled(cfg, s, a) && Progresses(a)
  {
    hide OutboxOk, RescuesOk, CoreOk, RelaySafe, CopyOk;
    if f :| f in s.flights {
      assert FlightOk(cfg, s.core.log, s.flights[f]);
      a := WorkerStep(f);
    } else if p :| p in s.passes {
      assert PassOk(s.outbox, p, s.passes[p]);
      PassHasOps(s.outbox, p, s.passes[p].ops);
      a := RelayStep(p);
    } else if r :| r in s.outbox && !s.outbox[r].published {
      assert s.outbox[r].lock.Free?;
      a := Claim([r], [RelayAnswers(Confirmed, true)], true);
    } else {
      var k :| k in s.core.copies && !s.core.copies[k].queue.Dead?;
      a := if s.core.copies[k].queue.Work?
           then Deliver(k, WorkerAnswers(true, Delivered, "", Confirmed, true)) else Expire(k);
    }
  }

  lemma PassHasOps(outbox: map<nat, OutboxRow>, p: nat, ops: seq<RelayOp>)
    requires RelaySafe(outbox, p, ops)
    ensures ops != []
  {}

  lemma DrainedTokens(s: State, t: string)
    requires Drained(s)
    ensures Tokens(s, t) == |Verdicts(s.core.settlements, t)|
  {
    assert Pending(s.outbox, t) == {} && Carried(s.flights, t) == {} && Waiting(s.core.copies, t) == {};
  }

  /** A faultless run ends with every accepted notification settled. */
  lemma QuietMeansSettled(cfg: Config, s: State, id: Uuid)
    requires Reachable(cfg, s) && Quiet(cfg, s) && cfg.relayBatch > 0 && id in s.core.log
    ensures Drained(s)
    ensures exists k :: 0 <= k < |s.core.settlements| && s.core.settlements[k].id == Uuids.Print(id)
  {
    hide Inv, Drained, Tokens, Runs, Final, Uuids.Print, Enabled, Progresses;
    var t := Uuids.Print(id);
    var acts :| Runs(cfg, INITIAL, acts) && Final(cfg, INITIAL, acts) == s;
    ReachableOk(cfg, s);
    TokensOfRun(cfg, acts, t);
    assert Known(s.core.log, t);
    if !Drained(s) {
      var a := SomeStep(cfg, s);
    }
    DrainedTokens(s, t);
    var k :| k in Verdicts(s.core.settlements, t);
  }

  /** From every state, whatever faults are in progress, a run without new ones leads to quiet. */
  lemma {:induction false} CanSettle(cfg: Config, s: State) returns (acts: seq<Action>)
    requires Inv(cfg, s)
    ensures Runs(cfg, s, acts) && AllProgress(acts) && Quiet(cfg, Final(cfg, s, acts))
    decreases Measure(cfg, s)
  {
    hide Inv, Measure, Next, Enabled, Progresses;
    if Quiet(cfg, s) {
      return [];
    }
    var a: Action :| Enabled(cfg, s, a) && Progresses(a);
    StepProgresses(cfg, s, a);
    NextKeeps(cfg, s, a);
    var rest := CanSettle(cfg, Next(cfg, s, a));
    acts := [a] + rest;
    assert acts[1..] == rest;
  }

  lemma {:induction false} RunsJoin(cfg: Config, s: State, acts: seq<Action>, more: seq<Action>)
    requires Runs(cfg, s, acts) && Runs(cfg, Final(cfg, s, acts), more)
    ensures Runs(cfg, s, acts + more) && Final(cfg, s, acts + more) == Final(cfg, Final(cfg, s, acts), more)
    decreases |acts|
  {
    hide Enabled, Next;
    if acts == [] {
      assert acts + more == more;
    } else {
      RunsJoin(cfg, Next(cfg, s, acts[0]), acts[1..], more);
      assert (acts + more)[1..] == acts[1..] + more;
    }
  }

  lemma ReachableRun(cfg: Config, s: State, acts: seq<Action>)
    requires Reachable(cfg, s) && Runs(cfg, s, acts)
    ensures Reachable(cfg, Final(cfg, s, acts))
  {
    hide Runs, Final;
    var before :| Runs(cfg, INITIAL, before) && Final(cfg, INITIAL, before) == s;
    RunsJoin(cfg, INITIAL, before, acts);
  }

  predicate AllSettled(s: State)
  {
    forall id | id in s.core.log ::
      exists k :: 0 <= k < |s.core.settlements| && s.core.settlements[k].id == Uuids.Print(id)
  }

  /** From every reachable state, every run without new faults and submits is no longer than the measure, and extends
      to one after which no relay pass and no delivery is left and every accepted notification has its verdict. */
  lemma EverythingSettles(cfg: Config, s: State, acts: seq<Action>) returns (more: seq<Action>)
    requires Reachable(cfg, s) && Runs(cfg, s, acts) && AllProgress(acts) && cfg.relayBatch > 0
    ensures Runs(cfg, s, acts + more) && AllProgress(acts + more) && |acts + more| <= Measure(cfg, s)
    ensures Drained(Final(cfg, s, acts + more)) && AllSettled(Final(cfg, s, acts + more))
  {
    hide Inv, Reachable, Measure, Quiet, Drained, Runs, Final, Progresses, Uuids.Print;
    ReachableOk(cfg, s);
    ReachableRun(cfg, s, acts);
    ReachableOk(cfg, Final(cfg, s, acts));
    more := CanSettle(cfg, Final(cfg, s, acts));
    RunsJoin(cfg, s, acts, more);
    RunsAreFinite(cfg, s, acts + more);
    var end := Final(cfg, s, acts + more);
    ReachableRun(cfg, s, acts + more);
    QuietDrains(cfg, end);
    forall id | id in end.core.log
      ensures exists k :: 0 <= k < |end.core.settlements| && end.core.settlements[k].id == Uuids.Print(id)
    {
      QuietMeansSettled(cfg, end, id);
    }
  }

  lemma QuietDrains(cfg: Config, s: State)
    requires Reachable(cfg, s) && Quiet(cfg, s) && cfg.relayBatch > 0
    ensures Drained(s)
  {
    hide Inv, Drained, Enabled, Progresses, Reachable;
    ReachableOk(cfg, s);
    if !Drained(s) {
      var a := SomeStep(cfg, s);
    }
  }
}
