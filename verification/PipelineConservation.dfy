/** Runs without faults from the start: every notification has exactly one token. */
module PipelineConservation {
  import opened Basics
  import opened Uuids
  import opened Domain
  import opened Wire
  import opened Topology
  import opened Pipeline
  import opened PipelineInvariant
  import opened PipelineSteps
  import opened PipelineTokens
  import opened PipelineTheorems
  import opened PipelineProgress

  // ----- Faultless processes -----

  predicate CleanOp(op: WorkerOp)
  {
    !op.Nack? && !op.Reject? && !op.Panic? && (op.Forward? ==> op.fate.Confirmed?)
  }

  predicate CleanOps(ops: seq<WorkerOp>)
  {
    forall i | 0 <= i < |ops| :: CleanOp(ops[i])
  }

  predicate ShipAhead(ops: seq<RelayOp>, r: nat)
  {
    exists i :: 0 <= i < |ops| && ops[i].Ship? && ops[i].row == r
  }

  predicate MarkAhead(ops: seq<RelayOp>, r: nat)
  {
    exists i :: 0 <= i < |ops| && ops[i].MarkRow? && ops[i].row == r
  }

  predicate MarkedPublished(row: OutboxRow)
  {
    row.lock.Held? && row.lock.mark.Published?
  }

  /** A row a faultless pass holds is on its way to being marked. */
  predicate OnItsWay(row: OutboxRow, ops: seq<RelayOp>, r: nat)
    requires row.lock.Held?
  {
    if row.lock.shipped then MarkedPublished(row) || MarkAhead(ops, r) else ShipAhead(ops, r)
  }

  /** A pass whose publishes are confirmed, whose marks are stored and whose commit applies. */
  ghost predicate CleanPass(outbox: map<nat, OutboxRow>, p: nat, ops: seq<RelayOp>)
  {
    && (forall i | 0 <= i < |ops| && ops[i].Ship? ::
          ops[i].fate.Confirmed? && i + 1 < |ops| && ops[i + 1].MarkRow? && ops[i + 1].row == ops[i].row)
    && (forall i | 0 <= i < |ops| && ops[i].MarkRow? ::
          ops[i].stored && ops[i].mark.Published?
          && ops[i].row in outbox && !MarkedPublished(outbox[ops[i].row]))
    && (forall i, j | 0 <= i < j < |ops| && ops[i].MarkRow? && ops[j].MarkRow? :: ops[i].row != ops[j].row)
    && (forall i | 0 <= i < |ops| && ops[i].Commit? :: ops[i].applied)
    && (forall r | Holds(outbox, r, p) :: OnItsWay(outbox[r], ops, r))
  }

  ghost predicate CleanState(s: State)
  {
    && (forall f | f in s.flights :: CleanOps(s.flights[f].ops))
    && (forall p | p in s.passes :: CleanPass(s.outbox, p, s.passes[p].ops))
  }

  lemma HandleIsClean(c: Channel, body: Message, header: nat, maxRetries: nat, a: WorkerAnswers)
    requires a.forward.Confirmed? && Decode(body).Some?
    ensures CleanOps(HandleOps(c, body, header, maxRetries, a))
    ensures |HandleOps(c, body, header, maxRetries, a)| <= 5
  {
    hide Decode;
  }

  lemma CommitMarked(outbox: map<nat, OutboxRow>, p: nat, ops: seq<RelayOp>)
    requires RelaySafe(outbox, p, ops) && CleanPass(outbox, p, ops) && ops[0].Commit?
    ensures ops == [Commit(true)]
    ensures forall r | Holds(outbox, r, p) :: MarkedPublished(outbox[r])
  {
    HeadHolds(outbox, p, ops);
    forall r | Holds(outbox, r, p) ensures MarkedPublished(outbox[r]) {
      assert !MarkAhead(ops, r) && !ShipAhead(ops, r);
    }
  }

  lemma CleanHead(ops: seq<WorkerOp>)
    requires CleanOps(ops) && ops != []
    ensures CleanOp(ops[0]) && CleanOps(ops[1..])
  {
    assert forall i | 0 <= i < |ops| - 1 :: ops[1..][i] == ops[i + 1];
  }

  // ----- Faultless processes stay faultless -----

  lemma CleanTail(outbox: map<nat, OutboxRow>, outbox': map<nat, OutboxRow>, p: nat, ops: seq<RelayOp>)
    requires RelaySafe(outbox, p, ops) && CleanPass(outbox, p, ops) && !ops[0].Commit?
    requires outbox'.Keys == outbox.Keys && outbox'[ops[0].row].lock.Held?
    requires forall r | r in outbox && r != ops[0].row :: outbox'[r] == outbox[r]
    requires ops[0].Ship? ==>
      outbox'[ops[0].row].lock.shipped && outbox'[ops[0].row].lock.mark == outbox[ops[0].row].lock.mark
    requires ops[0].MarkRow? ==> MarkedPublished(outbox'[ops[0].row]) && outbox'[ops[0].row].lock.shipped
    ensures CleanPass(outbox', p, ops[1..])
  {
    var tail, row := ops[1..], ops[0].row;
    assert forall i | 0 <= i < |tail| :: tail[i] == ops[i + 1];
    forall i | 0 <= i < |tail| && tail[i].Ship?
      ensures tail[i].fate.Confirmed? && i + 1 < |tail| && tail[i + 1].MarkRow? && tail[i + 1].row == tail[i].row
    {
      assert ops[i + 1].Ship?;
    }
    forall i | 0 <= i < |tail| && tail[i].MarkRow?
      ensures tail[i].stored && tail[i].mark.Published? && tail[i].row in outbox'
      ensures !MarkedPublished(outbox'[tail[i].row])
    {
      assert ops[i + 1].MarkRow? && !MarkedPublished(outbox[ops[i + 1].row]);
    }
    forall r | Holds(outbox', r, p) ensures OnItsWay(outbox'[r], tail, r) {
      if r == row {
        if ops[0].Ship? {
          assert tail[0].MarkRow? && tail[0].row == r;
        }
      } else {
        assert Holds(outbox, r, p);
        StillAhead(ops, r);
      }
    }
  }

  lemma StillAhead(ops: seq<RelayOp>, r: nat)
    requires ops != [] && !ops[0].Commit? && ops[0].row != r
    ensures MarkAhead(ops, r) ==> MarkAhead(ops[1..], r)
    ensures ShipAhead(ops, r) ==> ShipAhead(ops[1..], r)
  {
    if i :| 0 <= i < |ops| && ops[i].MarkRow? && ops[i].row == r {
      assert ops[1..][i - 1] == ops[i];
    }
    if i :| 0 <= i < |ops| && ops[i].Ship? && ops[i].row == r {
      assert ops[1..][i - 1] == ops[i];
    }
  }

  /** A pass stays faultless while nobody else writes to the rows it holds. */
  lemma CleanUndisturbed(outbox: map<nat, OutboxRow>, outbox': map<nat, OutboxRow>, p: nat, ops: seq<RelayOp>)
    requires RelaySafe(outbox, p, ops) && CleanPass(outbox, p, ops)
    requires forall r | Holds(outbox, r, p) :: r in outbox' && outbox'[r] == outbox[r]
    requires forall r | Holds(outbox', r, p) :: Holds(outbox, r, p)
    ensures CleanPass(outbox', p, ops)
  {}

  /** The calls of a pass that meets no fault. */
  lemma ClaimedClean(outbox: map<nat, OutboxRow>, p: nat, items: seq<Item>, answers: seq<RelayAnswers>)
    requires |items| == |answers| && CleanAnswers(answers)
    requires forall i | 0 <= i < |items| ::
      Holds(outbox, items[i].row, p) && outbox[items[i].row].lock == Held(p, false, Unmarked)
    requires forall i, j | 0 <= i < j < |items| :: items[i].row != items[j].row
    requires forall r | Holds(outbox, r, p) :: exists i :: 0 <= i < |items| && items[i].row == r
    ensures CleanPass(outbox, p, ItemsOps(items, answers) + [Commit(true)])
  {
    hide ItemsOps;
    var body := ItemsOps(items, answers);
    var ops := body + [Commit(true)];
    ItemsOpsForm(items, answers);
    forall k | 0 <= k < 2 * |items| ensures CleanPair(items, ops, k) {
      assert answers[k / 2].fate.Confirmed? && answers[k / 2].stored;
      assert body[k] == ItemOps(items[k / 2], answers[k / 2])[k % 2];
      if k % 2 == 0 {
        assert (k + 1) / 2 == k / 2 && (k + 1) % 2 == 1;
        assert body[k + 1] == ItemOps(items[k / 2], answers[k / 2])[1];
      }
    }
    PairsClean(outbox, p, items, ops);
  }

  predicate CleanPair(items: seq<Item>, ops: seq<RelayOp>, k: nat)
    requires k < 2 * |items| && |ops| == 2 * |items| + 1
  {
    var row, op := items[k / 2].row, ops[k];
    if k % 2 == 0 then
      op.Ship? && op.row == row && op.fate.Confirmed? && ops[k + 1].MarkRow? && ops[k + 1].row == row
    else op.MarkRow? && op.row == row && op.stored && op.mark.Published?
  }

  /** The k-th call belongs to the pair of the k/2-th item. */
  lemma PairAt(items: seq<Item>, ops: seq<RelayOp>, k: nat)
    requires |ops| == 2 * |items| + 1 && ops[2 * |items|] == Commit(true)
    requires forall k | 0 <= k < 2 * |items| :: CleanPair(items, ops, k)
    requires k < |ops|
    ensures ops[k].Commit? <==> k == 2 * |items|
    ensures ops[k].Ship? ==>
      ops[k].fate.Confirmed? && k + 1 < |ops| && ops[k + 1].MarkRow? && ops[k + 1].row == ops[k].row
    ensures ops[k].MarkRow? ==>
      k % 2 == 1 && k / 2 < |items| && ops[k].row == items[k / 2].row && ops[k].stored && ops[k].mark.Published?
  {
    if k < 2 * |items| {
      assert CleanPair(items, ops, k);
    }
  }

  lemma PairsClean(outbox: map<nat, OutboxRow>, p: nat, items: seq<Item>, ops: seq<RelayOp>)
    requires |ops| == 2 * |items| + 1 && ops[2 * |items|] == Commit(true)
    requires forall i | 0 <= i < |items| ::
      Holds(outbox, items[i].row, p) && outbox[items[i].row].lock == Held(p, false, Unmarked)
    requires forall i, j | 0 <= i < j < |items| :: items[i].row != items[j].row
    requires forall r | Holds(outbox, r, p) :: exists i :: 0 <= i < |items| && items[i].row == r
    requires forall k | 0 <= k < 2 * |items| :: CleanPair(items, ops, k)
    ensures CleanPass(outbox, p, ops)
  {
    forall r | Holds(outbox, r, p) ensures OnItsWay(outbox[r], ops, r) {
      var i :| 0 <= i < |items| && items[i].row == r;
      assert 2 * i / 2 == i && CleanPair(items, ops, 2 * i);
      assert ops[2 * i].Ship? && ops[2 * i].row == r;
    }
    hide CleanPair, OnItsWay;
    forall k | 0 <= k < |ops| && ops[k].Ship?
      ensures ops[k].fate.Confirmed? && k + 1 < |ops| && ops[k + 1].MarkRow? && ops[k + 1].row == ops[k].row
    {
      PairAt(items, ops, k);
    }
    forall k | 0 <= k < |ops| && ops[k].MarkRow?
      ensures ops[k].stored && ops[k].mark.Published? && ops[k].row in outbox && !MarkedPublished(outbox[ops[k].row])
    {
      PairAt(items, ops, k);
      assert Holds(outbox, items[k / 2].row, p);
    }
    forall j, k | 0 <= j < k < |ops| && ops[j].MarkRow? && ops[k].MarkRow? ensures ops[j].row != ops[k].row {
      PairAt(items, ops, j);
      PairAt(items, ops, k);
      assert j / 2 < k / 2;
    }
    forall k | 0 <= k < |ops| && ops[k].Commit? ensures ops[k].applied {
      PairAt(items, ops, k);
    }
  }

  lemma ClaimClean(cfg: Config, s: State, rows: seq<nat>, answers: seq<RelayAnswers>)
    requires Inv(cfg, s) && CleanState(s) && Enabled(cfg, s, Claim(rows, answers, true)) && CleanAnswers(answers)
    ensures CleanState(ClaimNext(s, rows, answers, true))
  {
    hide RelaySafe, CleanPass, CleanAnswers, ItemsOps, OutboxOk, FlightsOk, RescuesOk, CoreOk, CleanOps;
    var p, s' := s.core.next, ClaimNext(s, rows, answers, true);
    var items := ItemsOf(s.outbox, rows);
    forall i | 0 <= i < |items|
      ensures Holds(s'.outbox, items[i].row, p) && s'.outbox[items[i].row].lock == Held(p, false, Unmarked)
    {
      assert rows[i] in rows;
    }
    forall r | Holds(s'.outbox, r, p) ensures exists i :: 0 <= i < |items| && items[i].row == r {
      assert p !in s.passes;
      assert r in rows;
      var i :| 0 <= i < |rows| && rows[i] == r;
      assert items[i].row == r;
    }
    assert forall i | 0 <= i < |items| :: items[i].row == rows[i];
    ClaimedClean(s'.outbox, p, items, answers);
    forall q | q in s.passes ensures CleanPass(s'.outbox, q, s'.passes[q].ops) {
      assert q != p && PassOk(s.outbox, q, s.passes[q]) && CleanPass(s.outbox, q, s.passes[q].ops);
      CleanUndisturbed(s.outbox, s'.outbox, q, s.passes[q].ops);
    }
  }

  lemma RelayClean(cfg: Config, s: State, p: nat)
    requires Inv(cfg, s) && CleanState(s) && p in s.passes && s.passes[p].ops != []
    ensures CleanState(RelayNext(s, p))
  {
    hide RelaySafe, CleanPass, OutboxOk, FlightsOk, RescuesOk, CoreOk, CleanOps, Post;
    var s', pass := RelayNext(s, p), s.passes[p];
    assert PassOk(s.outbox, p, pass) && CleanPass(s.outbox, p, pass.ops);
    HeadHolds(s.outbox, p, pass.ops);
    HeadClean(s.outbox, p, pass.ops);
    if !pass.ops[0].Commit? {
      CleanTail(s.outbox, s'.outbox, p, pass.ops);
    }
    forall q | q in s'.passes && q != p ensures CleanPass(s'.outbox, q, s'.passes[q].ops) {
      assert PassOk(s.outbox, q, s.passes[q]) && CleanPass(s.outbox, q, s.passes[q].ops);
      CleanUndisturbed(s.outbox, s'.outbox, q, s.passes[q].ops);
    }
  }

  lemma HeadClean(outbox: map<nat, OutboxRow>, p: nat, ops: seq<RelayOp>)
    requires RelaySafe(outbox, p, ops) && CleanPass(outbox, p, ops)
    ensures ops[0].Ship? ==> ops[0].fate.Confirmed?
    ensures ops[0].MarkRow? ==> ops[0].stored && ops[0].mark.Published?
  {}

  lemma DeliverClean(cfg: Config, s: State, k: nat, a: WorkerAnswers)
    requires Inv(cfg, s) && CleanState(s) && k in s.core.copies && s.core.copies[k].queue.Work? && a.forward.Confirmed?
    ensures CleanState(DeliverNext(cfg, s, k, a))
  {
    hide CleanPass, CleanOps, OutboxOk, PassesOk, FlightsOk, RescuesOk, HandleOps, LogOk, Known, Carries, Decode;
    var copy := s.core.copies[k];
    assert CopyOk(cfg, s.core.log, copy);
    CarriesDecodes(s.core.log, copy.queue.channel, copy.body);
    HandleIsClean(copy.queue.channel, copy.body, copy.attempt, cfg.maxRetries, a);
  }

  lemma WorkerClean(cfg: Config, s: State, f: nat)
    requires CleanState(s) && f in s.flights && s.flights[f].ops != []
    ensures CleanState(WorkerNext(s, f))
  {
    hide CleanPass, CleanOps, Perform, Conclude;
    CleanHead(s.flights[f].ops);
  }

  lemma ExpireClean(cfg: Config, s: State, k: nat)
    requires CleanState(s) && k in s.core.copies && s.core.copies[k].queue.Retry?
    ensures CleanState(ExpireNext(s, k))
  {
    hide CleanPass, CleanOps, Post;
  }

  // ----- Conservation -----

  predicate FaultFree(a: Action)
  {
    a.Submit? || Progresses(a)
  }

  predicate AllOwned(s: State)
  {
    forall f | f in s.flights :: s.flights[f].owned
  }

  lemma SubmitClean(cfg: Config, s: State, content: Content)
    requires Inv(cfg, s) && CleanState(s)
    ensures CleanState(SubmitNext(s, content))
  {
    hide CleanPass, CleanOps, RelaySafe, FlightsOk, RescuesOk, CoreOk, Encode, RowOk;
    var s' := SubmitNext(s, content);
    forall p | p in s.passes ensures CleanPass(s'.outbox, p, s.passes[p].ops) {
      assert PassOk(s.outbox, p, s.passes[p]) && CleanPass(s.outbox, p, s.passes[p].ops);
      CleanUndisturbed(s.outbox, s'.outbox, p, s.passes[p].ops);
    }
  }

  lemma OwnedKeeps(cfg: Config, s: State, a: Action)
    requires AllOwned(s) && Enabled(cfg, s, a) && FaultFree(a)
    ensures AllOwned(Next(cfg, s, a))
  {
    hide Perform, Conclude, HandleOps, Post, ItemsOps, LockRows, Release, ShipEffect, MarkEffect, Encode;
  }

  lemma NoDuplicate(cfg: Config, s: State, a: Action, t: string)
    requires Inv(cfg, s) && CleanState(s) && AllOwned(s) && Enabled(cfg, s, a) && FaultFree(a)
    ensures Duplicates(s, a, t) == 0
  {
    hide RelaySafe, CleanPass, CleanOps, OutboxOk, FlightsOk, RescuesOk, CoreOk, Forgotten;
    match a
    case RelayStep(p) =>
      assert PassOk(s.outbox, p, s.passes[p]) && CleanPass(s.outbox, p, s.passes[p].ops);
      HeadClean(s.outbox, p, s.passes[p].ops);
      if s.passes[p].ops[0].Commit? {
        CommitMarked(s.outbox, p, s.passes[p].ops);
        NothingForgotten(s.outbox, p, t);
      }
    case WorkerStep(f) => CleanHead(s.flights[f].ops);
    case _ =>
  }

  lemma NothingForgotten(outbox: map<nat, OutboxRow>, p: nat, t: string)
    requires forall r | Holds(outbox, r, p) :: MarkedPublished(outbox[r])
    ensures Forgotten(outbox, p, true, t) == {}
  {
    forall r | r in Forgotten(outbox, p, true, t) ensures false {
      assert Holds(outbox, r, p);
    }
  }

  lemma {:induction false} ConservesFrom(cfg: Config, s: State, acts: seq<Action>, t: string)
    requires Inv(cfg, s) && CleanState(s) && AllOwned(s) && Runs(cfg, s, acts)
    requires forall i | 0 <= i < |acts| :: FaultFree(acts[i])
    ensures DuplicatesOver(cfg, s, acts, t) == 0
    decreases |acts|
  {
    hide Inv, CleanState, AllOwned, Next, Enabled, FaultFree, Duplicates;
    if acts != [] {
      var a := acts[0];
      NoDuplicate(cfg, s, a, t);
      NextKeeps(cfg, s, a);
      OwnedKeeps(cfg, s, a);
      FaultFreeClean(cfg, s, a);
      assert forall i | 0 <= i < |acts| - 1 :: acts[1..][i] == acts[i + 1];
      ConservesFrom(cfg, Next(cfg, s, a), acts[1..], t);
    }
  }

  lemma FaultFreeClean(cfg: Config, s: State, a: Action)
    requires Inv(cfg, s) && CleanState(s) && Enabled(cfg, s, a) && FaultFree(a)
    ensures CleanState(Next(cfg, s, a))
  {
    hide Inv, CleanState, SubmitNext, ClaimNext, RelayNext, DeliverNext, WorkerNext, ExpireNext, CleanAnswers;
    match a
    case Submit(content) => SubmitClean(cfg, s, content);
    case Claim(rows, answers, applied) => ClaimClean(cfg, s, rows, answers);
    case RelayStep(p) => RelayClean(cfg, s, p);
    case Deliver(k, answers) => DeliverClean(cfg, s, k, answers);
    case WorkerStep(f) => WorkerClean(cfg, s, f);
    case Expire(k) => ExpireClean(cfg, s, k);
  }

  /** Conservation, under any interleaving of single calls: in a run without faults and janitor a
      notification in the log has exactly one token, so it reaches at most one verdict and the provider
      accepts it at most once. */
  lemma Conservation(cfg: Config, acts: seq<Action>, id: Uuid)
    requires Runs(cfg, INITIAL, acts) && forall i | 0 <= i < |acts| :: FaultFree(acts[i])
    requires id in Final(cfg, INITIAL, acts).core.log
    ensures var s, t := Final(cfg, INITIAL, acts), Uuids.Print(id);
      |Pending(s.outbox, t)| + |Waiting(s.core.copies, t)| + |Carried(s.flights, t)|
      + |Verdicts(s.core.settlements, t)| == 1
  {
    hide Runs, Final, FaultFree, Uuids.Print, Pending, Waiting, Carried, Verdicts;
    var s, t := Final(cfg, INITIAL, acts), Uuids.Print(id);
    InitialOk(cfg);
    ConservesFrom(cfg, INITIAL, acts, t);
    TokensOfRun(cfg, acts, t);
    assert Known(s.core.log, t);
  }
}
