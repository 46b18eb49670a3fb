/** What holds of many submits: one log row and one outbox row per event, and the bound on what one user
    is sent on one channel. */
module SubmitTheorems {
  import opened Basics
  import opened Uuids
  import opened Domain
  import opened Topology
  import opened Pipeline
  import opened PipelineInvariant
  import opened PipelineSteps
  import opened PipelineTokens
  import opened PipelineTheorems
  import Breaker
  import opened TokenBucket
  import opened RateLimiting
  import opened Submit

  // ----- One row per event -----

  function SubmitsOf(acts: seq<Action>, eventId: string): nat
  {
    if acts == [] then 0
    else SubmitsOf(acts[1..], eventId) + One(acts[0].Submit? && acts[0].content.eventId == eventId)
  }

  lemma PerformLog(core: Core, f: Flight)
    requires f.ops != []
    ensures LogGrows(core.log, Perform(core, f.copy, f.settled, f.ops[0]).0.log)
    ensures Conclude(core, f.copy, f.ops[0]).log == core.log
  {
    hide Resolve, Sealed;
  }

  lemma StoreLog(core: Core, id: Uuid, status: Status, attempt: int, lastError: string, stored: bool)
    ensures LogGrows(core.log, Store(core, id, status, attempt, lastError, stored).log)
  {}

  lemma WorkerLog(s: State, f: nat)
    requires f in s.flights && s.flights[f].ops != []
    ensures LogGrows(s.core.log, WorkerNext(s, f).core.log)
  {
    hide Perform, Conclude;
    PerformLog(s.core, s.flights[f]);
  }

  lemma RelayLog(s: State, p: nat)
    requires p in s.passes && s.passes[p].ops != []
    ensures RelayNext(s, p).core.log == s.core.log
  {
    hide Resolve, Sealed, ShipEffect, MarkEffect, Release;
  }

  lemma RescueLog(s: State, j: nat)
    requires j in s.rescues && s.rescues[j] != []
    ensures LogGrows(s.core.log, RescueNext(s, j).core.log)
  {
    hide Resolve, Sealed, Store;
    var op := s.rescues[j][0];
    if op.Reset? {
      StoreLog(s.core, op.id, Enqueued, op.attempt, RESCUED, op.stored);
    }
  }

  lemma ExpireLog(s: State, k: nat)
    requires k in s.core.copies && s.core.copies[k].queue.Retry?
    ensures ExpireNext(s, k).core.log == s.core.log
  {
    hide Resolve, Sealed;
  }

  /** No step removes a row of the log or changes its content. */
  lemma StepLog(cfg: Config, s: State, a: Action)
    requires Enabled(cfg, s, a)
    ensures LogGrows(s.core.log, Next(cfg, s, a).core.log)
  {
    hide RelayNext, WorkerNext, ExpireNext, RescueNext, HandleOps, ItemsOps, Wire.Encode, LockRows, Release, RescueOps;
    match a
    case WorkerStep(f) => WorkerLog(s, f);
    case RelayStep(p) => RelayLog(s, p);
    case RescueStep(j) => RescueLog(s, j);
    case Expire(k) => ExpireLog(s, k);
    case _ =>
  }

  predicate SameRows(outbox: map<nat, OutboxRow>, outbox': map<nat, OutboxRow>)
  {
    outbox'.Keys == outbox.Keys && forall r | r in outbox :: outbox'[r].notification == outbox[r].notification
  }

  lemma RelayRowsSame(s: State, p: nat)
    requires p in s.passes && s.passes[p].ops != []
    ensures SameRows(s.outbox, RelayNext(s, p).outbox)
  {
    hide Post;
  }

  lemma LockedSame(outbox: map<nat, OutboxRow>, rows: seq<nat>, p: nat, applied: bool)
    ensures SameRows(outbox, LockRows(outbox, rows, p)) && SameRows(outbox, Release(outbox, p, applied))
  {}

  /** Only a submit adds an outbox row, and none is removed or given to another notification. */
  lemma StepOutbox(cfg: Config, s: State, a: Action)
    requires Enabled(cfg, s, a)
    ensures !a.Submit? ==> SameRows(s.outbox, Next(cfg, s, a).outbox)
    ensures a.Submit? ==>
      Next(cfg, s, a).outbox.Keys == s.outbox.Keys + {s.core.next}
      && Next(cfg, s, a).outbox[s.core.next].notification == a.content.id
      && forall r | r in s.outbox && r != s.core.next :: Next(cfg, s, a).outbox[r] == s.outbox[r]
  {
    hide RelayNext, HandleOps, ItemsOps, Wire.Encode, RescueOps, Post, Perform, Conclude, Rescue, LockRows, Release;
    match a
    case RelayStep(p) => RelayRowsSame(s, p);
    case Claim(rows, _, _) => LockedSame(s.outbox, rows, s.core.next, false);
    case RelayCrash(p) => LockedSame(s.outbox, [], p, false);
    case _ =>
  }

  predicate OnceEach(s: State)
  {
    forall r, r' | r in s.outbox && r' in s.outbox && s.outbox[r].notification == s.outbox[r'].notification :: r == r'
  }

  ghost predicate AllQueued(s: State)
  {
    forall id | id in s.core.log :: Queued(s, id)
  }

  ghost predicate Queued(s: State, id: Uuid)
  {
    exists r :: r in s.outbox && s.outbox[r].notification == id
  }

  lemma RowsKnown(cfg: Config, s: State)
    requires Inv(cfg, s)
    ensures forall r | r in s.outbox :: r < s.core.next && s.outbox[r].notification in s.core.log
  {}

  lemma StepOnceEach(cfg: Config, s: State, a: Action)
    requires Inv(cfg, s) && Enabled(cfg, s, a) && OnceEach(s)
    ensures OnceEach(Next(cfg, s, a))
  {
    hide Inv, Next, Enabled, HasEvent;
    StepOutbox(cfg, s, a);
    RowsKnown(cfg, s);
    if a.Submit? {
      SubmitIsNew(cfg, s, a);
    }
  }

  lemma StepAllQueued(cfg: Config, s: State, a: Action)
    requires Inv(cfg, s) && Enabled(cfg, s, a) && AllQueued(s)
    ensures AllQueued(Next(cfg, s, a))
  {
    hide Inv, Next, Enabled;
    var s' := Next(cfg, s, a);
    StepOutbox(cfg, s, a);
    StepKeys(cfg, s, a);
    RowsKnown(cfg, s);
    forall id | id in s'.core.log ensures Queued(s', id) {
      if id in s.core.log {
        assert Queued(s, id);
        var r :| r in s.outbox && s.outbox[r].notification == id;
        assert r in s'.outbox && s'.outbox[r].notification == id;
      } else {
        assert s'.outbox[s.core.next].notification == id;
      }
    }
  }

  lemma SubmitIsNew(cfg: Config, s: State, a: Action)
    requires Enabled(cfg, s, a) && a.Submit?
    ensures a.content.id !in s.core.log && !HasEvent(s.core.log, a.content.eventId)
    ensures HasEvent(Next(cfg, s, a).core.log, a.content.eventId)
  {
    hide Wire.Encode;
    assert Next(cfg, s, a).core.log[a.content.id].content == a.content;
  }

  lemma EventOnce(cfg: Config, s: State, a: Action, eventId: string)
    requires Enabled(cfg, s, a)
    ensures One(HasEvent(Next(cfg, s, a).core.log, eventId))
      == One(HasEvent(s.core.log, eventId)) + One(a.Submit? && a.content.eventId == eventId)
  {
    var s' := Next(cfg, s, a);
    StepLog(cfg, s, a);
    StepKeys(cfg, s, a);
    if a.Submit? {
      SubmitIsNew(cfg, s, a);
      assert s'.core.log[a.content.id].content == a.content by {
        hide Wire.Encode;
      }
    }
    hide Next, Enabled;
    if HasEvent(s.core.log, eventId) {
      var id :| id in s.core.log && s.core.log[id].content.eventId == eventId;
      assert id in s'.core.log && s'.core.log[id].content.eventId == eventId;
    } else if HasEvent(s'.core.log, eventId) {
      var id :| id in s'.core.log && s'.core.log[id].content.eventId == eventId;
      assert id in s.core.log ==> s.core.log[id].content.eventId == eventId;
    }
  }

  lemma {:induction false} RunOnce(cfg: Config, s: State, acts: seq<Action>, eventId: string)
    requires Inv(cfg, s) && Runs(cfg, s, acts) && OnceEach(s) && AllQueued(s)
    ensures var s' := Final(cfg, s, acts);
      && Inv(cfg, s') && OnceEach(s') && AllQueued(s')
      && One(HasEvent(s'.core.log, eventId)) == One(HasEvent(s.core.log, eventId)) + SubmitsOf(acts, eventId)
    decreases |acts|
  {
    hide Inv, Next, Enabled, HasEvent, OnceEach, AllQueued;
    if acts != [] {
      NextKeeps(cfg, s, acts[0]);
      StepOnceEach(cfg, s, acts[0]);
      StepAllQueued(cfg, s, acts[0]);
      EventOnce(cfg, s, acts[0], eventId);
      RunOnce(cfg, Next(cfg, s, acts[0]), acts[1..], eventId);
    }
  }

  ghost function RowsOf(s: State, eventId: string): (ids: set<Uuid>)
  {
    set id | id in s.core.log && s.core.log[id].content.eventId == eventId
  }

  ghost function QueuedOf(s: State, eventId: string): set<nat>
  {
    set r | r in s.outbox && s.outbox[r].notification in RowsOf(s, eventId)
  }

  lemma AtMostOne<T>(s: set<T>, x: T)
    requires x in s && forall y, z | y in s && z in s :: y == z
    ensures |s| == 1
  {
    assert s == {x};
  }

  lemma RowsCounted(s: State, eventId: string)
    requires LogOk(s.core.log) && OnceEach(s) && AllQueued(s)
    ensures |RowsOf(s, eventId)| == |QueuedOf(s, eventId)| == One(HasEvent(s.core.log, eventId))
  {
    if HasEvent(s.core.log, eventId) {
      var id :| id in s.core.log && s.core.log[id].content.eventId == eventId;
      AtMostOne(RowsOf(s, eventId), id);
      assert Queued(s, id);
      var r :| r in s.outbox && s.outbox[r].notification == id;
      AtMostOne(QueuedOf(s, eventId), r);
    } else {
      assert RowsOf(s, eventId) == {} && QueuedOf(s, eventId) == {};
    }
  }

  /** Over any run an event has been submitted at most once, and it has as many log rows and as many
      outbox rows, none or one, as it has been submitted. */
  lemma OneRowPerEvent(cfg: Config, acts: seq<Action>, eventId: string)
    requires Runs(cfg, Pipeline.INITIAL, acts)
    ensures var s := Final(cfg, Pipeline.INITIAL, acts);
      && SubmitsOf(acts, eventId) <= 1
      && |RowsOf(s, eventId)| == SubmitsOf(acts, eventId)
      && |QueuedOf(s, eventId)| == SubmitsOf(acts, eventId)
  {
    hide Runs, Final, LogOk, OnceEach, FlightsOk, OutboxOk, PassesOk, RescuesOk, RowsOf, QueuedOf, HasEvent, SubmitsOf;
    InitialOk(cfg);
    InitialOnce(eventId);
    RunOnce(cfg, Pipeline.INITIAL, acts, eventId);
    RowsCounted(Final(cfg, Pipeline.INITIAL, acts), eventId);
  }

  lemma InitialOnce(eventId: string)
    ensures OnceEach(Pipeline.INITIAL) && AllQueued(Pipeline.INITIAL) && !HasEvent(Pipeline.INITIAL.core.log, eventId)
  {}

  // ----- Runs of the use case -----

  /** A submit as it is executed, having looked up its claim in an earlier log, or a step of any other process. */
  datatype Move =
    | Execution(input: SubmitInput, ports: Ports, keys: map<string, Bucket>, early: map<Uuid, LogRow>)
    | Other(action: Action)

  ghost predicate Moves(pipeline: Config, s: State, m: Move)
  {
    match m
    case Execution(_, _, _, early) => LogGrows(early, s.core.log)
    case Other(a) => !a.Submit? && Enabled(pipeline, s, a)
  }

  ghost function Moved(pipeline: Config, cfg: SubmitConfig, guarded: bool, s: State, m: Move): State
    requires Moves(pipeline, s, m)
  {
    match m
    case Execution(input, ports, keys, early) => Submitted(cfg, guarded, keys, early, s, input, ports).state
    case Other(a) => Next(pipeline, s, a)
  }

  ghost predicate MovesRun(pipeline: Config, cfg: SubmitConfig, guarded: bool, s: State, moves: seq<Move>)
    decreases |moves|
  {
    moves == []
    || (&& Moves(pipeline, s, moves[0])
        && MovesRun(pipeline, cfg, guarded, Moved(pipeline, cfg, guarded, s, moves[0]), moves[1..]))
  }

  /** Does the move answer that the notification of this event is new? */
  ghost predicate AnswersNew(cfg: SubmitConfig, guarded: bool, s: State, m: Move, eventId: string)
  {
    m.Execution? && m.input.eventId == eventId
    && var output := Submitted(cfg, guarded, m.keys, m.early, s, m.input, m.ports).output;
       output.Ok? && !output.value.duplicate
  }

  ghost function NewAnswers(
    pipeline: Config, cfg: SubmitConfig, guarded: bool, s: State, moves: seq<Move>, eventId: string): nat
    requires MovesRun(pipeline, cfg, guarded, s, moves)
    decreases |moves|
  {
    if moves == [] then 0
    else One(AnswersNew(cfg, guarded, s, moves[0], eventId))
         + NewAnswers(pipeline, cfg, guarded, Moved(pipeline, cfg, guarded, s, moves[0]), moves[1..], eventId)
  }

  /** A move that answers new is the one that brings the event into the log. */
  lemma NewBringsEvent(pipeline: Config, cfg: SubmitConfig, guarded: bool, s: State, m: Move, eventId: string)
    requires Moves(pipeline, s, m)
    ensures var s' := Moved(pipeline, cfg, guarded, s, m);
      One(AnswersNew(cfg, guarded, s, m, eventId)) + One(HasEvent(s.core.log, eventId))
      <= One(HasEvent(s'.core.log, eventId))
  {
    hide Submitted, Next, Enabled, HasEvent;
    match m
    case Other(a) => EventOnce(pipeline, s, a, eventId);
    case Execution(input, ports, keys, early) =>
      SubmitIsAStep(cfg, guarded, keys, early, pipeline, s, input, ports);
      var effect := Submitted(cfg, guarded, keys, early, s, input, ports);
      if effect.state != s {
        var c: Content :| c.eventId == input.eventId && c.body != "" && Enabled(pipeline, s, Action.Submit(c))
                          && effect.state == Next(pipeline, s, Action.Submit(c));
        EventOnce(pipeline, s, Action.Submit(c), eventId);
      }
  }

  /** Over any run of submits and other processes at most one submit of an event answers that its notification is
      new, and none if the log had the event before. */
  lemma {:induction false} OneNewAnswer(
    pipeline: Config, cfg: SubmitConfig, guarded: bool, s: State, moves: seq<Move>, eventId: string)
    requires MovesRun(pipeline, cfg, guarded, s, moves)
    ensures NewAnswers(pipeline, cfg, guarded, s, moves, eventId) + One(HasEvent(s.core.log, eventId)) <= 1
    decreases |moves|
  {
    hide Moved, AnswersNew, Moves, HasEvent;
    if moves != [] {
      NewBringsEvent(pipeline, cfg, guarded, s, moves[0], eventId);
      OneNewAnswer(pipeline, cfg, guarded, Moved(pipeline, cfg, guarded, s, moves[0]), moves[1..], eventId);
    }
  }

  // ----- The bound on what a user is sent -----

  /** A submit as it comes, with the state it finds, or a call on the limiter for an application key. */
  datatype Turn =
    | Submitting(input: SubmitInput, ports: Ports, early: map<Uuid, LogRow>, state: State)
    | AppCall(appKey: string, params: Params, call: Call)

  const NO_ASK: Ask := Ask("", Params(1, 0.0, 0), Call(0, false), false)

  ghost predicate Asks(cfg: SubmitConfig, t: Turn)
  {
    t.Submitting? && Early(t.early, t.input, t.ports).None? && AsksLimiter(cfg, t.input, t.ports)
  }

  /** What a turn does to the limiter's keys. */
  ghost function AskOf(cfg: SubmitConfig, t: Turn): Ask
  {
    if t.AppCall? then Ask(APP_PREFIX + t.appKey, t.params, t.call, true)
    else if Asks(cfg, t) && cfg.window > 0 && !t.ports.limiter.bypassed && Breaker.Executes(t.ports.limiter.reply) then
      Ask(BucketKey(t.input.recipient.userId.value, t.input.channel),
          ParamsOf(cfg.rateLimits[t.input.channel], cfg.window), t.ports.limiter.c, true)
    else NO_ASK
  }

  ghost function AsksOf(cfg: SubmitConfig, turns: seq<Turn>): (asks: seq<Ask>)
    ensures |asks| == |turns| && forall i | 0 <= i < |turns| :: asks[i] == AskOf(cfg, turns[i])
  {
    if turns == [] then [] else AsksOf(cfg, turns[..|turns| - 1]) + [AskOf(cfg, turns[|turns| - 1])]
  }

  /** The keys as the i-th turn finds them. */
  ghost function KeysAt(cfg: SubmitConfig, turns: seq<Turn>, i: nat): map<string, Bucket>
    requires i <= |turns|
  {
    Keys(AsksOf(cfg, turns)[..i])
  }

  ghost function EffectAt(cfg: SubmitConfig, guarded: bool, turns: seq<Turn>, i: nat): Effect
    requires i < |turns| && turns[i].Submitting?
  {
    Submitted(cfg, guarded, KeysAt(cfg, turns, i), turns[i].early, turns[i].state, turns[i].input, turns[i].ports)
  }

  /** The keys a submit leaves are those the next turn finds. */
  lemma KeysFollow(cfg: SubmitConfig, guarded: bool, turns: seq<Turn>, i: nat)
    requires i < |turns| && turns[i].Submitting?
    ensures EffectAt(cfg, guarded, turns, i).keys == KeysAt(cfg, turns, i + 1)
  {
    hide Prepared, Insertable, SubmitNext, ScriptOn, ParamsOf, BucketKey;
    var asks := AsksOf(cfg, turns);
    assert asks[..i + 1][..i] == asks[..i] && asks[..i + 1][i] == asks[i];
  }

  /** Does the turn store a row for this user on this channel? */
  ghost predicate StoresFor(cfg: SubmitConfig, guarded: bool, turns: seq<Turn>, i: nat, user: int, c: Channel)
    requires i < |turns|
  {
    && turns[i].Submitting? && turns[i].input.recipient.userId == Some(user) && turns[i].input.channel == c
    && EffectAt(cfg, guarded, turns, i).state != turns[i].state
  }

  /** Does the limiter let the turn pass without the script's answer? */
  ghost predicate FailsOpen(cfg: SubmitConfig, guarded: bool, t: Turn, user: int, c: Channel)
  {
    && Asks(cfg, t) && t.input.recipient.userId == Some(user) && t.input.channel == c
    && (t.ports.limiter.bypassed
        || (t.ports.limiter.reply.Failed? && guarded && t.ports.limiter.reply.infrastructure))
  }

  ghost function Stored(cfg: SubmitConfig, guarded: bool, turns: seq<Turn>, user: int, c: Channel, i: nat, k: nat): nat
    requires k <= |turns|
    decreases k
  {
    if k <= i then 0
    else Stored(cfg, guarded, turns, user, c, i, k - 1) + One(StoresFor(cfg, guarded, turns, k - 1, user, c))
  }

  ghost function FailedOpen(
    cfg: SubmitConfig, guarded: bool, turns: seq<Turn>, user: int, c: Channel, i: nat, k: nat): nat
    requires k <= |turns|
    decreases k
  {
    if k <= i then 0
    else FailedOpen(cfg, guarded, turns, user, c, i, k - 1) + One(FailsOpen(cfg, guarded, turns[k - 1], user, c))
  }

  /** A stored row was admitted by the script on the user's own bucket, or passed without it. */
  lemma StoredWasAdmitted(cfg: SubmitConfig, guarded: bool, turns: seq<Turn>, i: nat, user: int, c: Channel)
    requires i < |turns| && StoresFor(cfg, guarded, turns, i, user, c)
    requires c in cfg.rateLimits && Limits(cfg.rateLimits[c], cfg.window)
    ensures FailsOpen(cfg, guarded, turns[i], user, c)
      || (Concerns(AsksOf(cfg, turns)[i], BucketKey(user, c)) && Admits(AsksOf(cfg, turns), i))
  {
    hide Hydrated, ScriptOn, ParamsOf, BucketKey, SubmitNext, Insertable, Keys, NewEntity;
    var t := turns[i];
    var keys := KeysAt(cfg, turns, i);
    assert Early(t.early, t.input, t.ports).None?;
    assert Prepared(cfg, guarded, keys, t.input, t.ports).Ok?;
    assert Policies(cfg, guarded, keys, t.input, t.ports).Ok?;
  }

  lemma {:induction false} StoredCounted(
    cfg: SubmitConfig, guarded: bool, turns: seq<Turn>, user: int, c: Channel, i: nat, k: nat)
    requires k <= |turns| && c in cfg.rateLimits && Limits(cfg.rateLimits[c], cfg.window)
    ensures Stored(cfg, guarded, turns, user, c, i, k)
      <= Admitted(AsksOf(cfg, turns), BucketKey(user, c), i, k) + FailedOpen(cfg, guarded, turns, user, c, i, k)
    decreases k
  {
    hide StoresFor, FailsOpen, Admits, BucketKey, AskOf;
    if k > i {
      StoredCounted(cfg, guarded, turns, user, c, i, k - 1);
      if StoresFor(cfg, guarded, turns, k - 1, user, c) {
        StoredWasAdmitted(cfg, guarded, turns, k - 1, user, c);
      }
    }
  }

  /** Only this user's submits on this channel touch the user's bucket there, always with the same arguments. */
  lemma OwnBucket(cfg: SubmitConfig, turns: seq<Turn>, user: int, c: Channel)
    requires c in cfg.rateLimits && Limits(cfg.rateLimits[c], cfg.window)
    ensures SameParams(AsksOf(cfg, turns), BucketKey(user, c), ParamsOf(cfg.rateLimits[c], cfg.window))
  {
    var asks := AsksOf(cfg, turns);
    forall i | 0 <= i < |asks| && Concerns(asks[i], BucketKey(user, c))
      ensures asks[i].params == ParamsOf(cfg.rateLimits[c], cfg.window)
    {
      var t := turns[i];
      if t.AppCall? {
        BucketKeysDistinct(user, c, user, c, t.appKey);
      } else {
        BucketKeysDistinct(user, c, t.input.recipient.userId.value, t.input.channel, "");
      }
    }
  }

  /** Whoever else submits or calls: the rows stored for a user on a channel by submits whose limiter calls
      lie within a span of time are no more than the limit and the refill of that span, and the calls the
      limiter let pass without its script. */
  lemma AntiFatigue(
    cfg: SubmitConfig, guarded: bool, turns: seq<Turn>, user: int, c: Channel, i: nat, k: nat, from: int, span: nat)
    requires c in cfg.rateLimits && Limits(cfg.rateLimits[c], cfg.window)
    requires Sustains(ParamsOf(cfg.rateLimits[c], cfg.window))
    requires Admissible(ParamsOf(cfg.rateLimits[c], cfg.window), On(AsksOf(cfg, turns), BucketKey(user, c)))
    requires i <= k <= |turns| && Within(AsksOf(cfg, turns), BucketKey(user, c), i, k, from, span)
    ensures Stored(cfg, guarded, turns, user, c, i, k) as real
      <= Ceiling(cfg.rateLimits[c], cfg.window, span) + FailedOpen(cfg, guarded, turns, user, c, i, k) as real
  {
    hide Sustains, ParamsOf, Ceiling, Admissible, Admitted, SameParams, Within, Stored, FailedOpen, On,
         BucketKey, AskOf;
    OwnBucket(cfg, turns, user, c);
    KeyBounded(AsksOf(cfg, turns), BucketKey(user, c), cfg.rateLimits[c], cfg.window, i, k, from, span);
    StoredCounted(cfg, guarded, turns, user, c, i, k);
  }
}
