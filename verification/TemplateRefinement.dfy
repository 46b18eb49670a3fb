/** With a healthy Redis the cache is invisible: whatever is read, created, updated and deleted through it, the
    callers see what the bare repository would show, until a write is applied that the database reports as failed
    and that leaves a cached value behind. */
module TemplateRefinement {
  import opened Basics
  import opened Uuids
  import opened Domain
  import opened Templates
  import opened TemplateRuns

  datatype Op =
    | Get(id: Uuid)
    | Create(template: Template, fault: Fault)
    | Update(id: Uuid, fields: Fields, owner: int, fault: Fault)
    | Delete(id: Uuid, owner: int, fault: Fault)

  datatype Reply = Value(value: Result<Template>) | Done(done: Result<()>)

  function Denied(t: Result<Template>, owner: int): Option<Error>
  {
    if t.Err? then Some(t.error) else if t.value.owner != owner then Some(Forbidden) else None
  }

  function BareStep(docs: Docs, op: Op): (Reply, Docs)
  {
    match op
    case Get(id) => (Value(RepoGet(docs, id, false)), docs)
    case Create(t, fault) =>
      var (r, docs') := RepoCreate(docs, t, fault);
      (Done(r), docs')
    case Update(id, fields, owner, fault) =>
      var draft := DraftOf(RepoGet(docs, id, false), fields, owner);
      if draft.Err? then (Value(draft), docs)
      else
        var (r, docs') := RepoUpdate(docs, draft.value, fault);
        (Value(if r.Ok? then draft else Err(r.error)), docs')
    case Delete(id, owner, fault) =>
      var denied := Denied(RepoGet(docs, id, false), owner);
      if denied.Some? then (Done(Err(denied.value)), docs)
      else
        var (r, docs') := RepoDelete(docs, id, fault);
        (Done(r), docs')
  }

  function CachedStep(docs: Docs, shared: Shared, ttl: int, now: int, op: Op): (Reply, Docs, Shared)
  {
    match op
    case Get(id) =>
      var (t, shared') := CacheGet(docs, shared, ttl, id, now, false, HEALTHY);
      (Value(t), docs, shared')
    case Create(t, fault) =>
      var (r, docs') := RepoCreate(docs, t, fault);
      (Done(r), docs', CachePut(shared, t, r, now, HEALTHY))
    case Update(id, fields, owner, fault) =>
      var (t, read) := CacheGet(docs, shared, ttl, id, now, false, HEALTHY);
      var draft := DraftOf(t, fields, owner);
      if draft.Err? then (Value(draft), docs, read)
      else
        var (r, docs') := RepoUpdate(docs, draft.value, fault);
        (Value(if r.Ok? then draft else Err(r.error)), docs', CachePut(read, draft.value, r, now, HEALTHY))
    case Delete(id, owner, fault) =>
      var (t, read) := CacheGet(docs, shared, ttl, id, now, false, HEALTHY);
      var denied := Denied(t, owner);
      if denied.Some? then (Done(Err(denied.value)), docs, read)
      else
        var (r, docs') := RepoDelete(docs, id, fault);
        (Done(r), docs', CacheDrop(read, id, r, HEALTHY))
  }

  /** Every cached value is the repository's, and every template is stored under its own identifier. */
  predicate Agree(docs: Docs, shared: Shared)
  {
    && (forall id | id in docs :: docs[id].id == id)
    && (forall id | id in shared :: id in docs && shared[id].value == docs[id])
  }

  lemma GetAgrees(docs: Docs, shared: Shared, ttl: int, now: int, id: Uuid)
    requires Agree(docs, shared)
    ensures var (t, shared') := CacheGet(docs, shared, ttl, id, now, false, HEALTHY);
      t == RepoGet(docs, id, false) && Agree(docs, shared')
  {}

  /** Does the step leave behind a cached value that the repository no longer holds? Its write is applied though
      reported as failed, and it is the deletion of a template, or an update that changes one. */
  predicate LeavesBehind(docs: Docs, op: Op)
  {
    match op
    case Get(_) => false
    case Create(_, _) => false
    case Update(id, fields, owner, fault) =>
      && fault == Fault(true) && id in docs && docs[id].owner == owner
      && var draft := UpdateFields(docs[id], fields);
         draft.Ok? && Fits(docs, draft.value) && draft.value != docs[id]
    case Delete(id, owner, fault) => fault == Fault(true) && id in docs && docs[id].owner == owner
  }

  predicate OwnIds(docs: Docs)
  {
    forall id | id in docs :: docs[id].id == id
  }

  /** A read that succeeds leaves the template cached. */
  lemma GetCaches(docs: Docs, shared: Shared, ttl: int, now: int, id: Uuid)
    requires Agree(docs, shared) && id in docs
    ensures var shared' := CacheGet(docs, shared, ttl, id, now, false, HEALTHY).1;
      Live(shared', id, ttl, now)
  {}

  lemma PutAgrees(docs: Docs, shared: Shared, now: int, was: Template, fields: Fields, fault: Fault)
    requires Agree(docs, shared) && was.id in docs && docs[was.id] == was && UpdateFields(was, fields).Ok?
    ensures var t := UpdateFields(was, fields).value;
      var (r, docs') := RepoUpdate(docs, t, fault);
      && OwnIds(docs')
      && (!(fault == Fault(true) && Fits(docs, t) && t != was) ==> Agree(docs', CachePut(shared, t, r, now, HEALTHY)))
      && (fault == Fault(true) && Fits(docs, t) && t != was ==>
            CachePut(shared, t, r, now, HEALTHY) == shared && docs'[was.id] == t)
  {
    var t := UpdateFields(was, fields).value;
    assert t == was.(name := t.name, subject := t.subject, body := t.body, mediaUrls := t.mediaUrls);
  }

  /** The reply of a step is the bare repository's, whatever the database does; and the cache agrees with the
      repository after it exactly if the step leaves nothing behind. What is left behind is being served. */
  lemma StepRefines(docs: Docs, shared: Shared, ttl: int, now: int, op: Op)
    requires Agree(docs, shared)
    ensures var (cached, docs', shared') := CachedStep(docs, shared, ttl, now, op);
      && (cached, docs') == BareStep(docs, op)
      && (!LeavesBehind(docs, op) ==> Agree(docs', shared'))
      && (LeavesBehind(docs, op) ==>
            OwnIds(docs') && Live(shared', op.id, ttl, now) && RepoGet(docs', op.id, false) != Ok(shared'[op.id].value))
  {
    match op
    case Get(id) =>
      GetAgrees(docs, shared, ttl, now, id);
    case Create(t, fault) =>
    case Update(id, fields, owner, fault) =>
      GetAgrees(docs, shared, ttl, now, id);
      if id in docs {
        GetCaches(docs, shared, ttl, now, id);
      }
      var (t, read) := CacheGet(docs, shared, ttl, id, now, false, HEALTHY);
      hide CacheGet;
      if DraftOf(t, fields, owner).Ok? {
        PutAgrees(docs, read, now, t.value, fields, fault);
        var _ := docs[id];
        hide RepoUpdate, CachePut;
      }
    case Delete(id, owner, fault) =>
      GetAgrees(docs, shared, ttl, now, id);
      if id in docs {
        GetCaches(docs, shared, ttl, now, id);
      }
      hide CacheGet;
  }

  /** An operation at its time; evicted: what Redis has dropped before it. */
  datatype Turn = Turn(now: int, op: Op, evicted: set<Uuid>)

  function BareRun(docs: Docs, turns: seq<Turn>): seq<Reply>
    decreases |turns|
  {
    if turns == [] then []
    else
      var (r, docs') := BareStep(docs, turns[0].op);
      [r] + BareRun(docs', turns[1..])
  }

  function CachedRun(docs: Docs, shared: Shared, ttl: int, turns: seq<Turn>): seq<Reply>
    decreases |turns|
  {
    if turns == [] then []
    else
      var (r, docs', shared') := CachedStep(docs, shared - turns[0].evicted, ttl, turns[0].now, turns[0].op);
      [r] + CachedRun(docs', shared', ttl, turns[1..])
  }

  /** Does no turn of the run leave anything behind? */
  predicate Clean(docs: Docs, turns: seq<Turn>)
    decreases |turns|
  {
    turns == [] || (!LeavesBehind(docs, turns[0].op) && Clean(BareStep(docs, turns[0].op).1, turns[1..]))
  }

  /** The refinement: reply by reply the same, however entries expire and are evicted and whichever calls fail, as long
      as no turn leaves anything behind. */
  lemma {:induction false} CacheRefinesRepository(docs: Docs, shared: Shared, ttl: int, turns: seq<Turn>)
    requires Agree(docs, shared) && Clean(docs, turns)
    ensures CachedRun(docs, shared, ttl, turns) == BareRun(docs, turns)
    decreases |turns|
  {
    hide CachedStep, BareStep, LeavesBehind;
    if turns != [] {
      var left := shared - turns[0].evicted;
      assert Agree(docs, left);
      StepRefines(docs, left, ttl, turns[0].now, turns[0].op);
      var (_, docs', shared') := CachedStep(docs, left, ttl, turns[0].now, turns[0].op);
      hide Agree;
      CacheRefinesRepository(docs', shared', ttl, turns[1..]);
    }
  }

  /** Do all runs that leave nothing behind themselves see the repository through this cache? */
  ghost predicate Invisible(docs: Docs, shared: Shared, ttl: int)
  {
    forall turns | Clean(docs, turns) :: CachedRun(docs, shared, ttl, turns) == BareRun(docs, turns)
  }

  /** The exact condition: after a step the cache stays invisible if and only if the step leaves nothing behind,
      which its caller can tell from the stored template and the request. */
  lemma InvisibleUnlessLeftBehind(docs: Docs, shared: Shared, ttl: int, now: int, op: Op)
    requires Agree(docs, shared)
    ensures var (_, docs', shared') := CachedStep(docs, shared, ttl, now, op);
      Invisible(docs', shared', ttl) <==> !LeavesBehind(docs, op)
  {
    StepRefines(docs, shared, ttl, now, op);
    var (_, docs', shared') := CachedStep(docs, shared, ttl, now, op);
    hide CachedStep, LeavesBehind, Agree, BareStep;
    if LeavesBehind(docs, op) {
      ServesStale(docs', shared', ttl, now, op.id);
    } else {
      forall turns | Clean(docs', turns) ensures CachedRun(docs', shared', ttl, turns) == BareRun(docs', turns) {
        CacheRefinesRepository(docs', shared', ttl, turns);
      }
    }
  }

  /** One read shows what is left behind. */
  lemma ServesStale(docs: Docs, shared: Shared, ttl: int, now: int, id: Uuid)
    requires Live(shared, id, ttl, now) && RepoGet(docs, id, false) != Ok(shared[id].value)
    ensures !Invisible(docs, shared, ttl)
  {
    var turns := [Turn(now, Get(id), {})];
    assert turns[1..] == [] && shared - {} == shared;
    assert BareRun(docs, turns) == [Value(RepoGet(docs, id, false))] + BareRun(docs, turns[1..]);
    assert CachedRun(docs, shared, ttl, turns)[0] == Value(Ok(shared[id].value));
    assert Clean(docs, turns);
    assert CachedRun(docs, shared, ttl, turns)[0] != BareRun(docs, turns)[0];
  }

  /** An update applied though reported as failed leaves the old value in the cache, Redis being healthy all the
      time. */
  lemma DoubtfulUpdateIsNotSeen(t: Template, fields: Fields, ttl: int, now: int)
    requires fields.name != "" && fields.body != "" && fields.body != t.body
    ensures var docs, shared := map[t.id := t], map[t.id := Entry(t, now)];
      var (reply, docs', shared') := CachedStep(docs, shared, ttl, now, Op.Update(t.id, fields, t.owner, Fault(true)));
      && reply == Value(Err(Infrastructure))
      && CacheGet(docs', shared', ttl, t.id, now, false, HEALTHY).0 == Ok(t)
      && RepoGet(docs', t.id, false) == UpdateFields(t, fields) != Ok(t)
  {
    var docs := map[t.id := t];
    var draft := UpdateFields(t, fields).value;
    assert RepoUpdate(docs, draft, Fault(true)) == (Err(Infrastructure), docs[t.id := draft]);
  }

  /** A deletion applied though reported as failed leaves the deleted template in the cache. */
  lemma DoubtfulDeleteIsServed(t: Template, ttl: int, now: int)
    ensures var docs, shared := map[t.id := t], map[t.id := Entry(t, now)];
      var (reply, docs', shared') := CachedStep(docs, shared, ttl, now, Op.Delete(t.id, t.owner, Fault(true)));
      && reply == Done(Err(Infrastructure))
      && CacheGet(docs', shared', ttl, t.id, now, false, HEALTHY).0 == Ok(t)
      && RepoGet(docs', t.id, false) == Err(NotFound)
  {}

  /** Nobody but its owner changes or deletes a template, and who tries is told so; a template that is not there is not
      found. */
  lemma OnlyOwnersWrite(docs: Docs, shared: Shared, ttl: int, now: int, op: Op)
    requires Agree(docs, shared) && (op.Update? || op.Delete?)
    requires op.id !in docs || docs[op.id].owner != op.owner
    ensures var (reply, docs', _) := CachedStep(docs, shared, ttl, now, op);
      var error := if op.id !in docs then NotFound else Forbidden;
      docs' == docs && reply == if op.Update? then Value(Err(error)) else Done(Err(error))
  {
    GetAgrees(docs, shared, ttl, now, op.id);
    hide CacheGet, RepoUpdate, RepoDelete;
  }
}
