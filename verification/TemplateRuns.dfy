/** Runs of the template caches: any number of processes create, read, update, delete and render templates,
    each call one step, while the breaker bypasses Redis, Redis loses reads and writes and evicts entries, and the
    database fails. */
module TemplateRuns {
  import opened Basics
  import opened Uuids
  import opened Domain
  import opened Templates

  datatype Moment = Moment(now: int, docs: Docs)

  /** drafts: the updates between their read and their write. born: what every identifier was created with.
      past: the repository after every step so far. */
  datatype State = State(
    docs: Docs, shared: Shared, locals: map<nat, Local>, drafts: map<nat, Template>, born: map<Uuid, Identity>,
    past: seq<Moment>, now: int)

  datatype Act =
    | Create(template: Template, fault: Fault, io: Io)
    | Read(id: Uuid, fails: bool, io: Io)
    | Draft(update: nat, id: Uuid, fields: Fields, owner: int, fails: bool, io: Io)
    | Update(update: nat, fault: Fault, io: Io)
    | Delete(id: Uuid, fault: Fault, io: Io)
    | Render(process: nat, id: Uuid, parses: bool, fails: bool, io: Io)
    | Restart(process: nat)
    | Evict(id: Uuid)

  datatype Timed = Timed(now: int, act: Act)

  const EMPTY: State := State(map[], map[], map[], map[], map[], [], 0)

  /** Time does not go back, and no identifier is given twice. */
  predicate Enabled(s: State, a: Timed)
  {
    && s.now <= a.now
    && (a.act.Create? ==> a.act.template.id !in s.born)
    && (a.act.Update? ==> a.act.update in s.drafts)
  }

  function LocalOf(s: State, process: nat): Local
  {
    if process in s.locals then s.locals[process] else map[]
  }

  /** The first half of an update: read, check the owner, replace the fields. */
  function DraftOf(t: Result<Template>, fields: Fields, owner: int): Result<Template>
  {
    if t.Err? then t
    else if t.value.owner != owner then Err(Forbidden)
    else UpdateFields(t.value, fields)
  }

  function Act0(ttls: Ttls, s: State, now: int, act: Act): State
    requires act.Update? ==> act.update in s.drafts
  {
    match act
    case Create(t, fault, io) =>
      var (r, docs) := RepoCreate(s.docs, t, fault);
      s.(docs := docs, shared := CachePut(s.shared, t, r, now, io), born := s.born[t.id := IdentityOf(t)])
    case Read(id, fails, io) =>
      s.(shared := CacheGet(s.docs, s.shared, ttls.shared, id, now, fails, io).1)
    case Draft(k, id, fields, owner, fails, io) =>
      var (t, shared) := CacheGet(s.docs, s.shared, ttls.shared, id, now, fails, io);
      var draft := DraftOf(t, fields, owner);
      s.(shared := shared, drafts := if draft.Ok? then s.drafts[k := draft.value] else s.drafts)
    case Update(k, fault, io) =>
      var t := s.drafts[k];
      var (r, docs) := RepoUpdate(s.docs, t, fault);
      s.(docs := docs, shared := CachePut(s.shared, t, r, now, io), drafts := s.drafts - {k})
    case Delete(id, fault, io) =>
      var (r, docs) := RepoDelete(s.docs, id, fault);
      s.(docs := docs, shared := CacheDrop(s.shared, id, r, io))
    case Render(p, id, parses, fails, io) =>
      var (_, shared, local) := Lookup(s.docs, s.shared, LocalOf(s, p), ttls, id, now, parses, fails, io);
      s.(shared := shared, locals := s.locals[p := local])
    case Restart(p) => s.(locals := s.locals - {p})
    case Evict(id) => s.(shared := s.shared - {id})
  }

  function Next(ttls: Ttls, s: State, a: Timed): State
    requires Enabled(s, a)
  {
    var s' := Act0(ttls, s, a.now, a.act);
    s'.(past := s.past + [Moment(a.now, s'.docs)], now := a.now)
  }

  predicate Runs(ttls: Ttls, s: State, acts: seq<Timed>)
    decreases |acts|
  {
    acts == [] || (Enabled(s, acts[0]) && Runs(ttls, Next(ttls, s, acts[0]), acts[1..]))
  }

  function Final(ttls: Ttls, s: State, acts: seq<Timed>): State
    requires Runs(ttls, s, acts)
    decreases |acts|
  {
    if acts == [] then s else Final(ttls, Next(ttls, s, acts[0]), acts[1..])
  }

  // ----- The invariant -----

  /** Was this the repository's value of the identifier at some moment in the interval? */
  ghost predicate WasStored(past: seq<Moment>, id: Uuid, t: Template, from: int, to: int)
  {
    exists i :: 0 <= i < |past| && from <= past[i].now <= to && id in past[i].docs && past[i].docs[id] == t
  }

  predicate OwnIdentity(born: map<Uuid, Identity>, id: Uuid, t: Template)
  {
    t.id == id && id in born && IdentityOf(t) == born[id]
  }

  predicate DocsOk(s: State)
  {
    forall id | id in s.docs :: OwnIdentity(s.born, id, s.docs[id])
  }

  ghost predicate SharedOk(s: State)
  {
    forall id | id in s.shared ::
      && OwnIdentity(s.born, id, s.shared[id].value) && s.shared[id].at <= s.now
      && WasStored(s.past, id, s.shared[id].value, s.shared[id].at, s.shared[id].at)
  }

  predicate DraftsOk(s: State)
  {
    forall k | k in s.drafts :: OwnIdentity(s.born, s.drafts[k].id, s.drafts[k])
  }

  /** The compiled template comes from a value the repository held, at most a shared time to live before it
      was put here. */
  ghost predicate Backed(past: seq<Moment>, ttl: int, id: Uuid, e: Entry<Compiled>)
  {
    exists t :: CompiledOf(t) == e.value && WasStored(past, id, t, e.at - ttl, e.at)
  }

  ghost predicate LocalOk(past: seq<Moment>, ttl: int, now: int, local: Local)
  {
    forall id | id in local :: local[id].at <= now && Backed(past, ttl, id, local[id])
  }

  ghost predicate Inv(ttls: Ttls, s: State)
  {
    && DocsOk(s) && SharedOk(s) && DraftsOk(s)
    && (ttls.shared > 0 ==> forall p | p in s.locals :: LocalOk(s.past, ttls.shared, s.now, s.locals[p]))
  }

  // ----- Its preservation -----

  lemma StoredStill(past: seq<Moment>, more: seq<Moment>, id: Uuid, t: Template, from: int, to: int)
    requires WasStored(past, id, t, from, to)
    ensures WasStored(past + more, id, t, from, to)
  {
    var i :| 0 <= i < |past| && from <= past[i].now <= to && id in past[i].docs && past[i].docs[id] == t;
    assert (past + more)[i] == past[i];
  }

  lemma StoredNow(past: seq<Moment>, m: Moment, id: Uuid, from: int, to: int)
    requires id in m.docs && from <= m.now <= to
    ensures WasStored(past + [m], id, m.docs[id], from, to)
  {
    assert (past + [m])[|past|] == m;
  }

  lemma LocalStill(past: seq<Moment>, more: seq<Moment>, ttl: int, now: int, now': int, local: Local)
    requires LocalOk(past, ttl, now, local) && now <= now'
    ensures LocalOk(past + more, ttl, now', local)
  {
    hide WasStored;
    forall id | id in local ensures Backed(past + more, ttl, id, local[id]) {
      var t :| CompiledOf(t) == local[id].value && WasStored(past, id, t, local[id].at - ttl, local[id].at);
      StoredStill(past, more, id, t, local[id].at - ttl, local[id].at);
    }
  }

  /** An entry of the shared cache after a step is an old one, or the repository's own value now. */
  predicate EntryFollows(s: State, s': State, now: int, id: Uuid)
    requires id in s'.shared
  {
    (id in s.shared && s'.shared[id] == s.shared[id])
    || (id in s'.docs && s'.shared[id] == Entry(s'.docs[id], now))
  }

  predicate SharedFollows(s: State, s': State, now: int)
  {
    forall id | id in s'.shared :: EntryFollows(s, s', now, id)
  }

  lemma SharedKept(s: State, s': State, now: int)
    requires SharedOk(s) && DocsOk(s') && SharedFollows(s, s', now) && s.now <= now == s'.now
    requires forall id | id in s.born :: id in s'.born && s'.born[id] == s.born[id]
    requires s'.past == s.past + [Moment(now, s'.docs)]
    ensures SharedOk(s')
  {
    hide WasStored;
    forall id | id in s'.shared
      ensures OwnIdentity(s'.born, id, s'.shared[id].value) && s'.shared[id].at <= s'.now
      ensures WasStored(s'.past, id, s'.shared[id].value, s'.shared[id].at, s'.shared[id].at)
    {
      assert EntryFollows(s, s', now, id);
      if id in s.shared && s'.shared[id] == s.shared[id] {
        StoredStill(s.past, [Moment(now, s'.docs)], id, s.shared[id].value, s.shared[id].at, s.shared[id].at);
      } else {
        StoredNow(s.past, Moment(now, s'.docs), id, now, now);
      }
    }
  }

  lemma GetFollows(ttls: Ttls, s: State, id: Uuid, now: int, fails: bool, io: Io)
    requires DocsOk(s)
    ensures var (t, shared) := CacheGet(s.docs, s.shared, ttls.shared, id, now, fails, io);
      && SharedFollows(s, s.(shared := shared), now)
      && (t.Ok? ==> (Live(s.shared, id, ttls.shared, now) && t.value == s.shared[id].value)
                    || (id in s.docs && t.value == s.docs[id]))
  {}

  /** What a read gives has the identity the template was created with. */
  lemma GetKeepsIdentity(ttls: Ttls, s: State, id: Uuid, now: int, fails: bool, io: Io)
    requires Inv(ttls, s)
    ensures var t := CacheGet(s.docs, s.shared, ttls.shared, id, now, fails, io).0;
      t.Ok? ==> OwnIdentity(s.born, id, t.value)
  {
    hide WasStored, LocalOk, OwnIdentity;
    GetFollows(ttls, s, id, now, fails, io);
  }

  /** The cache is given the draft, the repository only its mutable fields: they agree because a draft keeps
      the identity of its template. */
  lemma UpdateKeeps(ttls: Ttls, s: State, k: nat, now: int, fault: Fault, io: Io)
    requires Inv(ttls, s) && k in s.drafts
    ensures var s' := Act0(ttls, s, now, Update(k, fault, io));
      DocsOk(s') && SharedFollows(s, s', now)
  {
    hide WasStored, LocalOk;
    var t := s.drafts[k];
    var (r, docs) := RepoUpdate(s.docs, t, fault);
    if r.Ok? {
      assert OwnIdentity(s.born, t.id, s.docs[t.id]);
      assert docs[t.id] == t;
    }
  }

  ghost predicate ActOk(s: State, s': State, now: int)
  {
    && DocsOk(s') && DraftsOk(s') && SharedFollows(s, s', now)
    && (forall id | id in s.born :: id in s'.born && s'.born[id] == s.born[id])
    && s'.past == s.past && s'.now == s.now
  }

  lemma CreateKeeps(ttls: Ttls, s: State, now: int, t: Template, fault: Fault, io: Io)
    requires Inv(ttls, s) && t.id !in s.born
    ensures ActOk(s, Act0(ttls, s, now, Create(t, fault, io)), now)
  {
    hide WasStored, LocalOk;
  }

  lemma DraftKeeps(ttls: Ttls, s: State, now: int, a: Act)
    requires Inv(ttls, s) && a.Draft?
    ensures ActOk(s, Act0(ttls, s, now, a), now)
  {
    GetFollows(ttls, s, a.id, now, a.fails, a.io);
    GetKeepsIdentity(ttls, s, a.id, now, a.fails, a.io);
    hide WasStored, LocalOk, CacheGet;
  }

  lemma DeleteKeeps(ttls: Ttls, s: State, now: int, id: Uuid, fault: Fault, io: Io)
    requires Inv(ttls, s)
    ensures ActOk(s, Act0(ttls, s, now, Delete(id, fault, io)), now)
  {
    hide WasStored, LocalOk, OwnIdentity;
  }

  lemma ReadKeeps(ttls: Ttls, s: State, now: int, a: Act)
    requires Inv(ttls, s) && (a.Read? || a.Render?)
    ensures ActOk(s, Act0(ttls, s, now, a), now)
  {
    GetFollows(ttls, s, a.id, now, a.fails, a.io);
    hide WasStored, LocalOk, OwnIdentity, CacheGet;
  }

  lemma WriteKeeps(ttls: Ttls, s: State, now: int, a: Act)
    requires Inv(ttls, s) && a.Update? && a.update in s.drafts
    ensures ActOk(s, Act0(ttls, s, now, a), now)
  {
    UpdateKeeps(ttls, s, a.update, now, a.fault, a.io);
    hide WasStored, LocalOk, OwnIdentity, RepoUpdate, CachePut, SharedFollows;
  }

  /** The step of the values alone keeps the identities, and fills the shared cache from the repository. */
  lemma ActKeeps(ttls: Ttls, s: State, a: Timed)
    requires Inv(ttls, s) && Enabled(s, a)
    ensures ActOk(s, Act0(ttls, s, a.now, a.act), a.now)
  {
    match a.act
    case Create(t, fault, io) =>
      hide Inv, Act0, ActOk;
      CreateKeeps(ttls, s, a.now, t, fault, io);
    case Read(_, _, _) =>
      hide Inv, Act0, ActOk;
      ReadKeeps(ttls, s, a.now, a.act);
    case Draft(_, _, _, _, _, _) =>
      hide Inv, Act0, ActOk;
      DraftKeeps(ttls, s, a.now, a.act);
    case Update(_, _, _) =>
      hide Inv, Act0, ActOk;
      WriteKeeps(ttls, s, a.now, a.act);
    case Delete(id, fault, io) =>
      hide Inv, Act0, ActOk;
      DeleteKeeps(ttls, s, a.now, id, fault, io);
    case Render(_, _, _, _, _) =>
      hide Inv, Act0, ActOk;
      ReadKeeps(ttls, s, a.now, a.act);
    case Restart(p) =>
      hide WasStored, LocalOk, OwnIdentity;
    case Evict(id) =>
      hide WasStored, LocalOk, OwnIdentity;
  }

  lemma InvNext(ttls: Ttls, s: State, a: Timed)
    requires Inv(ttls, s) && Enabled(s, a)
    ensures Inv(ttls, Next(ttls, s, a))
  {
    hide Act0, LocalOk, WasStored;
    var mid, s' := Act0(ttls, s, a.now, a.act), Next(ttls, s, a);
    ActKeeps(ttls, s, a);
    assert SharedFollows(s, s', a.now) by {
      assert forall id | id in s'.shared :: EntryFollows(s, mid, a.now, id);
    }
    SharedKept(s, s', a.now);
    if ttls.shared > 0 {
      forall p | p in s'.locals ensures LocalOk(s'.past, ttls.shared, s'.now, s'.locals[p]) {
        LocalsKept(ttls, s, a, p);
      }
    }
  }

  lemma LocalsKept(ttls: Ttls, s: State, a: Timed, p: nat)
    requires Inv(ttls, s) && Enabled(s, a) && ttls.shared > 0 && p in Next(ttls, s, a).locals
    ensures var s' := Next(ttls, s, a); LocalOk(s'.past, ttls.shared, s'.now, s'.locals[p])
  {
    hide WasStored, LocalOk, Lookup, CacheGet, OwnIdentity;
    var s' := Next(ttls, s, a);
    var more := [Moment(a.now, s'.docs)];
    if a.act.Render? && a.act.process == p {
      var local := LocalOf(s, p);
      assert LocalOk(s.past, ttls.shared, s.now, local) by {
        EmptyLocal(s.past, ttls.shared, s.now);
      }
      LocalStill(s.past, more, ttls.shared, s.now, a.now, local);
      LookupKeeps(ttls, s, a);
    } else {
      LocalStill(s.past, more, ttls.shared, s.now, a.now, s.locals[p]);
    }
  }

  lemma EmptyLocal(past: seq<Moment>, ttl: int, now: int)
    ensures LocalOk(past, ttl, now, map[])
  {}

  /** A value read through the shared cache was the repository's at most a shared time to live ago. */
  lemma GetIsRecent(ttls: Ttls, s: State, id: Uuid, now: int, fails: bool, io: Io)
    requires Inv(ttls, s) && s.now <= now && ttls.shared > 0
    ensures var t := CacheGet(s.docs, s.shared, ttls.shared, id, now, fails, io).0;
      t.Ok? ==> WasStored(s.past + [Moment(now, s.docs)], id, t.value, now - ttls.shared, now)
  {
    hide WasStored, LocalOk;
    GetFollows(ttls, s, id, now, fails, io);
    var t := CacheGet(s.docs, s.shared, ttls.shared, id, now, fails, io).0;
    if t.Ok? {
      if Live(s.shared, id, ttls.shared, now) && t.value == s.shared[id].value {
        var at := s.shared[id].at;
        StoredStill(s.past, [Moment(now, s.docs)], id, t.value, at, at);
        Wider(s.past + [Moment(now, s.docs)], id, t.value, at, at, now - ttls.shared, now);
      } else {
        StoredNow(s.past, Moment(now, s.docs), id, now - ttls.shared, now);
      }
    }
  }

  lemma Wider(past: seq<Moment>, id: Uuid, t: Template, from: int, to: int, from': int, to': int)
    requires WasStored(past, id, t, from, to) && from' <= from && to <= to'
    ensures WasStored(past, id, t, from', to')
  {}

  lemma LookupKeeps(ttls: Ttls, s: State, a: Timed)
    requires Inv(ttls, s) && Enabled(s, a) && ttls.shared > 0 && a.act.Render?
    requires LocalOk(s.past + [Moment(a.now, s.docs)], ttls.shared, a.now, LocalOf(s, a.act.process))
    ensures var r := Lookup(s.docs, s.shared, LocalOf(s, a.act.process), ttls, a.act.id, a.now, a.act.parses,
                            a.act.fails, a.act.io);
      LocalOk(s.past + [Moment(a.now, s.docs)], ttls.shared, a.now, r.2)
  {
    GetIsRecent(ttls, s, a.act.id, a.now, a.act.fails, a.act.io);
    hide WasStored, CacheGet, Inv;
    var t := CacheGet(s.docs, s.shared, ttls.shared, a.act.id, a.now, a.act.fails, a.act.io).0;
    if t.Ok? {
      assert Backed(s.past + [Moment(a.now, s.docs)], ttls.shared, a.act.id, Entry(CompiledOf(t.value), a.now));
    }
  }

  lemma {:induction false} RunKeeps(ttls: Ttls, s: State, acts: seq<Timed>)
    requires Inv(ttls, s) && Runs(ttls, s, acts)
    ensures Inv(ttls, Final(ttls, s, acts))
    decreases |acts|
  {
    hide Inv, Next, Enabled;
    if acts != [] {
      InvNext(ttls, s, acts[0]);
      RunKeeps(ttls, Next(ttls, s, acts[0]), acts[1..]);
    }
  }

  // ----- The theorems -----

  ghost predicate Reachable(ttls: Ttls, s: State)
  {
    exists acts :: Runs(ttls, EMPTY, acts) && Final(ttls, EMPTY, acts) == s
  }

  lemma ReachableOk(ttls: Ttls, s: State)
    requires Reachable(ttls, s)
    ensures Inv(ttls, s)
  {
    var acts :| Runs(ttls, EMPTY, acts) && Final(ttls, EMPTY, acts) == s;
    assert Inv(ttls, EMPTY);
    hide Inv;
    RunKeeps(ttls, EMPTY, acts);
  }

  function Positive(ttl: int): int
  {
    if ttl > 0 then ttl else 0
  }

  /** A render uses a template that was the repository's value at most the sum of the two times to live ago,
      whatever updates and deletions have passed Redis by. */
  lemma BoundedStaleness(ttls: Ttls, s: State, a: Timed)
    requires Reachable(ttls, s) && Enabled(s, a) && a.act.Render? && ttls.shared > 0
    ensures var used := Lookup(s.docs, s.shared, LocalOf(s, a.act.process), ttls, a.act.id, a.now, a.act.parses,
                               a.act.fails, a.act.io).0;
      used.Ok? ==>
        exists t :: used.value == CompiledOf(t)
                    && WasStored(Next(ttls, s, a).past, a.act.id, t, a.now - (Positive(ttls.local) + ttls.shared),
                                 a.now)
  {
    hide WasStored, CacheGet, Inv, Act0, Reachable;
    ReachableOk(ttls, s);
    GetIsRecent(ttls, s, a.act.id, a.now, a.act.fails, a.act.io);
    SamePast(ttls, s, a);
    var id, past := a.act.id, Next(ttls, s, a).past;
    var local := LocalOf(s, a.act.process);
    if Fresh(local, id, ttls.local, a.now) {
      var t := LocalIsRecent(ttls, s, a, id);
    } else {
      var t := CacheGet(s.docs, s.shared, ttls.shared, id, a.now, a.act.fails, a.act.io).0;
      if t.Ok? {
        Wider(past, id, t.value, a.now - ttls.shared, a.now, a.now - (Positive(ttls.local) + ttls.shared), a.now);
      }
    }
  }

  lemma SamePast(ttls: Ttls, s: State, a: Timed)
    requires Enabled(s, a) && a.act.Render?
    ensures Next(ttls, s, a).past == s.past + [Moment(a.now, s.docs)]
  {
    hide Lookup;
  }

  lemma LocalIsRecent(ttls: Ttls, s: State, a: Timed, id: Uuid) returns (t: Template)
    requires Inv(ttls, s) && Enabled(s, a) && a.act.Render? && ttls.shared > 0
    requires Fresh(LocalOf(s, a.act.process), id, ttls.local, a.now)
    ensures LocalOf(s, a.act.process)[id].value == CompiledOf(t)
    ensures WasStored(s.past + [Moment(a.now, s.docs)], id, t, a.now - (Positive(ttls.local) + ttls.shared), a.now)
  {
    hide WasStored, DocsOk, SharedOk, DraftsOk;
    var local := LocalOf(s, a.act.process);
    assert local[id].at <= s.now && Backed(s.past, ttls.shared, id, local[id]);
    var at := local[id].at;
    t :| CompiledOf(t) == local[id].value && WasStored(s.past, id, t, at - ttls.shared, at);
    StoredStill(s.past, [Moment(a.now, s.docs)], id, t, at - ttls.shared, at);
    Wider(s.past + [Moment(a.now, s.docs)], id, t, at - ttls.shared, at, a.now - (Positive(ttls.local) + ttls.shared),
          a.now);
  }

  /** However stale, what a read gives of a template that exists agrees with it on channel, locale, version and
      owner: the check of the owner gives the repository's own verdict. */
  lemma OwnershipIsAuthoritative(
    ttls: Ttls, s: State, id: Uuid, now: int, fails: bool, io: Io, owner: int, fields: Fields)
    requires Reachable(ttls, s) && id in s.docs
    ensures var t := CacheGet(s.docs, s.shared, ttls.shared, id, now, fails, io).0;
      t.Ok? ==>
        && IdentityOf(t.value) == IdentityOf(s.docs[id])
        && (DraftOf(t, fields, owner) == Err(Forbidden) <==> s.docs[id].owner != owner)
  {
    ReachableOk(ttls, s);
    GetKeepsIdentity(ttls, s, id, now, fails, io);
    assert OwnIdentity(s.born, id, s.docs[id]);
  }

  // ----- The bound is met -----

  const BYPASSED: Io := Io(true, false, false, false)

  /** A template is created and changed one tick later while the breaker bypasses Redis; a process renders it
      while the shared entry lives. */
  function Skipped(t: Template, fields: Fields, at: int): seq<Timed>
  {
    [Timed(0, Create(t, NoFault, HEALTHY)), Timed(0, Draft(0, t.id, fields, t.owner, false, HEALTHY)),
     Timed(1, Update(0, NoFault, BYPASSED)), Timed(at, Render(0, t.id, true, false, HEALTHY))]
  }

  lemma RunsFour(ttls: Ttls, s: State, a: Timed, b: Timed, c: Timed, d: Timed)
    requires Enabled(s, a) && Enabled(Next(ttls, s, a), b) && Enabled(Next(ttls, Next(ttls, s, a), b), c)
    requires Enabled(Next(ttls, Next(ttls, Next(ttls, s, a), b), c), d)
    ensures Runs(ttls, s, [a, b, c, d])
      && Final(ttls, s, [a, b, c, d]) == Next(ttls, Next(ttls, Next(ttls, Next(ttls, s, a), b), c), d)
  {
    hide Next, Enabled;
    var sa := Next(ttls, s, a);
    var sb := Next(ttls, sa, b);
    var sc := Next(ttls, sb, c);
    assert [d][1..] == [] && Runs(ttls, sc, [d]) && Final(ttls, sc, [d]) == Next(ttls, sc, d);
    assert [c, d][1..] == [d] && Runs(ttls, sb, [c, d]) && Final(ttls, sb, [c, d]) == Final(ttls, sc, [d]);
    assert [b, c, d][1..] == [c, d] && Runs(ttls, sa, [b, c, d]);
    assert Final(ttls, sa, [b, c, d]) == Final(ttls, sb, [c, d]);
    assert [a, b, c, d][1..] == [b, c, d];
  }

  /** The sum of the times to live is no loose bound: with the shared one as the time of the first render, some run
      renders, one tick before the sum is over, what the repository has not held since the first tick. And if the
      shared one is not positive there is no bound: the first render may come at any time. */
  lemma StalenessIsReached(ttls: Ttls, t: Template, fields: Fields, at: int)
    requires ttls.local >= 1 && UpdateFields(t, fields).Ok? && at >= 1 && (ttls.shared <= 0 || at <= ttls.shared)
    ensures Runs(ttls, EMPTY, Skipped(t, fields, at))
    ensures var s := Final(ttls, EMPTY, Skipped(t, fields, at));
      && s.docs == map[t.id := UpdateFields(t, fields).value]
      && (forall i | 0 <= i < |s.past| && s.past[i].now >= 1 :: s.past[i].docs == s.docs)
      && Lookup(s.docs, s.shared, LocalOf(s, 0), ttls, t.id, at + ttls.local - 1, true, false, HEALTHY).0
           == Ok(CompiledOf(t))
  {
    var acts := Skipped(t, fields, at);
    var u := UpdateFields(t, fields).value;
    var entry := map[t.id := Entry(t, 0)];
    var born := map[t.id := IdentityOf(t)];
    var sa := State(map[t.id := t], entry, map[], map[], born, [Moment(0, map[t.id := t])], 0);
    assert Next(ttls, EMPTY, acts[0]) == sa;
    var sb := sa.(drafts := map[0 := u], past := sa.past + [Moment(0, sa.docs)]);
    assert Next(ttls, sa, acts[1]) == sb;
    var sc := sb.(docs := map[t.id := u], drafts := map[], past := sb.past + [Moment(1, map[t.id := u])], now := 1);
    assert Next(ttls, sb, acts[2]) == sc by {
      assert sb.drafts - {0} == map[];
      assert Fits(sb.docs, u) && u.id in sb.docs && sb.docs[u.id] == t;
      assert sb.docs[u.id := u] == map[t.id := u];
      assert RepoUpdate(sb.docs, u, NoFault) == (Ok(()), map[t.id := u]);
    }
    var sd := sc.(locals := map[0 := map[t.id := Entry(CompiledOf(t), at)]],
                  past := sc.past + [Moment(at, sc.docs)], now := at);
    assert Next(ttls, sc, acts[3]) == sd;
    hide Next, Act0;
    RunsFour(ttls, EMPTY, acts[0], acts[1], acts[2], acts[3]);
    assert acts == [acts[0], acts[1], acts[2], acts[3]];
  }
}
