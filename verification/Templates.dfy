/** Templates, the repository that stores them, and the two caches in front of it: one in Redis, shared, and one
    of compiled templates in each process. Timestamps are left out of the values. */
module Templates {
  import opened Basics
  import opened Uuids
  import opened Domain

  datatype Template = Template(
    id: Uuid, name: string, channel: Channel, locale: string, subject: string, body: string,
    mediaUrls: seq<string>, version: int, owner: int)

  datatype Fields = Fields(name: string, subject: string, body: string, mediaUrls: seq<string>)

  /** What no update changes. */
  datatype Identity = Identity(channel: Channel, locale: string, version: int, owner: int)

  function IdentityOf(t: Template): Identity
  {
    Identity(t.channel, t.locale, t.version, t.owner)
  }

  function UpdateFields(t: Template, f: Fields): Result<Template>
  {
    if f.name == "" || f.body == "" then Err(InvalidInput)
    else Ok(t.(name := f.name, subject := f.subject, body := f.body, mediaUrls := f.mediaUrls))
  }

  // ----- The repository -----

  type Docs = map<Uuid, Template>

  /** A call on the database may fail, and a write may have been applied all the same. */
  datatype Fault = NoFault | Fault(applied: bool)

  predicate Collides(a: Template, b: Template)
  {
    a.id != b.id && a.owner == b.owner && a.name == b.name && a.channel == b.channel && a.locale == b.locale
    && a.version == b.version
  }

  /** The unique index. */
  predicate Fits(docs: Docs, t: Template)
  {
    forall id | id in docs :: !Collides(docs[id], t)
  }

  function Reported(fault: Fault): Result<()>
  {
    if fault.NoFault? then Ok(()) else Err(Infrastructure)
  }

  function RepoCreate(docs: Docs, t: Template, fault: Fault): (Result<()>, Docs)
  {
    if fault.Fault? && !fault.applied then (Err(Infrastructure), docs)
    else if t.id in docs || !Fits(docs, t) then (Err(AlreadyExists), docs)
    else (Reported(fault), docs[t.id := t])
  }

  function RepoGet(docs: Docs, id: Uuid, fails: bool): Result<Template>
  {
    if fails then Err(Infrastructure) else if id in docs then Ok(docs[id]) else Err(NotFound)
  }

  /** Only the mutable fields are written. */
  function RepoUpdate(docs: Docs, t: Template, fault: Fault): (Result<()>, Docs)
  {
    if fault.Fault? && !fault.applied then (Err(Infrastructure), docs)
    else if t.id !in docs then (Err(NotFound), docs)
    else
      var u := docs[t.id].(name := t.name, subject := t.subject, body := t.body, mediaUrls := t.mediaUrls);
      if !Fits(docs, u) then (Err(Infrastructure), docs) else (Reported(fault), docs[t.id := u])
  }

  function RepoDelete(docs: Docs, id: Uuid, fault: Fault): (Result<()>, Docs)
  {
    if fault.Fault? && !fault.applied then (Err(Infrastructure), docs)
    else if id !in docs then (Err(NotFound), docs)
    else (Reported(fault), docs - {id})
  }

  /** The index holds, and every template is stored under its own identifier. */
  predicate Indexed(docs: Docs)
  {
    && (forall id | id in docs :: docs[id].id == id)
    && (forall id, other | id in docs && other in docs :: !Collides(docs[id], docs[other]))
  }

  /** Only the one document may differ. */
  ghost predicate OthersUntouched(docs: Docs, docs': Docs, id: Uuid)
  {
    forall other | other != id ::
      (other in docs' <==> other in docs) && (other in docs ==> docs'[other] == docs[other])
  }

  /** What was written is read: a creation as it is, an update as its fields on the identity it found, a deletion as
      nothing; every other identifier reads as before. */
  lemma ReadsWrites(docs: Docs, t: Template, id: Uuid)
    ensures RepoCreate(docs, t, NoFault).0.Ok? ==> RepoGet(RepoCreate(docs, t, NoFault).1, t.id, false) == Ok(t)
    ensures RepoUpdate(docs, t, NoFault).0.Ok? ==>
      var read := RepoGet(RepoUpdate(docs, t, NoFault).1, t.id, false);
      && t.id in docs && read.Ok? && IdentityOf(read.value) == IdentityOf(docs[t.id]) && read.value.id == docs[t.id].id
      && UpdateFields(docs[t.id], Fields(t.name, t.subject, t.body, t.mediaUrls))
           == (if t.name == "" || t.body == "" then Err(InvalidInput) else read)
    ensures RepoDelete(docs, t.id, NoFault).0.Ok? ==>
      RepoGet(RepoDelete(docs, t.id, NoFault).1, t.id, false) == Err(NotFound)
    ensures id != t.id ==>
      && RepoGet(RepoCreate(docs, t, NoFault).1, id, false) == RepoGet(docs, id, false)
      && RepoGet(RepoUpdate(docs, t, NoFault).1, id, false) == RepoGet(docs, id, false)
      && RepoGet(RepoDelete(docs, t.id, NoFault).1, id, false) == RepoGet(docs, id, false)
  {}

  /** A deletion undoes a creation. */
  lemma DeleteUndoesCreate(docs: Docs, t: Template)
    requires RepoCreate(docs, t, NoFault).0.Ok?
    ensures RepoDelete(RepoCreate(docs, t, NoFault).1, t.id, NoFault) == (Ok(()), docs)
  {
    assert docs[t.id := t] - {t.id} == docs;
  }

  // ----- The shared cache -----

  /** A cached value and the time it was put there. */
  datatype Entry<+T> = Entry(value: T, at: int)

  type Shared = map<Uuid, Entry<Template>>

  /** Redis in one call: bypassed by the breaker; failing to read, and whether that stops the write-back; and
      whether the write or the deletion reaches it. */
  datatype Io = Io(bypass: bool, readFails: bool, stops: bool, written: bool)

  const HEALTHY: Io := Io(false, false, false, true)

  /** Redis keeps an entry for ever that is stored with a time to live that is not positive. */
  predicate Live(shared: Shared, id: Uuid, ttl: int, now: int)
  {
    id in shared && (ttl <= 0 || now - shared[id].at <= ttl)
  }

  predicate Hits(shared: Shared, id: Uuid, ttl: int, now: int, io: Io)
  {
    !io.bypass && !io.readFails && Live(shared, id, ttl, now)
  }

  function WriteBack(shared: Shared, t: Template, now: int, io: Io): Shared
  {
    if io.bypass || !io.written then shared else shared[t.id := Entry(t, now)]
  }

  /** Read-through: the result, and the cache after it. */
  function CacheGet(
    docs: Docs, shared: Shared, ttl: int, id: Uuid, now: int, fails: bool, io: Io): (Result<Template>, Shared)
  {
    if Hits(shared, id, ttl, now, io) then (Ok(shared[id].value), shared)
    else
      var r := RepoGet(docs, id, fails);
      (r, if r.Ok? && !(io.readFails && io.stops) then WriteBack(shared, r.value, now, io) else shared)
  }

  /** Write-through, once the repository has reported success. */
  function CachePut(shared: Shared, t: Template, r: Result<()>, now: int, io: Io): Shared
  {
    if r.Ok? then WriteBack(shared, t, now, io) else shared
  }

  function CacheDrop(shared: Shared, id: Uuid, r: Result<()>, io: Io): Shared
  {
    if r.Ok? && !io.bypass && io.written then shared - {id} else shared
  }

  // ----- The compiled cache -----

  /** A compiled template is a function of the template; email is compiled with escaping. */
  datatype Compiled = Compiled(escaped: bool, subject: string, body: string, version: int)

  function Compile(t: Template, parses: bool): Result<Compiled>
  {
    if parses then Ok(CompiledOf(t)) else Err(InvalidInput)
  }

  function CompiledOf(t: Template): Compiled
  {
    Compiled(t.channel == EMAIL, t.subject, t.body, t.version)
  }

  type Local = map<Uuid, Entry<Compiled>>

  predicate Fresh(local: Local, id: Uuid, ttl: int, now: int)
  {
    id in local && now < local[id].at + ttl
  }

  /** What a lookup gives, and both caches after it. */
  function Lookup(
    docs: Docs, shared: Shared, local: Local, ttls: Ttls, id: Uuid, now: int, parses: bool, fails: bool, io: Io):
    (Result<Compiled>, Shared, Local)
  {
    if Fresh(local, id, ttls.local, now) then (Ok(local[id].value), shared, local)
    else
      var (t, shared') := CacheGet(docs, shared, ttls.shared, id, now, fails, io);
      if t.Err? then (Err(t.error), shared', local)
      else
        var c := Compile(t.value, parses);
        if c.Err? then (c, shared', local) else (c, shared', local[id := Entry(c.value, now)])
  }

  datatype Ttls = Ttls(shared: int, local: int)
}
