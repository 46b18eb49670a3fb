/** The template repository, the two caches and the update use case as they are written, proved to make the
    steps the runs are made of. */
module TemplateCaching {
  import opened Basics
  import opened Uuids
  import opened Domain
  import Breaker
  import opened Templates
  import opened TemplateRuns

  /** Two templates of one owner that agree in name, channel, locale and version. */
  predicate Clashes(a: Template, b: Template)
  {
    a.id != b.id
    && (a.owner, a.name, a.channel, a.locale, a.version) == (b.owner, b.name, b.channel, b.locale, b.version)
  }

  class TemplateRepository {
    var docs: Docs

    constructor (docs: Docs)
      ensures this.docs == docs
    {
      this.docs := docs;
    }

    method Create(t: Template, fault: Fault) returns (r: Result<()>)
      modifies this
      ensures (r, docs) == RepoCreate(old(docs), t, fault)
      ensures OthersUntouched(old(docs), docs, t.id) && (Indexed(old(docs)) ==> Indexed(docs))
      ensures r.Ok? ==> t.id !in old(docs) && t.id in docs && docs[t.id] == t
      ensures r == Err(AlreadyExists) ==> docs == old(docs)
      ensures r == Err(AlreadyExists) <==>
        fault != Fault(false) && (t.id in old(docs) || exists id :: id in old(docs) && Clashes(old(docs)[id], t))
      ensures fault == Fault(false) ==> r.Err? && docs == old(docs)
    {
      if fault.Fault? && !fault.applied {
        return Err(Infrastructure);
      }
      if t.id in docs || !Fits(docs, t) {
        return Err(AlreadyExists);
      }
      docs := docs[t.id := t];
      return Reported(fault);
    }

    method Get(id: Uuid, fails: bool) returns (r: Result<Template>)
      ensures r == RepoGet(docs, id, fails)
    {
      if fails {
        return Err(Infrastructure);
      }
      if id !in docs {
        return Err(NotFound);
      }
      return Ok(docs[id]);
    }

    method Update(t: Template, fault: Fault) returns (r: Result<()>)
      modifies this
      ensures (r, docs) == RepoUpdate(old(docs), t, fault)
      ensures docs.Keys == old(docs).Keys && OthersUntouched(old(docs), docs, t.id)
      ensures (Indexed(old(docs)) ==> Indexed(docs))
      ensures t.id in docs ==>
        IdentityOf(docs[t.id]) == IdentityOf(old(docs)[t.id]) && docs[t.id].id == old(docs)[t.id].id
      ensures r.Ok? ==> t.id in docs && docs[t.id] == t.(
        id := docs[t.id].id, channel := docs[t.id].channel, locale := docs[t.id].locale,
        version := docs[t.id].version, owner := docs[t.id].owner)
      ensures fault == Fault(false) ==> r.Err? && docs == old(docs)
      ensures fault != Fault(false) ==>
        var clash := t.id in old(docs)
          && exists id :: id in old(docs) && Clashes(old(docs)[id], old(docs)[t.id].(name := t.name));
        && (r == Err(NotFound) <==> t.id !in old(docs))
        && (clash ==> r == Err(Infrastructure) && docs == old(docs))
        && (t.id in old(docs) && !clash ==> r == if fault.NoFault? then Ok(()) else Err(Infrastructure))
    {
      if fault.Fault? && !fault.applied {
        return Err(Infrastructure);
      }
      if t.id !in docs {
        return Err(NotFound);
      }
      var u := docs[t.id].(name := t.name, subject := t.subject, body := t.body, mediaUrls := t.mediaUrls);
      if !Fits(docs, u) {
        return Err(Infrastructure);
      }
      docs := docs[t.id := u];
      return Reported(fault);
    }

    method Delete(id: Uuid, fault: Fault) returns (r: Result<()>)
      modifies this
      ensures (r, docs) == RepoDelete(old(docs), id, fault)
      ensures OthersUntouched(old(docs), docs, id) && (Indexed(old(docs)) ==> Indexed(docs))
      ensures r.Ok? ==> id in old(docs) && id !in docs
      ensures r == Err(NotFound) ==> docs == old(docs) && id !in docs
      ensures fault == Fault(false) ==> r.Err? && docs == old(docs)
    {
      if fault.Fault? && !fault.applied {
        return Err(Infrastructure);
      }
      if id !in docs {
        return Err(NotFound);
      }
      docs := docs - {id};
      return Reported(fault);
    }
  }

  /** How Redis answers the read and the write of one call, and the breaker's clock around them. */
  datatype Redis = Redis(read: Breaker.Reply, write: Breaker.Reply, asked: int, done: int)

  function IoOf(redis: Redis, guarded: bool, refused: bool): Io
  {
    Io(refused, redis.read.Failed?, guarded && redis.read.Failed? && redis.read.infrastructure,
       Breaker.Executes(redis.write))
  }

  class TemplateCache {
    const repo: TemplateRepository
    var shared: Shared
    const ttl: int
    const cb: Breaker.CircuitBreaker?

    constructor (repo: TemplateRepository, shared: Shared, ttl: int, cb: Breaker.CircuitBreaker?)
      ensures this.repo == repo && this.shared == shared && this.ttl == ttl && this.cb == cb
    {
      this.repo, this.shared, this.ttl, this.cb := repo, shared, ttl, cb;
    }

    predicate Refuses(asked: int)
      reads cb
    {
      cb != null && !Breaker.Grants(cb.View(), cb.openTimeout, asked)
    }

    function IoNow(redis: Redis): Io
      reads cb
    {
      IoOf(redis, cb != null, Refuses(redis.asked))
    }

    function View(): Breaker.Cb
      reads cb
    {
      if cb == null then Breaker.INITIAL else cb.View()
    }

    function Recorded(state: Breaker.Cb, events: seq<Breaker.Event>): Breaker.Cb
      requires cb != null
    {
      Breaker.Told(state, cb.threshold, cb.openTimeout, events)
    }

    /** What a write that follows the repository's tells the breaker. */
    function WriteEvents(r: Result<()>, redis: Redis): seq<Breaker.Event>
      reads cb
    {
      if r.Err? then []
      else [Breaker.Allow(redis.asked)] + if Refuses(redis.asked) then [] else Breaker.Reports(redis.write, redis.done)
    }

    /** What a read tells it: a hit succeeds, a miss says nothing, a failure counts and stops the write-back. */
    function ReadEvents(hit: bool, found: bool, redis: Redis): seq<Breaker.Event>
      reads cb
    {
      [Breaker.Allow(redis.asked)] +
      if Refuses(redis.asked) then []
      else if hit then [Breaker.Success]
      else if redis.read.Failed? && redis.read.infrastructure then [Breaker.Failure(redis.done)]
      else if found then Breaker.Reports(redis.write, redis.done)
      else []
    }

    /** What a read makes of the breaker: a hit closes the circuit, a failing read counts, and after a miss it is the
        write-back that is counted, if there is one. */
    lemma ReadCounts(hit: bool, found: bool, redis: Redis)
      requires cb != null && !Refuses(redis.asked)
      ensures var before, after := View(), Recorded(View(), ReadEvents(hit, found, redis));
        if hit then after.state.Closed? && after.failures == 0
        else if redis.read.Failed? && redis.read.infrastructure then CountsAs(before, after, redis.read, redis.done)
        else if found then CountsAs(before, after, redis.write, redis.done)
        else after.failures == before.failures && !after.state.Open?
    {
      var cb0 := View();
      Breaker.CallsCount(cb0, cb.threshold, cb.openTimeout, redis.asked, Breaker.Answered, redis.done);
      Breaker.CallsCount(cb0, cb.threshold, cb.openTimeout, redis.asked, redis.read, redis.done);
      Breaker.CallsCount(cb0, cb.threshold, cb.openTimeout, redis.asked, redis.write, redis.done);
      Breaker.CallsCount(cb0, cb.threshold, cb.openTimeout, redis.asked, Breaker.Failed(false, false), redis.done);
      hide Breaker.Told, Breaker.Apply;
    }

    /** A write to Redis after the repository's counts as its reply; after a failed one Redis is not asked. */
    lemma WriteCounts(r: Result<()>, redis: Redis)
      requires cb != null && !Refuses(redis.asked)
      ensures var before, after := View(), Recorded(View(), WriteEvents(r, redis));
        if r.Err? then after == before else CountsAs(before, after, redis.write, redis.done)
    {
      Breaker.CallsCount(View(), cb.threshold, cb.openTimeout, redis.asked, redis.write, redis.done);
    }

    /** An answer closes the circuit, an infrastructure failure counts or opens it, another failure does neither. */
    predicate CountsAs(before: Breaker.Cb, after: Breaker.Cb, reply: Breaker.Reply, done: int)
      requires cb != null
    {
      if reply.Answered? then after.state.Closed? && after.failures == 0
      else if !reply.infrastructure then after.failures == before.failures && !after.state.Open?
      else if before.state.Closed? && before.failures + 1 < cb.threshold
      then after == before.(failures := before.failures + 1)
      else after == Breaker.Cb(Breaker.Open, 0, done)
    }

    /** Is this what the step of the runs does to repository and cache? */
    predicate IsStep(docs: Docs, shared: Shared, docs': Docs, shared': Shared, now: int, act: Act)
      requires !act.Update?
    {
      var s := Act0(Ttls(ttl, 0), Stage(docs, shared), now, act);
      s.docs == docs' && s.shared == shared'
    }

    method Ask(asked: int) returns (ok: bool)
      modifies cb
      ensures ok == !old(Refuses(asked))
      ensures cb != null ==> cb.View() == Breaker.Apply(old(View()), cb.threshold, cb.openTimeout, Breaker.Allow(asked))
    {
      ok := true;
      if cb != null {
        ok := cb.Allow(asked);
      }
    }

    method Report(reply: Breaker.Reply, done: int)
      modifies cb
      ensures cb != null ==> cb.View() == Recorded(old(View()), Breaker.Reports(reply, done))
    {
      if cb != null {
        ghost var events := Breaker.Reports(reply, done);
        assert events == if events == [] then [] else [events[0]] + [];
        ghost var before := View();
        if reply.Answered? {
          cb.RecordSuccess();
        } else if reply.infrastructure {
          cb.RecordFailure(done);
        }
        if events != [] {
          Breaker.ToldTwo(before, cb.threshold, cb.openTimeout, events[0], []);
        }
      }
    }

    lemma TellTwo(asked: int, more: seq<Breaker.Event>)
      ensures cb != null ==>
        Recorded(View(), [Breaker.Allow(asked)] + more)
          == Recorded(Breaker.Apply(View(), cb.threshold, cb.openTimeout, Breaker.Allow(asked)), more)
    {
      if cb != null {
        Breaker.ToldTwo(View(), cb.threshold, cb.openTimeout, Breaker.Allow(asked), more);
      }
    }

    method Set(t: Template, now: int, redis: Redis)
      modifies this`shared, cb
      ensures shared == if Breaker.Executes(redis.write) then old(shared)[t.id := Entry(t, now)] else old(shared)
      ensures cb != null ==> cb.View() == Recorded(old(View()), Breaker.Reports(redis.write, redis.done))
    {
      if Breaker.Executes(redis.write) {
        shared := shared[t.id := Entry(t, now)];
      }
      Report(redis.write, redis.done);
    }

    method Create(t: Template, now: int, fault: Fault, redis: Redis) returns (r: Result<()>)
      modifies this`shared, repo, cb
      ensures (r, repo.docs) == RepoCreate(old(repo.docs), t, fault)
      ensures IsStep(old(repo.docs), old(shared), repo.docs, shared, now, Act.Create(t, fault, old(IoNow(redis))))
      ensures shared == CachePut(old(shared), t, r, now, old(IoNow(redis)))
      ensures shared == if r.Ok? && !old(Refuses(redis.asked)) && (redis.write.Answered? || redis.write.executed)
                        then old(shared)[t.id := Entry(t, now)] else old(shared)
      ensures cb != null ==> cb.View() == Recorded(old(View()), old(WriteEvents(r, redis)))
    {
      hide RepoCreate, Breaker.Apply;
      r := repo.Create(t, fault);
      if r.Err? {
        return;
      }
      TellTwo(redis.asked, if Refuses(redis.asked) then [] else Breaker.Reports(redis.write, redis.done));
      var ok := Ask(redis.asked);
      if ok {
        Set(t, now, redis);
      }
    }

    method Get(id: Uuid, now: int, fails: bool, redis: Redis) returns (r: Result<Template>)
      modifies this`shared, cb
      ensures (r, shared) == CacheGet(repo.docs, old(shared), ttl, id, now, fails, old(IoNow(redis)))
      ensures IsStep(repo.docs, old(shared), repo.docs, shared, now, Act.Read(id, fails, old(IoNow(redis))))
      ensures cb != null ==>
        cb.View() == Recorded(old(View()), old(ReadEvents(Hits(shared, id, ttl, now, IoNow(redis)), r.Ok?, redis)))
      ensures var refused := old(Refuses(redis.asked));
        var found := id in old(shared) && (ttl <= 0 || now - old(shared)[id].at <= ttl);
        if !refused && redis.read.Answered? && found then r == Ok(old(shared)[id].value) && shared == old(shared)
        else
          && r == (if fails then Err(Infrastructure)
                   else if id in repo.docs then Ok(repo.docs[id]) else Err(NotFound))
          && shared == (if r.Ok? && !refused && !(cb != null && redis.read.Failed? && redis.read.infrastructure)
                           && (redis.write.Answered? || redis.write.executed)
                        then old(shared)[r.value.id := Entry(r.value, now)] else old(shared))
    {
      hide Breaker.Apply;
      TellTwo(redis.asked, ReadEvents(Hits(shared, id, ttl, now, IoNow(redis)), RepoGet(repo.docs, id, fails).Ok?,
                                      redis)[1..]);
      var redisOk := Ask(redis.asked);
      if redisOk {
        if redis.read.Answered? {
          if Live(shared, id, ttl, now) {
            Report(redis.read, redis.done);
            return Ok(shared[id].value);
          }
        } else if cb != null && redis.read.infrastructure {
          Report(redis.read, redis.done);
          redisOk := false;
        }
      }
      r := repo.Get(id, fails);
      if r.Err? {
        return;
      }
      if redisOk {
        Set(r.value, now, redis);
      }
    }

    method Update(t: Template, now: int, fault: Fault, redis: Redis) returns (r: Result<()>)
      modifies this`shared, repo, cb
      ensures (r, repo.docs) == RepoUpdate(old(repo.docs), t, fault)
      ensures shared == CachePut(old(shared), t, r, now, old(IoNow(redis)))
      ensures shared == if r.Ok? && !old(Refuses(redis.asked)) && (redis.write.Answered? || redis.write.executed)
                        then old(shared)[t.id := Entry(t, now)] else old(shared)
      ensures cb != null ==> cb.View() == Recorded(old(View()), old(WriteEvents(r, redis)))
    {
      hide RepoUpdate, Breaker.Apply;
      r := repo.Update(t, fault);
      if r.Err? {
        return;
      }
      TellTwo(redis.asked, if Refuses(redis.asked) then [] else Breaker.Reports(redis.write, redis.done));
      var ok := Ask(redis.asked);
      if ok {
        Set(t, now, redis);
      }
    }

    method Delete(id: Uuid, fault: Fault, redis: Redis) returns (r: Result<()>)
      modifies this`shared, repo, cb
      ensures (r, repo.docs) == RepoDelete(old(repo.docs), id, fault)
      ensures IsStep(old(repo.docs), old(shared), repo.docs, shared, 0, Act.Delete(id, fault, old(IoNow(redis))))
      ensures shared == CacheDrop(old(shared), id, r, old(IoNow(redis)))
      ensures shared == if r.Ok? && !old(Refuses(redis.asked)) && (redis.write.Answered? || redis.write.executed)
                        then old(shared) - {id} else old(shared)
      ensures cb != null ==> cb.View() == Recorded(old(View()), old(WriteEvents(r, redis)))
    {
      hide RepoDelete, Breaker.Apply;
      r := repo.Delete(id, fault);
      if r.Err? {
        return;
      }
      TellTwo(redis.asked, if Refuses(redis.asked) then [] else Breaker.Reports(redis.write, redis.done));
      var ok := Ask(redis.asked);
      if ok {
        if Breaker.Executes(redis.write) {
          shared := shared - {id};
        }
        Report(redis.write, redis.done);
      }
    }
  }

  class Renderer {
    const templates: TemplateCache
    var cache: Local
    const ttl: int

    constructor (templates: TemplateCache, ttl: int)
      ensures this.templates == templates && cache == map[] && this.ttl == ttl
    {
      this.templates, this.ttl := templates, ttl;
      cache := map[];
    }

    method Lookup(id: Uuid, now: int, parses: bool, fails: bool, redis: Redis) returns (r: Result<Compiled>)
      modifies this`cache, templates`shared, templates.cb
      ensures (r, templates.shared, cache) ==
        Templates.Lookup(templates.repo.docs, old(templates.shared), old(cache), Ttls(templates.ttl, ttl), id, now,
                         parses, fails, old(templates.IoNow(redis)))
      ensures var s := Stage(templates.repo.docs, old(templates.shared)).(locals := map[0 := old(cache)]);
        Act0(Ttls(templates.ttl, ttl), s, now, Act.Render(0, id, parses, fails, old(templates.IoNow(redis))))
          == s.(shared := templates.shared, locals := map[0 := cache])
      ensures id in old(cache) && now < old(cache)[id].at + ttl ==>
        r == Ok(old(cache)[id].value) && cache == old(cache) && templates.shared == old(templates.shared)
      ensures !(id in old(cache) && now < old(cache)[id].at + ttl) ==>
        var read := CacheGet(templates.repo.docs, old(templates.shared), templates.ttl, id, now, fails,
                             old(templates.IoNow(redis))).0;
        if read.Err? then r == Err(read.error) && cache == old(cache)
        else if !parses then r == Err(InvalidInput) && cache == old(cache)
        else
          && r.Ok? && r.value.subject == read.value.subject && r.value.body == read.value.body
          && r.value.version == read.value.version && (r.value.escaped <==> read.value.channel == "email")
          && cache == old(cache)[id := Entry(r.value, now)]
    {
      hide CacheGet;
      if id in cache && now < cache[id].at + ttl {
        return Ok(cache[id].value);
      }
      var t := templates.Get(id, now, fails, redis);
      if t.Err? {
        return Err(t.error);
      }
      r := Compile(t.value, parses);
      if r.Err? {
        return;
      }
      cache := cache[id := Entry(r.value, now)];
    }
  }

  class UpdateTemplate {
    const templates: TemplateCache

    constructor (templates: TemplateCache)
      ensures this.templates == templates
    {
      this.templates := templates;
    }

    /** Nobody else moving between the read and the write: a Draft step and, if there is a draft, an Update step. */
    method Execute(
      id: Uuid, fields: Fields, owner: int, now: int, fails: bool, reading: Redis, later: int, fault: Fault,
      writing: Redis, ttls: Ttls)
      returns (r: Result<Template>, ghost readIo: Io, ghost writeIo: Io)
      requires ttls.shared == templates.ttl
      modifies templates`shared, templates.repo, templates.cb
      ensures readIo == old(templates.IoNow(reading))
      ensures var s := Stage(old(templates.repo.docs), old(templates.shared));
        var drafted := Act0(ttls, s, now, Act.Draft(0, id, fields, owner, fails, readIo));
        if 0 !in drafted.drafts then
          r.Err? && templates.repo.docs == drafted.docs && templates.shared == drafted.shared
        else
          var written := Act0(ttls, drafted, later, Act.Update(0, fault, writeIo));
          && templates.repo.docs == written.docs && templates.shared == written.shared
          && (r.Ok? ==> r.value == drafted.drafts[0])
          && (r.Ok? <==> RepoUpdate(drafted.docs, drafted.drafts[0], fault).0.Ok?)
      ensures var docs := old(templates.repo.docs);
        var read := CacheGet(docs, old(templates.shared), templates.ttl, id, now, fails, readIo).0;
        if read.Err? then r == Err(read.error) && templates.repo.docs == docs
        else if read.value.owner != owner then r == Err(Forbidden) && templates.repo.docs == docs
        else if fields.name == "" || fields.body == "" then r == Err(InvalidInput) && templates.repo.docs == docs
        else
          var t := read.value.(name := fields.name, subject := fields.subject, body := fields.body,
                               mediaUrls := fields.mediaUrls);
          var (stored, docs') := RepoUpdate(docs, t, fault);
          templates.repo.docs == docs' && r == if stored.Ok? then Ok(t) else Err(stored.error)
    {
      hide CacheGet, RepoUpdate, CachePut;
      readIo, writeIo := templates.IoNow(reading), HEALTHY;
      var t := templates.Get(id, now, fails, reading);
      if t.Err? {
        return Err(t.error), readIo, writeIo;
      }
      if t.value.owner != owner {
        return Err(Forbidden), readIo, writeIo;
      }
      var updated := UpdateFields(t.value, fields);
      if updated.Err? {
        return Err(updated.error), readIo, writeIo;
      }
      writeIo := templates.IoNow(writing);
      var stored := templates.Update(updated.value, later, fault, writing);
      if stored.Err? {
        return Err(stored.error), readIo, writeIo;
      }
      return Ok(updated.value), readIo, writeIo;
    }
  }

  class DeleteTemplate {
    const templates: TemplateCache

    constructor (templates: TemplateCache)
      ensures this.templates == templates
    {
      this.templates := templates;
    }

    /** Only the owner's deletion reaches the repository, however stale the template that the owner was read from. */
    method Execute(id: Uuid, owner: int, now: int, fails: bool, reading: Redis, fault: Fault, writing: Redis)
      returns (r: Result<()>)
      modifies templates`shared, templates.repo, templates.cb
      ensures var docs := old(templates.repo.docs);
        var read := CacheGet(docs, old(templates.shared), templates.ttl, id, now, fails,
                             old(templates.IoNow(reading))).0;
        if read.Err? then r == Err(read.error) && templates.repo.docs == docs
        else if read.value.owner != owner then r == Err(Forbidden) && templates.repo.docs == docs
        else
          && (r.Ok? ==> id in docs && fault.NoFault? && templates.repo.docs == docs - {id})
          && (r.Err? ==> templates.repo.docs == if fault == Fault(true) then docs - {id} else docs)
          && (r == Err(NotFound) <==> fault != Fault(false) && id !in docs)
    {
      hide CacheGet;
      var t := templates.Get(id, now, fails, reading);
      if t.Err? {
        return Err(t.error);
      }
      if t.value.owner != owner {
        return Err(Forbidden);
      }
      r := templates.Delete(id, fault, writing);
    }
  }

  /** A state with nothing under way. */
  function Stage(docs: Docs, shared: Shared): State
  {
    EMPTY.(docs := docs, shared := shared)
  }
}
