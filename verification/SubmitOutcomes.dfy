/** What comes of a submit: who gets nothing, what is stored and when. */
module SubmitOutcomes {
  import opened Basics
  import opened Uuids
  import opened Domain
  import opened Wire
  import opened Pipeline
  import Breaker
  import Text
  import opened TokenBucket
  import opened RateLimiting
  import opened Submit

  /** A user who has opted out gets no row and is not charged. */
  lemma OptedOutGetsNothing(
    cfg: SubmitConfig, guarded: bool, keys: map<string, Bucket>, early: map<Uuid, LogRow>, s: State,
    input: SubmitInput, ports: Ports)
    requires Early(early, input, ports).None? && input.recipient.userId.Some? && ports.optIn == Ok(false)
    ensures Submitted(cfg, guarded, keys, early, s, input, ports) == Effect(Err(OptedOut), s, keys)
  {}

  /** Is the channel limited for this configuration? */
  predicate Limited(cfg: SubmitConfig, c: Channel)
  {
    c in cfg.rateLimits && cfg.rateLimits[c] > 0 && cfg.window > 0
  }

  /** The tokens the submit's call finds in the bucket of its user and channel. */
  function Found(cfg: SubmitConfig, keys: map<string, Bucket>, input: SubmitInput, ports: Ports): real
    requires Limited(cfg, input.channel) && input.recipient.userId.Some?
  {
    var key := BucketKey(input.recipient.userId.value, input.channel);
    Refill(ParamsOf(cfg.rateLimits[input.channel], cfg.window),
           if key in keys && !ports.limiter.c.dropped then Some(keys[key]) else None, ports.limiter.c.now)
  }

  /** Does the limiter let a submit pass: the channel is not limited, the breaker is open, the script finds a token, or
      Redis fails behind a breaker? */
  predicate LetPass(cfg: SubmitConfig, guarded: bool, keys: map<string, Bucket>, input: SubmitInput, ports: Ports)
    requires input.recipient.userId.Some?
  {
    var l := ports.limiter;
    || !Limited(cfg, input.channel) || l.bypassed
    || (l.reply.Answered? && Found(cfg, keys, input, ports) >= 1.0)
    || (l.reply.Failed? && guarded && l.reply.infrastructure)
  }

  lemma LimiterDecides(
    cfg: SubmitConfig, guarded: bool, keys: map<string, Bucket>, input: SubmitInput, ports: Ports)
    requires AsksLimiter(cfg, input, ports)
    ensures var l, limit := ports.limiter, cfg.rateLimits[input.channel];
      var r := Answer(keys, BucketKey(input.recipient.userId.value, input.channel), limit, cfg.window, l.c, guarded,
                      l.bypassed, l.reply);
      && (r == Ok(true) <==> LetPass(cfg, guarded, keys, input, ports))
      && (r == Ok(false) <==> Limited(cfg, input.channel) && !l.bypassed && l.reply.Answered?
                              && Found(cfg, keys, input, ports) < 1.0)
  {
    if Limited(cfg, input.channel) {
      var key := BucketKey(input.recipient.userId.value, input.channel);
      ScriptAdmits(cfg.rateLimits[input.channel], cfg.window, Live(Lookup(keys, key), ports.limiter.c),
                   ports.limiter.c.now);
    }
    hide Script, Refill, ParamsOf, BucketKey;
  }

  /** A submit of a user without a token left is turned down and stores nothing. */
  lemma RefusedGetsNothing(
    cfg: SubmitConfig, guarded: bool, keys: map<string, Bucket>, early: map<Uuid, LogRow>, s: State,
    input: SubmitInput, ports: Ports)
    requires Early(early, input, ports).None? && input.recipient.userId.Some? && ports.optIn == Ok(true)
    requires Limited(cfg, input.channel) && !ports.limiter.bypassed && ports.limiter.reply.Answered?
    requires Found(cfg, keys, input, ports) < 1.0
    ensures var effect := Submitted(cfg, guarded, keys, early, s, input, ports);
      effect.output == Err(RateLimited) && effect.state == s
  {
    LimiterDecides(cfg, guarded, keys, input, ports);
    hide Answer, BucketKey, KeysAfter, Found, Hydrated, Early;
  }

  /** The policies let the submit pass, with this recipient. */
  predicate Cleared(
    cfg: SubmitConfig, guarded: bool, keys: map<string, Bucket>, input: SubmitInput, ports: Ports, r: Recipient)
  {
    if input.recipient.userId.None? then r == input.recipient
    else
      && ports.optIn == Ok(true) && LetPass(cfg, guarded, keys, input, ports)
      && Hydrated(input.channel, input.recipient, ports.user, ports.devices) == Ok(r)
  }

  lemma PoliciesClear(
    cfg: SubmitConfig, guarded: bool, keys: map<string, Bucket>, input: SubmitInput, ports: Ports, r: Recipient)
    ensures Policies(cfg, guarded, keys, input, ports) == Ok(r) <==> Cleared(cfg, guarded, keys, input, ports, r)
  {
    if AsksLimiter(cfg, input, ports) {
      LimiterDecides(cfg, guarded, keys, input, ports);
    }
    hide Answer, BucketKey, Hydrated, Found;
  }

  /** Exactly this content is stored: under the new identifier what was submitted, with the texts rendered from the
      template if one is named, for the recipient the policies cleared. */
  ghost predicate Accepts(
    cfg: SubmitConfig, guarded: bool, keys: map<string, Bucket>, early: map<Uuid, LogRow>, s: State,
    input: SubmitInput, ports: Ports, c: Content)
  {
    && Early(early, input, ports).None?
    && Cleared(cfg, guarded, keys, input, ports, c.recipient)
    && c.id == ports.newId && c.eventId == input.eventId && c.channel == input.channel
    && c.templateId == input.templateId && c.variables == input.variables
    && (input.templateId.None? ==> c.subject == input.subject && c.body == input.body)
    && (input.templateId.Some? ==>
          ports.rendered.Ok? && c.subject == ports.rendered.value.0 && c.body == ports.rendered.value.1)
    && c.body != "" && ValidChannel(c.channel)
    && (c.recipient.userId.Some? || Destination(c.channel, c.recipient) != "")
    && c.id !in s.core.log && !HasEvent(s.core.log, c.eventId)
  }

  /** A submit stores a row if and only if its content is accepted and the transaction applies, and then it is that row
      alone, enqueued, with a pending outbox row that carries its encoding; confirmed, it answers with the row. */
  lemma StoresExactlyIf(
    cfg: SubmitConfig, guarded: bool, keys: map<string, Bucket>, early: map<Uuid, LogRow>, s: State,
    input: SubmitInput, ports: Ports)
    ensures var effect := Submitted(cfg, guarded, keys, early, s, input, ports);
      && (effect.state != s <==>
            ports.transaction != Doubtful(false)
            && exists c :: Accepts(cfg, guarded, keys, early, s, input, ports, c))
      && (forall c | Accepts(cfg, guarded, keys, early, s, input, ports, c) ::
            && (ports.transaction.Committed? ==> effect.output == Ok(Output(LogRow(c, Enqueued, 0, ""), false)))
            && (ports.transaction.Doubtful? ==> effect.output == Err(Infrastructure))
            && (ports.transaction != Doubtful(false) ==> Stores(s, effect.state, c)))
  {
    var effect := Submitted(cfg, guarded, keys, early, s, input, ports);
    forall c ensures Accepts(cfg, guarded, keys, early, s, input, ports, c) <==>
      && Early(early, input, ports).None? && Prepared(cfg, guarded, keys, input, ports) == Ok(c)
      && Insertable(s.core.log, c)
    {
      AcceptedIsPrepared(cfg, guarded, keys, early, s, input, ports, c);
    }
    hide Accepts, Prepared, Charged, Early, Insertable;
    if Prepared(cfg, guarded, keys, input, ports).Ok? {
      var c := Prepared(cfg, guarded, keys, input, ports).value;
      assert Insertable(s.core.log, c) ==> c.id !in s.core.log by { Unknown(s.core.log, c); }
      SubmitStores(s, c);
      assert Insertable(s.core.log, c) ==> SubmitNext(s, c) != s;
    }
    hide SubmitNext, Stores;
  }

  lemma Unknown(log: map<Uuid, LogRow>, c: Content)
    ensures Insertable(log, c) <==> c.id !in log && !HasEvent(log, c.eventId)
  {}

  /** One log row and one outbox row more. */
  predicate Stores(s: State, s': State, c: Content)
  {
    && s'.core == s.core.(log := s.core.log[c.id := LogRow(c, Enqueued, 0, "")], next := s.core.next + 1)
    && s' == s.(core := s'.core,
                outbox := s.outbox[s.core.next := OutboxRow(c.id, c.channel, Encode(c, 0), false, 0, Free)])
  }

  lemma SubmitStores(s: State, c: Content)
    ensures Stores(s, SubmitNext(s, c), c) && SubmitNext(s, c).core.next != s.core.next
  {}

  lemma AcceptedIsPrepared(
    cfg: SubmitConfig, guarded: bool, keys: map<string, Bucket>, early: map<Uuid, LogRow>, s: State,
    input: SubmitInput, ports: Ports, c: Content)
    ensures Accepts(cfg, guarded, keys, early, s, input, ports, c) <==>
      && Early(early, input, ports).None? && Prepared(cfg, guarded, keys, input, ports) == Ok(c)
      && Insertable(s.core.log, c)
  {
    PoliciesClear(cfg, guarded, keys, input, ports, c.recipient);
    Unknown(s.core.log, c);
    if ValidChannel(c.channel) {
      ValidatesExactly(c.channel, c.recipient);
    }
    hide Policies, Cleared, Insertable, HasEvent, Recipient.Validate, ValidChannel, Destination, Early;
  }

  /** What an invalid submit and a failing port answer; nothing is stored. */
  lemma ErrorsAsGiven(
    cfg: SubmitConfig, guarded: bool, keys: map<string, Bucket>, early: map<Uuid, LogRow>, s: State,
    input: SubmitInput, ports: Ports, r: Recipient)
    requires Early(early, input, ports).None?
    ensures var effect := Submitted(cfg, guarded, keys, early, s, input, ports);
      && (input.recipient.userId.Some? && ports.optIn.Err? ==>
            effect.output == Err(ports.optIn.error) && effect.state == s && effect.keys == keys)
      && (Cleared(cfg, guarded, keys, input, ports, r) ==>
            if input.templateId.Some? && ports.rendered.Err? then
              effect.output == Err(ports.rendered.error) && effect.state == s
            else
              var body := if input.templateId.Some? then ports.rendered.value.1 else input.body;
              body == "" || !ValidChannel(input.channel)
              || (r.userId.None? && Destination(input.channel, r) == "") ==>
                effect.output == Err(InvalidInput) && effect.state == s)
  {
    PoliciesClear(cfg, guarded, keys, input, ports, r);
    if ValidChannel(input.channel) {
      ValidatesExactly(input.channel, r);
    }
    hide Cleared, Charged, Hydrated, Answer, SubmitNext, Recipient.Validate, Destination, ValidChannel;
  }

  /** A stored row has no destination exactly if a user was named, none was given and the user's record has none that
      can be used: for a phone, none that can be dialled. */
  lemma StoredWithoutDestination(
    cfg: SubmitConfig, guarded: bool, keys: map<string, Bucket>, early: map<Uuid, LogRow>, s: State,
    input: SubmitInput, ports: Ports, c: Content)
    requires Accepts(cfg, guarded, keys, early, s, input, ports, c)
    ensures Destination(c.channel, c.recipient) == "" <==>
      && input.recipient.userId.Some? && Destination(input.channel, input.recipient) == ""
      && (c.channel == EMAIL ==> ports.user.value.email == "")
      && (c.channel == SMS || c.channel == WHATSAPP ==>
            var u := ports.user.value;
            u.phoneNumber == "" || !Dialable(Text.TrimSpace(u.countryCode + u.phoneNumber)))
      && (c.channel == PUSH_IOS || c.channel == PUSH_ANDROID ==> ports.devices.value[0] == "")
  {
    if input.recipient.userId.Some? {
      HydrationFills(input.channel, input.recipient, ports.user, ports.devices);
      if ports.user.Ok? {
        FullPhoneExactly(ports.user.value);
        TrimmedDial(ports.user.value);
      }
    }
    hide FullPhone, Dialable, Text.TrimSpace, HasEvent, Early, LetPass, Found;
  }

  lemma TrimmedDial(u: User)
    ensures Dialable(Text.TrimSpace(u.countryCode + u.phoneNumber)) ==>
      Text.TrimSpace(u.countryCode + u.phoneNumber) != ""
  {
    hide Text.TrimSpace;
  }

  /** A user whose number cannot be dialled: the notification is stored all the same, with nowhere to go. */
  lemma UndialableIsStored() returns (cfg: SubmitConfig, input: SubmitInput, ports: Ports, c: Content)
    ensures Accepts(cfg, true, map[], map[], Pipeline.INITIAL, input, ports, c) && ports.transaction == Committed
    ensures c.channel == SMS && c.recipient.phone == ""
  {
    cfg := SubmitConfig(map[], 1);
    input := SubmitInput("e", SMS, Recipient(Some(1), "", "", "", ""), None, None, "s", "b");
    ports := Ports(Ok(true), false, Ok(true), LimiterCall(Call(0, false), false, Breaker.Answered, 0, 0),
                   Ok(User("", "+1", "555")), Ok([]), Err(NotFound), 0, Committed);
    c := Content(0, "e", SMS, input.recipient, None, None, "s", "b");
    FullPhoneExactly(ports.user.value);
    assert Text.TrimSpace("+1" + "555") == "+1555";
  }
}
