/** The submit use case: claim, opt-out, rate limit, hydration, rendering, and the log row and outbox row of
    one transaction. */
module Submit {
  import opened Basics
  import opened Uuids
  import opened Domain
  import opened Wire
  import opened Pipeline
  import opened PipelineInvariant
  import Breaker
  import Text
  import opened TokenBucket
  import opened RateLimiting
  import Lifecycle
  import opened Workers

  // ----- Inputs and the ports' answers -----

  datatype SubmitInput = SubmitInput(
    eventId: string, channel: Channel, recipient: Recipient, templateId: Option<Uuid>,
    variables: Option<map<string, string>>, subject: string, body: string)

  datatype User = User(email: string, countryCode: string, phoneNumber: string)

  datatype SubmitConfig = SubmitConfig(rateLimits: map<Channel, int>, window: int)

  /** A transaction is confirmed, or fails towards the caller, and then it may have been applied all the same. */
  datatype Transaction = Committed | Doubtful(applied: bool)

  datatype Ports = Ports(
    claim: Result<bool>, lookupFails: bool, optIn: Result<bool>, limiter: LimiterCall, user: Result<User>,
    devices: Result<seq<string>>, rendered: Result<(string, string)>, newId: Uuid, transaction: Transaction)

  /** c: the call on the limiter's script; asked and done: the breaker's clock before and after it. */
  datatype LimiterCall = LimiterCall(c: Call, bypassed: bool, reply: Breaker.Reply, asked: int, done: int)

  datatype Output = Output(row: LogRow, duplicate: bool)

  // ----- The recipient -----

  predicate PhoneChar(c: char, first: bool)
  {
    '0' <= c <= '9' || (c == '+' && first)
  }

  function ParsePhone(s: string): Result<string>
  {
    if s == "" then Ok("")
    else
      var t := Text.TrimSpace(s);
      if |t| < 7 || |t| > 16 then Err(InvalidInput)
      else if forall i | 0 <= i < |t| :: PhoneChar(t[i], i == 0) then Ok(t)
      else Err(InvalidInput)
  }

  function FullPhone(u: User): string
  {
    if u.phoneNumber == "" then ""
    else
      match ParsePhone(u.countryCode + u.phoneNumber)
      case Ok(phone) => phone
      case Err(_) => ""
  }

  /** What can be dialled: 7 to 16 digits, a plus sign allowed in front. */
  predicate Dialable(s: string)
  {
    7 <= |s| <= 16 && forall i | 0 <= i < |s| :: s[i] in "0123456789" || (i == 0 && s[i] == '+')
  }

  /** A user's phone is the country code followed by the number, without white space around it, if that can be dialled,
      and is empty otherwise. */
  lemma FullPhoneExactly(u: User)
    ensures var phone := Text.TrimSpace(u.countryCode + u.phoneNumber);
      FullPhone(u) == if u.phoneNumber != "" && Dialable(phone) then phone else ""
    ensures u.phoneNumber != "" && Dialable(u.countryCode + u.phoneNumber) ==>
      FullPhone(u) == u.countryCode + u.phoneNumber
  {
    var s := u.countryCode + u.phoneNumber;
    if u.phoneNumber != "" {
      assert s != "";
      ParsesExactly(s);
      if Dialable(s) {
        NotTrimmed(s);
      }
    }
    hide ParsePhone, Dialable, Text.TrimSpace;
  }

  lemma ParsesExactly(s: string)
    requires s != ""
    ensures ParsePhone(s) == if Dialable(Text.TrimSpace(s)) then Ok(Text.TrimSpace(s)) else Err(InvalidInput)
  {
    DigitsOnly(Text.TrimSpace(s));
    hide Text.TrimSpace, PhoneChar;
  }

  lemma NotTrimmed(s: string)
    requires Dialable(s)
    ensures Text.TrimSpace(s) == s
  {
    DigitsOnly(s);
    assert PhoneChar(s[0], true) && PhoneChar(s[|s| - 1], false);
  }

  lemma DigitsOnly(s: string)
    ensures forall i | 0 <= i < |s| :: PhoneChar(s[i], i == 0) <==> s[i] in "0123456789" || (i == 0 && s[i] == '+')
  {
    forall i | 0 <= i < |s| ensures PhoneChar(s[i], i == 0) <==> s[i] in "0123456789" || (i == 0 && s[i] == '+') {
      DigitChars(s[i]);
    }
  }

  lemma DigitChars(c: char)
    ensures '0' <= c <= '9' <==> c in "0123456789"
  {
    if '0' <= c <= '9' {
      assert "0123456789"[c as int - '0' as int] == c;
    }
  }

  /** A destination the caller gave is kept; a missing one comes from the user's record. */
  function Hydrated(c: Channel, r: Recipient, user: Result<User>, devices: Result<seq<string>>): Result<Recipient>
  {
    if c == EMAIL then
      if r.email != "" then Ok(r)
      else if user.Err? then Err(user.error)
      else Ok(r.(email := user.value.email))
    else if c == SMS || c == WHATSAPP then
      if r.phone != "" then Ok(r)
      else if user.Err? then Err(user.error)
      else Ok(r.(phone := FullPhone(user.value)))
    else if c == PUSH_IOS || c == PUSH_ANDROID then
      if r.deviceToken != "" then Ok(r)
      else if devices.Err? then Err(devices.error)
      else if devices.value == [] then Err(InvalidInput)
      else Ok(r.(deviceToken := devices.value[0]))
    else if (c == TELEGRAM || c == LINE || c == FACEBOOK_MESSENGER) && r.messagingId == "" then Err(InvalidInput)
    else Ok(r)
  }

  function Destination(c: Channel, r: Recipient): string
  {
    if c == EMAIL then r.email
    else if c == SMS || c == WHATSAPP then r.phone
    else if c == PUSH_IOS || c == PUSH_ANDROID then r.deviceToken
    else if c == TELEGRAM || c == LINE || c == FACEBOOK_MESSENGER then r.messagingId
    else ""
  }

  /** A recipient is good for a channel exactly if it names a user or carries the channel's destination. */
  lemma ValidatesExactly(c: Channel, r: Recipient)
    requires ValidChannel(c)
    ensures r.Validate(c) <==> r.userId.Some? || Destination(c, r) != ""
  {}

  lemma ChannelNames(c: Channel)
    ensures ValidChannel(c) <==>
      c in {"push_ios", "push_android", "sms", "email", "telegram", "whatsapp", "line", "facebook_messenger"}
  {}

  function WithoutDestination(c: Channel, r: Recipient): Recipient
  {
    if c == EMAIL then r.(email := "")
    else if c == SMS || c == WHATSAPP then r.(phone := "")
    else if c == PUSH_IOS || c == PUSH_ANDROID then r.(deviceToken := "")
    else r
  }

  /** Hydration writes only the channel's own destination, and never over one the caller gave. It leaves the
      destination empty exactly when the record it read has none. */
  lemma HydrationFills(c: Channel, r: Recipient, user: Result<User>, devices: Result<seq<string>>)
    requires ValidChannel(c) && Hydrated(c, r, user, devices).Ok?
    ensures var h := Hydrated(c, r, user, devices).value;
      && WithoutDestination(c, h) == WithoutDestination(c, r)
      && (Destination(c, r) != "" ==> h == r)
      && (Destination(c, h) == "" <==>
            Destination(c, r) == ""
            && (c == EMAIL ==> user.value.email == "")
            && (c == SMS || c == WHATSAPP ==> FullPhone(user.value) == "")
            && (c == PUSH_IOS || c == PUSH_ANDROID ==> devices.value[0] == ""))
  {
    hide FullPhone;
    assert c != TELEGRAM && c != LINE && c != FACEBOOK_MESSENGER ==>
      c == EMAIL || c == SMS || c == WHATSAPP || c == PUSH_IOS || c == PUSH_ANDROID;
  }

  // ----- The rate-limit key -----

  const USER_PREFIX: string := "notif:rl:"
  const APP_PREFIX: string := "notif:rl:appkey:"
  const CLAIM_PREFIX: string := "notif:dedupe:"

  function BucketKey(user: int, c: Channel): string
  {
    USER_PREFIX + (Text.PrintInt(user) + ":" + c)
  }

  /** Two users or two channels never share a bucket, and none shares one with an application key or
      with a claim. */
  lemma BucketKeysDistinct(user: int, c: Channel, user': int, c': Channel, other: string)
    ensures BucketKey(user, c) == BucketKey(user', c') <==> user == user' && c == c'
    ensures BucketKey(user, c) != APP_PREFIX + other
    ensures BucketKey(user, c) != CLAIM_PREFIX + other
  {
    SameKeySameUser(user, c, user', c');
    OtherPrefixes(user, c, other);
    hide BucketKey;
  }

  lemma SameKeySameUser(user: int, c: Channel, user': int, c': Channel)
    ensures BucketKey(user, c) == BucketKey(user', c') ==> user == user' && c == c'
  {
    NoColon(user);
    NoColon(user');
    Text.CutJoin(Text.PrintInt(user), ':', c);
    Text.CutJoin(Text.PrintInt(user'), ':', c');
    hide Text.PrintInt, Text.Cut;
    var k, k' := BucketKey(user, c), BucketKey(user', c');
    assert k[|USER_PREFIX|..] == Text.PrintInt(user) + ":" + c;
    assert k'[|USER_PREFIX|..] == Text.PrintInt(user') + ":" + c';
    if k == k' {
      Text.PrintIntInjective(user, user');
    }
  }

  lemma OtherPrefixes(user: int, c: Channel, other: string)
    ensures BucketKey(user, c) != APP_PREFIX + other && BucketKey(user, c) != CLAIM_PREFIX + other
  {
    NoColon(user);
    hide Text.PrintInt;
    var k := BucketKey(user, c);
    assert k[9] == Text.PrintInt(user)[0] && (APP_PREFIX + other)[9] == 'a';
    assert k[6] == 'r' && (CLAIM_PREFIX + other)[6] == 'd';
  }

  lemma NoColon(user: int)
    ensures ':' !in Text.PrintInt(user) && Text.PrintInt(user) != "" && Text.PrintInt(user)[0] != 'a'
  {}

  // ----- What a submit does -----

  /** A row of this event, if the log holds one; the unique index makes it the only one. */
  ghost predicate HasEvent(log: map<Uuid, LogRow>, eventId: string)
  {
    exists id :: id in log && log[id].content.eventId == eventId
  }

  ghost function RowOf(log: map<Uuid, LogRow>, eventId: string): (row: LogRow)
    requires HasEvent(log, eventId)
    ensures row.content.eventId == eventId
  {
    var id :| id in log && log[id].content.eventId == eventId;
    log[id]
  }

  /** The claim: an answer that ends the submit, or none. */
  ghost function Early(early: map<Uuid, LogRow>, input: SubmitInput, ports: Ports): Option<Result<Output>>
  {
    match ports.claim
    case Err(e) => Some(Err(e))
    case Ok(true) => None
    case Ok(false) =>
      if ports.lookupFails then Some(Err(Infrastructure))
      else if HasEvent(early, input.eventId) then Some(Ok(Output(RowOf(early, input.eventId), true)))
      else None
  }

  /** Does the submit, once past the claim, come to call the limiter? */
  predicate AsksLimiter(cfg: SubmitConfig, input: SubmitInput, ports: Ports)
  {
    && input.recipient.userId.Some?
    && ports.optIn == Ok(true)
    && input.channel in cfg.rateLimits && cfg.rateLimits[input.channel] > 0
  }

  /** Opt-out, rate limit and hydration, which concern a known user only. */
  function Policies(
    cfg: SubmitConfig, guarded: bool, keys: map<string, Bucket>, input: SubmitInput, ports: Ports): Result<Recipient>
  {
    if input.recipient.userId.None? then Ok(input.recipient)
    else if ports.optIn.Err? then Err(ports.optIn.error)
    else if !ports.optIn.value then Err(OptedOut)
    else
      var allowed :=
        if AsksLimiter(cfg, input, ports)
        then Answer(keys, BucketKey(input.recipient.userId.value, input.channel), cfg.rateLimits[input.channel],
                    cfg.window, ports.limiter.c, guarded, ports.limiter.bypassed, ports.limiter.reply)
        else Ok(true);
      if allowed.Err? then Err(allowed.error)
      else if !allowed.value then Err(RateLimited)
      else Hydrated(input.channel, input.recipient, ports.user, ports.devices)
  }

  function Charged(cfg: SubmitConfig, keys: map<string, Bucket>, input: SubmitInput, ports: Ports): map<string, Bucket>
  {
    if AsksLimiter(cfg, input, ports)
    then KeysAfter(keys, BucketKey(input.recipient.userId.value, input.channel), cfg.rateLimits[input.channel],
                   cfg.window, ports.limiter.c, ports.limiter.bypassed, ports.limiter.reply)
    else keys
  }

  /** The content to be stored, or the error that stops the submit before the database. */
  function Prepared(
    cfg: SubmitConfig, guarded: bool, keys: map<string, Bucket>, input: SubmitInput, ports: Ports): Result<Content>
  {
    var recipient := Policies(cfg, guarded, keys, input, ports);
    if recipient.Err? then Err(recipient.error)
    else if input.templateId.Some? && ports.rendered.Err? then Err(ports.rendered.error)
    else
      var (subject, body) := if input.templateId.Some? then ports.rendered.value else (input.subject, input.body);
      var content := Content(ports.newId, input.eventId, input.channel, recipient.value, input.templateId,
                             input.variables, subject, body);
      if body == "" || NewEntity(content, 0).Err? then Err(InvalidInput) else Ok(content)
  }

  predicate Applied(t: Transaction)
  {
    t.Committed? || t.applied
  }

  /** The transaction: its answer and the stored state. */
  function Persisted(s: State, content: Content, t: Transaction): (Result<Output>, State)
  {
    if !Insertable(s.core.log, content) then (Err(Infrastructure), s)
    else (if t.Committed? then Ok(Output(LogRow(content, Enqueued, 0, ""), false)) else Err(Infrastructure),
          if Applied(t) then SubmitNext(s, content) else s)
  }

  /** The whole submit: its answer, the stored state and the limiter's keys. The claim was looked up in the
      log as it was earlier. */
  datatype Effect = Effect(output: Result<Output>, state: State, keys: map<string, Bucket>)

  ghost function Submitted(
    cfg: SubmitConfig, guarded: bool, keys: map<string, Bucket>, early: map<Uuid, LogRow>, s: State,
    input: SubmitInput, ports: Ports): Effect
  {
    var answer := Early(early, input, ports);
    if answer.Some? then Effect(answer.value, s, keys)
    else
      var charged := Charged(cfg, keys, input, ports);
      match Prepared(cfg, guarded, keys, input, ports)
      case Err(e) => Effect(Err(e), s, charged)
      case Ok(content) =>
        var (output, stored) := Persisted(s, content, ports.transaction);
        Effect(output, stored, charged)
  }

  // ----- The claim never decides what is stored -----

  /** Would the submit store its row if the claim were granted? */
  predicate WouldStore(
    cfg: SubmitConfig, guarded: bool, keys: map<string, Bucket>, s: State, input: SubmitInput, ports: Ports)
  {
    var prepared := Prepared(cfg, guarded, keys, input, ports);
    prepared.Ok? && Insertable(s.core.log, prepared.value) && Applied(ports.transaction)
  }

  ghost function Fresh(
    cfg: SubmitConfig, guarded: bool, keys: map<string, Bucket>, s: State, input: SubmitInput, ports: Ports): State
  {
    if WouldStore(cfg, guarded, keys, s, input, ports)
    then SubmitNext(s, Prepared(cfg, guarded, keys, input, ports).value) else s
  }

  lemma GrantedState(
    cfg: SubmitConfig, guarded: bool, keys: map<string, Bucket>, early: map<Uuid, LogRow>, s: State,
    input: SubmitInput, ports: Ports)
    ensures Submitted(cfg, guarded, keys, early, s, input, ports.(claim := Ok(true))).state
      == Fresh(cfg, guarded, keys, s, input, ports)
  {
    SamePreparation(cfg, guarded, keys, input, ports, ports.(claim := Ok(true)));
    hide Prepared, Charged, SubmitNext, Insertable;
  }

  lemma RefusedState(
    cfg: SubmitConfig, guarded: bool, keys: map<string, Bucket>, early: map<Uuid, LogRow>, s: State,
    input: SubmitInput, ports: Ports)
    ensures Submitted(cfg, guarded, keys, early, s, input, ports.(claim := Ok(false))).state
      == if ports.lookupFails || HasEvent(early, input.eventId) then s else Fresh(cfg, guarded, keys, s, input, ports)
  {
    SamePreparation(cfg, guarded, keys, input, ports, ports.(claim := Ok(false)));
    hide Prepared, Charged, SubmitNext, Insertable, HasEvent;
  }

  lemma SamePreparation(
    cfg: SubmitConfig, guarded: bool, keys: map<string, Bucket>, input: SubmitInput, p: Ports, q: Ports)
    requires q == p.(claim := q.claim)
    ensures Prepared(cfg, guarded, keys, input, p) == Prepared(cfg, guarded, keys, input, q)
    ensures Charged(cfg, keys, input, p) == Charged(cfg, keys, input, q)
  {}

  lemma PreparedKeeps(cfg: SubmitConfig, guarded: bool, keys: map<string, Bucket>, input: SubmitInput, ports: Ports)
    requires Prepared(cfg, guarded, keys, input, ports).Ok?
    ensures var c := Prepared(cfg, guarded, keys, input, ports).value;
      && c.id == ports.newId && c.eventId == input.eventId && c.channel == input.channel && ValidChannel(c.channel)
      && c.recipient.userId == input.recipient.userId && c.body != ""
  {
    hide Answer, FullPhone, BucketKey;
  }

  /** With the other answers fixed, a granted claim (first arrival, expired, failed open) and a refused one
      leave the same log and outbox, except when the lookup of the duplicate fails while the submit would
      have stored its row. Other processes may move between the lookup and the insertion. */
  lemma ClaimIndependence(
    cfg: SubmitConfig, guarded: bool, keys: map<string, Bucket>, early: map<Uuid, LogRow>, s: State,
    input: SubmitInput, ports: Ports)
    requires LogGrows(early, s.core.log)
    ensures
      var granted := Submitted(cfg, guarded, keys, early, s, input, ports.(claim := Ok(true)));
      var refused := Submitted(cfg, guarded, keys, early, s, input, ports.(claim := Ok(false)));
      granted.state == refused.state <==> !(ports.lookupFails && WouldStore(cfg, guarded, keys, s, input, ports))
  {
    GrantedState(cfg, guarded, keys, early, s, input, ports);
    RefusedState(cfg, guarded, keys, early, s, input, ports);
    hide Submitted, Prepared;
    if HasEvent(early, input.eventId) {
      var id :| id in early && early[id].content.eventId == input.eventId;
      assert id in s.core.log && s.core.log[id].content.eventId == input.eventId;
      if WouldStore(cfg, guarded, keys, s, input, ports) {
        PreparedKeeps(cfg, guarded, keys, input, ports);
        assert false;
      }
    }
    if WouldStore(cfg, guarded, keys, s, input, ports) {
      var c := Prepared(cfg, guarded, keys, input, ports).value;
      assert c.id !in s.core.log && c.id in SubmitNext(s, c).core.log;
    }
  }

  /** A submit with a plain recipient; only the lookup fails. */
  lemma FailedLookupLosesTheRow() returns (cfg: SubmitConfig, input: SubmitInput, ports: Ports)
    ensures
      var granted := Submitted(cfg, true, map[], map[], Pipeline.INITIAL, input, ports.(claim := Ok(true)));
      var refused := Submitted(cfg, true, map[], map[], Pipeline.INITIAL, input, ports.(claim := Ok(false)));
      granted.state != refused.state && granted.output.Ok? && refused.output.Err?
  {
    cfg := SubmitConfig(map[], 1);
    input := SubmitInput("e", EMAIL, Recipient(None, "a@b", "", "", ""), None, None, "s", "b");
    ports := Ports(Ok(true), true, Ok(true), LimiterCall(Call(0, false), false, Breaker.Answered, 0, 0),
                       Err(NotFound), Ok([]), Err(NotFound), 0, Committed);
    var granted := Submitted(cfg, true, map[], map[], Pipeline.INITIAL, input, ports.(claim := Ok(true)));
    var refused := Submitted(cfg, true, map[], map[], Pipeline.INITIAL, input, ports.(claim := Ok(false)));
    var content := Content(0, "e", EMAIL, input.recipient, None, None, "s", "b");
    assert Prepared(cfg, true, map[], input, ports.(claim := Ok(true))) == Ok(content);
    assert content.id in granted.state.core.log && content.id !in refused.state.core.log;
  }

  // ----- A submit is a step of the pipeline -----

  /** Whatever the answers, a submit is one Submit step of the pipeline or none; it answers that the
      notification is new only if it was that step, and that it is a duplicate only with a row that is there. */
  lemma SubmitIsAStep(
    cfg: SubmitConfig, guarded: bool, keys: map<string, Bucket>, early: map<Uuid, LogRow>, pipeline: Config, s: State,
    input: SubmitInput, ports: Ports)
    requires LogGrows(early, s.core.log)
    ensures var effect := Submitted(cfg, guarded, keys, early, s, input, ports);
      && (effect.state != s ==>
            exists c: Content :: c.eventId == input.eventId && c.body != "" && Enabled(pipeline, s, Action.Submit(c))
                        && effect.state == Next(pipeline, s, Action.Submit(c)))
      && (effect.output.Ok? && !effect.output.value.duplicate ==>
            effect.state != s && effect.output.value.row.content.id in effect.state.core.log
            && effect.state.core.log[effect.output.value.row.content.id] == effect.output.value.row)
      && (effect.output.Ok? && effect.output.value.duplicate ==>
            effect.state == s && HasEvent(s.core.log, input.eventId)
            && effect.output.value.row.content.eventId == input.eventId)
  {
    hide Policies, NewEntity, Charged, Encode;
    var effect := Submitted(cfg, guarded, keys, early, s, input, ports);
    var prepared := Prepared(cfg, guarded, keys, input, ports);
    if prepared.Ok? {
      PreparedKeeps(cfg, guarded, keys, input, ports);
    }
    hide Prepared;
    if prepared.Ok? && Insertable(s.core.log, prepared.value) {
      var c := prepared.value;
      assert Enabled(pipeline, s, Action.Submit(c));
      assert Next(pipeline, s, Action.Submit(c)) == SubmitNext(s, c);
      assert c.id !in s.core.log && SubmitNext(s, c).core.log[c.id] == LogRow(c, Enqueued, 0, "");
    }
    if HasEvent(early, input.eventId) {
      var id :| id in early && early[id].content.eventId == input.eventId;
      assert id in s.core.log && s.core.log[id].content.eventId == input.eventId;
    }
  }

  // ----- The use case as it is written -----

  predicate UniqueEvents(log: map<Uuid, LogRow>)
  {
    forall id, id' | id in log && id' in log && log[id].content.eventId == log[id'].content.eventId :: id == id'
  }

  /** The answers with what the breaker makes of the limiter call. */
  function Seen(ports: Ports, bypassed: bool): Ports
  {
    ports.(limiter := ports.limiter.(bypassed := bypassed))
  }

  lemma SeenEarly(log: map<Uuid, LogRow>, input: SubmitInput, ports: Ports, bypassed: bool)
    ensures Early(log, input, Seen(ports, bypassed)) == Early(log, input, ports)
  {}

  class SubmitNotification {
    const world: World
    const limiter: RateLimiter
    const cfg: SubmitConfig

    constructor (world: World, limiter: RateLimiter, cfg: SubmitConfig)
      ensures this.world == world && this.limiter == limiter && this.cfg == cfg
    {
      this.world, this.limiter, this.cfg := world, limiter, cfg;
    }

    /** The stored state, no other process being under way. */
    ghost function Snapshot(): State
      reads world
    {
      State(world.View(), world.outbox, map[], map[], map[])
    }

    method GetByEventID(eventId: string) returns (row: Option<LogRow>)
      requires UniqueEvents(world.log)
      ensures row.Some? <==> HasEvent(world.log, eventId)
      ensures row.Some? ==> row.value == RowOf(world.log, eventId)
      ensures row.Some? ==>
        exists id :: id in world.log && world.log[id] == row.value && world.log[id].content.eventId == eventId
      ensures row.None? ==> forall id | id in world.log :: world.log[id].content.eventId != eventId
    {
      var log := world.log;
      if id :| id in log && log[id].content.eventId == eventId {
        row := Some(log[id]);
      } else {
        row := None;
      }
    }

    /** Both rows or neither. */
    method SubmitWithOutbox(n: Lifecycle.Notification, payload: Message, t: Transaction) returns (ok: bool)
      requires n.status == Enqueued && n.attempt == 0 && payload == Encode(n.Value().content, 0)
      modifies world`log, world`outbox, world`next
      ensures var inserts := Insertable(old(world.log), n.Value().content);
        && Snapshot() ==
           (if inserts && Applied(t) then SubmitNext(old(Snapshot()), n.Value().content) else old(Snapshot()))
        && ok == (inserts && t.Committed?)
      ensures
        if old(n.id in world.log || exists id :: id in world.log && world.log[id].content.eventId == n.eventId)
           || t == Doubtful(false)
        then world.log == old(world.log) && world.outbox == old(world.outbox)
        else
          && world.log == old(world.log)[old(n.id) := LogRow(old(n.Value()).content, Enqueued, 0, "")]
          && world.outbox == old(world.outbox)[old(world.next) :=
               OutboxRow(old(n.id), old(n.channel), payload, false, 0, Free)]
    {
      hide Encode;
      var content := n.Value().content;
      if !Insertable(world.log, content) {
        return false;
      }
      if Applied(t) {
        world.log := world.log[n.id := LogRow(content, n.status, n.attempt, "")];
        world.outbox := world.outbox[world.next := OutboxRow(n.id, n.channel, payload, false, 0, Free)];
        world.next := world.next + 1;
      }
      return t.Committed?;
    }

    method HydrateRecipient(c: Channel, recipient: Recipient, user: Result<User>, devices: Result<seq<string>>)
      returns (r: Result<Recipient>)
      ensures r == Hydrated(c, recipient, user, devices)
      ensures c == EMAIL && recipient.email == "" ==>
        r == if user.Err? then Err(user.error) else Ok(recipient.(email := user.value.email))
      ensures (c == SMS || c == WHATSAPP) && recipient.phone == "" ==>
        if user.Err? then r == Err(user.error)
        else
          var code, number := user.value.countryCode, user.value.phoneNumber;
          var phone := Text.TrimSpace(code + number);
          && r == Ok(recipient.(phone := if number != "" && Dialable(phone) then phone else ""))
          && (number != "" && Dialable(code + number) ==> r == Ok(recipient.(phone := code + number)))
      ensures (c == PUSH_IOS || c == PUSH_ANDROID) && recipient.deviceToken == "" ==>
        r == if devices.Err? then Err(devices.error)
             else if devices.value == [] then Err(InvalidInput)
             else Ok(recipient.(deviceToken := devices.value[0]))
      ensures ValidChannel(c) && Destination(c, recipient) != "" ==> r == Ok(recipient)
    {
      if user.Ok? {
        FullPhoneExactly(user.value);
      }
      hide FullPhone, Dialable, Text.TrimSpace;
      var hydrated := recipient;
      if c == EMAIL {
        if hydrated.email == "" {
          if user.Err? {
            return Err(user.error);
          }
          hydrated := hydrated.(email := user.value.email);
        }
      } else if c == SMS || c == WHATSAPP {
        if hydrated.phone == "" {
          if user.Err? {
            return Err(user.error);
          }
          hydrated := hydrated.(phone := FullPhone(user.value));
        }
      } else if c == PUSH_IOS || c == PUSH_ANDROID {
        if hydrated.deviceToken == "" {
          if devices.Err? {
            return Err(devices.error);
          }
          if devices.value == [] {
            return Err(InvalidInput);
          }
          hydrated := hydrated.(deviceToken := devices.value[0]);
        }
      } else if c == TELEGRAM || c == LINE || c == FACEBOOK_MESSENGER {
        if hydrated.messagingId == "" {
          return Err(InvalidInput);
        }
      }
      return Ok(hydrated);
    }

    /** Opt-out, rate limit, hydration. */
    method Screen(input: SubmitInput, ports: Ports) returns (r: Result<Recipient>)
      modifies limiter`keys, limiter.cb
      ensures var seen := Seen(ports, old(limiter.Refuses(ports.limiter.asked)));
        && r == Policies(cfg, limiter.cb != null, old(limiter.keys), input, seen)
        && limiter.keys == Charged(cfg, old(limiter.keys), input, seen)
    {
      hide KeysAfter, Answer, BucketKey, Hydrated;
      if input.recipient.userId.None? {
        return Ok(input.recipient);
      }
      var user := input.recipient.userId.value;
      if ports.optIn.Err? {
        return Err(ports.optIn.error);
      }
      if !ports.optIn.value {
        return Err(OptedOut);
      }
      if input.channel in cfg.rateLimits && cfg.rateLimits[input.channel] > 0 {
        var allowed := limiter.Allow(BucketKey(user, input.channel), cfg.rateLimits[input.channel], cfg.window,
                                     ports.limiter.c, ports.limiter.reply, ports.limiter.asked, ports.limiter.done);
        if allowed.Err? {
          return Err(allowed.error);
        }
        if !allowed.value {
          return Err(RateLimited);
        }
      }
      r := HydrateRecipient(input.channel, input.recipient, ports.user, ports.devices);
    }

    /** The first half of the use case: what precedes the database. */
    method Prepare(input: SubmitInput, ports: Ports, now: int) returns (r: Result<Lifecycle.Notification>)
      modifies limiter`keys, limiter.cb
      ensures var seen := Seen(ports, old(limiter.Refuses(ports.limiter.asked)));
        var prepared := Prepared(cfg, limiter.cb != null, old(limiter.keys), input, seen);
        && limiter.keys == Charged(cfg, old(limiter.keys), input, seen)
        && (prepared.Err? ==> r == Err(prepared.error))
        && (prepared.Ok? ==>
              r.Ok? && fresh(r.value) && r.value.Value() == Entity(prepared.value, 0, Received, "", now, now))
    {
      hide Policies, Charged, Recipient.Validate, ValidChannel;
      var recipient := Screen(input, ports);
      if recipient.Err? {
        return Err(recipient.error);
      }
      var subject, body := input.subject, input.body;
      if input.templateId.Some? {
        if ports.rendered.Err? {
          return Err(ports.rendered.error);
        }
        subject, body := ports.rendered.value.0, ports.rendered.value.1;
      }
      if body == "" {
        return Err(InvalidInput);
      }
      var made := NewEntity(Content(ports.newId, input.eventId, input.channel, recipient.value, input.templateId,
                                    input.variables, subject, body), now);
      if made.Err? {
        return Err(made.error);
      }
      var n := new Lifecycle.Notification(made.value);
      return Ok(n);
    }

    /** The claim's part: an answer that ends the submit, or none. */
    method AnswerEarly(input: SubmitInput, ports: Ports) returns (r: Option<Result<Output>>)
      requires UniqueEvents(world.log)
      ensures r == Early(world.log, input, ports)
      ensures ports.claim.Err? ==> r == Some(Err(ports.claim.error))
      ensures ports.claim == Ok(true) ==> r == None
      ensures ports.claim == Ok(false) ==>
        if ports.lookupFails then r == Some(Err(Infrastructure))
        else if exists id :: id in world.log && world.log[id].content.eventId == input.eventId then
          && r.Some? && r.value.Ok? && r.value.value.duplicate
          && exists id :: id in world.log && world.log[id] == r.value.value.row
                          && world.log[id].content.eventId == input.eventId
        else r == None
    {
      hide HasEvent;
      if ports.claim.Err? {
        return Some(Err(ports.claim.error));
      }
      if ports.claim.value {
        return None;
      }
      if ports.lookupFails {
        return Some(Err(Infrastructure));
      }
      var existing := GetByEventID(input.eventId);
      if existing.Some? {
        return Some(Ok(Output(existing.value, true)));
      }
      return None;
    }

    /** Marks the new entity enqueued and stores it with its outbox row. */
    method Persist(n: Lifecycle.Notification, now: int, t: Transaction) returns (r: Result<Output>)
      requires n.status == Received && n.attempt == 0 && n.lastError == ""
      modifies n, world`log, world`outbox, world`next
      ensures (r, Snapshot()) == Persisted(old(Snapshot()), old(n.Value()).content, t)
    {
      hide SubmitNext, Insertable, Encode;
      var _ := n.MarkEnqueued(now);
      var stored := SubmitWithOutbox(n, Encode(n.Value().content, n.attempt), t);
      if !stored {
        return Err(Infrastructure);
      }
      return Ok(Output(LogRow(n.Value().content, n.status, n.attempt, n.lastError), false));
    }

    /** The whole use case. */
    method Execute(input: SubmitInput, ports: Ports, now: int) returns (r: Result<Output>)
      requires UniqueEvents(world.log)
      modifies world`log, world`outbox, world`next, limiter`keys, limiter.cb
      ensures Effect(r, Snapshot(), limiter.keys)
        == Submitted(cfg, limiter.cb != null, old(limiter.keys), old(world.log), old(Snapshot()), input,
                     Seen(ports, old(limiter.Refuses(ports.limiter.asked))))
    {
      SeenEarly(world.log, input, ports, limiter.Refuses(ports.limiter.asked));
      hide Prepared, Charged, Persisted, HasEvent, Early;
      var early := AnswerEarly(input, ports);
      if early.Some? {
        return early.value;
      }
      var prepared := Prepare(input, ports, now);
      if prepared.Err? {
        return Err(prepared.error);
      }
      r := Persist(prepared.value, now, ports.transaction);
    }
  }
}
