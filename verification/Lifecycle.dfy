/** The notification aggregate: its state-changing methods, and what any sequence of them keeps. */
module Lifecycle {
  import opened Basics
  import opened Uuids
  import opened Domain

  /** A method call on the aggregate. */
  datatype Call =
    | SetRendered(subject: string, body: string)
    | HydrateRecipient(recipient: Recipient)
    | MarkEnqueued(now: int)
    | MarkInFlight(attempt: int, now: int)
    | MarkSent(now: int)
    | MarkRetrying(reason: string, now: int)
    | MarkDeadLetter(reason: string, now: int)

  function Move(e: Entity, next: Status, reason: string, now: int): Result<Entity>
  {
    if CanTransitionTo(e.status, next) then Ok(e.(status := next, lastError := reason, updatedAt := now))
    else Err(InvalidStatusTransition)
  }

  /** The entity after a call, or the error of a call that changes nothing. */
  function Apply(e: Entity, call: Call): Result<Entity>
  {
    match call
    case SetRendered(subject, body) =>
      if e.status != Received then Err(InvalidStatusTransition)
      else Ok(e.(content := e.content.(subject := subject, body := body)))
    case HydrateRecipient(r) =>
      if e.status != Received then Err(InvalidStatusTransition)
      else Ok(e.(content := e.content.(recipient := r)))
    case MarkEnqueued(now) => Move(e, Enqueued, "", now)
    case MarkInFlight(attempt, now) =>
      var moved := Move(e, InFlight, "", now);
      if moved.Ok? then Ok(moved.value.(attempt := attempt)) else moved
    case MarkSent(now) => Move(e, Sent, "", now)
    case MarkRetrying(reason, now) => Move(e, Retrying, reason, now)
    case MarkDeadLetter(reason, now) => Move(e, DeadLetter, reason, now)
  }

  function After(e: Entity, call: Call): Entity
  {
    var r := Apply(e, call);
    if r.Ok? then r.value else e
  }

  function AfterAll(e: Entity, calls: seq<Call>): Entity
    decreases |calls|
  {
    if calls == [] then e else AfterAll(After(e, calls[0]), calls[1..])
  }

  /** The statuses passed through, the first one included. */
  function Trace(e: Entity, calls: seq<Call>): (t: seq<Status>)
    ensures |t| == |calls| + 1 && t[0] == e.status
    decreases |calls|
  {
    [e.status] + if calls == [] then [] else Trace(After(e, calls[0]), calls[1..])
  }

  /** The transition table read backwards: from where a status is entered. */
  lemma EnteredFrom(s: Status)
    ensures CanTransitionTo(s, Received) <==> false
    ensures CanTransitionTo(s, Enqueued) <==> s == Received || s == Retrying
    ensures CanTransitionTo(s, InFlight) <==> s == Enqueued || s == Retrying
    ensures CanTransitionTo(s, Sent) <==> s == InFlight
    ensures CanTransitionTo(s, Failed) <==> s == Received || s == Enqueued || s == InFlight
    ensures CanTransitionTo(s, Retrying) <==> s == InFlight || s == Failed
    ensures CanTransitionTo(s, DeadLetter) <==> s == InFlight || s == Retrying || s == Failed
  {
    assert s in VALID_TRANSITIONS;
  }

  /** Every sequence of calls follows the transition table. */
  lemma {:induction false} TraceFollowsTable(e: Entity, calls: seq<Call>)
    ensures forall i | 0 <= i < |calls| ::
      var t := Trace(e, calls); t[i] == t[i + 1] || CanTransitionTo(t[i], t[i + 1])
    decreases |calls|
  {
    if calls != [] {
      var t, rest := Trace(e, calls), Trace(After(e, calls[0]), calls[1..]);
      TraceFollowsTable(After(e, calls[0]), calls[1..]);
      forall i | 0 <= i < |calls|
        ensures t[i] == t[i + 1] || CanTransitionTo(t[i], t[i + 1])
      {
        if i > 0 {
          assert t[i] == rest[i - 1] && t[i + 1] == rest[i];
        }
      }
    }
  }

  /** Once Received is left it is never entered again, and the content is frozen. */
  lemma {:induction false} LeftReceived(e: Entity, calls: seq<Call>)
    requires e.status != Received
    ensures AfterAll(e, calls).status != Received
    ensures AfterAll(e, calls).content == e.content && AfterAll(e, calls).createdAt == e.createdAt
    decreases |calls|
  {
    if calls != [] {
      LeftReceived(After(e, calls[0]), calls[1..]);
    }
  }

  /** The terminal statuses are Sent and DeadLetter, and no call changes an entity that has one. */
  lemma {:induction false} TerminalAbsorbs(e: Entity, calls: seq<Call>)
    requires Terminal(e.status)
    ensures e.status == Sent || e.status == DeadLetter
    ensures AfterAll(e, calls) == e
    decreases |calls|
  {
    if calls != [] {
      TerminalAbsorbs(e, calls[1..]);
    }
  }

  predicate ErrorMeansFailure(e: Entity)
  {
    e.lastError != "" ==> e.status == Retrying || e.status == DeadLetter
  }

  /** From a new entity on: an error text is only ever held in Retrying or DeadLetter, and Failed,
      which the table lists, is reached by no method. */
  lemma {:induction false} ErrorOnlyWhenFailing(e: Entity, calls: seq<Call>)
    requires ErrorMeansFailure(e) && e.status != Failed
    ensures ErrorMeansFailure(AfterAll(e, calls)) && AfterAll(e, calls).status != Failed
    decreases |calls|
  {
    if calls != [] {
      ErrorOnlyWhenFailing(After(e, calls[0]), calls[1..]);
    }
  }

  /** No notification is marked sent that was not in flight before. */
  lemma {:induction false} SentWasInFlight(e: Entity, calls: seq<Call>)
    requires e.status != Sent && AfterAll(e, calls).status == Sent
    ensures InFlight in Trace(e, calls)
    decreases |calls|
  {
    assert calls != [];
    var next := After(e, calls[0]);
    var rest := Trace(next, calls[1..]);
    assert Trace(e, calls) == [e.status] + rest;
    if next.status == Sent {
      assert CanTransitionTo(e.status, Sent);
      assert Trace(e, calls)[0] == InFlight;
    } else {
      SentWasInFlight(next, calls[1..]);
    }
  }

  class Notification {
    var id: Uuid
    var eventId: string
    var channel: Channel
    var recipient: Recipient
    var templateId: Option<Uuid>
    var variables: Option<map<string, string>>
    var subject: string
    var body: string
    var attempt: int
    var status: Status
    var lastError: string
    var createdAt: int
    var updatedAt: int

    function Value(): Entity
      reads this
    {
      Entity(Content(id, eventId, channel, recipient, templateId, variables, subject, body),
             attempt, status, lastError, createdAt, updatedAt)
    }

    constructor (e: Entity)
      ensures Value() == e
    {
      id, eventId, channel, recipient := e.content.id, e.content.eventId, e.content.channel, e.content.recipient;
      templateId, variables := e.content.templateId, e.content.variables;
      subject, body := e.content.subject, e.content.body;
      attempt, status, lastError := e.attempt, e.status, e.lastError;
      createdAt, updatedAt := e.createdAt, e.updatedAt;
    }

    method SetRendered(subject: string, body: string) returns (ok: bool)
      modifies this
      ensures Value() == After(old(Value()), Call.SetRendered(subject, body))
      ensures ok <==> old(status) == Received
      ensures Value() ==
        if ok then old(Value()).(content := old(Value()).content.(subject := subject, body := body)) else old(Value())
    {
      if status != Received {
        return false;
      }
      this.subject, this.body := subject, body;
      return true;
    }

    method HydrateRecipient(r: Recipient) returns (ok: bool)
      modifies this
      ensures Value() == After(old(Value()), Call.HydrateRecipient(r))
      ensures ok <==> old(status) == Received
      ensures Value() ==
        if ok then old(Value()).(content := old(Value()).content.(recipient := r)) else old(Value())
    {
      if status != Received {
        return false;
      }
      recipient := r;
      return true;
    }

    method MarkEnqueued(now: int) returns (ok: bool)
      modifies this
      ensures Value() == After(old(Value()), Call.MarkEnqueued(now))
      ensures ok <==> CanTransitionTo(old(status), Enqueued)
      ensures Value() ==
        if ok then old(Value()).(status := Enqueued, lastError := "", updatedAt := now) else old(Value())
    {
      ok := TransitionTo(Enqueued, "", now);
    }

    method MarkInFlight(attempt: int, now: int) returns (ok: bool)
      modifies this
      ensures Value() == After(old(Value()), Call.MarkInFlight(attempt, now))
      ensures ok <==> CanTransitionTo(old(status), InFlight)
      ensures Value() ==
        if ok then old(Value()).(status := InFlight, lastError := "", updatedAt := now, attempt := attempt)
        else old(Value())
    {
      ok := TransitionTo(InFlight, "", now);
      if ok {
        this.attempt := attempt;
      }
    }

    method MarkSent(now: int) returns (ok: bool)
      modifies this
      ensures Value() == After(old(Value()), Call.MarkSent(now))
      ensures ok <==> CanTransitionTo(old(status), Sent)
      ensures Value() ==
        if ok then old(Value()).(status := Sent, lastError := "", updatedAt := now) else old(Value())
    {
      ok := TransitionTo(Sent, "", now);
    }

    method MarkRetrying(reason: string, now: int) returns (ok: bool)
      modifies this
      ensures Value() == After(old(Value()), Call.MarkRetrying(reason, now))
      ensures ok <==> CanTransitionTo(old(status), Retrying)
      ensures Value() ==
        if ok then old(Value()).(status := Retrying, lastError := reason, updatedAt := now) else old(Value())
    {
      ok := TransitionTo(Retrying, reason, now);
    }

    method MarkDeadLetter(reason: string, now: int) returns (ok: bool)
      modifies this
      ensures Value() == After(old(Value()), Call.MarkDeadLetter(reason, now))
      ensures ok <==> CanTransitionTo(old(status), DeadLetter)
      ensures Value() ==
        if ok then old(Value()).(status := DeadLetter, lastError := reason, updatedAt := now) else old(Value())
    {
      ok := TransitionTo(DeadLetter, reason, now);
    }

    method TransitionTo(next: Status, reason: string, now: int) returns (ok: bool)
      modifies this
      ensures var moved := Move(old(Value()), next, reason, now);
        ok == moved.Ok? && Value() == if ok then moved.value else old(Value())
    {
      if !CanTransitionTo(status, next) {
        return false;
      }
      status, lastError, updatedAt := next, reason, now;
      return true;
    }
  }
}
