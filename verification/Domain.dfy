/** The domain's values: channels, recipients, statuses and the notification entity. */
module Domain {
  import opened Basics
  import opened Uuids

  type Channel = string

  const PUSH_IOS: Channel := "push_ios"
  const PUSH_ANDROID: Channel := "push_android"
  const SMS: Channel := "sms"
  const EMAIL: Channel := "email"
  const TELEGRAM: Channel := "telegram"
  const WHATSAPP: Channel := "whatsapp"
  const LINE: Channel := "line"
  const FACEBOOK_MESSENGER: Channel := "facebook_messenger"

  const ALL_CHANNELS: seq<Channel> :=
    [PUSH_IOS, PUSH_ANDROID, SMS, EMAIL, TELEGRAM, WHATSAPP, LINE, FACEBOOK_MESSENGER]

  predicate ValidChannel(c: Channel)
  {
    c in ALL_CHANNELS
  }

  datatype Error =
    | InvalidInput
    | OptedOut
    | RateLimited
    | NotFound
    | AlreadyExists
    | Forbidden
    | InvalidStatusTransition
    | Infrastructure

  datatype Result<+T> = Ok(value: T) | Err(error: Error)

  datatype Recipient = Recipient(
    userId: Option<int>, email: string, phone: string, deviceToken: string, messagingId: string)
  {
    predicate Empty() {
      userId.None? && email == "" && phone == "" && deviceToken == "" && messagingId == ""
    }

    /** Does the recipient carry enough for the channel? A user id is trusted to be resolved. */
    predicate Validate(c: Channel) {
      && !Empty()
      && (userId.None? ==>
            && (c == EMAIL ==> email != "")
            && (c == SMS || c == WHATSAPP ==> phone != "")
            && (c == PUSH_IOS || c == PUSH_ANDROID ==> deviceToken != "")
            && (c == TELEGRAM || c == LINE || c == FACEBOOK_MESSENGER ==> messagingId != ""))
    }
  }

  datatype Status = Received | Enqueued | InFlight | Sent | Failed | Retrying | DeadLetter

  const VALID_TRANSITIONS: map<Status, set<Status>> := map[
    Received := {Enqueued, Failed},
    Enqueued := {InFlight, Failed},
    InFlight := {Sent, Failed, Retrying, DeadLetter},
    Retrying := {InFlight, DeadLetter, Enqueued},
    Failed := {Retrying, DeadLetter},
    Sent := {},
    DeadLetter := {}
  ]

  predicate CanTransitionTo(s: Status, next: Status)
  {
    s in VALID_TRANSITIONS && next in VALID_TRANSITIONS[s]
  }

  predicate Terminal(s: Status)
  {
    s in VALID_TRANSITIONS && VALID_TRANSITIONS[s] == {}
  }

  /** What a notification says and to whom; an absent variable map differs from an empty one. */
  datatype Content = Content(
    id: Uuid, eventId: string, channel: Channel, recipient: Recipient, templateId: Option<Uuid>,
    variables: Option<map<string, string>>, subject: string, body: string)

  datatype Entity = Entity(
    content: Content, attempt: int, status: Status, lastError: string, createdAt: int, updatedAt: int)

  function NewEntity(content: Content, now: int): Result<Entity>
  {
    if !ValidChannel(content.channel) || !content.recipient.Validate(content.channel) then Err(InvalidInput)
    else Ok(Entity(content, 0, Received, "", now, now))
  }
}
