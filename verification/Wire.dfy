/** The message body, at record level: encoding by the publisher and decoding by the consumer. */
module Wire {
  import opened Basics
  import opened Uuids
  import opened Domain

  /** An absent option is a field left out of the message. */
  datatype Message = Message(
    id: string, eventId: string, channel: string, recipient: Recipient, templateId: Option<string>,
    variables: Option<map<string, string>>, subject: string, body: string, attempt: int)

  function Encode(c: Content, attempt: int): Message
  {
    Message(Uuids.Print(c.id), c.eventId, c.channel, c.recipient,
            if c.templateId.Some? then Some(Uuids.Print(c.templateId.value)) else None,
            if c.variables == Some(map[]) then None else c.variables,
            c.subject, c.body, attempt)
  }

  /** None for an identifier that does not parse; a template identifier that does not is dropped. */
  function Decode(m: Message): Option<Entity>
  {
    match Uuids.Parse(m.id)
    case None => None
    case Some(id) =>
      var templateId := if m.templateId.Some? then Uuids.Parse(m.templateId.value) else None;
      Some(Entity(Content(id, m.eventId, m.channel, m.recipient, templateId, m.variables, m.subject, m.body),
                  m.attempt, Enqueued, "", 0, 0))
  }

  /** The content with an empty variable map read as an absent one. */
  function Normal(c: Content): Content
  {
    if c.variables == Some(map[]) then c.(variables := None) else c
  }

  /** Decoding undoes encoding, up to an empty variable map. */
  lemma DecodeEncode(c: Content, attempt: int)
    ensures Decode(Encode(c, attempt)) == Some(Entity(Normal(c), attempt, Enqueued, "", 0, 0))
  {
    Uuids.ParsePrint(c.id);
    if c.templateId.Some? {
      Uuids.ParsePrint(c.templateId.value);
    }
  }

  /** What two encodings share is the content, up to an empty variable map. */
  lemma EncodeInjective(c: Content, d: Content, attempt: int, attempt': int)
    ensures Encode(c, attempt) == Encode(d, attempt') <==> Normal(c) == Normal(d) && attempt == attempt'
  {
    DecodeEncode(c, attempt);
    DecodeEncode(d, attempt');
  }

  /** A message decodes exactly if its identifier parses, whatever its template identifier; what it says is taken over
      as it is. */
  lemma DecodesExactly(m: Message)
    ensures Decode(m).Some? <==> Uuids.Parse(m.id).Some?
    ensures Decode(m).Some? ==>
      var e := Decode(m).value;
      && Uuids.Parse(m.id) == Some(e.content.id) && e.status == Enqueued && e.lastError == ""
      && e.content.templateId == (if m.templateId.None? then None else Uuids.Parse(m.templateId.value))
      && Encode(e.content, e.attempt).(id := m.id, templateId := m.templateId) ==
           m.(variables := if m.variables == Some(map[]) then None else m.variables)
  {
    hide Uuids.Parse, Uuids.Print;
  }
}
