/** The opaque cursor: a point in time and an identifier, printed, joined by a comma and encoded in base64. */
module Cursor {
  import opened Basics
  import opened Uuids
  import Digits
  import Text
  import Base64
  import opened Rfc3339

  lemma PlainJoin(a: string, b: string)
    requires Plain(a) && Plain(b)
    ensures Plain(a + b)
  {}

  lemma PlainDashed(h: string)
    requires |h| == 32 && Plain(h)
    ensures Plain(Uuids.Dashed(h))
  {
    assert Plain("-") && Plain(h[..8]) && Plain(h[8..12]) && Plain(h[12..16]) && Plain(h[16..20]) && Plain(h[20..]);
    hide Plain;
    PlainJoin(h[..8], "-");
    PlainJoin(h[..8] + "-", h[8..12]);
    PlainJoin(h[..8] + "-" + h[8..12], "-");
    PlainJoin(h[..8] + "-" + h[8..12] + "-", h[12..16]);
    PlainJoin(h[..8] + "-" + h[8..12] + "-" + h[12..16], "-");
    PlainJoin(h[..8] + "-" + h[8..12] + "-" + h[12..16] + "-", h[16..20]);
    PlainJoin(h[..8] + "-" + h[8..12] + "-" + h[12..16] + "-" + h[16..20], "-");
    PlainJoin(h[..8] + "-" + h[8..12] + "-" + h[12..16] + "-" + h[16..20] + "-", h[20..]);
  }

  lemma PlainUuid(id: Uuid)
    ensures Plain(Uuids.Print(id))
  {
    var h := Digits.Print(id, 32, 16);
    Digits.PrintIsDigits(id, 32, 16);
    assert forall i | 0 <= i < 32 :: Digits.CharDigit(h[i], 16).Some?;
    hide Digits.Print;
    PlainDashed(h);
  }

  lemma RawIsBytes(t: Timestamp, id: Uuid)
    ensures ',' !in Rfc3339.Print(t)
    ensures Base64.Bytes(Rfc3339.Print(t) + "," + Uuids.Print(id))
  {
    NoComma(t);
    PlainUuid(id);
    hide Rfc3339.Print, Uuids.Print;
  }

  function Encode(t: Timestamp, id: Uuid): string
  {
    RawIsBytes(t, id);
    Base64.Encode(Rfc3339.Print(t) + "," + Uuids.Print(id))
  }

  /** None for a cursor that does not decode. */
  function Decode(cursor: string): Option<(Timestamp, Uuid)>
  {
    match Base64.Decode(cursor)
    case None => None
    case Some(raw) =>
      match Text.Cut(raw, ',')
      case None => None
      case Some((time, id)) =>
        match (Rfc3339.Parse(time), Uuids.Parse(id))
        case (Some(t), Some(u)) => Some((t, u))
        case _ => None
  }

  lemma DecodeEncoded(t: Timestamp, id: Uuid)
    ensures Decode(Encode(t, id))
      == match Rfc3339.Parse(Rfc3339.Print(t)) case Some(t') => Some((t', id)) case None => None
  {
    RawIsBytes(t, id);
    var raw := Rfc3339.Print(t) + "," + Uuids.Print(id);
    Base64.DecodeEncode(raw);
    Text.CutJoin(Rfc3339.Print(t), ',', Uuids.Print(id));
    assert Rfc3339.Print(t) + [','] + Uuids.Print(id) == raw;
    Uuids.ParsePrint(id);
    hide Base64.Decode, Base64.Encode, Text.Cut, Rfc3339.Parse, Rfc3339.Print, Uuids.Parse, Uuids.Print;
  }

  /** A four-digit year and an offset of whole minutes. */
  predicate Printable(t: Timestamp)
  {
    0 <= t.year <= 9999 && t.offset % 60 == 0
  }

  /** The cursor gives back the identifier and the same point in time exactly if the timestamp is printable;
      with another year it does not decode, with seconds in its offset it decodes to another time. */
  lemma RoundTrip(t: Timestamp, id: Uuid)
    requires Valid(t)
    ensures Decode(Encode(t, id)).Some? <==> 0 <= t.year <= 9999
    ensures Decode(Encode(t, id)).Some? ==> Decode(Encode(t, id)).value.1 == id
    ensures Decode(Encode(t, id)).Some? && Instant(Decode(Encode(t, id)).value.0) == Instant(t) <==> Printable(t)
    ensures Encode(t, id) != ""
  {
    hide Decode, Encode, Instant, Valid, Rfc3339.Parse, Rfc3339.Print;
    DecodeEncoded(t, id);
    NotEmpty(t, id);
    if 0 <= t.year <= 9999 {
      Rfc3339.ParsePrint(t);
      OffsetShifts(t, WholeMinutes(t.offset));
      WholeMinutesKept(t.offset);
    } else {
      OtherYears(t);
    }
  }

  lemma WholeMinutesKept(offset: int)
    ensures WholeMinutes(offset) == offset <==> offset % 60 == 0
  {}

  lemma OffsetShifts(t: Timestamp, offset: int)
    ensures Instant(t.(offset := offset)) == Instant(t) + (t.offset - offset) * 1000000000
  {}

  lemma NotEmpty(t: Timestamp, id: Uuid)
    ensures Encode(t, id) != ""
  {
    RawIsBytes(t, id);
    Base64.EncodeLength(Rfc3339.Print(t) + "," + Uuids.Print(id));
    hide Rfc3339.Print, Uuids.Print, Base64.Encode;
  }
}
