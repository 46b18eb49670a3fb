/** Identifiers: 128-bit numbers, ordered as the database orders them and printed in the canonical
    8-4-4-4-12 form. */
module Uuids {
  import opened Basics
  import Digits

  const LIMIT: nat := 0x1_0000_0000_0000_0000_0000_0000_0000_0000

  type Uuid = u: nat | u < LIMIT witness 0

  function Print(u: Uuid): (s: string)
    ensures |s| == 36
  {
    Dashed(Digits.Print(u, 32, 16))
  }

  function Dashed(h: string): (s: string)
    requires |h| == 32
    ensures |s| == 36
  {
    h[..8] + "-" + h[8..12] + "-" + h[12..16] + "-" + h[16..20] + "-" + h[20..]
  }

  function Undashed(s: string): (h: string)
    requires |s| == 36
    ensures |h| == 32
  {
    s[..8] + s[9..13] + s[14..18] + s[19..23] + s[24..]
  }

  /** None for a text that is not in the canonical form. */
  function Parse(s: string): Option<Uuid>
  {
    if |s| != 36 || s[8] != '-' || s[13] != '-' || s[18] != '-' || s[23] != '-' then None
    else
      match Digits.Parse(Undashed(s), 16)
      case None => None
      case Some(v) => Digits.ParseBound(Undashed(s), 16); LimitIsPow(); Some(v)
  }

  lemma {:induction false} PowAdd(b: nat, m: nat, n: nat)
    requires b > 0
    ensures Digits.Pow(b, m + n) == Digits.Pow(b, m) * Digits.Pow(b, n)
  {
    if m > 0 {
      PowAdd(b, m - 1, n);
      assert Digits.Pow(b, m + n) == b * (Digits.Pow(b, m - 1) * Digits.Pow(b, n));
    }
  }

  lemma LimitIsPow()
    ensures Digits.Pow(16, 32) == LIMIT
  {
    PowAdd(16, 16, 16);
    PowAdd(16, 8, 8);
    PowAdd(16, 4, 4);
    PowAdd(16, 2, 2);
    PowAdd(16, 1, 1);
  }

  lemma UndashDashed(h: string)
    requires |h| == 32
    ensures Undashed(Dashed(h)) == h
    ensures Dashed(h)[8] == Dashed(h)[13] == Dashed(h)[18] == Dashed(h)[23] == '-'
  {
    var s := Dashed(h);
    forall i | 0 <= i < 32
      ensures Undashed(s)[i] == s[if i < 8 then i else if i < 12 then i + 1 else if i < 16 then i + 2
                                  else if i < 20 then i + 3 else i + 4] == h[i]
    {}
  }

  lemma ParsePrint(u: Uuid)
    ensures Parse(Print(u)) == Some(u)
  {
    UndashDashed(Digits.Print(u, 32, 16));
    LimitIsPow();
    Digits.ParsePrint(u, 32, 16);
  }

  lemma PrintInjective(u: Uuid, v: Uuid)
    requires Print(u) == Print(v)
    ensures u == v
  {
    ParsePrint(u);
    ParsePrint(v);
  }

  lemma LowerUndashed(s: string)
    requires |s| == 36
    ensures Undashed(Digits.Lower(s)) == Digits.Lower(Undashed(s))
    ensures forall i | 0 <= i < 36 :: Digits.Lower(s)[i] == '-' <==> s[i] == '-'
  {}

  lemma DashUndashed(s: string)
    requires |s| == 36 && s[8] == s[13] == s[18] == s[23] == '-'
    ensures Dashed(Undashed(s)) == s
  {
    var h := Undashed(s);
    assert h[..8] == s[..8] && h[8..12] == s[9..13] && h[12..16] == s[14..18] && h[16..20] == s[19..23];
    assert h[20..] == s[24..];
    assert s == s[..8] + [s[8]] + s[9..13] + [s[13]] + s[14..18] + [s[18]] + s[19..23] + [s[23]] + s[24..];
  }

  /** A text is read as an identifier exactly if it is the identifier's canonical form, in small letters or capitals. */
  lemma ParsesExactly(s: string, u: Uuid)
    ensures Parse(s) == Some(u) <==> Digits.Lower(s) == Print(u)
  {
    hide Digits.Print, Digits.Parse, Digits.Lower, Undashed, Dashed;
    if Parse(s) == Some(u) {
      Digits.PrintParse(Undashed(s), 16);
      LowerUndashed(s);
      DashUndashed(Digits.Lower(s));
    }
    if Digits.Lower(s) == Print(u) {
      ParsePrint(u);
      LowerUndashed(s);
      Digits.ParseLower(Undashed(s), 16);
    }
  }
}
