/** Fixed-width positional notation: the base-16 digits of an identifier, the decimal digits of a date. */
module Digits {
  import opened Basics

  const DIGITS: string := "0123456789abcdef"

  function Pow(b: nat, n: nat): (p: nat)
    requires b > 0
    ensures p > 0
  {
    if n == 0 then 1 else b * Pow(b, n - 1)
  }

  function DigitChar(d: nat): char
    requires d < 16
  {
    DIGITS[d]
  }

  function CharDigit(c: char, base: nat): Option<nat>
  {
    var d := if '0' <= c <= '9' then c as int - '0' as int
             else if 'a' <= c <= 'f' then c as int - 'a' as int + 10
             else if 'A' <= c <= 'F' then c as int - 'A' as int + 10
             else 16;
    if d < base then Some(d) else None
  }

  lemma CharDigitOfDigitChar(d: nat, base: nat)
    requires d < base <= 16
    ensures CharDigit(DigitChar(d), base) == Some(d)
  {}

  /** The lowest `width` digits of v, most significant first. */
  function Print(v: nat, width: nat, base: nat): (s: string)
    requires 2 <= base <= 16
    ensures |s| == width
    decreases width
  {
    if width == 0 then "" else Print(v / base, width - 1, base) + [DigitChar(v % base)]
  }

  function Parse(s: string, base: nat): Option<nat>
    requires 2 <= base <= 16
  {
    if s == "" then Some(0)
    else
      match Parse(s[..|s| - 1], base)
      case None => None
      case Some(high) =>
        match CharDigit(s[|s| - 1], base)
        case None => None
        case Some(low) => Some(high * base + low)
  }

  lemma Times(base: nat, x: nat, y: nat)
    requires x <= y
    ensures base * x <= base * y
  {}

  lemma LessTimes(base: nat, x: nat, y: nat)
    requires base * x < base * y
    ensures x < y
  {
    if y <= x {
      Times(base, y, x);
    }
  }

  lemma Quotient(v: nat, base: nat)
    requires base > 0
    ensures base * (v / base) <= v && v / base * base + v % base == v
  {}

  lemma DivPow(v: nat, width: nat, base: nat)
    requires base >= 2 && width > 0 && v < Pow(base, width)
    ensures v / base < Pow(base, width - 1)
  {
    Quotient(v, base);
    LessTimes(base, v / base, Pow(base, width - 1));
  }

  lemma ParseSnoc(s: string, low: nat, high: nat, base: nat)
    requires 2 <= base <= 16 && low < base && Parse(s, base) == Some(high)
    ensures Parse(s + [DigitChar(low)], base) == Some(high * base + low)
  {
    var t := s + [DigitChar(low)];
    assert t[..|t| - 1] == s;
    CharDigitOfDigitChar(low, base);
  }

  /** One more digit read undoes one more digit printed. */
  lemma ParseLast(v: nat, s: string, base: nat)
    requires 2 <= base <= 16 && Parse(s, base) == Some(v / base)
    ensures Parse(s + [DigitChar(v % base)], base) == Some(v)
  {
    hide Parse;
    ParseSnoc(s, v % base, v / base, base);
    Quotient(v, base);
  }

  lemma {:induction false} ParsePrint(v: nat, width: nat, base: nat)
    requires 2 <= base <= 16 && v < Pow(base, width)
    ensures Parse(Print(v, width, base), base) == Some(v)
    decreases width
  {
    if width > 0 {
      assert v / base < Pow(base, width - 1) by { DivPow(v, width, base); }
      ParsePrint(v / base, width - 1, base);
      ParseLast(v, Print(v / base, width - 1, base), base);
    }
  }

  /** A printed number holds digits only. */
  lemma {:induction false} PrintIsDigits(v: nat, width: nat, base: nat)
    requires 2 <= base <= 16
    ensures forall i | 0 <= i < width :: CharDigit(Print(v, width, base)[i], base).Some?
    decreases width
  {
    if width > 0 {
      PrintIsDigits(v / base, width - 1, base);
      CharDigitOfDigitChar(v % base, base);
    }
  }

  lemma {:induction false} ParseBound(h: string, base: nat)
    requires 2 <= base <= 16 && Parse(h, base).Some?
    ensures Parse(h, base).value < Pow(base, |h|)
  {
    if h != "" {
      ParseBound(h[..|h| - 1], base);
      StepBound(Parse(h[..|h| - 1], base).value, CharDigit(h[|h| - 1], base).value, base, |h|);
    }
  }

  lemma StepBound(high: nat, low: nat, base: nat, n: nat)
    requires base > 0 && n > 0 && low < base && high < Pow(base, n - 1)
    ensures high * base + low < Pow(base, n)
  {
    var p := Pow(base, n - 1);
    assert (high + 1) * base <= p * base;
  }

  // ----- The other way round -----

  function LowerChar(c: char): char
  {
    if 'A' <= c <= 'Z' then (c as int + 32) as char else c
  }

  function Lower(s: string): (t: string)
    ensures |t| == |s| && forall i | 0 <= i < |s| :: t[i] == LowerChar(s[i])
  {
    seq(|s|, i requires 0 <= i < |s| => LowerChar(s[i]))
  }

  lemma DigitCharOfCharDigit(c: char, base: nat)
    requires base <= 16
    ensures CharDigit(c, base).Some? ==> DigitChar(CharDigit(c, base).value) == LowerChar(c)
    ensures CharDigit(LowerChar(c), base) == CharDigit(c, base)
  {}

  lemma DivMod(high: nat, low: nat, base: nat)
    requires low < base
    ensures (high * base + low) / base == high && (high * base + low) % base == low
  {
    var v := high * base + low;
    var q := v / base;
    assert v == q * base + v % base;
    if q < high {
      Times(base, q + 1, high);
    } else if q > high {
      Times(base, high + 1, q);
    }
  }

  /** A number read is printed as it was, in small letters. */
  lemma {:induction false} PrintParse(s: string, base: nat)
    requires 2 <= base <= 16 && Parse(s, base).Some?
    ensures Print(Parse(s, base).value, |s|, base) == Lower(s)
    decreases |s|
  {
    if s != "" {
      var front, c := s[..|s| - 1], s[|s| - 1];
      PrintParse(front, base);
      DigitCharOfCharDigit(c, base);
      DivMod(Parse(front, base).value, CharDigit(c, base).value, base);
      assert Lower(s) == Lower(front) + [LowerChar(c)];
    }
  }

  /** Capitals are read like small letters. */
  lemma {:induction false} ParseLower(s: string, base: nat)
    requires 2 <= base <= 16
    ensures Parse(Lower(s), base) == Parse(s, base)
    decreases |s|
  {
    if s != "" {
      ParseLower(s[..|s| - 1], base);
      DigitCharOfCharDigit(s[|s| - 1], base);
      assert Lower(s)[..|s| - 1] == Lower(s[..|s| - 1]);
    }
  }
}
