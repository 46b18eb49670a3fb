/** Strings: cutting at the first separator, trimming, and integers in decimal. */
module Text {
  import opened Basics
  import Digits

  /** What stands before and after the first separator. */
  function Cut(s: string, sep: char): Option<(string, string)>
  {
    if s == "" then None
    else if s[0] == sep then Some(("", s[1..]))
    else
      match Cut(s[1..], sep)
      case None => None
      case Some((before, after)) => Some(([s[0]] + before, after))
  }

  lemma {:induction false} CutJoin(before: string, sep: char, after: string)
    requires sep !in before
    ensures Cut(before + [sep] + after, sep) == Some((before, after))
    decreases |before|
  {
    var s := before + [sep] + after;
    if before == "" {
      assert s[1..] == after;
    } else {
      CutJoin(before[1..], sep, after);
      assert s[1..] == before[1..] + [sep] + after;
      assert [before[0]] + before[1..] == before;
    }
  }

  /** Conversely, what is cut joins again. */
  lemma {:induction false} CutIsJoin(s: string, sep: char)
    ensures Cut(s, sep).None? <==> sep !in s
    ensures Cut(s, sep).Some? ==>
      sep !in Cut(s, sep).value.0 && s == Cut(s, sep).value.0 + [sep] + Cut(s, sep).value.1
    decreases |s|
  {
    if s != "" && s[0] != sep {
      CutIsJoin(s[1..], sep);
      assert s == [s[0]] + s[1..];
    }
  }

  /** White space as Unicode lists it. */
  predicate IsSpace(c: char)
  {
    var n := c as int;
    9 <= n <= 13 || n == 32 || n == 0x85 || n == 0xA0 || n == 0x1680 || 0x2000 <= n <= 0x200A
    || n == 0x2028 || n == 0x2029 || n == 0x202F || n == 0x205F || n == 0x3000
  }

  function TrimSpace(s: string): string
    decreases |s|
  {
    if s == "" then s
    else if IsSpace(s[0]) then TrimSpace(s[1..])
    else if IsSpace(s[|s| - 1]) then TrimSpace(s[..|s| - 1])
    else s
  }

  /** Trimming takes white space off both ends and nothing else. */
  lemma {:induction false} TrimSpaceTrims(s: string) returns (i: nat, j: nat)
    ensures i <= j <= |s| && TrimSpace(s) == s[i..j]
    ensures forall k | 0 <= k < i || j <= k < |s| :: IsSpace(s[k])
    ensures i < j ==> !IsSpace(s[i]) && !IsSpace(s[j - 1])
    decreases |s|
  {
    hide IsSpace;
    if s == "" {
      i, j := 0, 0;
    } else if IsSpace(s[0]) {
      i, j := TrimSpaceTrims(s[1..]);
      assert s[1..][i..j] == s[i + 1..j + 1];
      assert forall k | 0 < k < |s| :: s[k] == s[1..][k - 1];
      i, j := i + 1, j + 1;
    } else if IsSpace(s[|s| - 1]) {
      i, j := TrimSpaceTrims(s[..|s| - 1]);
      assert s[..|s| - 1][i..j] == s[i..j];
    } else {
      i, j := 0, |s|;
    }
  }

  // ----- Integers in decimal -----

  function PrintNat(n: nat): (s: string)
    ensures s != "" && forall i | 0 <= i < |s| :: '0' <= s[i] <= '9'
  {
    if n < 10 then [Digits.DigitChar(n)] else PrintNat(n / 10) + [Digits.DigitChar(n % 10)]
  }

  function PrintInt(n: int): string
  {
    if n < 0 then "-" + PrintNat(-n) else PrintNat(n)
  }

  lemma {:induction false} ParsePrintNat(n: nat)
    ensures Digits.Parse(PrintNat(n), 10) == Some(n)
  {
    if n < 10 {
      assert [Digits.DigitChar(n)] == "" + [Digits.DigitChar(n)];
      Digits.ParseSnoc("", n, 0, 10);
    } else {
      ParsePrintNat(n / 10);
      Digits.ParseLast(n, PrintNat(n / 10), 10);
    }
  }

  lemma PrintIntInjective(m: int, n: int)
    requires PrintInt(m) == PrintInt(n)
    ensures m == n
  {
    var s, t := PrintInt(m), PrintInt(n);
    ParsePrintNat(if m < 0 then -m else m);
    ParsePrintNat(if n < 0 then -n else n);
    assert s[0] == '-' <==> m < 0;
    assert t[0] == '-' <==> n < 0;
    if m < 0 {
      assert s[1..] == PrintNat(-m) && t[1..] == PrintNat(-n);
    }
  }

  /** Of the ASCII characters, the blank and the five control characters from tab to carriage return are space. */
  lemma AsciiSpace(c: char)
    requires c as int < 128
    ensures IsSpace(c) <==> c == ' ' || '\t' <= c <= '\r'
  {}
}
