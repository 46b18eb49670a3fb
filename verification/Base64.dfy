/** Padded URL-safe base64, as section 5 of RFC 4648 defines it, over characters of one byte. */
module Base64 {
  import opened Basics

  const PAD: char := '='

  /** A text whose characters are bytes. */
  predicate Bytes(s: string)
  {
    forall i | 0 <= i < |s| :: s[i] as int < 256
  }

  /** Capitals, small letters, digits, and the two letters that are safe in a URL. */
  function Letter(n: nat): char
    requires n < 64
  {
    if n < 26 then ('A' as int + n) as char
    else if n < 52 then ('a' as int + n - 26) as char
    else if n < 62 then ('0' as int + n - 52) as char
    else if n == 62 then '-'
    else '_'
  }

  function Value(c: char): (v: Option<nat>)
    ensures v.Some? ==> v.value < 64
  {
    if 'A' <= c <= 'Z' then Some(c as int - 'A' as int)
    else if 'a' <= c <= 'z' then Some(c as int - 'a' as int + 26)
    else if '0' <= c <= '9' then Some(c as int - '0' as int + 52)
    else if c == '-' then Some(62)
    else if c == '_' then Some(63)
    else None
  }

  lemma ValueOfLetter(n: nat)
    requires n < 64
    ensures Value(Letter(n)) == Some(n) && Letter(n) != '=' && Letter(n) != '\r' && Letter(n) != '\n'
  {}

  function Quad(a: nat, b: nat, c: nat): (q: string)
    requires a < 256 && b < 256 && c < 256
    ensures |q| == 4
  {
    [Letter(a / 4), Letter(a % 4 * 16 + b / 16), Letter(b % 16 * 4 + c / 64), Letter(c % 64)]
  }

  /** Three bytes in four letters; two bytes in three and one pad; one byte in two and two pads. */
  function Encode(s: string): (e: string)
    requires Bytes(s)
    decreases |s|
  {
    if s == "" then ""
    else
      var a := s[0] as int;
      if |s| == 1 then [Letter(a / 4), Letter(a % 4 * 16), PAD, PAD]
      else
        var b := s[1] as int;
        if |s| == 2 then [Letter(a / 4), Letter(a % 4 * 16 + b / 16), Letter(b % 16 * 4), PAD]
        else
          var c := s[2] as int;
          Quad(a, b, c) + Encode(s[3..])
  }

  function Byte(high: nat, low: nat): char
    requires high + low < 256
  {
    (high + low) as char
  }

  function WithoutBreaks(s: string): string
  {
    if s == "" then ""
    else if s[0] == '\r' || s[0] == '\n' then WithoutBreaks(s[1..])
    else [s[0]] + WithoutBreaks(s[1..])
  }

  /** Line breaks are skipped and the last letter's unused bits are not looked at. */
  function Decode(s: string): Option<string>
  {
    Groups(WithoutBreaks(s))
  }

  function Groups(s: string): Option<string>
    decreases |s|
  {
    if s == "" then Some("")
    else if |s| < 4 then None
    else
      match (Value(s[0]), Value(s[1]))
      case (Some(a), Some(b)) =>
        var first := Byte(a * 4, b / 16);
        if s[2] == PAD then
          if s[3] == PAD && |s| == 4 then Some([first]) else None
        else
          (match Value(s[2])
           case None => None
           case Some(c) =>
             var second := Byte(b % 16 * 16, c / 4);
             if s[3] == PAD then
               if |s| == 4 then Some([first, second]) else None
             else
               (match (Value(s[3]), Groups(s[4..]))
                case (Some(d), Some(rest)) => Some([first, second, Byte(c % 4 * 64, d)] + rest)
                case _ => None))
      case _ => None
  }

  lemma {:induction false} NoBreaks(s: string)
    requires '\r' !in s && '\n' !in s
    ensures WithoutBreaks(s) == s
    decreases |s|
  {
    if s != "" {
      NoBreaks(s[1..]);
    }
  }

  predicate Safe(s: string)
  {
    forall i | 0 <= i < |s| :: Value(s[i]).Some? || s[i] == PAD
  }

  lemma QuadValues(a: nat, b: nat, c: nat)
    requires a < 256 && b < 256 && c < 256
    ensures var q := Quad(a, b, c);
      && Value(q[0]) == Some(a / 4) && Value(q[1]) == Some(a % 4 * 16 + b / 16)
      && Value(q[2]) == Some(b % 16 * 4 + c / 64) && Value(q[3]) == Some(c % 64)
      && Safe(q) && q[2] != PAD && q[3] != PAD
  {
    ValueOfLetter(a / 4);
    ValueOfLetter(a % 4 * 16 + b / 16);
    ValueOfLetter(b % 16 * 4 + c / 64);
    ValueOfLetter(c % 64);
    hide Letter, Value;
  }

  lemma {:induction false} EncodeLength(s: string)
    requires Bytes(s)
    ensures |Encode(s)| == (|s| + 2) / 3 * 4
    decreases |s|
  {
    hide Letter;
    if |s| > 2 {
      EncodeLength(s[3..]);
    }
  }

  /** Only letters and pads. */
  lemma {:induction false} EncodeSafe(s: string)
    requires Bytes(s)
    ensures Safe(Encode(s))
    decreases |s|
  {
    hide Letter, Value;
    if |s| > 2 {
      QuadValues(s[0] as int, s[1] as int, s[2] as int);
      EncodeSafe(s[3..]);
      hide Quad;
    } else if |s| == 2 {
      ValueOfLetter(s[0] as int / 4);
      ValueOfLetter(s[0] as int % 4 * 16 + s[1] as int / 16);
      ValueOfLetter(s[1] as int % 16 * 4);
    } else if |s| == 1 {
      ValueOfLetter(s[0] as int / 4);
      ValueOfLetter(s[0] as int % 4 * 16);
    }
  }

  lemma GroupOfOne(a: char)
    requires a as int < 256
    ensures Groups(Encode([a])) == Some([a])
  {
    ValueOfLetter(a as int / 4);
    ValueOfLetter(a as int % 4 * 16);
    hide Letter, Value;
  }

  lemma GroupOfTwo(a: char, b: char)
    requires a as int < 256 && b as int < 256
    ensures Groups(Encode([a, b])) == Some([a, b])
  {
    ValueOfLetter(a as int / 4);
    ValueOfLetter(a as int % 4 * 16 + b as int / 16);
    ValueOfLetter(b as int % 16 * 4);
    hide Letter, Value;
  }

  /** The three bytes are put together again. */
  lemma Reassembled(a: nat, b: nat, c: nat)
    requires a < 256 && b < 256 && c < 256
    ensures Byte(a / 4 * 4, (a % 4 * 16 + b / 16) / 16) == a as char
    ensures Byte((a % 4 * 16 + b / 16) % 16 * 16, (b % 16 * 4 + c / 64) / 4) == b as char
    ensures Byte((b % 16 * 4 + c / 64) % 4 * 64, c % 64) == c as char
  {}

  lemma GroupOfThree(a: char, b: char, c: char, rest: string)
    requires Bytes([a, b, c]) && Bytes(rest) && Groups(Encode(rest)) == Some(rest)
    ensures Bytes([a, b, c] + rest)
    ensures Groups(Encode([a, b, c] + rest)) == Some([a, b, c] + rest)
  {
    var s := [a, b, c] + rest;
    assert forall i | 0 <= i < 3 :: s[i] == [a, b, c][i];
    assert s[3..] == rest;
    assert a == [a, b, c][0] && b == [a, b, c][1] && c == [a, b, c][2];
    var q := Quad(a as int, b as int, c as int);
    assert Encode(s) == q + Encode(rest);
    QuadValues(a as int, b as int, c as int);
    Reassembled(a as int, b as int, c as int);
    GroupUnfolds(q, Encode(rest));
  }

  lemma GroupUnfolds(q: string, rest: string)
    requires |q| == 4 && q[2] != PAD && q[3] != PAD && Groups(rest).Some?
    requires Value(q[0]).Some? && Value(q[1]).Some? && Value(q[2]).Some? && Value(q[3]).Some?
    ensures var a, b, c, d := Value(q[0]).value, Value(q[1]).value, Value(q[2]).value, Value(q[3]).value;
      Groups(q + rest)
        == Some([Byte(a * 4, b / 16), Byte(b % 16 * 16, c / 4), Byte(c % 4 * 64, d)] + Groups(rest).value)
  {
    hide Value, Byte;
    var s := q + rest;
    assert s[0] == q[0] && s[1] == q[1] && s[2] == q[2] && s[3] == q[3] && s[4..] == rest;
  }

  lemma {:induction false} GroupsEncode(s: string)
    requires Bytes(s)
    ensures Groups(Encode(s)) == Some(s)
    decreases |s|
  {
    hide Encode, Groups;
    if s == "" {
      EmptyGroups();
    } else if |s| == 1 {
      assert s == [s[0]];
      GroupOfOne(s[0]);
    } else if |s| == 2 {
      assert s == [s[0], s[1]];
      GroupOfTwo(s[0], s[1]);
    } else {
      assert s == [s[0], s[1], s[2]] + s[3..];
      GroupsEncode(s[3..]);
      GroupOfThree(s[0], s[1], s[2], s[3..]);
    }
  }

  lemma EmptyGroups()
    ensures Groups(Encode("")) == Some("")
  {}

  lemma DecodeEncode(s: string)
    requires Bytes(s)
    ensures Decode(Encode(s)) == Some(s)
  {
    EncodeSafe(s);
    NoBreaks(Encode(s));
    GroupsEncode(s);
  }

  /** Letters in groups of four, the last one perhaps with one pad or two at its end. */
  predicate WellFormed(w: string)
  {
    && |w| % 4 == 0
    && forall i | 0 <= i < |w| ::
         Value(w[i]).Some? || (w[i] == PAD && i >= |w| - 2 && w[|w| - 1] == PAD)
  }

  /** A text decodes exactly if it is well-formed once its line breaks are taken out. */
  lemma {:induction false} GroupsExactly(w: string)
    ensures Groups(w).Some? <==> WellFormed(w)
    decreases |w|
  {
    hide Value, Byte;
    assert Value(PAD).None? by { PadIsNoLetter(); }
    if |w| >= 4 {
      var rest := w[4..];
      GroupsExactly(rest);
      assert forall i | 0 <= i < |rest| :: rest[i] == w[i + 4];
      if rest != [] && Value(w[2]).Some? && Value(w[3]).Some? {
        assert WellFormed(w) <==> Value(w[0]).Some? && Value(w[1]).Some? && WellFormed(rest) by {
          assert WellFormed(w) ==> forall i | 0 <= i < |rest| :: w[i + 4] == rest[i];
          assert WellFormed(rest) ==> forall i | 4 <= i < |w| :: w[i] == rest[i - 4];
        }
      }
    }
  }

  lemma PadIsNoLetter()
    ensures Value(PAD).None?
  {}

  lemma DecodesExactly(s: string)
    ensures Decode(s).Some? <==> WellFormed(WithoutBreaks(s))
  {
    GroupsExactly(WithoutBreaks(s));
  }

  /** Test vectors of section 10 of RFC 4648, and one for the two letters that differ from the standard alphabet. */
  lemma Vectors()
    ensures Encode("f") == "Zg==" && Encode("fo") == "Zm8=" && Encode("foo") == "Zm9v"
    ensures Encode("foobar") == "Zm9vYmFy"
    ensures Encode([251 as char, 255 as char]) == "-_8="
  {
    assert "foobar"[3..] == "bar" && "bar"[3..] == "" && "foo"[3..] == "";
    assert Encode("bar") == "YmFy";
  }

  const CAPITALS: string := "ABCDEFGHIJKLMNOPQRSTUVWXYZ"
  const SMALL: string := "abcdefghijklmnopqrstuvwxyz"
  const ALPHABET: string := CAPITALS + SMALL + "0123456789-_"

  lemma Capitals(n: nat)
    requires n < 26
    ensures CAPITALS[n] as int == 'A' as int + n
  {}

  lemma SmallLetters(n: nat)
    requires n < 26
    ensures SMALL[n] as int == 'a' as int + n
  {}

  lemma LastLetters(n: nat)
    requires n < 12
    ensures Letter(n + 52) == "0123456789-_"[n] == ALPHABET[n + 52]
  {
    assert ALPHABET[n + 52] == "0123456789-_"[n];
  }

  lemma LetterOf(n: nat)
    requires n < 64
    ensures Letter(n) == ALPHABET[n] && Value(ALPHABET[n]) == Some(n)
  {
    ValueOfLetter(n);
    hide Value;
    if n < 26 {
      Capitals(n);
    } else if n < 52 {
      SmallLetters(n - 26);
    } else {
      LastLetters(n - 52);
      hide Letter;
    }
  }

  /** The letters are those of the URL-safe alphabet and no others. */
  lemma Alphabet(c: char, n: nat)
    requires n < 64
    ensures |ALPHABET| == 64 && Letter(n) == ALPHABET[n] && Value(ALPHABET[n]) == Some(n)
    ensures Value(c).Some? <==> c in ALPHABET
  {
    LetterOf(n);
    if Value(c).Some? {
      LetterOf(Value(c).value);
      assert Letter(Value(c).value) == c;
    } else if c in ALPHABET {
      var i :| 0 <= i < 64 && ALPHABET[i] == c;
      LetterOf(i);
      assert false;
    }
  }
}
