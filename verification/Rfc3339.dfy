/** Points in time as the cursor prints them, in the format of section 5.6 of RFC 3339 with up to nine
    fractional digits. */
module Rfc3339 {
  import opened Basics
  import Digits
  import Text

  /** The civil date and time in a zone so many seconds east of Greenwich. */
  datatype Timestamp = Timestamp(
    year: int, month: nat, day: nat, hour: nat, minute: nat, second: nat, nanos: nat, offset: int)

  predicate Leap(year: int)
  {
    year % 4 == 0 && (year % 100 != 0 || year % 400 == 0)
  }

  function DaysIn(month: nat, year: int): nat
  {
    if month == 2 then (if Leap(year) then 29 else 28)
    else if month == 4 || month == 6 || month == 9 || month == 11 then 30
    else 31
  }

  predicate Valid(t: Timestamp)
  {
    && 1 <= t.month <= 12 && 1 <= t.day <= DaysIn(t.month, t.year)
    && t.hour < 24 && t.minute < 60 && t.second < 60 && t.nanos < 1000000000
    && -86400 < t.offset < 86400
  }

  /** Days of the years before this one, counted from the year 0. */
  function DaysBefore(year: int): int
  {
    365 * year + (year + 3) / 4 - (year + 99) / 100 + (year + 399) / 400
  }

  function DaysOfMonths(month: nat, year: int): nat
  {
    if month <= 1 then 0 else DaysIn(month - 1, year) + DaysOfMonths(month - 1, year)
  }

  /** Nanoseconds from the start of the year 0 at Greenwich. */
  function Instant(t: Timestamp): int
  {
    var days := DaysBefore(t.year) + DaysOfMonths(t.month, t.year) + t.day - 1;
    (((days * 24 + t.hour) * 60 + t.minute) * 60 + t.second - t.offset) * 1000000000 + t.nanos
  }

  // ----- The order of instants -----

  /** Is the earlier date and time the first, field by field? */
  predicate Earlier(t: Timestamp, u: Timestamp)
  {
    if t.year != u.year then t.year < u.year
    else if t.month != u.month then t.month < u.month
    else if t.day != u.day then t.day < u.day
    else if t.hour != u.hour then t.hour < u.hour
    else if t.minute != u.minute then t.minute < u.minute
    else if t.second != u.second then t.second < u.second
    else t.nanos < u.nanos
  }

  /** Thirty days has September, and so on. */
  lemma MonthLengths(month: nat, year: int)
    requires 1 <= month <= 12
    ensures month != 2 ==> DaysIn(month, year) == 30 + (month + month / 8) % 2
    ensures month == 2 ==>
      DaysIn(month, year) == if year % 400 == 0 || (year % 4 == 0 && year % 100 != 0) then 29 else 28
  {
    if month != 2 {
      hide Leap;
      assert month / 8 == if month < 8 then 0 else 1;
      assert month % 2 == (if month in {1, 3, 5, 7, 9, 11} then 1 else 0);
      assert month >= 8 ==> (month + 1) % 2 == 1 - month % 2;
    }
  }

  lemma {:induction false} MonthsAdd(a: nat, b: nat, year: int)
    requires a < b
    ensures DaysOfMonths(a, year) + (if a >= 1 then DaysIn(a, year) else 0) <= DaysOfMonths(b, year)
    decreases b
  {
    if a + 1 < b {
      MonthsAdd(a, b - 1, year);
    }
  }

  lemma YearLength(year: int)
    ensures DaysOfMonths(12, year) + DaysIn(12, year) == 365 + if Leap(year) then 1 else 0
  {
    var y := year;
    assert DaysOfMonths(4, y) == DaysIn(1, y) + DaysIn(2, y) + DaysIn(3, y) by {
      assert DaysOfMonths(2, y) == DaysIn(1, y);
    }
    assert DaysOfMonths(8, y) == DaysOfMonths(4, y) + DaysIn(4, y) + DaysIn(5, y) + DaysIn(6, y) + DaysIn(7, y) by {
      assert DaysOfMonths(6, y) == DaysOfMonths(4, y) + DaysIn(4, y) + DaysIn(5, y);
    }
    assert DaysOfMonths(12, y) == DaysOfMonths(8, y) + DaysIn(8, y) + DaysIn(9, y) + DaysIn(10, y) + DaysIn(11, y) by {
      assert DaysOfMonths(10, y) == DaysOfMonths(8, y) + DaysIn(8, y) + DaysIn(9, y);
    }
  }

  /** Counting multiples up to a year and up to the next. */
  lemma Multiples(year: int, k: nat)
    requires k > 0
    ensures (year + k) / k == (year + k - 1) / k + if year % k == 0 then 1 else 0
  {
    var q, r := year / k, year % k;
    QuotientIs(year + k, k, q + 1, r);
    if r == 0 {
      QuotientIs(year + k - 1, k, q, k - 1);
    } else {
      QuotientIs(year + k - 1, k, q + 1, r - 1);
    }
  }

  lemma QuotientIs(x: int, k: int, q: int, r: int)
    requires k > 0 && x == k * q + r && 0 <= r < k
    ensures x / k == q
  {
    var d := x / k - q;
    assert k * d == r - x % k by {
      assert x == k * (x / k) + x % k;
      assert k * (x / k) == k * q + k * d;
    }
    assert -k < k * d < k;
  }

  lemma Centuries(year: int)
    ensures year % 400 == 0 ==> year % 100 == 0
    ensures year % 100 == 0 ==> year % 4 == 0
  {}

  lemma NextYear(year: int)
    ensures DaysBefore(year + 1) == DaysBefore(year) + 365 + if Leap(year) then 1 else 0
  {
    Multiples(year, 4);
    Multiples(year, 100);
    Multiples(year, 400);
    Centuries(year);
  }

  lemma {:induction false} YearsAdd(a: int, b: int)
    requires a < b
    ensures DaysBefore(a) + 365 + (if Leap(a) then 1 else 0) <= DaysBefore(b)
    decreases b - a
  {
    if a + 1 < b {
      YearsAdd(a, b - 1);
      NextYear(b - 1);
    } else {
      NextYear(a);
    }
  }

  function DayNumber(t: Timestamp): int
  {
    DaysBefore(t.year) + DaysOfMonths(t.month, t.year) + t.day - 1
  }

  /** Later dates have greater numbers. */
  lemma LaterDate(t: Timestamp, u: Timestamp)
    requires Valid(t) && Valid(u)
    requires t.year < u.year || (t.year == u.year && (t.month < u.month || (t.month == u.month && t.day < u.day)))
    ensures DayNumber(t) < DayNumber(u)
  {
    hide DaysBefore, DaysIn, DaysOfMonths;
    if t.year < u.year {
      YearsAdd(t.year, u.year);
      YearLength(t.year);
      if t.month < 12 {
        MonthsAdd(t.month, 12, t.year);
      }
    } else if t.month < u.month {
      MonthsAdd(t.month, u.month, t.year);
    }
  }

  lemma EarlierFirst(t: Timestamp, u: Timestamp)
    requires Valid(t) && Valid(u) && t.offset == u.offset && Earlier(t, u)
    ensures Instant(t) < Instant(u)
  {
    assert Instant(t) == ((DayNumber(t) * 24 + t.hour) * 60 + t.minute) * 60000000000
                         + (t.second - t.offset) * 1000000000 + t.nanos;
    assert Instant(u) == ((DayNumber(u) * 24 + u.hour) * 60 + u.minute) * 60000000000
                         + (u.second - u.offset) * 1000000000 + u.nanos;
    var sameDate := t.year == u.year && t.month == u.month && t.day == u.day;
    if !sameDate {
      LaterDate(t, u);
    }
    hide Instant, DayNumber, DaysIn;
  }

  /** In one zone instants are ordered like their fields. */
  lemma InstantOrder(t: Timestamp, u: Timestamp)
    requires Valid(t) && Valid(u) && t.offset == u.offset
    ensures Instant(t) < Instant(u) <==> Earlier(t, u)
    ensures Instant(t) == Instant(u) <==> t == u
  {
    hide Instant, Valid;
    if Earlier(t, u) {
      EarlierFirst(t, u);
    } else if Earlier(u, t) {
      EarlierFirst(u, t);
    } else {
      assert t == u;
    }
  }

  function NextDay(t: Timestamp): Timestamp
  {
    if t.day < DaysIn(t.month, t.year) then t.(day := t.day + 1)
    else if t.month < 12 then t.(month := t.month + 1, day := 1)
    else t.(year := t.year + 1, month := 1, day := 1)
  }

  function NextHour(t: Timestamp): Timestamp
  {
    if t.hour < 23 then t.(hour := t.hour + 1) else NextDay(t.(hour := 0))
  }

  function NextMinute(t: Timestamp): Timestamp
  {
    if t.minute < 59 then t.(minute := t.minute + 1) else NextHour(t.(minute := 0))
  }

  function NextSecond(t: Timestamp): Timestamp
  {
    if t.second < 59 then t.(second := t.second + 1) else NextMinute(t.(second := 0))
  }

  function NextNano(t: Timestamp): Timestamp
  {
    if t.nanos < 999999999 then t.(nanos := t.nanos + 1) else NextSecond(t.(nanos := 0))
  }

  lemma DayAdds(t: Timestamp)
    requires Valid(t)
    ensures DayNumber(NextDay(t)) == DayNumber(t) + 1 && Valid(NextDay(t))
  {
    YearLength(t.year);
    NextYear(t.year);
    hide DaysBefore;
  }

  /** The next day, hour, minute, second and nanosecond of the calendar, over the ends of months and years and in leap
      years, are that much later. */
  lemma InstantCounts(t: Timestamp)
    requires Valid(t)
    ensures Instant(NextDay(t)) == Instant(t) + 86400 * 1000000000
    ensures Instant(NextHour(t)) == Instant(t) + 3600 * 1000000000
    ensures Instant(NextMinute(t)) == Instant(t) + 60 * 1000000000
    ensures Instant(NextSecond(t)) == Instant(t) + 1000000000
    ensures Instant(NextNano(t)) == Instant(t) + 1
  {
    hide Instant, NextHour, NextMinute, NextSecond, NextDay;
    HourCounts(t);
    MinuteCounts(t);
    SecondCounts(t);
    if t.nanos < 999999999 {
      assert Instant(t.(nanos := t.nanos + 1)) == Instant(t) + 1 by { WithNanos(t, t.nanos + 1); }
    } else {
      SecondCounts(t.(nanos := 0));
      WithNanos(t, 0);
    }
  }

  lemma WithNanos(t: Timestamp, nanos: nat)
    ensures Instant(t.(nanos := nanos)) == Instant(t) + nanos - t.nanos
  {
    hide DaysBefore, DaysOfMonths;
  }

  lemma SecondCounts(t: Timestamp)
    requires Valid(t)
    ensures Instant(NextSecond(t)) == Instant(t) + 1000000000
  {
    hide NextMinute, DaysBefore, DaysOfMonths, DaysIn;
    MinuteCounts(t.(second := 0));
  }

  lemma MinuteCounts(t: Timestamp)
    requires Valid(t)
    ensures Instant(NextMinute(t)) == Instant(t) + 60 * 1000000000
  {
    hide NextHour, DaysBefore, DaysOfMonths, DaysIn;
    HourCounts(t.(minute := 0));
  }

  lemma HourCounts(t: Timestamp)
    requires Valid(t)
    ensures Instant(NextDay(t)) == Instant(t) + 86400 * 1000000000
    ensures Instant(NextHour(t)) == Instant(t) + 3600 * 1000000000
  {
    DayCounts(t);
    DayCounts(t.(hour := 0));
    hide DaysBefore, DaysOfMonths, DaysIn, NextDay;
  }

  lemma DayCounts(t: Timestamp)
    requires Valid(t)
    ensures Instant(NextDay(t)) == Instant(t) + 86400 * 1000000000
  {
    DayAdds(t);
    hide DaysIn, DaysBefore, DaysOfMonths, Valid;
  }

  // ----- Printing -----

  function Two(n: nat): (s: string)
    ensures |s| == 2
  {
    Digits.Print(n, 2, 10)
  }

  /** At least four digits. */
  function PrintYear(year: int): string
  {
    var y := if year < 0 then -year else year;
    (if year < 0 then "-" else "") + if y < 10000 then Digits.Print(y, 4, 10) else Text.PrintNat(y)
  }

  function TrimZeros(s: string): (t: string)
    ensures t <= s
    ensures t != "" ==> t[|t| - 1] != '0'
    decreases |s|
  {
    if s != "" && s[|s| - 1] == '0' then TrimZeros(s[..|s| - 1]) else s
  }

  function PrintFraction(nanos: nat): string
  {
    if nanos == 0 then "" else "." + TrimZeros(Digits.Print(nanos, 9, 10))
  }

  /** Hours and minutes; the seconds of the offset are not printed. */
  function PrintZone(offset: int): string
  {
    if offset == 0 then "Z"
    else
      var minutes := if offset < 0 then -offset / 60 else offset / 60;
      [if offset < 0 && minutes > 0 then '-' else '+'] + Two(minutes / 60) + ":" + Two(minutes % 60)
  }

  function PrintDate(t: Timestamp): string
  {
    PrintYear(t.year) + "-" + Two(t.month) + "-" + Two(t.day)
  }

  function PrintClock(t: Timestamp): (s: string)
    ensures |s| == 8
  {
    Two(t.hour) + ":" + Two(t.minute) + ":" + Two(t.second)
  }

  function Print(t: Timestamp): string
  {
    PrintDate(t) + "T" + PrintClock(t) + PrintFraction(t.nanos) + PrintZone(t.offset)
  }

  // ----- Parsing -----

  function Number(s: string, lo: nat, hi: nat): Option<nat>
  {
    match Digits.Parse(s, 10)
    case None => None
    case Some(n) => if lo <= n <= hi then Some(n) else None
  }

  predicate IsDigit(c: char)
  {
    '0' <= c <= '9'
  }

  /** How many digits a text starts with. */
  function Run(s: string): (n: nat)
    ensures n <= |s|
  {
    if s == "" || !IsDigit(s[0]) then 0 else 1 + Run(s[1..])
  }

  function Zeros(n: nat): (s: string)
    ensures |s| == n
  {
    seq(n, _ => '0')
  }

  /** Nine digits, filled up with zeros or cut off. */
  function Nine(s: string): (t: string)
    ensures |t| == 9
  {
    if |s| < 9 then s + Zeros(9 - |s|) else s[..9]
  }

  /** The fraction at the start of a text, and what follows it. */
  function ParseFraction(s: string): (nat, string)
  {
    var n := if s != "" && s[0] == '.' then Run(s[1..]) else 0;
    if n == 0 then (0, s)
    else
      match Digits.Parse(Nine(s[1..n + 1]), 10)
      case Some(nanos) => (nanos, s[n + 1..])
      case None => (0, s[n + 1..])
  }

  function ParseZone(s: string): Option<int>
  {
    if s == "Z" then Some(0)
    else if |s| != 6 || (s[0] != '+' && s[0] != '-') || s[3] != ':' then None
    else
      match (Number(s[1..3], 0, 23), Number(s[4..6], 0, 59))
      case (Some(h), Some(m)) =>
        var seconds: int := (h * 60 + m) * 60;
        Some(if s[0] == '-' then -seconds else seconds)
      case _ => None
  }

  function ParseDate(s: string): Option<(nat, nat, nat)>
    requires |s| == 10
  {
    if s[4] != '-' || s[7] != '-' then None
    else
      match (Number(s[0..4], 0, 9999), Number(s[5..7], 1, 12))
      case (Some(y), Some(m)) =>
        (match Number(s[8..10], 1, DaysIn(m, y))
         case Some(d) => Some((y, m, d))
         case None => None)
      case _ => None
  }

  function ParseClock(s: string): Option<(nat, nat, nat)>
    requires |s| == 8
  {
    if s[2] != ':' || s[5] != ':' then None
    else
      match (Number(s[0..2], 0, 23), Number(s[3..5], 0, 59), Number(s[6..8], 0, 59))
      case (Some(h), Some(m), Some(sec)) => Some((h, m, sec))
      case _ => None
  }

  function Parse(s: string): Option<Timestamp>
  {
    if |s| < 19 || s[10] != 'T' then None
    else
      var (nanos, zone) := ParseFraction(s[19..]);
      match (ParseDate(s[..10]), ParseClock(s[11..19]), ParseZone(zone))
      case (Some(d), Some(c), Some(offset)) => Some(Timestamp(d.0, d.1, d.2, c.0, c.1, c.2, nanos, offset))
      case _ => None
  }

  // ----- The round trip -----

  lemma TwoParses(n: nat)
    requires n < 100
    ensures Digits.Parse(Two(n), 10) == Some(n)
  {
    assert Digits.Pow(10, 2) == 100 by {
      assert Digits.Pow(10, 1) == 10 * Digits.Pow(10, 0);
    }
    Digits.ParsePrint(n, 2, 10);
  }

  lemma PowerOfTen()
    ensures Digits.Pow(10, 4) == 10000 && Digits.Pow(10, 9) == 1000000000
  {
    assert Digits.Pow(10, 3) == 10 * (10 * (10 * Digits.Pow(10, 0)));
    assert Digits.Pow(10, 6) == 10 * (10 * (10 * Digits.Pow(10, 3)));
    assert Digits.Pow(10, 9) == 10 * (10 * (10 * Digits.Pow(10, 6)));
  }

  /** The part of an offset that is printed. */
  function WholeMinutes(offset: int): int
  {
    if offset < 0 then -(-offset / 60 * 60) else offset / 60 * 60
  }

  lemma NumberOfTwo(n: nat, lo: nat, hi: nat)
    requires n < 100
    ensures Number(Two(n), lo, hi) == if lo <= n <= hi then Some(n) else None
  {
    TwoParses(n);
  }

  lemma ZoneParses(offset: int)
    requires -86400 < offset < 86400
    ensures ParseZone(PrintZone(offset)) == Some(WholeMinutes(offset))
  {
    hide Number, Two;
    if offset != 0 {
      var minutes := if offset < 0 then -offset / 60 else offset / 60;
      var h, m := minutes / 60, minutes % 60;
      NumberOfTwo(h, 0, 23);
      NumberOfTwo(m, 0, 59);
      var s := PrintZone(offset);
      assert s[1..3] == Two(h) && s[4..6] == Two(m);
    }
  }

  lemma {:induction false} RunOfDigits(s: string, rest: string)
    requires forall i | 0 <= i < |s| :: IsDigit(s[i])
    requires rest != "" && !IsDigit(rest[0])
    ensures Run(s + rest) == |s|
    decreases |s|
  {
    if s == "" {
      assert s + rest == rest;
    } else {
      RunOfDigits(s[1..], rest);
      assert (s + rest)[1..] == s[1..] + rest;
    }
  }

  /** The zeros cut off at the end are the ones filled in again. */
  lemma {:induction false} ZerosComeBack(s: string)
    ensures TrimZeros(s) + Zeros(|s| - |TrimZeros(s)|) == s
    decreases |s|
  {
    if s != "" && s[|s| - 1] == '0' {
      ZerosComeBack(s[..|s| - 1]);
      var t := TrimZeros(s);
      assert Zeros(|s| - |t|) == Zeros(|s| - 1 - |t|) + "0";
      assert s == s[..|s| - 1] + "0";
    }
  }

  lemma PrintedDigits(v: nat, width: nat)
    ensures forall i | 0 <= i < width :: IsDigit(Digits.Print(v, width, 10)[i])
  {
    Digits.PrintIsDigits(v, width, 10);
    forall i | 0 <= i < width ensures IsDigit(Digits.Print(v, width, 10)[i]) {
      assert Digits.CharDigit(Digits.Print(v, width, 10)[i], 10).Some?;
    }
  }

  lemma NanosParse(nanos: nat)
    requires nanos < 1000000000
    ensures Digits.Parse(Digits.Print(nanos, 9, 10), 10) == Some(nanos)
  {
    hide Digits.Print, Digits.Parse;
    PowerOfTen();
    hide Digits.Pow;
    Digits.ParsePrint(nanos, 9, 10);
  }

  lemma FilledAgain(s: string)
    requires |s| == 9
    ensures Nine(TrimZeros(s)) == s && (TrimZeros(s) == "" ==> s == Zeros(9))
  {
    ZerosComeBack(s);
    var t := TrimZeros(s);
    hide TrimZeros;
    if |t| == 9 {
      assert t == s && t[..9] == t;
    }
  }

  /** A number that is not zero keeps some digit. */
  lemma SomethingKept(nanos: nat)
    requires 0 < nanos < 1000000000
    ensures var full := Digits.Print(nanos, 9, 10);
      Digits.Parse(full, 10) == Some(nanos) && TrimZeros(full) != "" && Nine(TrimZeros(full)) == full
  {
    hide Digits.Print, Digits.Parse, TrimZeros, Nine, Zeros;
    NanosParse(nanos);
    FilledAgain(Digits.Print(nanos, 9, 10));
    ZerosAreZero(9);
  }

  lemma FractionParses(nanos: nat, zone: string)
    requires nanos < 1000000000 && zone != "" && !IsDigit(zone[0]) && zone[0] != '.'
    ensures ParseFraction(PrintFraction(nanos) + zone) == (nanos, zone)
  {
    hide Digits.Print, Digits.Parse, TrimZeros, Nine;
    if nanos == 0 {
      assert "" + zone == zone;
    } else {
      SomethingKept(nanos);
      PrintedDigits(nanos, 9);
      var kept := TrimZeros(Digits.Print(nanos, 9, 10));
      RunOfDigits(kept, zone);
      var s := "." + kept + zone;
      assert s[1..] == kept + zone;
      assert s[1..|kept| + 1] == kept && s[|kept| + 1..] == zone;
    }
  }

  lemma {:induction false} ZerosAreZero(n: nat)
    ensures Digits.Parse(Zeros(n), 10) == Some(0)
  {
    if n > 0 {
      ZerosAreZero(n - 1);
      assert Zeros(n)[..n - 1] == Zeros(n - 1);
    }
  }

  lemma YearParses(year: nat)
    requires year <= 9999
    ensures Digits.Parse(Digits.Print(year, 4, 10), 10) == Some(year)
  {
    hide Digits.Print, Digits.Parse;
    PowerOfTen();
    hide Digits.Pow;
    Digits.ParsePrint(year, 4, 10);
  }

  /** A date is read field by field. */
  lemma DateOfFields(year: string, month: string, day: string, y: nat, m: nat, d: nat)
    requires |year| == 4 && |month| == 2 && |day| == 2
    requires Number(year, 0, 9999) == Some(y) && Number(month, 1, 12) == Some(m)
    requires Number(day, 1, DaysIn(m, y)) == Some(d)
    ensures ParseDate(year + "-" + month + "-" + day) == Some((y, m, d))
  {
    hide Number, DaysIn;
    var s := year + "-" + month + "-" + day;
    assert s[0..4] == year && s[5..7] == month && s[8..10] == day;
  }

  lemma DateParses(t: Timestamp)
    requires Valid(t) && 0 <= t.year <= 9999
    ensures |PrintDate(t)| == 10 && ParseDate(PrintDate(t)) == Some((t.year, t.month, t.day))
  {
    hide Digits.Print, Digits.Parse, Two, ParseDate, DaysIn;
    YearParses(t.year);
    var year := Digits.Print(t.year, 4, 10);
    assert Number(year, 0, 9999) == Some(t.year);
    assert t.day < 100 by { ShortMonth(t.month, t.year); }
    NumberOfTwo(t.month, 1, 12);
    NumberOfTwo(t.day, 1, DaysIn(t.month, t.year));
    hide Number;
    DateOfFields(year, Two(t.month), Two(t.day), t.year, t.month, t.day);
    assert PrintYear(t.year) == year;
  }

  lemma ShortMonth(month: nat, year: int)
    ensures DaysIn(month, year) <= 31
  {}

  lemma ClockParses(t: Timestamp)
    requires Valid(t)
    ensures ParseClock(PrintClock(t)) == Some((t.hour, t.minute, t.second))
  {
    hide Number, Two;
    var c := PrintClock(t);
    assert c[0..2] == Two(t.hour) && c[3..5] == Two(t.minute) && c[6..8] == Two(t.second);
    NumberOfTwo(t.hour, 0, 23);
    NumberOfTwo(t.minute, 0, 59);
    NumberOfTwo(t.second, 0, 59);
  }

  lemma Slices(date: string, clock: string, rest: string)
    requires |date| == 10 && |clock| == 8
    ensures var s := date + "T" + clock + rest;
      |s| >= 19 && s[..10] == date && s[10] == 'T' && s[11..19] == clock && s[19..] == rest
  {}

  /** Reading what was printed gives back every field, the offset without its seconds. */
  lemma ParsePrint(t: Timestamp)
    requires Valid(t) && 0 <= t.year <= 9999
    ensures Parse(Print(t)) == Some(t.(offset := WholeMinutes(t.offset)))
  {
    DateParses(t);
    ClockParses(t);
    ZoneParses(t.offset);
    ZoneStart(t.offset);
    FractionParses(t.nanos, PrintZone(t.offset));
    hide PrintDate, PrintClock, PrintFraction, PrintZone, ParseDate, ParseClock, ParseFraction, ParseZone, Valid,
         WholeMinutes, IsDigit;
    var rest := PrintFraction(t.nanos) + PrintZone(t.offset);
    assert Print(t) == PrintDate(t) + "T" + PrintClock(t) + rest;
    Slices(PrintDate(t), PrintClock(t), rest);
  }

  lemma ZoneStart(offset: int)
    ensures PrintZone(offset) != "" && !IsDigit(PrintZone(offset)[0]) && PrintZone(offset)[0] != '.'
  {}

  lemma NotParsed(s: string, i: nat)
    requires i < |s| && Digits.CharDigit(s[i], 10).None?
    ensures Digits.Parse(s, 10).None?
    decreases |s|
  {
    if i < |s| - 1 {
      NotParsed(s[..|s| - 1], i);
    }
  }

  lemma LongYear(year: nat)
    requires year >= 10000
    ensures |Text.PrintNat(year)| >= 5
  {
    assert |Text.PrintNat(year / 10)| >= 4 by {
      assert |Text.PrintNat(year / 10 / 10)| >= 3 by {
        assert |Text.PrintNat(year / 10 / 10 / 10)| >= 2;
      }
    }
  }

  /** In place of the first dash comes a fifth digit, or a minus comes before the first. */
  lemma OddYear(year: int)
    requires year < 0 || year > 9999
    ensures var y := PrintYear(year); |y| >= 5 && if year < 0 then y[0] == '-' else IsDigit(y[4])
  {
    var y := if year < 0 then -year else year;
    if y >= 10000 {
      LongYear(y);
    }
  }

  /** A year that does not have four digits is not read back. */
  lemma OtherYears(t: Timestamp)
    requires t.year < 0 || t.year > 9999
    ensures Parse(Print(t)).None?
  {
    OddYear(t.year);
    YearFirst(t);
    hide PrintYear, ParseClock, ParseFraction, ParseZone, ParseDate, Print;
    var y, s := PrintYear(t.year), Print(t);
    assert s[0] == y[0] && s[4] == y[4];
    if |s| >= 19 {
      NoDate(s[..10], t.year < 0);
    }
  }

  lemma YearFirst(t: Timestamp)
    ensures PrintYear(t.year) <= Print(t)
  {
    hide PrintYear, PrintClock, PrintFraction, PrintZone, Two;
    assert PrintYear(t.year) <= PrintDate(t);
    hide PrintDate;
    assert PrintDate(t) <= Print(t);
  }

  lemma NoDate(d: string, negative: bool)
    requires |d| == 10 && if negative then d[0] == '-' else IsDigit(d[4])
    ensures ParseDate(d).None?
  {
    if negative {
      assert d[0..4][0] == '-';
      NotParsed(d[0..4], 0);
    }
  }

  /** What is read is a date and time of the calendar, with a four-digit year and an offset of whole minutes. */
  lemma ParsedIsValid(s: string)
    requires Parse(s).Some?
    ensures var t := Parse(s).value; Valid(t) && 0 <= t.year <= 9999 && t.offset % 60 == 0
  {
    var (nanos, zone) := ParseFraction(s[19..]);
    FractionBounded(s[19..]);
    ZoneBounded(zone);
    hide ParseFraction, ParseZone, Number, DaysIn;
    NumberBounded(s[..10][0..4], 0, 9999);
    NumberBounded(s[..10][5..7], 1, 12);
    NumberBounded(s[..10][8..10], 1, DaysIn(Parse(s).value.month, Parse(s).value.year));
    NumberBounded(s[11..19][0..2], 0, 23);
    NumberBounded(s[11..19][3..5], 0, 59);
    NumberBounded(s[11..19][6..8], 0, 59);
  }

  lemma NumberBounded(s: string, lo: nat, hi: nat)
    ensures Number(s, lo, hi).Some? ==> lo <= Number(s, lo, hi).value <= hi
  {}

  lemma FractionBounded(s: string)
    ensures ParseFraction(s).0 < 1000000000
  {
    var n := if s != "" && s[0] == '.' then Run(s[1..]) else 0;
    if n > 0 && Digits.Parse(Nine(s[1..n + 1]), 10).Some? {
      Digits.ParseBound(Nine(s[1..n + 1]), 10);
      PowerOfTen();
    }
    hide Digits.Parse, Nine, Run;
  }

  lemma ZoneBounded(s: string)
    ensures ParseZone(s).Some? ==> -86400 < ParseZone(s).value < 86400 && ParseZone(s).value % 60 == 0
  {
    hide Number;
    if |s| == 6 {
      NumberBounded(s[1..3], 0, 23);
      NumberBounded(s[4..6], 0, 59);
    }
  }

  /** A printed point in time contains no comma. */
  lemma NoComma(t: Timestamp)
    ensures Plain(Print(t))
  {
    hide Digits.Print;
    PlainYear(t.year);
    PlainDigits(t.month, 2);
    PlainDigits(t.day, 2);
    PlainDigits(t.hour, 2);
    PlainDigits(t.minute, 2);
    PlainDigits(t.second, 2);
    hide PrintYear;
    assert Plain(PrintDate(t)) && Plain(PrintClock(t));
    PlainFraction(t.nanos);
    PlainZone(t.offset);
    hide PrintDate, PrintClock, PrintFraction, PrintZone;
  }

  lemma PlainFraction(nanos: nat)
    ensures Plain(PrintFraction(nanos))
  {
    hide Digits.Print;
    PlainDigits(nanos, 9);
    assert TrimZeros(Digits.Print(nanos, 9, 10)) <= Digits.Print(nanos, 9, 10);
  }

  lemma PlainZone(offset: int)
    ensures Plain(PrintZone(offset))
  {
    hide Digits.Print;
    var minutes := if offset < 0 then -offset / 60 else offset / 60;
    PlainDigits(minutes / 60, 2);
    PlainDigits(minutes % 60, 2);
  }

  predicate Plain(s: string)
  {
    forall i | 0 <= i < |s| :: s[i] != ',' && s[i] as int < 128
  }

  lemma PlainDigits(v: nat, width: nat)
    ensures Plain(Digits.Print(v, width, 10))
  {
    PrintedDigits(v, width);
  }

  lemma PlainYear(year: int)
    ensures Plain(PrintYear(year))
  {
    PlainDigits(if year < 0 then -year else year, 4);
  }
}
