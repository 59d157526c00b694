/** Calendar days as the date library sees them: proleptic Gregorian
    (year, month, day) triples for four-digit years, their ordinal day
    number, the next day, and the `yyyy-MM-dd` text form that
    `format(date, 'yyyy-MM-dd')` writes and `parseISO` reads back. */
module Calendar {
  import opened Wrappers

  datatype Date = Date(year: int, month: int, day: int)

  predicate IsLeapYear(y: int) {
    y % 4 == 0 && (y % 100 != 0 || y % 400 == 0)
  }

  function YearLength(y: int): int {
    if IsLeapYear(y) then 366 else 365
  }

  function DaysInMonth(y: int, m: int): int {
    if m == 2 then (if IsLeapYear(y) then 29 else 28)
    else if m == 4 || m == 6 || m == 9 || m == 11 then 30
    else 31
  }

  /** A real calendar day with a year that prints in four digits. */
  predicate Valid(d: Date) {
    0 <= d.year <= 9999 && 1 <= d.month <= 12 && 1 <= d.day <= DaysInMonth(d.year, d.month)
  }

  const LastDate := Date(9999, 12, 31)

  function DaysBeforeYear(y: nat): nat {
    if y == 0 then 0 else DaysBeforeYear(y - 1) + YearLength(y - 1)
  }

  function DaysBeforeMonth(y: int, m: int): int
    requires 1 <= m <= 12
  {
    (if m == 1 then 0 else if m == 2 then 31 else if m == 3 then 59
     else if m == 4 then 90 else if m == 5 then 120 else if m == 6 then 151
     else if m == 7 then 181 else if m == 8 then 212 else if m == 9 then 243
     else if m == 10 then 273 else if m == 11 then 304 else 334)
    + (if m > 2 && IsLeapYear(y) then 1 else 0)
  }

  /** Days since 0000-01-01. */
  function DayNumber(d: Date): int
    requires Valid(d)
  {
    DaysBeforeYear(d.year) + DaysBeforeMonth(d.year, d.month) + d.day - 1
  }

  /** The next calendar day. */
  function Succ(d: Date): Date {
    if d.day < DaysInMonth(d.year, d.month) then Date(d.year, d.month, d.day + 1)
    else if d.month < 12 then Date(d.year, d.month + 1, 1)
    else Date(d.year + 1, 1, 1)
  }

  lemma MonthStep(y: int, m: int)
    requires 1 <= m < 12
    ensures DaysBeforeMonth(y, m + 1) == DaysBeforeMonth(y, m) + DaysInMonth(y, m)
  {
  }

  lemma MonthBound(y: int, m: int)
    requires 1 <= m <= 12
    ensures 0 <= DaysBeforeMonth(y, m)
    ensures DaysBeforeMonth(y, m) + DaysInMonth(y, m) <= YearLength(y)
    ensures m == 12 ==> DaysBeforeMonth(y, m) + DaysInMonth(y, m) == YearLength(y)
  {
  }

  lemma {:induction false} MonthStrict(y: int, a: int, b: int)
    requires 1 <= a < b <= 12
    ensures DaysBeforeMonth(y, a) + DaysInMonth(y, a) <= DaysBeforeMonth(y, b)
    decreases b
  {
    MonthStep(y, b - 1);
    if a < b - 1 {
      MonthStrict(y, a, b - 1);
    }
  }

  lemma {:induction false} YearStrict(a: nat, b: nat)
    requires a < b
    ensures DaysBeforeYear(a) + YearLength(a) <= DaysBeforeYear(b)
    decreases b
  {
    if a < b - 1 {
      YearStrict(a, b - 1);
    }
  }

  /** A day's number falls inside its own year. */
  lemma WithinYear(d: Date)
    requires Valid(d)
    ensures DaysBeforeYear(d.year) <= DayNumber(d) < DaysBeforeYear(d.year) + YearLength(d.year)
  {
    MonthBound(d.year, d.month);
  }

  /** Earlier dates have smaller day numbers. */
  lemma DayNumberOrder(a: Date, b: Date)
    requires Valid(a) && Valid(b)
    requires a.year < b.year || (a.year == b.year && (a.month < b.month || (a.month == b.month && a.day < b.day)))
    ensures DayNumber(a) < DayNumber(b)
  {
    WithinYear(a);
    WithinYear(b);
    if a.year < b.year {
      YearStrict(a.year, b.year);
    } else if a.month < b.month {
      MonthStrict(a.year, a.month, b.month);
    }
  }

  /** Different valid dates have different day numbers. */
  lemma DayNumberInjective(a: Date, b: Date)
    requires Valid(a) && Valid(b) && DayNumber(a) == DayNumber(b)
    ensures a == b
  {
    if a != b {
      if a.year < b.year || (a.year == b.year && (a.month < b.month || (a.month == b.month && a.day < b.day))) {
        DayNumberOrder(a, b);
      } else {
        DayNumberOrder(b, a);
      }
    }
  }

  /** No valid date comes after 9999-12-31. */
  lemma LastDateIsLast(d: Date)
    requires Valid(d)
    ensures Valid(LastDate) && DayNumber(d) <= DayNumber(LastDate)
  {
    if d != LastDate {
      assert d.year < 9999 || (d.month < 12 || d.day < 31);
      DayNumberOrder(d, LastDate);
    }
  }

  /** The day after any day but the last is a valid day, one number on. */
  lemma SuccNext(d: Date)
    requires Valid(d) && d != LastDate
    ensures Valid(Succ(d)) && DayNumber(Succ(d)) == DayNumber(d) + 1
  {
    if d.day < DaysInMonth(d.year, d.month) {
    } else if d.month < 12 {
      MonthStep(d.year, d.month);
    } else {
      MonthBound(d.year, 12);
    }
  }

  /** `eachDayOfInterval({start, end})`: every day from `start` to `end`,
      both included, in calendar order. */
  function EachDayOfInterval(start: Date, end: Date): (r: seq<Date>)
    requires Valid(start) && Valid(end) && DayNumber(start) <= DayNumber(end)
    ensures |r| == DayNumber(end) - DayNumber(start) + 1
    ensures forall k :: 0 <= k < |r| ==> Valid(r[k]) && DayNumber(r[k]) == DayNumber(start) + k
    decreases DayNumber(end) - DayNumber(start)
  {
    if DayNumber(start) == DayNumber(end) then [start]
    else
      LastDateIsLast(end);
      SuccNext(start);
      [start] + EachDayOfInterval(Succ(start), end)
  }

  /** The interval holds exactly the valid days between its ends. */
  lemma EachDayMembership(start: Date, end: Date, d: Date)
    requires Valid(start) && Valid(end) && DayNumber(start) <= DayNumber(end)
    ensures d in EachDayOfInterval(start, end) <==>
              Valid(d) && DayNumber(start) <= DayNumber(d) <= DayNumber(end)
  {
    var r := EachDayOfInterval(start, end);
    if Valid(d) && DayNumber(start) <= DayNumber(d) <= DayNumber(end) {
      var k := DayNumber(d) - DayNumber(start);
      DayNumberInjective(r[k], d);
    }
  }

  // ---- text form ----

  predicate IsDigit(c: char) {
    '0' <= c <= '9'
  }

  function Digit(n: int): char
    requires 0 <= n <= 9
  {
    ('0' as int + n) as char
  }

  function DigitValue(c: char): int {
    c as int - '0' as int
  }

  function Pad2(n: int): string
    requires 0 <= n <= 99
  {
    [Digit(n / 10), Digit(n % 10)]
  }

  function Pad4(n: int): string
    requires 0 <= n <= 9999
  {
    [Digit(n / 1000), Digit(n / 100 % 10), Digit(n / 10 % 10), Digit(n % 10)]
  }

  function Number(s: string): int {
    if s == [] then 0 else Number(s[..|s| - 1]) * 10 + DigitValue(s[|s| - 1])
  }

  /** Ten characters, dashes at positions 4 and 7, digits elsewhere. */
  predicate IsIsoShaped(s: string) {
    |s| == 10 && s[4] == '-' && s[7] == '-' &&
    forall i :: 0 <= i < 10 && i != 4 && i != 7 ==> IsDigit(s[i])
  }

  /** `format(d, 'yyyy-MM-dd')`. */
  function FormatDate(d: Date): (r: string)
    requires Valid(d)
    ensures IsIsoShaped(r)
  {
    Pad4(d.year) + "-" + Pad2(d.month) + "-" + Pad2(d.day)
  }

  /** `parseISO` on a calendar-date string: the date it names, or `None`
      for an Invalid Date. */
  function ParseIsoDate(s: string): (r: Option<Date>)
    ensures r.Some? ==> Valid(r.value)
  {
    if IsIsoShaped(s) then
      var d := Date(Number(s[0..4]), Number(s[5..7]), Number(s[8..10]));
      if Valid(d) then Some(d) else None
    else None
  }

  lemma Number2(a: char, b: char)
    ensures Number([a, b]) == DigitValue(a) * 10 + DigitValue(b)
  {
    assert [a, b][..1] == [a];
    assert [a][..0] == [];
    assert Number([a]) == DigitValue(a);
  }

  lemma Number4(a: char, b: char, c: char, d: char)
    ensures Number([a, b, c, d]) == ((DigitValue(a) * 10 + DigitValue(b)) * 10 + DigitValue(c)) * 10 + DigitValue(d)
  {
    assert [a, b, c, d][..3] == [a, b, c];
    assert [a, b, c][..2] == [a, b];
    Number2(a, b);
  }

  lemma Pad2Number(n: int)
    requires 0 <= n <= 99
    ensures Number(Pad2(n)) == n
  {
    Number2(Digit(n / 10), Digit(n % 10));
  }

  lemma Pad4Number(n: int)
    requires 0 <= n <= 9999
    ensures Number(Pad4(n)) == n
  {
    Number4(Digit(n / 1000), Digit(n / 100 % 10), Digit(n / 10 % 10), Digit(n % 10));
    var a, b, c, d := n / 1000, n / 100 % 10, n / 10 % 10, n % 10;
    assert n / 10 == (n / 100) * 10 + c;
    assert n / 100 == a * 10 + b;
  }

  /** Reading back a formatted date gives the same date. */
  lemma ParseFormat(d: Date)
    requires Valid(d)
    ensures ParseIsoDate(FormatDate(d)) == Some(d)
  {
    var s := FormatDate(d);
    assert s[0..4] == Pad4(d.year);
    assert s[5..7] == Pad2(d.month);
    assert s[8..10] == Pad2(d.day);
    Pad4Number(d.year);
    Pad2Number(d.month);
    Pad2Number(d.day);
  }

  lemma DigitRoundTrip(c: char)
    requires IsDigit(c)
    ensures 0 <= DigitValue(c) <= 9 && Digit(DigitValue(c)) == c
  {
  }

  lemma Pad2Of(a: char, b: char)
    requires IsDigit(a) && IsDigit(b)
    ensures 0 <= Number([a, b]) <= 99 && Pad2(Number([a, b])) == [a, b]
  {
    Number2(a, b);
    DigitRoundTrip(a);
    DigitRoundTrip(b);
  }

  lemma Pad4Of(a: char, b: char, c: char, d: char)
    requires IsDigit(a) && IsDigit(b) && IsDigit(c) && IsDigit(d)
    ensures 0 <= Number([a, b, c, d]) <= 9999 && Pad4(Number([a, b, c, d])) == [a, b, c, d]
  {
    Number4(a, b, c, d);
    DigitRoundTrip(a);
    DigitRoundTrip(b);
    DigitRoundTrip(c);
    DigitRoundTrip(d);
    var n := Number([a, b, c, d]);
    var va, vb, vc, vd := DigitValue(a), DigitValue(b), DigitValue(c), DigitValue(d);
    assert n == va * 1000 + vb * 100 + vc * 10 + vd;
    assert n / 1000 == va;
    assert n / 100 == va * 10 + vb;
    assert (va * 10 + vb) % 10 == vb;
    assert n / 10 == va * 100 + vb * 10 + vc;
    assert (va * 100 + vb * 10 + vc) % 10 == vc;
  }

  /** A string that parses is the formatted form of the date it names, so
      `yyyy-MM-dd` strings and valid dates correspond one to one. */
  lemma FormatParse(s: string)
    requires ParseIsoDate(s).Some?
    ensures FormatDate(ParseIsoDate(s).value) == s
  {
    assert s[0..4] == [s[0], s[1], s[2], s[3]];
    assert s[5..7] == [s[5], s[6]];
    assert s[8..10] == [s[8], s[9]];
    Pad4Of(s[0], s[1], s[2], s[3]);
    Pad2Of(s[5], s[6]);
    Pad2Of(s[8], s[9]);
  }

  lemma FormatInjective(a: Date, b: Date)
    requires Valid(a) && Valid(b) && FormatDate(a) == FormatDate(b)
    ensures a == b
  {
    ParseFormat(a);
    ParseFormat(b);
  }
}
