/**
 * Calendar dates as Python's `datetime` handles them in this system:
 * the day before a date, `strftime('%Y-%m-%d')`, the `f"{month}.{day}"`
 * labels of the report, and `strptime` with the formats `%Y-%m-%d` and
 * `%Y-%m-%d %H:%M:%S`.
 *
 * `strptime` matches a regular expression built from the format and then
 * builds a `datetime`.  Each directive is one of a few alternatives tried in
 * order (`%m` is `1[0-2]|0[1-9]|[1-9]`, `%d` is
 * `3[01]|[12]\d|0[1-9]|[1-9]| [1-9]`, ...), a blank in the format matches
 * one or more whitespace characters, text left over after the match is an
 * error, and the `datetime` constructor rejects year 0, a day past the end
 * of the month and seconds 60 and 61 that the expression lets through.
 * `None` stands for the ValueError raised in every one of those cases.
 */
module Dates {
  import opened Wrappers
  import opened Strings

  datatype Date = Date(year: int, month: int, day: int)

  datatype DateTime = DateTime(date: Date, hour: int, minute: int, second: int)

  predicate IsLeapYear(y: int) {
    y % 4 == 0 && (y % 100 != 0 || y % 400 == 0)
  }

  function DaysInMonth(y: int, m: int): (n: int)
    requires 1 <= m <= 12
    ensures 28 <= n <= 31
    ensures n == 29 <==> m == 2 && IsLeapYear(y)
  {
    if m == 2 then (if IsLeapYear(y) then 29 else 28)
    else if m == 4 || m == 6 || m == 9 || m == 11 then 30
    else 31
  }

  /** A date `datetime.date` accepts: years 1 to 9999 and a day inside its month. */
  predicate ValidDate(d: Date) {
    1 <= d.year <= 9999 && 1 <= d.month <= 12 && 1 <= d.day <= DaysInMonth(d.year, d.month)
  }

  predicate ValidDateTime(t: DateTime) {
    ValidDate(t.date) && 0 <= t.hour <= 23 && 0 <= t.minute <= 59 && 0 <= t.second <= 59
  }

  const FirstDate := Date(1, 1, 1)
  const LastDate := Date(9999, 12, 31)

  /** `d - timedelta(days=1)`; the day before 0001-01-01 would overflow. */
  function PrevDay(d: Date): (r: Date)
    requires ValidDate(d) && d != FirstDate
    ensures ValidDate(r)
  {
    if d.day > 1 then Date(d.year, d.month, d.day - 1)
    else if d.month > 1 then Date(d.year, d.month - 1, DaysInMonth(d.year, d.month - 1))
    else Date(d.year - 1, 12, 31)
  }

  /** `d + timedelta(days=1)`. */
  function NextDay(d: Date): (r: Date)
    requires ValidDate(d) && d != LastDate
    ensures ValidDate(r)
  {
    if d.day < DaysInMonth(d.year, d.month) then Date(d.year, d.month, d.day + 1)
    else if d.month < 12 then Date(d.year, d.month + 1, 1)
    else Date(d.year + 1, 1, 1)
  }

  /** Going back a day and forward again returns to the same date. */
  lemma NextOfPrevDay(d: Date)
    requires ValidDate(d) && d != FirstDate
    ensures PrevDay(d) != LastDate && NextDay(PrevDay(d)) == d
  {
  }

  /** Going forward a day and back again returns to the same date. */
  lemma PrevOfNextDay(d: Date)
    requires ValidDate(d) && d != LastDate
    ensures NextDay(d) != FirstDate && PrevDay(NextDay(d)) == d
  {
  }

  /** The day before comes first in calendar order. */
  predicate Before(a: Date, b: Date) {
    a.year < b.year || (a.year == b.year && (a.month < b.month || (a.month == b.month && a.day < b.day)))
  }

  lemma PrevDayIsBefore(d: Date)
    requires ValidDate(d) && d != FirstDate
    ensures Before(PrevDay(d), d)
  {
  }

  // ------------------------------------------------------------- formatting

  /** `'%02d' % n`. */
  function Pad2(n: int): (s: string)
    requires 0 <= n < 100
    ensures |s| == 2 && AllDigits(s)
    ensures DigitValue(s[0]) * 10 + DigitValue(s[1]) == n
  {
    [DigitChar(n / 10), DigitChar(n % 10)]
  }

  /** `'%04d' % n`. */
  function Pad4(n: int): (s: string)
    requires 0 <= n < 10000
    ensures |s| == 4 && AllDigits(s)
    ensures DigitValue(s[0]) * 1000 + DigitValue(s[1]) * 100 + DigitValue(s[2]) * 10 + DigitValue(s[3]) == n
  {
    var hi := Pad2(n / 100);
    var lo := Pad2(n % 100);
    assert n == n / 100 * 100 + n % 100;
    hi + lo
  }

  /** `d.strftime('%Y-%m-%d')`. */
  function FormatDate(d: Date): (s: string)
    requires ValidDate(d)
    ensures |s| == 10 && s[4] == '-' && s[7] == '-'
  {
    Pad4(d.year) + "-" + Pad2(d.month) + "-" + Pad2(d.day)
  }

  /** `t.strftime('%Y-%m-%d %H:%M:%S')`. */
  function FormatDateTime(t: DateTime): (s: string)
    requires ValidDateTime(t)
    ensures |s| == 19 && s[10] == ' ' && s[13] == ':' && s[16] == ':'
    ensures s[..10] == FormatDate(t.date)
  {
    FormatDate(t.date) + " " + Pad2(t.hour) + ":" + Pad2(t.minute) + ":" + Pad2(t.second)
  }

  /** `f"{d.month}.{d.day}"`: month and day without zero padding. */
  function MonthDay(d: Date): (s: string)
    requires ValidDate(d)
    ensures |s| >= 3 && s[0] != '0'
  {
    NatToString(d.month) + "." + NatToString(d.day)
  }

  /** The month and the day can be read back from a label, and neither is zero-padded. */
  lemma MonthDayParts(d: Date)
    requires ValidDate(d)
    ensures BeforeFirst(MonthDay(d), '.') == NatToString(d.month)
    ensures MonthDay(d)[|NatToString(d.month)| + 1..] == NatToString(d.day)
    ensures NatToString(d.month)[0] != '0' && NatToString(d.day)[0] != '0'
  {
    var m := NatToString(d.month);
    var s := MonthDay(d);
    assert s == m + ("." + NatToString(d.day));
    BeforeFirstOfDigitsThen(m, "." + NatToString(d.day));
  }

  /** Splitting at a character that the leading digits do not contain stops after them. */
  lemma {:induction false} BeforeFirstOfDigitsThen(m: string, rest: string)
    requires AllDigits(m) && rest != [] && rest[0] == '.'
    ensures BeforeFirst(m + rest, '.') == m
  {
    if m == [] {
      assert m + rest == rest;
    } else {
      assert (m + rest)[0] == m[0];
      assert (m + rest)[1..] == m[1..] + rest;
      BeforeFirstOfDigitsThen(m[1..], rest);
      assert [m[0]] + m[1..] == m;
    }
  }

  // ---------------------------------------------------------------- parsing

  /** A directive's value and the text after it. */
  datatype Field = Field(value: int, rest: string)

  predicate DigitIn(c: char, lo: char, hi: char) {
    lo <= c <= hi
  }

  /** `%Y`: exactly four digits. */
  function MatchYear(s: string): (r: Option<Field>)
    ensures r.Some? ==> 0 <= r.value.value <= 9999 && |s| >= 4 && r.value.rest == s[4..]
  {
    if |s| >= 4 && AllDigits(s[..4]) then
      Some(Field(DigitValue(s[0]) * 1000 + DigitValue(s[1]) * 100 + DigitValue(s[2]) * 10 + DigitValue(s[3]), s[4..]))
    else None
  }

  /** `%m`: `1[0-2]|0[1-9]|[1-9]`. */
  function MatchMonth(s: string): (r: Option<Field>)
    ensures r.Some? ==> 1 <= r.value.value <= 12
  {
    if |s| >= 2 && s[0] == '1' && DigitIn(s[1], '0', '2') then Some(Field(10 + DigitValue(s[1]), s[2..]))
    else if |s| >= 2 && s[0] == '0' && DigitIn(s[1], '1', '9') then Some(Field(DigitValue(s[1]), s[2..]))
    else if |s| >= 1 && DigitIn(s[0], '1', '9') then Some(Field(DigitValue(s[0]), s[1..]))
    else None
  }

  /** `%d`: `3[01]|[12]\d|0[1-9]|[1-9]| [1-9]`. */
  function MatchDay(s: string): (r: Option<Field>)
    ensures r.Some? ==> 1 <= r.value.value <= 31
  {
    if |s| >= 2 && s[0] == '3' && DigitIn(s[1], '0', '1') then Some(Field(30 + DigitValue(s[1]), s[2..]))
    else if |s| >= 2 && DigitIn(s[0], '1', '2') && IsDigit(s[1]) then Some(Field(DigitValue(s[0]) * 10 + DigitValue(s[1]), s[2..]))
    else if |s| >= 2 && s[0] == '0' && DigitIn(s[1], '1', '9') then Some(Field(DigitValue(s[1]), s[2..]))
    else if |s| >= 1 && DigitIn(s[0], '1', '9') then Some(Field(DigitValue(s[0]), s[1..]))
    else if |s| >= 2 && s[0] == ' ' && DigitIn(s[1], '1', '9') then Some(Field(DigitValue(s[1]), s[2..]))
    else None
  }

  /** `%H`: `2[0-3]|[0-1]\d|\d`. */
  function MatchHour(s: string): (r: Option<Field>)
    ensures r.Some? ==> 0 <= r.value.value <= 23
  {
    if |s| >= 2 && s[0] == '2' && DigitIn(s[1], '0', '3') then Some(Field(20 + DigitValue(s[1]), s[2..]))
    else if |s| >= 2 && DigitIn(s[0], '0', '1') && IsDigit(s[1]) then Some(Field(DigitValue(s[0]) * 10 + DigitValue(s[1]), s[2..]))
    else if |s| >= 1 && IsDigit(s[0]) then Some(Field(DigitValue(s[0]), s[1..]))
    else None
  }

  /** `%M`: `[0-5]\d|\d`. */
  function MatchMinute(s: string): (r: Option<Field>)
    ensures r.Some? ==> 0 <= r.value.value <= 59
  {
    if |s| >= 2 && DigitIn(s[0], '0', '5') && IsDigit(s[1]) then Some(Field(DigitValue(s[0]) * 10 + DigitValue(s[1]), s[2..]))
    else if |s| >= 1 && IsDigit(s[0]) then Some(Field(DigitValue(s[0]), s[1..]))
    else None
  }

  /** `%S`: `6[0-1]|[0-5]\d|\d`; 60 and 61 get past the expression. */
  function MatchSecond(s: string): (r: Option<Field>)
    ensures r.Some? ==> 0 <= r.value.value <= 61
  {
    if |s| >= 2 && s[0] == '6' && DigitIn(s[1], '0', '1') then Some(Field(60 + DigitValue(s[1]), s[2..]))
    else if |s| >= 2 && DigitIn(s[0], '0', '5') && IsDigit(s[1]) then Some(Field(DigitValue(s[0]) * 10 + DigitValue(s[1]), s[2..]))
    else if |s| >= 1 && IsDigit(s[0]) then Some(Field(DigitValue(s[0]), s[1..]))
    else None
  }

  /** A literal character of the format. */
  function MatchChar(c: char, s: string): (r: Option<string>)
    ensures r.Some? <==> s != [] && s[0] == c
    ensures r.Some? ==> r.value == s[1..]
  {
    if s != [] && s[0] == c then Some(s[1..]) else None
  }

  /** A blank of the format: `\s+`, as much whitespace as there is. */
  function MatchSpaces(s: string): (r: Option<string>)
    ensures r.Some? <==> s != [] && IsSpace(s[0])
    ensures r.Some? ==> r.value == TrimLeft(s)
  {
    if s != [] && IsSpace(s[0]) then Some(TrimLeft(s)) else None
  }

  /** The `%Y-%m-%d` part at the start of s, before any range check on the day. */
  function MatchDateFields(s: string): (r: Option<(Date, string)>)
    ensures r.Some? ==> 1 <= r.value.0.month <= 12 && 1 <= r.value.0.day <= 31
  {
    match MatchYear(s)
    case None => None
    case Some(y) =>
      match MatchChar('-', y.rest)
      case None => None
      case Some(r1) =>
        match MatchMonth(r1)
        case None => None
        case Some(m) =>
          match MatchChar('-', m.rest)
          case None => None
          case Some(r2) =>
            match MatchDay(r2)
            case None => None
            case Some(d) => Some((Date(y.value, m.value, d.value), d.rest))
  }

  /** `datetime.strptime(s, '%Y-%m-%d').date()`; None is the ValueError. */
  function ParseDate(s: string): (r: Option<Date>)
    ensures r.Some? ==> ValidDate(r.value)
  {
    match MatchDateFields(s)
    case None => None
    case Some((d, rest)) => if rest == [] && ValidDate(d) then Some(d) else None
  }

  /** The `%H:%M:%S` part at the start of s. */
  function MatchTimeFields(s: string): (r: Option<(int, int, int, string)>)
    ensures r.Some? ==> 0 <= r.value.0 <= 23 && 0 <= r.value.1 <= 59 && 0 <= r.value.2 <= 61
  {
    match MatchHour(s)
    case None => None
    case Some(h) =>
      match MatchChar(':', h.rest)
      case None => None
      case Some(r1) =>
        match MatchMinute(r1)
        case None => None
        case Some(mi) =>
          match MatchChar(':', mi.rest)
          case None => None
          case Some(r2) =>
            match MatchSecond(r2)
            case None => None
            case Some(sec) => Some((h.value, mi.value, sec.value, sec.rest))
  }

  /** `datetime.strptime(s, '%Y-%m-%d %H:%M:%S')`; None is the ValueError. */
  function ParseDateTime(s: string): (r: Option<DateTime>)
    ensures r.Some? ==> ValidDateTime(r.value)
  {
    match MatchDateFields(s)
    case None => None
    case Some((d, r1)) =>
      match MatchSpaces(r1)
      case None => None
      case Some(r2) =>
        match MatchTimeFields(r2)
        case None => None
        case Some((h, mi, sec, rest)) =>
          var t := DateTime(d, h, mi, sec);
          if rest == [] && ValidDateTime(t) then Some(t) else None
  }

  // ------------------------------------------------------------ round trips

  lemma MatchYearOfPad4(y: int, rest: string)
    requires 0 <= y < 10000
    ensures MatchYear(Pad4(y) + rest) == Some(Field(y, rest))
  {
    var s := Pad4(y) + rest;
    assert s[..4] == Pad4(y);
    assert s[4..] == rest;
  }

  lemma MatchMonthOfPad2(m: int, rest: string)
    requires 1 <= m <= 12
    ensures MatchMonth(Pad2(m) + rest) == Some(Field(m, rest))
  {
    var s := Pad2(m) + rest;
    assert s[0] == Pad2(m)[0] && s[1] == Pad2(m)[1];
    assert s[2..] == rest;
  }

  lemma MatchDayOfPad2(d: int, rest: string)
    requires 1 <= d <= 31
    ensures MatchDay(Pad2(d) + rest) == Some(Field(d, rest))
  {
    var s := Pad2(d) + rest;
    assert s[0] == Pad2(d)[0] && s[1] == Pad2(d)[1];
    assert s[2..] == rest;
  }

  lemma MatchHourOfPad2(n: int, rest: string)
    requires 0 <= n <= 23
    ensures MatchHour(Pad2(n) + rest) == Some(Field(n, rest))
  {
    var s := Pad2(n) + rest;
    assert s[0] == Pad2(n)[0] && s[1] == Pad2(n)[1];
    assert s[2..] == rest;
  }

  lemma MatchTwoDigitsOfPad2(n: int, rest: string)
    requires 0 <= n <= 59
    ensures MatchMinute(Pad2(n) + rest) == Some(Field(n, rest))
    ensures MatchSecond(Pad2(n) + rest) == Some(Field(n, rest))
  {
    var s := Pad2(n) + rest;
    assert s[0] == Pad2(n)[0] && s[1] == Pad2(n)[1];
    assert s[2..] == rest;
  }

  lemma MatchDateFieldsOfFormat(d: Date, rest: string)
    requires ValidDate(d)
    ensures MatchDateFields(FormatDate(d) + rest) == Some((d, rest))
  {
    var s := FormatDate(d) + rest;
    var r2 := Pad2(d.day) + rest;
    var r1 := Pad2(d.month) + ("-" + r2);
    assert s == Pad4(d.year) + ("-" + r1);
    MatchYearOfPad4(d.year, "-" + r1);
    MatchMonthOfPad2(d.month, "-" + r2);
    MatchDayOfPad2(d.day, rest);
  }

  /** `strptime(d.strftime('%Y-%m-%d'), '%Y-%m-%d')` gives d back. */
  lemma ParseFormatDate(d: Date)
    requires ValidDate(d)
    ensures ParseDate(FormatDate(d)) == Some(d)
  {
    MatchDateFieldsOfFormat(d, []);
    assert FormatDate(d) + [] == FormatDate(d);
  }

  lemma MatchTimeFieldsOfFormat(h: int, mi: int, sec: int)
    requires 0 <= h <= 23 && 0 <= mi <= 59 && 0 <= sec <= 59
    ensures MatchTimeFields(Pad2(h) + ":" + Pad2(mi) + ":" + Pad2(sec)) == Some((h, mi, sec, []))
  {
    var r2 := Pad2(sec) + [];
    var r1 := Pad2(mi) + (":" + r2);
    assert Pad2(h) + ":" + Pad2(mi) + ":" + Pad2(sec) == Pad2(h) + (":" + r1);
    MatchHourOfPad2(h, ":" + r1);
    MatchTwoDigitsOfPad2(mi, ":" + r2);
    MatchTwoDigitsOfPad2(sec, []);
  }

  lemma MatchSpacesOfBlank(time: string)
    requires time != [] && IsDigit(time[0])
    ensures MatchSpaces(" " + time) == Some(time)
  {
    assert (" " + time)[1..] == time;
    assert !IsSpace(time[0]);
    assert TrimLeft(time) == time;
  }

  /** `strptime(t.strftime(fmt), fmt)` gives t back for `fmt = '%Y-%m-%d %H:%M:%S'`. */
  lemma ParseFormatDateTime(t: DateTime)
    requires ValidDateTime(t)
    ensures ParseDateTime(FormatDateTime(t)) == Some(t)
  {
    var time := Pad2(t.hour) + ":" + Pad2(t.minute) + ":" + Pad2(t.second);
    assert FormatDateTime(t) == FormatDate(t.date) + (" " + time);
    MatchDateFieldsOfFormat(t.date, " " + time);
    MatchSpacesOfBlank(time);
    MatchTimeFieldsOfFormat(t.hour, t.minute, t.second);
  }

  /** strptime also reads months and days written without their leading zero. */
  lemma ParseUnpaddedDate()
    ensures ParseDate("2024-1-5") == Some(Date(2024, 1, 5))
  {
    assert "2024-1-5"[..4] == "2024";
    assert "2024-1-5"[4..] == "-1-5";
    assert "-1-5"[1..] == "1-5";
    assert "1-5"[1..] == "-5";
    assert "-5"[1..] == "5";
    assert "5"[1..] == [];
  }

  /** A day past the end of its month matches the expression but is rejected. */
  lemma ParseRejectsFebruary30()
    ensures ParseDate("2023-02-30") == None
  {
    assert "2023-02-30"[..4] == "2023";
    assert "2023-02-30"[4..] == "-02-30";
    assert "-02-30"[1..] == "02-30";
    assert "02-30"[2..] == "-30";
    assert "-30"[1..] == "30";
    assert "30"[2..] == [];
  }
}
