/**
 * The voltage analyzer's timestamps: `parse_dt`, which reads
 * `%d/%m/%Y %H:%M:%S` with `datetime.strptime` and gives None instead of
 * raising, the matching `strftime`, and the instant (seconds since
 * 0001-01-01 00:00:00) that orders parsed timestamps.
 *
 * `strptime` turns the format into a regular expression: each directive
 * becomes an alternation of digit patterns, the space becomes one or more
 * whitespace characters, and the whole string must be consumed. The value
 * then goes through `datetime`'s own range checks.
 */
module DateFormat {
  import opened Wrappers
  import opened Records

  datatype DateTime = DateTime(year: nat, month: nat, day: nat, hour: nat, minute: nat, second: nat)

  predicate IsLeap(y: nat)
  {
    y % 4 == 0 && (y % 100 != 0 || y % 400 == 0)
  }

  function DaysInMonth(y: nat, m: nat): nat
  {
    if m == 2 then (if IsLeap(y) then 29 else 28)
    else if m == 4 || m == 6 || m == 9 || m == 11 then 30
    else 31
  }

  /** What `datetime` accepts: years 1 to 9999, a day its month has, no leap second. */
  predicate Valid(d: DateTime)
  {
    && 1 <= d.year <= 9999
    && 1 <= d.month <= 12
    && 1 <= d.day <= DaysInMonth(d.year, d.month)
    && d.hour < 24 && d.minute < 60 && d.second < 60
  }

  // ---------------------------------------------------------------------
  // Characters and the directives' patterns
  // ---------------------------------------------------------------------

  predicate IsDigit(c: char) { '0' <= c <= '9' }

  predicate IsNonZeroDigit(c: char) { '1' <= c <= '9' }

  /** `\s` on ASCII: space, tab, line feed, carriage return, vertical tab, form feed. */
  predicate IsSpace(c: char)
  {
    c == ' ' || c == '\t' || c == '\n' || c == '\r' || c as int == 11 || c as int == 12
  }

  function DigitValue(c: char): nat
  {
    if IsDigit(c) then c as int - '0' as int else 0
  }

  /** The decimal value of a string of digits. */
  function NumberOf(s: string): nat
  {
    if s == [] then 0 else NumberOf(s[..|s| - 1]) * 10 + DigitValue(s[|s| - 1])
  }

  /** `int()` of a matched field; the day pattern allows one leading space. */
  function FieldValue(w: string): nat
  {
    if |w| > 0 && w[0] == ' ' then NumberOf(w[1..]) else NumberOf(w)
  }

  /** `%d`: `3[01]|[12]\d|0[1-9]|[1-9]| [1-9]`. */
  predicate DayText(w: string)
  {
    || (|w| == 2 && w[0] == '3' && (w[1] == '0' || w[1] == '1'))
    || (|w| == 2 && (w[0] == '1' || w[0] == '2') && IsDigit(w[1]))
    || (|w| == 2 && w[0] == '0' && IsNonZeroDigit(w[1]))
    || (|w| == 1 && IsNonZeroDigit(w[0]))
    || (|w| == 2 && w[0] == ' ' && IsNonZeroDigit(w[1]))
  }

  /** `%m`: `1[0-2]|0[1-9]|[1-9]`. */
  predicate MonthText(w: string)
  {
    || (|w| == 2 && w[0] == '1' && '0' <= w[1] <= '2')
    || (|w| == 2 && w[0] == '0' && IsNonZeroDigit(w[1]))
    || (|w| == 1 && IsNonZeroDigit(w[0]))
  }

  /** `%Y`: exactly four digits. */
  predicate YearText(w: string)
  {
    |w| == 4 && IsDigit(w[0]) && IsDigit(w[1]) && IsDigit(w[2]) && IsDigit(w[3])
  }

  /** `%H`: `2[0-3]|[0-1]\d|\d`. */
  predicate HourText(w: string)
  {
    || (|w| == 2 && w[0] == '2' && '0' <= w[1] <= '3')
    || (|w| == 2 && (w[0] == '0' || w[0] == '1') && IsDigit(w[1]))
    || (|w| == 1 && IsDigit(w[0]))
  }

  /** `%M`: `[0-5]\d|\d`. */
  predicate MinuteText(w: string)
  {
    || (|w| == 2 && '0' <= w[0] <= '5' && IsDigit(w[1]))
    || (|w| == 1 && IsDigit(w[0]))
  }

  /** `%S`: `6[0-1]|[0-5]\d|\d`; 60 and 61 match but `datetime` refuses them. */
  predicate SecondText(w: string)
  {
    (|w| == 2 && w[0] == '6' && '0' <= w[1] <= '1') || MinuteText(w)
  }

  /**
   * The text before the first c and the text after it. No directive's
   * pattern contains its separator, so a field is exactly the text up to
   * the next separator.
   */
  function Split(s: string, c: char): (r: Option<(string, string)>)
    ensures r.None? <==> c !in s
    ensures r.Some? ==> s == r.value.0 + [c] + r.value.1 && c !in r.value.0
  {
    if s == [] then None
    else if s[0] == c then Some(([], s[1..]))
    else
      match Split(s[1..], c)
      case None => None
      case Some((a, b)) => Some(([s[0]] + a, b))
  }

  /** The greedy `\s+` (or `\s*`) run at the front of s removed. */
  function SkipSpaces(s: string): (r: string)
    ensures r == [] || !IsSpace(r[0])
    ensures |r| <= |s| && r == s[|s| - |r|..]
    ensures forall i :: 0 <= i < |s| - |r| ==> IsSpace(s[i])
  {
    if s != [] && IsSpace(s[0]) then SkipSpaces(s[1..]) else s
  }

  /**
   * `datetime.strptime(s, "%d/%m/%Y %H:%M:%S")`, None where it raises:
   * a field outside its pattern, a missing separator, no whitespace after
   * the year, text left over, or a date `datetime` refuses.
   */
  function ParseText(s: string): (r: Option<DateTime>)
    ensures r.Some? ==> Valid(r.value)
  {
    match Split(s, '/')
    case None => None
    case Some((dt, rest)) => ParseFromMonth(dt, rest)
  }

  /** The rest after the day's `/`: the month up to the next `/`. */
  function ParseFromMonth(dt: string, s: string): (r: Option<DateTime>)
    ensures r.Some? ==> Valid(r.value)
  {
    match Split(s, '/')
    case None => None
    case Some((mt, rest)) => ParseFromYear(dt, mt, rest)
  }

  /** Four digits of year, then one or more whitespace characters. */
  function ParseFromYear(dt: string, mt: string, s: string): (r: Option<DateTime>)
    ensures r.Some? ==> Valid(r.value)
  {
    if !(|s| >= 5 && YearText(s[..4]) && IsSpace(s[4])) then None
    else ParseClock(dt, mt, s[..4], SkipSpaces(s[4..]))
  }

  /** The hour up to the first `:`, the minute up to the second, the second to the end. */
  function ParseClock(dt: string, mt: string, yt: string, s: string): (r: Option<DateTime>)
    ensures r.Some? ==> Valid(r.value)
  {
    match Split(s, ':')
    case None => None
    case Some((ht, rest)) =>
      match Split(rest, ':')
      case None => None
      case Some((mit, st)) => Build(dt, mt, yt, ht, mit, st)
  }

  /** The fields checked against their patterns, read, and checked by `datetime`. */
  function Build(dt: string, mt: string, yt: string, ht: string, mit: string, st: string): (r: Option<DateTime>)
    ensures r.Some? ==> Valid(r.value)
  {
    if !(DayText(dt) && MonthText(mt) && HourText(ht) && MinuteText(mit) && SecondText(st)) then None
    else
      var d := DateTime(NumberOf(yt), FieldValue(mt), FieldValue(dt), FieldValue(ht), FieldValue(mit), FieldValue(st));
      if Valid(d) then Some(d) else None
  }

  /** `parse_dt`: None for None and for anything that is not a string, which `strptime` refuses. */
  function ParseDt(v: Json): (r: Option<DateTime>)
    ensures !v.Str? ==> r.None?
    ensures r.Some? ==> Valid(r.value)
  {
    if v.Str? then ParseText(v.s) else None
  }

  // ---------------------------------------------------------------------
  // strftime and the round trip
  // ---------------------------------------------------------------------

  function Digit(n: nat): (c: char)
    requires n < 10
    ensures IsDigit(c) && DigitValue(c) == n
  {
    ('0' as int + n) as char
  }

  function Pad2(n: nat): string
    requires n < 100
  {
    [Digit(n / 10), Digit(n % 10)]
  }

  function Year4(n: nat): string
    requires n < 10000
  {
    [Digit(n / 1000), Digit(n / 100 % 10), Digit(n / 10 % 10), Digit(n % 10)]
  }

  /** `strftime("%d/%m/%Y %H:%M:%S")` for years with four digits. */
  function Format(d: DateTime): string
    requires Valid(d) && d.year >= 1000
  {
    Pad2(d.day) + "/" + Pad2(d.month) + "/" + Year4(d.year) + " " + ClockText(d)
  }

  lemma {:induction false} SplitAfter(a: string, c: char, b: string)
    requires c !in a
    ensures Split(a + [c] + b, c) == Some((a, b))
  {
    if a != [] {
      var s := a + [c] + b;
      assert s[0] == a[0] && a[0] != c;
      assert s[1..] == a[1..] + [c] + b;
      SplitAfter(a[1..], c, b);
      assert [a[0]] + a[1..] == a;
    }
  }

  lemma Pad2Reads(n: nat)
    requires n < 100
    ensures FieldValue(Pad2(n)) == n
    ensures IsDigit(Pad2(n)[0]) && IsDigit(Pad2(n)[1])
  {
    var w := Pad2(n);
    assert w[..1] == [w[0]];
    assert NumberOf(w) == NumberOf(w[..1]) * 10 + DigitValue(w[1]);
    assert NumberOf([w[0]]) == NumberOf([]) * 10 + DigitValue(w[0]);
  }

  lemma Year4Reads(n: nat)
    requires n < 10000
    ensures YearText(Year4(n)) && NumberOf(Year4(n)) == n
  {
    var w1 := [Digit(n / 1000)];
    var w2 := w1 + [Digit(n / 100 % 10)];
    var w3 := w2 + [Digit(n / 10 % 10)];
    assert Year4(n) == w3 + [Digit(n % 10)];
    assert NumberOf(w1) == n / 1000 by {
      assert w1[..0] == [];
    }
    AppendDigit(w1, n / 100 % 10);
    AppendDigit(w2, n / 10 % 10);
    AppendDigit(w3, n % 10);
    DecimalStep(n / 10);
    DecimalStep(n);
    assert n / 10 / 10 == n / 100 && n / 100 / 10 == n / 1000;
    DecimalStep(n / 100);
  }

  lemma AppendDigit(s: string, d: nat)
    requires d < 10
    ensures NumberOf(s + [Digit(d)]) == NumberOf(s) * 10 + d
  {
    assert (s + [Digit(d)])[..|s|] == s;
  }

  lemma DecimalStep(n: nat)
    ensures n / 10 * 10 + n % 10 == n
  {
  }

  /** Zero-padded fields match their directives. */
  lemma PaddedFieldsMatch(d: DateTime)
    requires Valid(d)
    ensures DayText(Pad2(d.day)) && MonthText(Pad2(d.month))
    ensures HourText(Pad2(d.hour)) && MinuteText(Pad2(d.minute)) && SecondText(Pad2(d.second))
  {
    Pad2Reads(d.day);
    Pad2Reads(d.month);
    Pad2Reads(d.hour);
    Pad2Reads(d.minute);
    Pad2Reads(d.second);
  }

  /** Formatting a valid timestamp with a four-digit year and parsing it back gives it again. */
  lemma ParseFormat(d: DateTime)
    requires Valid(d) && d.year >= 1000
    ensures ParseText(Format(d)) == Some(d)
  {
    var dt, mt, yt, clock := Pad2(d.day), Pad2(d.month), Year4(d.year), ClockText(d);
    FormatShape(d);
    NoSeparator(d.day);
    NoSeparator(d.month);
    Year4Reads(d.year);
    ClockReads(d);
    DayStep(dt, mt + ['/'] + (yt + [' '] + clock));
    MonthStep(dt, mt, yt + [' '] + clock);
    YearStep(dt, mt, yt, clock);
  }

  lemma FormatShape(d: DateTime)
    requires Valid(d) && d.year >= 1000
    ensures Format(d) == Pad2(d.day) + ['/'] + (Pad2(d.month) + ['/'] + (Year4(d.year) + [' '] + ClockText(d)))
  {
  }

  lemma NoSeparator(n: nat)
    requires n < 100
    ensures '/' !in Pad2(n) && ':' !in Pad2(n)
  {
  }

  lemma DayStep(dt: string, s: string)
    requires '/' !in dt
    ensures ParseText(dt + ['/'] + s) == ParseFromMonth(dt, s)
  {
    SplitAfter(dt, '/', s);
  }

  lemma MonthStep(dt: string, mt: string, s: string)
    requires '/' !in mt
    ensures ParseFromMonth(dt, mt + ['/'] + s) == ParseFromYear(dt, mt, s)
  {
    SplitAfter(mt, '/', s);
  }

  lemma YearStep(dt: string, mt: string, yt: string, clock: string)
    requires YearText(yt) && SkipSpaces(clock) == clock
    ensures ParseFromYear(dt, mt, yt + [' '] + clock) == ParseClock(dt, mt, yt, clock)
  {
    var s := yt + [' '] + clock;
    assert s[..4] == yt && s[4] == ' ';
    assert s[4..] == [' '] + clock;
    assert SkipSpaces(s[4..]) == SkipSpaces(clock);
  }

  function ClockText(d: DateTime): string
    requires Valid(d)
  {
    Pad2(d.hour) + ":" + Pad2(d.minute) + ":" + Pad2(d.second)
  }

  /** The clock text splits at its two colons into the three padded fields. */
  lemma ClockSplits(d: DateTime)
    requires Valid(d)
    ensures Split(ClockText(d), ':') == Some((Pad2(d.hour), Pad2(d.minute) + ":" + Pad2(d.second)))
    ensures Split(Pad2(d.minute) + ":" + Pad2(d.second), ':') == Some((Pad2(d.minute), Pad2(d.second)))
  {
    var ht, mit, st := Pad2(d.hour), Pad2(d.minute), Pad2(d.second);
    Pad2Reads(d.hour);
    Pad2Reads(d.minute);
    var r4 := mit + ":" + st;
    assert ClockText(d) == ht + [':'] + r4;
    SplitAfter(ht, ':', r4);
    assert r4 == mit + [':'] + st;
    SplitAfter(mit, ':', st);
  }

  lemma ClockReads(d: DateTime)
    requires Valid(d) && d.year >= 1000
    ensures SkipSpaces(ClockText(d)) == ClockText(d)
    ensures ParseClock(Pad2(d.day), Pad2(d.month), Year4(d.year), ClockText(d)) == Some(d)
  {
    Pad2Reads(d.hour);
    assert ClockText(d)[0] == Pad2(d.hour)[0];
    ClockSplits(d);
    BuildReads(d);
  }

  lemma BuildReads(d: DateTime)
    requires Valid(d) && d.year >= 1000
    ensures Build(Pad2(d.day), Pad2(d.month), Year4(d.year), Pad2(d.hour), Pad2(d.minute), Pad2(d.second)) == Some(d)
  {
    Pad2Reads(d.day);
    Pad2Reads(d.month);
    Pad2Reads(d.hour);
    Pad2Reads(d.minute);
    Pad2Reads(d.second);
    Year4Reads(d.year);
    PaddedFieldsMatch(d);
  }

  // ---------------------------------------------------------------------
  // The instant: seconds since 0001-01-01 00:00:00
  // ---------------------------------------------------------------------

  function DaysInYear(y: nat): nat
  {
    if IsLeap(y) then 366 else 365
  }

  /** Days from 1 January of year 1 to 1 January of year y. */
  function DaysBeforeYear(y: nat): nat
  {
    if y <= 1 then 0 else DaysBeforeYear(y - 1) + DaysInYear(y - 1)
  }

  /** Days from 1 January to the first day of month m of year y. */
  function DaysBeforeMonth(y: nat, m: nat): nat
  {
    var cumulative := [0, 31, 59, 90, 120, 151, 181, 212, 243, 273, 304, 334];
    (if 1 <= m <= 12 then cumulative[m - 1] else 0) + (if IsLeap(y) && m > 2 then 1 else 0)
  }

  function ToSeconds(d: DateTime): nat
    requires Valid(d)
  {
    (DaysBeforeYear(d.year) + DaysBeforeMonth(d.year, d.month) + d.day - 1) * 86400
      + d.hour * 3600 + d.minute * 60 + d.second
  }

  /** Calendar order: year, then month, day, hour, minute, second. */
  predicate Before(a: DateTime, b: DateTime)
  {
    || a.year < b.year
    || (a.year == b.year && a.month < b.month)
    || (a.year == b.year && a.month == b.month && a.day < b.day)
    || (a.year == b.year && a.month == b.month && a.day == b.day && a.hour < b.hour)
    || (a.year == b.year && a.month == b.month && a.day == b.day && a.hour == b.hour && a.minute < b.minute)
    || (a.year == b.year && a.month == b.month && a.day == b.day && a.hour == b.hour && a.minute == b.minute && a.second < b.second)
  }

  /** A month's days end before the next month starts, and the last month ends with the year. */
  lemma MonthsFit(y: nat, m: nat, m': nat)
    requires 1 <= m < m' <= 12
    ensures DaysBeforeMonth(y, m) + DaysInMonth(y, m) <= DaysBeforeMonth(y, m')
  {
  }

  lemma YearFits(y: nat, m: nat)
    requires 1 <= m <= 12
    ensures DaysBeforeMonth(y, m) + DaysInMonth(y, m) <= DaysInYear(y)
  {
  }

  lemma {:induction false} YearsOrdered(y: nat, y': nat)
    requires 1 <= y < y'
    ensures DaysBeforeYear(y) + DaysInYear(y) <= DaysBeforeYear(y')
    decreases y'
  {
    if y' > y + 1 {
      YearsOrdered(y, y' - 1);
    }
  }

  /** The seconds of the day stay below one day. */
  lemma TimeOfDay(h: nat, m: nat, s: nat)
    requires h < 24 && m < 60 && s < 60
    ensures h * 3600 + m * 60 + s < 86400
  {
  }

  lemma BeforeLater(a: DateTime, b: DateTime)
    requires Valid(a) && Valid(b) && Before(a, b)
    ensures ToSeconds(a) < ToSeconds(b)
  {
    TimeOfDay(a.hour, a.minute, a.second);
    var da := DaysBeforeYear(a.year) + DaysBeforeMonth(a.year, a.month) + a.day - 1;
    var db := DaysBeforeYear(b.year) + DaysBeforeMonth(b.year, b.month) + b.day - 1;
    assert ToSeconds(a) < (da + 1) * 86400;
    assert db * 86400 <= ToSeconds(b);
    if a.year < b.year {
      YearFits(a.year, a.month);
      YearsOrdered(a.year, b.year);
    } else if a.month < b.month {
      MonthsFit(a.year, a.month, b.month);
    }
  }

  /**
   * The instant orders timestamps as the calendar does, so sorting by it
   * is sorting by datetime, and distinct timestamps have distinct instants.
   */
  lemma ToSecondsOrder(a: DateTime, b: DateTime)
    requires Valid(a) && Valid(b)
    ensures Before(a, b) <==> ToSeconds(a) < ToSeconds(b)
    ensures a == b <==> ToSeconds(a) == ToSeconds(b)
  {
    if Before(a, b) {
      BeforeLater(a, b);
    } else if Before(b, a) {
      BeforeLater(b, a);
    }
  }

  /** The voltage analyzer's timestamp cell, parsed and turned into an instant. */
  function VoltageStamp(v: Json): (r: Option<nat>)
    ensures r.Some? <==> ParseDt(v).Some?
    ensures r.Some? ==> r.value == ToSeconds(ParseDt(v).value)
  {
    match ParseDt(v)
    case None => None
    case Some(d) => Some(ToSeconds(d))
  }
}
