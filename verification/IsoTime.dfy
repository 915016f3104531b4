// The text form of UTC times that src/analytics_service/auth.py stores (datetime.isoformat) and
// SQLite compares byte by byte: its order is the order of the times (RFC 3339, section 5.1).
module IsoTime {
  import opened Decimals
  import opened TextOrder

  const SECOND: int := 1_000_000
  const DAY: int := 86_400

  // ---- The calendar, one day after another from 0001-01-01 ----

  datatype Date = Date(year: nat, month: nat, day: nat)

  predicate Leap(year: nat) { year % 4 == 0 && (year % 100 != 0 || year % 400 == 0) }

  function DaysIn(year: nat, month: nat): nat {
    if month == 2 then (if Leap(year) then 29 else 28)
    else if month in {4, 6, 9, 11} then 30
    else 31
  }

  function NextDay(d: Date): Date {
    if d.day < DaysIn(d.year, d.month) then d.(day := d.day + 1)
    else if d.month < 12 then Date(d.year, d.month + 1, 1)
    else Date(d.year + 1, 1, 1)
  }

  function DateOf(n: nat): Date {
    if n == 0 then Date(1, 1, 1) else NextDay(DateOf(n - 1))
  }

  predicate Earlier(a: Date, b: Date) {
    a.year < b.year || (a.year == b.year && (a.month < b.month || (a.month == b.month && a.day < b.day)))
  }

  lemma {:induction false} DateShape(n: nat)
    ensures DateOf(n).year >= 1 && 1 <= DateOf(n).month <= 12
    ensures 1 <= DateOf(n).day <= DaysIn(DateOf(n).year, DateOf(n).month)
  {
    if n > 0 { DateShape(n - 1); }
  }

  lemma {:induction false} DatesAscend(a: nat, b: nat)
    requires a < b
    ensures Earlier(DateOf(a), DateOf(b))
  {
    DateShape(b - 1);
    assert Earlier(DateOf(b - 1), DateOf(b));
    if a < b - 1 { DatesAscend(a, b - 1); }
  }

  // The number of days before a date, by the Gregorian rule.
  function DaysBeforeYear(year: nat): int
    requires year >= 1
  {
    365 * (year - 1) + (year - 1) / 4 - (year - 1) / 100 + (year - 1) / 400
  }

  function DaysBeforeMonth(year: nat, month: nat): int
    requires 1 <= month <= 12
  {
    [0, 31, 59, 90, 120, 151, 181, 212, 243, 273, 304, 334][month - 1]
    + if month > 2 && (year % 400 == 0 || (year % 4 == 0 && year % 100 != 0)) then 1 else 0
  }

  function DaysBefore(d: Date): int
    requires d.year >= 1 && 1 <= d.month <= 12
  {
    DaysBeforeYear(d.year) + DaysBeforeMonth(d.year, d.month) + d.day - 1
  }

  // Counting days forward arrives at the Gregorian date.
  lemma {:induction false} DateIsGregorian(n: nat)
    ensures DateOf(n).year >= 1 && 1 <= DateOf(n).month <= 12 && DaysBefore(DateOf(n)) == n
  {
    hide NextDay, DaysBefore;
    DateShape(n);
    if n > 0 {
      DateIsGregorian(n - 1);
      DateShape(n - 1);
      NextDayCounts(DateOf(n - 1));
    } else {
      assert DaysBefore(Date(1, 1, 1)) == 0 by { FirstDay(); }
    }
  }

  lemma FirstDay()
    ensures DateOf(0) == Date(1, 1, 1) && DaysBefore(Date(1, 1, 1)) == 0
  {}

  lemma NextDayCounts(d: Date)
    requires d.year >= 1 && 1 <= d.month <= 12 && 1 <= d.day <= DaysIn(d.year, d.month)
    ensures var e := NextDay(d);
            e.year >= 1 && 1 <= e.month <= 12 && DaysBefore(e) == DaysBefore(d) + 1
  {
    hide DaysBeforeYear, DaysBeforeMonth, DaysIn;
    if d.month < 12 { MonthLength(d.year, d.month); } else { YearLength(d.year); }
  }

  lemma MonthLength(year: nat, month: nat)
    requires 1 <= month < 12
    ensures DaysBeforeMonth(year, month + 1) == DaysBeforeMonth(year, month) + DaysIn(year, month)
  {}

  lemma YearLength(year: nat)
    requires year >= 1
    ensures DaysBeforeYear(year + 1) == DaysBeforeYear(year) + DaysBeforeMonth(year, 12) + DaysIn(year, 12)
    ensures DaysBeforeMonth(year + 1, 1) == 0
  {
    NextQuotient(year - 1, 4, (year - 1) / 4, (year - 1) % 4);
    NextQuotient(year - 1, 100, (year - 1) / 100, (year - 1) % 100);
    NextQuotient(year - 1, 400, (year - 1) / 400, (year - 1) % 400);
    LeapDays(year);
  }

  lemma LeapDays(year: nat)
    requires year >= 1
    ensures DaysBeforeMonth(year, 12) + DaysIn(year, 12) == 365 + (if year % 4 == 0 then 1 else 0) - (if year % 100 == 0 then 1 else 0)
                                                                + (if year % 400 == 0 then 1 else 0)
  {
    assert year % 400 == 0 ==> year % 100 == 0;
    assert year % 100 == 0 ==> year % 4 == 0;
  }

  lemma NextQuotient(n: nat, m: nat, q: nat, r: nat)
    requires (m == 4 || m == 100 || m == 400) && n == q * m + r && r < m
    ensures (n + 1) / m == (if r == m - 1 then q + 1 else q) && ((n + 1) % m == 0 <==> r == m - 1)
  {}

  // ---- Digits ----

  // `value` in exactly `width` decimal digits.
  function Pad(value: nat, width: nat): string {
    if width == 0 then "" else Pad(value / 10, width - 1) + [Digit(value % 10)]
  }

  lemma {:induction false} PadLength(value: nat, width: nat)
    ensures |Pad(value, width)| == width
  {
    if width > 0 { PadLength(value / 10, width - 1); }
  }

  lemma {:induction false} PadOrder(v: nat, w: nat, width: nat)
    requires v < Power(width) && w < Power(width)
    ensures Before(Pad(v, width), Pad(w, width)) <==> v < w
    ensures Pad(v, width) == Pad(w, width) <==> v == w
  {
    if width > 0 {
      PadOrder(v / 10, w / 10, width - 1);
      PadLength(v / 10, width - 1);
      PadLength(w / 10, width - 1);
      BeforeSplit(Pad(v / 10, width - 1), Pad(w / 10, width - 1), [Digit(v % 10)], [Digit(w % 10)]);
      assert Before([Digit(v % 10)], [Digit(w % 10)]) <==> v % 10 < w % 10;
      LastDigit(v, w, width);
    }
  }

  lemma LastDigit(v: nat, w: nat, width: nat)
    requires width > 0
    ensures Pad(v, width) == Pad(w, width) <==> Pad(v / 10, width - 1) == Pad(w / 10, width - 1) && v % 10 == w % 10
  {
    var a, b := Pad(v / 10, width - 1), Pad(w / 10, width - 1);
    PadLength(v / 10, width - 1);
    PadLength(w / 10, width - 1);
    assert Pad(v, width)[..width - 1] == a && Pad(w, width)[..width - 1] == b;
    assert Pad(v, width)[width - 1] == Digit(v % 10) && Pad(w, width)[width - 1] == Digit(w % 10);
  }

  // One field of a timestamp: digits, then a separator, then the rest.
  function Field(value: nat, width: nat, separator: string, rest: string): string {
    Pad(value, width) + (separator + rest)
  }

  lemma FieldOrder(v: nat, w: nat, width: nat, separator: string, x: string, y: string)
    requires v < Power(width) && w < Power(width)
    ensures Before(Field(v, width, separator, x), Field(w, width, separator, y)) <==> v < w || (v == w && Before(x, y))
  {
    PadOrder(v, w, width);
    PadLength(v, width);
    PadLength(w, width);
    BeforeSplit(Pad(v, width), Pad(w, width), separator + x, separator + y);
    BeforeSplit(separator, separator, x, y);
    NotBeforeItself(separator);
  }

  // ---- isoformat: microseconds appear only when they are not zero ----

  function Fraction(micros: nat): string {
    if micros == 0 then "+00:00" else "." + Pad(micros, 6) + "+00:00"
  }

  function ClockText(second: nat, fraction: string): string {
    Field(second / 3600, 2, ":", Field(second / 60 % 60, 2, ":", Field(second % 60, 2, "", fraction)))
  }

  function DateText(d: Date, rest: string): string {
    Field(d.year, 4, "-", Field(d.month, 2, "-", Field(d.day, 2, "T", rest)))
  }

  // A time is a number of microseconds since 0001-01-01T00:00:00Z; datetime ends with year 9999.
  type Time = t: int | 0 <= t witness 0

  function Day(t: Time): nat { t / SECOND / DAY }
  function SecondOfDay(t: Time): nat { t / SECOND % DAY }
  function Micros(t: Time): nat { t % SECOND }

  predicate Representable(t: Time) { DateOf(Day(t)).year <= 9999 }

  function Iso(t: Time): string {
    DateText(DateOf(Day(t)), ClockText(SecondOfDay(t), Fraction(Micros(t))))
  }

  // Such texts: the first moment of the calendar, and one microsecond later.
  lemma FirstMoments()
    ensures Iso(0) == "0001-01-01T00:00:00+00:00" && Iso(1) == "0001-01-01T00:00:00.000001+00:00"
  {
    hide DateText, ClockText, Fraction, DateOf;
    assert DateOf(0) == Date(1, 1, 1) by { FirstDay(); }
    FirstDate(ClockText(0, Fraction(0)));
    FirstDate(ClockText(0, Fraction(1)));
    Midnight(Fraction(0));
    Midnight(Fraction(1));
    OneMicrosecond();
  }

  lemma FirstDate(rest: string)
    ensures DateText(Date(1, 1, 1), rest) == "0001-01-01T" + rest
  {
    hide Pad;
    Padded();
  }

  lemma Midnight(rest: string)
    ensures ClockText(0, rest) == "00:00:00" + rest
  {
    hide Pad;
    Padded();
    assert Field(0, 2, "", rest) == "00" + rest;
    assert Field(0, 2, ":", "00" + rest) == "00:00" + rest;
    assert Field(0, 2, ":", "00:00" + rest) == "00:00:00" + rest;
  }

  lemma OneMicrosecond()
    ensures Fraction(0) == "+00:00" && Fraction(1) == ".000001+00:00"
  {
    hide Pad;
    Padded();
  }

  lemma Padded()
    ensures Pad(0, 2) == "00" && Pad(1, 2) == "01" && Pad(1, 4) == "0001" && Pad(1, 6) == "000001"
  {
    hide Pad;
    PadNext(0, 0);
    PadNext(0, 1);
    PadNext(0, 2);
    PadNext(0, 3);
    PadNext(0, 4);
    PadNext(1, 1);
    PadNext(1, 3);
    PadNext(1, 5);
    assert Pad(0, 1) == "0" && Pad(0, 3) == "000" && Pad(0, 5) == "00000";
  }

  lemma PadNext(value: nat, width: nat)
    ensures Pad(value, 0) == "" && Pad(value, width + 1) == Pad(value / 10, width) + [Digit(value % 10)]
  {}

  lemma FractionOrder(a: nat, b: nat)
    requires a < SECOND && b < SECOND
    ensures Before(Fraction(a), Fraction(b)) <==> a < b
  {
    if a == 0 || b == 0 {
      if a == b { NotBeforeItself(Fraction(a)); }
      assert Fraction(0)[0] == '+';
      assert a != 0 ==> Fraction(a)[0] == '.';
      assert b != 0 ==> Fraction(b)[0] == '.';
    } else {
      assert Power(6) == SECOND;
      assert Fraction(a) == "." + Field(a, 6, "", "+00:00") && Fraction(b) == "." + Field(b, 6, "", "+00:00");
      BeforeSplit(".", ".", Field(a, 6, "", "+00:00"), Field(b, 6, "", "+00:00"));
      NotBeforeItself(".");
      FieldOrder(a, b, 6, "", "+00:00", "+00:00");
      NotBeforeItself("+00:00");
    }
  }

  lemma ClockOrder(a: nat, b: nat, x: string, y: string)
    requires a < DAY && b < DAY
    ensures Before(ClockText(a, x), ClockText(b, y)) <==> a < b || (a == b && Before(x, y))
  {
    hide Before, Field;
    assert Power(2) == 100;
    FieldOrder(a % 60, b % 60, 2, "", x, y);
    var sa, sb := Field(a % 60, 2, "", x), Field(b % 60, 2, "", y);
    FieldOrder(a / 60 % 60, b / 60 % 60, 2, ":", sa, sb);
    FieldOrder(a / 3600, b / 3600, 2, ":", Field(a / 60 % 60, 2, ":", sa), Field(b / 60 % 60, 2, ":", sb));
    ClockParts(a, b);
  }

  lemma ClockParts(a: nat, b: nat)
    ensures a < b <==> a / 3600 < b / 3600
                       || (a / 3600 == b / 3600 && (a / 60 % 60 < b / 60 % 60
                           || (a / 60 % 60 == b / 60 % 60 && a % 60 < b % 60)))
  {
    assert a / 60 / 60 == a / 3600 && b / 60 / 60 == b / 3600;
    assert a == a / 60 * 60 + a % 60 && b == b / 60 * 60 + b % 60;
    assert a / 60 == a / 60 / 60 * 60 + a / 60 % 60 && b / 60 == b / 60 / 60 * 60 + b / 60 % 60;
  }

  lemma DateOrder(d: Date, e: Date, x: string, y: string)
    requires d.year < 10000 && d.month < 100 && d.day < 100
    requires e.year < 10000 && e.month < 100 && e.day < 100
    ensures Before(DateText(d, x), DateText(e, y)) <==> Earlier(d, e) || (d == e && Before(x, y))
  {
    hide Before, Field;
    assert Power(2) == 100 && Power(4) == 10000;
    FieldOrder(d.day, e.day, 2, "T", x, y);
    var dd, ee := Field(d.day, 2, "T", x), Field(e.day, 2, "T", y);
    FieldOrder(d.month, e.month, 2, "-", dd, ee);
    FieldOrder(d.year, e.year, 4, "-", Field(d.month, 2, "-", dd), Field(e.month, 2, "-", ee));
  }

  // Text order is time order, with or without microseconds on either side.
  lemma IsoOrder(s: Time, t: Time)
    requires Representable(s) && Representable(t)
    ensures Before(Iso(s), Iso(t)) <==> s < t
  {
    hide Before, DateText, ClockText, Fraction, DateOf;
    DateShape(Day(s));
    DateShape(Day(t));
    DateOrder(DateOf(Day(s)), DateOf(Day(t)), ClockText(SecondOfDay(s), Fraction(Micros(s))),
              ClockText(SecondOfDay(t), Fraction(Micros(t))));
    ClockOrder(SecondOfDay(s), SecondOfDay(t), Fraction(Micros(s)), Fraction(Micros(t)));
    FractionOrder(Micros(s), Micros(t));
    if Day(s) < Day(t) { DatesAscend(Day(s), Day(t)); }
    if Day(t) < Day(s) { DatesAscend(Day(t), Day(s)); }
    TimeParts(s, t);
  }

  lemma TimeParts(s: Time, t: Time)
    ensures s < t <==> Day(s) < Day(t)
                       || (Day(s) == Day(t) && (SecondOfDay(s) < SecondOfDay(t)
                           || (SecondOfDay(s) == SecondOfDay(t) && Micros(s) < Micros(t))))
  {
    assert s == s / SECOND * SECOND + s % SECOND && t == t / SECOND * SECOND + t % SECOND;
    var a, b := s / SECOND, t / SECOND;
    assert a == a / DAY * DAY + a % DAY && b == b / DAY * DAY + b % DAY;
  }

  // So the text comparison `stored <= now` of a query is the comparison of the times.
  lemma IsoNotAfter(s: Time, t: Time)
    requires Representable(s) && Representable(t)
    ensures NotAfter(Iso(s), Iso(t)) <==> s <= t
  {
    hide Before, Iso;
    IsoOrder(s, t);
    IsoOrder(t, s);
    NotBeforeItself(Iso(s));
    BeforeTotal(Iso(s), Iso(t));
  }
}
