/** `_iso`: timestamps as ISO text, compared as text by SQLite. The fraction is left out when it is
    zero, so equal-looking prefixes of different lengths have to sort right too. */
module IsoTime {
  import opened Ordering

  // ------------------------------------------------------------------ calendar

  predicate Leap(year: int) { year % 4 == 0 && (year % 100 != 0 || year % 400 == 0) }

  function DaysInMonth(year: int, month: int): int {
    if month == 2 then (if Leap(year) then 29 else 28)
    else if month == 4 || month == 6 || month == 9 || month == 11 then 30
    else 31
  }

  function DaysBeforeYear(year: int): int {
    var y := year - 1;
    y * 365 + y / 4 - y / 100 + y / 400
  }

  function DaysBeforeMonth(year: int, month: nat): (d: int)
    ensures d >= 0
  {
    if month <= 1 then 0 else DaysBeforeMonth(year, month - 1) + DaysInMonth(year, month - 1)
  }

  datatype Date = Date(year: nat, month: nat, day: nat)

  predicate ValidDate(d: Date) {
    d.year >= 1 && 1 <= d.month <= 12 && 1 <= d.day <= DaysInMonth(d.year, d.month)
  }

  /** The proleptic Gregorian day number, 1 for 0001-01-01. */
  function Ordinal(d: Date): int { DaysBeforeYear(d.year) + DaysBeforeMonth(d.year, d.month) + d.day }

  predicate DateLess(a: Date, b: Date) {
    || a.year < b.year
    || (a.year == b.year && (a.month < b.month || (a.month == b.month && a.day < b.day)))
  }

  lemma By4(y: nat)
    ensures (y + 1) / 4 == y / 4 + (if (y + 1) % 4 == 0 then 1 else 0)
  {
  }

  lemma By100(y: nat)
    ensures (y + 1) / 100 == y / 100 + (if (y + 1) % 100 == 0 then 1 else 0)
  {
  }

  lemma By400(y: nat)
    ensures (y + 1) / 400 == y / 400 + (if (y + 1) % 400 == 0 then 1 else 0)
  {
  }

  /** Centuries are multiples of 4, and every fourth one of 400. */
  lemma Centuries(year: nat)
    ensures year % 400 == 0 ==> year % 100 == 0
    ensures year % 100 == 0 ==> year % 4 == 0
  {
    if year % 400 == 0 {
      assert year == 100 * (4 * (year / 400));
    }
    if year % 100 == 0 {
      assert year == 4 * (25 * (year / 100));
    }
  }

  lemma YearLength(year: nat)
    requires year >= 1
    ensures DaysBeforeYear(year + 1) == DaysBeforeYear(year) + (if Leap(year) then 366 else 365)
  {
    By4(year - 1);
    By100(year - 1);
    By400(year - 1);
    Centuries(year);
  }

  lemma {:induction false} MonthsAscend(year: int, a: nat, b: nat)
    requires 1 <= a < b
    ensures DaysBeforeMonth(year, a) + DaysInMonth(year, a) <= DaysBeforeMonth(year, b)
    decreases b
  {
    if a + 1 < b {
      MonthsAscend(year, a, b - 1);
    }
  }

  lemma WholeYear(year: int)
    ensures DaysBeforeMonth(year, 12) + DaysInMonth(year, 12) == if Leap(year) then 366 else 365
  {
    var feb := DaysInMonth(year, 2);
    assert DaysBeforeMonth(year, 2) == 31;
    assert DaysBeforeMonth(year, 3) == 31 + feb;
    assert DaysBeforeMonth(year, 4) == 62 + feb;
    assert DaysBeforeMonth(year, 5) == 92 + feb;
    assert DaysBeforeMonth(year, 6) == 123 + feb;
    assert DaysBeforeMonth(year, 7) == 153 + feb;
    assert DaysBeforeMonth(year, 8) == 184 + feb;
    assert DaysBeforeMonth(year, 9) == 215 + feb;
    assert DaysBeforeMonth(year, 10) == 245 + feb;
    assert DaysBeforeMonth(year, 11) == 276 + feb;
  }

  lemma {:induction false} YearsAscend(a: nat, b: nat)
    requires 1 <= a < b
    ensures DaysBeforeYear(a) + (if Leap(a) then 366 else 365) <= DaysBeforeYear(b)
    decreases b
  {
    if a + 1 < b {
      YearsAscend(a, b - 1);
      YearLength(b - 1);
    } else {
      YearLength(a);
    }
  }

  /** A date lies inside its year. */
  lemma DayOfYear(d: Date)
    requires ValidDate(d)
    ensures 1 <= DaysBeforeMonth(d.year, d.month) + d.day <= if Leap(d.year) then 366 else 365
  {
    WholeYear(d.year);
    if d.month < 12 {
      MonthsAscend(d.year, d.month, 12);
    }
  }

  lemma OrdinalAscends(a: Date, b: Date)
    requires ValidDate(a) && ValidDate(b) && DateLess(a, b)
    ensures Ordinal(a) < Ordinal(b)
  {
    DayOfYear(a);
    DayOfYear(b);
    if a.year < b.year {
      YearsAscend(a.year, b.year);
    } else if a.month < b.month {
      MonthsAscend(a.year, a.month, b.month);
    }
  }

  /** Day numbers order dates as year, month, day do. */
  lemma OrdinalOrder(a: Date, b: Date)
    requires ValidDate(a) && ValidDate(b)
    ensures Ordinal(a) < Ordinal(b) <==> DateLess(a, b)
    ensures Ordinal(a) == Ordinal(b) <==> a == b
  {
    if DateLess(a, b) {
      OrdinalAscends(a, b);
    } else if DateLess(b, a) {
      OrdinalAscends(b, a);
    }
  }

  function NextDay(d: Date): Date {
    if d.day < DaysInMonth(d.year, d.month) then d.(day := d.day + 1)
    else if d.month < 12 then Date(d.year, d.month + 1, 1)
    else Date(d.year + 1, 1, 1)
  }

  lemma NextDayOrdinal(d: Date)
    requires ValidDate(d)
    ensures ValidDate(NextDay(d)) && Ordinal(NextDay(d)) == Ordinal(d) + 1
  {
    if d.day == DaysInMonth(d.year, d.month) && d.month == 12 {
      WholeYear(d.year);
      YearLength(d.year);
    }
  }

  /** The date with a given day number. */
  function FromOrdinal(n: nat): (d: Date)
    requires n >= 1
    ensures ValidDate(d) && Ordinal(d) == n
  {
    if n == 1 then Date(1, 1, 1)
    else
      var d := FromOrdinal(n - 1);
      NextDayOrdinal(d);
      NextDay(d)
  }

  // -------------------------------------------------------------- digits as text

  function Digit(n: nat): char
    requires n < 10
  {
    '0' + n as char
  }

  function Pow10(w: nat): nat { if w == 0 then 1 else 10 * Pow10(w - 1) }

  /** `w` decimal digits, zero-padded. */
  function Pad(n: nat, w: nat): (s: string)
    ensures |s| == w
  {
    if w == 0 then "" else Pad(n / 10, w - 1) + [Digit(n % 10)]
  }

  /** Equal-length prefixes decide, unless they are equal. */
  lemma {:induction false} LexPrefix(p: string, q: string, x: string, y: string)
    requires |p| == |q|
    ensures LexLess(p + x, q + y) <==> LexLess(p, q) || (p == q && LexLess(x, y))
    decreases |p|
  {
    if p == [] {
      assert p + x == x && q + y == y;
    } else {
      assert (p + x)[1..] == p[1..] + x && (q + y)[1..] == q[1..] + y;
      LexPrefix(p[1..], q[1..], x, y);
      assert p == [p[0]] + p[1..] && q == [q[0]] + q[1..];
      LexIrreflexive(p);
    }
  }

  lemma {:induction false} PadOrder(a: nat, b: nat, w: nat)
    requires a < Pow10(w) && b < Pow10(w)
    ensures LexLess(Pad(a, w), Pad(b, w)) <==> a < b
    ensures Pad(a, w) == Pad(b, w) <==> a == b
    decreases w
  {
    if w > 0 {
      PadOrder(a / 10, b / 10, w - 1);
      var p, q, x, y := Pad(a / 10, w - 1), Pad(b / 10, w - 1), [Digit(a % 10)], [Digit(b % 10)];
      LexPrefix(p, q, x, y);
      assert LexLess(x, y) <==> a % 10 < b % 10;
      assert (p + x)[w - 1] == x[0] && (q + y)[w - 1] == y[0];
      assert (p + x)[..w - 1] == p && (q + y)[..w - 1] == q;
    }
  }

  /** A padded field decides, unless it is equal. */
  lemma FieldOrder(a: nat, b: nat, w: nat, x: string, y: string)
    requires a < Pow10(w) && b < Pow10(w)
    ensures LexLess(Pad(a, w) + x, Pad(b, w) + y) <==> a < b || (a == b && LexLess(x, y))
  {
    PadOrder(a, b, w);
    LexPrefix(Pad(a, w), Pad(b, w), x, y);
  }

  lemma SeparatorOrder(c: char, x: string, y: string)
    ensures LexLess([c] + x, [c] + y) <==> LexLess(x, y)
  {
    assert ([c] + x)[1..] == x && ([c] + y)[1..] == y;
  }

  // ------------------------------------------------------------------ date times

  /** A UTC `datetime`. */
  datatype Moment = Moment(date: Date, hour: nat, minute: nat, second: nat, micro: nat)

  predicate ValidMoment(m: Moment) {
    ValidDate(m.date) && m.date.year <= 9999 && m.hour < 24 && m.minute < 60 && m.second < 60 && m.micro < 1_000_000
  }

  /** Microseconds since the start of day 0. */
  function Micros(m: Moment): int {
    (((Ordinal(m.date) * 24 + m.hour) * 60 + m.minute) * 60 + m.second) * 1_000_000 + m.micro
  }

  predicate Before(a: Moment, b: Moment) {
    || DateLess(a.date, b.date)
    || (a.date == b.date && (a.hour < b.hour || (a.hour == b.hour && TimeBefore(a, b))))
  }

  predicate TimeBefore(a: Moment, b: Moment) {
    || a.minute < b.minute
    || (a.minute == b.minute && (a.second < b.second || (a.second == b.second && a.micro < b.micro)))
  }

  lemma MicrosOrder(a: Moment, b: Moment)
    requires ValidMoment(a) && ValidMoment(b)
    ensures Micros(a) < Micros(b) <==> Before(a, b)
  {
    OrdinalOrder(a.date, b.date);
  }

  /** The fraction, if any, and the offset. */
  function Tail(micro: nat): string { (if micro == 0 then "" else "." + Pad(micro, 6)) + "+00:00" }

  function ClockText(m: Moment): string {
    Pad(m.hour, 2) + (":" + (Pad(m.minute, 2) + (":" + (Pad(m.second, 2) + Tail(m.micro)))))
  }

  /** `datetime.isoformat()`. */
  function Iso(m: Moment): string { DateText(m.date, "T" + ClockText(m)) }

  function DateText(d: Date, rest: string): string {
    Pad(d.year, 4) + ("-" + (Pad(d.month, 2) + ("-" + (Pad(d.day, 2) + rest))))
  }

  /** A last digit. */
  lemma PadStep(n: nat, w: nat, text: string)
    requires w >= 1 && Pad(n / 10, w - 1) == text
    ensures Pad(n, w) == text + [Digit(n % 10)]
  {
  }

  lemma TwoDigitsLook()
    ensures Pad(2, 2) == "02" && Pad(29, 2) == "29" && Pad(7, 2) == "07" && Pad(5, 2) == "05" && Pad(9, 2) == "09"
  {
    PadStep(0, 1, "");
    PadStep(2, 2, "0");
    PadStep(5, 2, "0");
    PadStep(7, 2, "0");
    PadStep(9, 2, "0");
    PadStep(2, 1, "");
    PadStep(29, 2, "2");
  }

  lemma YearLooks()
    ensures Pad(2024, 4) == "2024"
  {
    PadStep(2, 1, "");
    PadStep(20, 2, "2");
    PadStep(202, 3, "20");
    PadStep(2024, 4, "202");
  }

  /** What the text of a date looks like, */
  lemma DateLooks(rest: string)
    ensures DateText(Date(2024, 2, 29), rest) == "2024-02-29" + rest
  {
    TwoDigitsLook();
    YearLooks();
  }

  /** of a time of day without a fraction, */
  lemma ClockLooks()
    ensures ClockText(Moment(Date(2024, 2, 29), 7, 5, 9, 0)) == "07:05:09+00:00"
  {
    TwoDigitsLook();
  }

  /** and with one. */
  lemma FractionLooks()
    ensures Tail(1234) == ".001234+00:00"
  {
    PadStep(0, 1, "");
    PadStep(0, 2, "0");
    PadStep(1, 3, "00");
    PadStep(12, 4, "001");
    PadStep(123, 5, "0012");
    PadStep(1234, 6, "00123");
  }

  /** A moment in full. */
  lemma IsoLooks()
    ensures Iso(Moment(Date(2024, 2, 29), 7, 5, 9, 0)) == "2024-02-29" + ("T" + "07:05:09+00:00")
  {
    ClockLooks();
    DateLooks("T" + "07:05:09+00:00");
  }

  lemma TailOrder(a: nat, b: nat)
    requires a < 1_000_000 && b < 1_000_000
    ensures LexLess(Tail(a), Tail(b)) <==> a < b
  {
    assert Pow10(6) == 1_000_000;
    if a == 0 && b == 0 {
      LexIrreflexive(Tail(0));
    } else if a == 0 || b == 0 {
      assert Tail(0)[0] == '+';
      assert Tail(if a == 0 then b else a)[0] == '.';
    } else {
      assert Tail(a) == ['.'] + (Pad(a, 6) + "+00:00") && Tail(b) == ['.'] + (Pad(b, 6) + "+00:00");
      SeparatorOrder('.', Pad(a, 6) + "+00:00", Pad(b, 6) + "+00:00");
      FieldOrder(a, b, 6, "+00:00", "+00:00");
      LexIrreflexive("+00:00");
    }
  }

  lemma TwoDigits()
    ensures Pow10(2) == 100 && Pow10(4) == 10_000
  {
    assert Pow10(1) == 10 && Pow10(3) == 1000;
  }

  lemma ClockOrder(a: Moment, b: Moment)
    requires ValidMoment(a) && ValidMoment(b)
    ensures LexLess(ClockText(a), ClockText(b)) <==> a.hour < b.hour || (a.hour == b.hour && TimeBefore(a, b))
  {
    TwoDigits();
    var s, s' := Pad(a.second, 2) + Tail(a.micro), Pad(b.second, 2) + Tail(b.micro);
    var m, m' := Pad(a.minute, 2) + (":" + s), Pad(b.minute, 2) + (":" + s');
    TailOrder(a.micro, b.micro);
    FieldOrder(a.second, b.second, 2, Tail(a.micro), Tail(b.micro));
    SeparatorOrder(':', s, s');
    FieldOrder(a.minute, b.minute, 2, ":" + s, ":" + s');
    SeparatorOrder(':', m, m');
    FieldOrder(a.hour, b.hour, 2, ":" + m, ":" + m');
  }

  /** The date part decides, unless it is equal. */
  lemma DateTextOrder(a: Date, b: Date, x: string, y: string)
    requires ValidDate(a) && ValidDate(b) && a.year <= 9999 && b.year <= 9999
    ensures LexLess(DateText(a, x), DateText(b, y)) <==> DateLess(a, b) || (a == b && LexLess(x, y))
  {
    TwoDigits();
    var d, d' := Pad(a.day, 2) + x, Pad(b.day, 2) + y;
    var m, m' := Pad(a.month, 2) + ("-" + d), Pad(b.month, 2) + ("-" + d');
    FieldOrder(a.day, b.day, 2, x, y);
    SeparatorOrder('-', d, d');
    FieldOrder(a.month, b.month, 2, "-" + d, "-" + d');
    SeparatorOrder('-', m, m');
    FieldOrder(a.year, b.year, 4, "-" + m, "-" + m');
  }

  /** Text order is time order. */
  lemma IsoOrder(a: Moment, b: Moment)
    requires ValidMoment(a) && ValidMoment(b)
    ensures LexLess(Iso(a), Iso(b)) <==> Micros(a) < Micros(b)
  {
    ClockOrder(a, b);
    SeparatorOrder('T', ClockText(a), ClockText(b));
    DateTextOrder(a.date, b.date, "T" + ClockText(a), "T" + ClockText(b));
    MicrosOrder(a, b);
  }

  // ---------------------------------------------------------- from clock readings

  const MAX_ORDINAL := 3_652_059

  /** The microseconds of the years 1 to 9999. */
  predicate InYears(t: int) { 86_400_000_000 <= t < 3_652_060 * 86_400_000_000 }

  lemma LateYear(d: Date)
    requires ValidDate(d) && d.year >= 10_000
    ensures Ordinal(d) > MAX_ORDINAL
  {
    assert DaysBeforeYear(10_000) == MAX_ORDINAL;
    DayOfYear(d);
    if d.year > 10_000 {
      YearsAscend(10_000, d.year);
    }
  }

  lemma LastDay(d: Date)
    requires ValidDate(d) && Ordinal(d) <= MAX_ORDINAL
    ensures d.year <= 9999
  {
    if d.year >= 10_000 {
      LateYear(d);
    }
  }

  lemma ClockParts(seconds: nat)
    requires seconds < 86_400
    ensures seconds / 3600 < 24 && (seconds / 3600 * 60 + seconds / 60 % 60) * 60 + seconds % 60 == seconds
  {
    assert seconds / 60 / 60 == seconds / 3600;
  }

  /** A day number and a time of day. */
  lemma DayParts(t: int)
    requires InYears(t)
    ensures 1 <= t / 86_400_000_000 <= MAX_ORDINAL
    ensures var rest := t % 86_400_000_000;
            rest / 1_000_000 < 86_400
            && (t / 86_400_000_000 * 86_400 + rest / 1_000_000) * 1_000_000 + rest % 1_000_000 == t
  {
  }

  lemma MicrosOf(d: Date, seconds: nat, micro: nat)
    requires seconds < 86_400
    ensures Micros(Moment(d, seconds / 3600, seconds / 60 % 60, seconds % 60,
                          micro)) == (Ordinal(d) * 86_400 + seconds) * 1_000_000 + micro
  {
    ClockParts(seconds);
  }

  /** Every microsecond of the years 1 to 9999 is some date and time of day, */
  lemma MomentExists(t: int)
    requires InYears(t)
    ensures exists m :: ValidMoment(m) && Micros(m) == t
  {
    DayParts(t);
    var d := FromOrdinal(t / 86_400_000_000);
    LastDay(d);
    var seconds, micro := t % 86_400_000_000 / 1_000_000, t % 86_400_000_000 % 1_000_000;
    MicrosOf(d, seconds, micro);
    ClockParts(seconds);
    var m := Moment(d, seconds / 3600, seconds / 60 % 60, seconds % 60, micro);
    assert ValidMoment(m) && Micros(m) == t;
  }

  /** and only one. */
  lemma MomentUnique(a: Moment, b: Moment)
    requires ValidMoment(a) && ValidMoment(b) && Micros(a) == Micros(b)
    ensures a == b
  {
    MicrosOrder(a, b);
    MicrosOrder(b, a);
  }

  /** `datetime.fromtimestamp(..., tz=UTC)`: the moment at a given number of microseconds. */
  ghost function FromMicros(t: int): (m: Moment)
    requires InYears(t)
    ensures ValidMoment(m) && Micros(m) == t
  {
    MomentExists(t);
    var m :| ValidMoment(m) && Micros(m) == t;
    m
  }
}
