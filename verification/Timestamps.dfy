/** Instants as 100-nanosecond ticks since 0001-01-01T00:00:00Z, and the round-trip
    ("O") text form of a UTC instant that the audit hash chain prints. */
module Timestamps {
  import opened Common

  const SECOND := 10_000_000
  const MINUTE := 600_000_000
  const HOUR := 36_000_000_000
  const DAY := 864_000_000_000
  /** Days from 0001-01-01 to 9999-12-31, both included. */
  const DAYS_IN_RANGE := 3_652_059

  type Instant = t: int | 0 <= t < DAYS_IN_RANGE * DAY

  predicate Divides(n: int, y: int)
    requires n > 0
  {
    y % n == 0
  }

  /** How many multiples of n there are from 1 to y. */
  function Multiples(n: int, y: int): int
    requires n > 0
  {
    y / n
  }

  predicate Leap(y: int) {
    Divides(4, y) && (!Divides(100, y) || Divides(400, y))
  }

  function YearLength(y: int): int {
    if Leap(y) then 366 else 365
  }

  /** Days before the first day of year y. */
  function DaysBefore(y: int): int
    requires y >= 1
  {
    365 * (y - 1) + Multiples(4, y - 1) - Multiples(100, y - 1) + Multiples(400, y - 1)
  }

  lemma DaysBeforeNext(y: int)
    requires y >= 1
    ensures DaysBefore(y + 1) == DaysBefore(y) + YearLength(y)
  {
    hide Divides, Multiples;
    NextMultiple4(y);
    NextMultiple100(y);
    NextMultiple400(y);
    Centuries(y);
  }

  lemma NextMultiple4(y: int)
    ensures Multiples(4, y) == Multiples(4, y - 1) + if Divides(4, y) then 1 else 0
  {
  }

  lemma NextMultiple100(y: int)
    ensures Multiples(100, y) == Multiples(100, y - 1) + if Divides(100, y) then 1 else 0
  {
  }

  lemma NextMultiple400(y: int)
    ensures Multiples(400, y) == Multiples(400, y - 1) + if Divides(400, y) then 1 else 0
  {
  }

  lemma Centuries(y: int)
    ensures Divides(400, y) ==> Divides(100, y)
    ensures Divides(100, y) ==> Divides(4, y)
  {
    if Divides(400, y) { assert y == 100 * (4 * (y / 400)); }
    if Divides(100, y) { assert y == 4 * (25 * (y / 100)); }
  }

  lemma {:induction false} DaysBeforeMonotone(y: int, z: int)
    requires 1 <= y <= z
    ensures DaysBefore(y) <= DaysBefore(z)
    decreases z - y
  {
    if y < z {
      DaysBeforeMonotone(y, z - 1);
      DaysBeforeNext(z - 1);
    }
  }

  /** The year that holds day d counted from the start of year y, and the day within it. */
  function SplitYear(d: int, y: int): (r: (int, int))
    requires d >= 0 && y >= 1
    ensures y <= r.0 && 0 <= r.1 < YearLength(r.0)
    ensures DaysBefore(y) + d == DaysBefore(r.0) + r.1
    decreases d
  {
    if d < YearLength(y) then (y, d)
    else
      DaysBeforeNext(y);
      SplitYear(d - YearLength(y), y + 1)
  }

  /** Days before the first day of month m within its year. */
  function MonthStart(m: int, leap: bool): int
    requires 1 <= m <= 12
  {
    var l := if leap then 1 else 0;
    if m == 1 then 0 else if m == 2 then 31 else if m == 3 then 59 + l
    else if m == 4 then 90 + l else if m == 5 then 120 + l else if m == 6 then 151 + l
    else if m == 7 then 181 + l else if m == 8 then 212 + l else if m == 9 then 243 + l
    else if m == 10 then 273 + l else if m == 11 then 304 + l else 334 + l
  }

  function MonthOf(day: int, leap: bool, m: int): (r: int)
    requires 1 <= m <= 12 && 0 <= day < (if m == 12 then 366 else MonthStart(m + 1, leap))
    ensures 1 <= r <= m && 0 <= day - MonthStart(r, leap) < 32
  {
    if MonthStart(m, leap) <= day then m else MonthOf(day, leap, m - 1)
  }

  function Digit(n: int): char
    requires 0 <= n < 10
  {
    '0' + n as char
  }

  function Pow10(w: nat): int {
    if w == 0 then 1 else 10 * Pow10(w - 1)
  }

  /** n in decimal, zero-padded to w digits. */
  function Digits(n: int, w: nat): (s: string)
    requires 0 <= n
    ensures |s| == w && forall c | c in s :: '0' <= c <= '9'
  {
    if w == 0 then "" else Digits(n / 10, w - 1) + [Digit(n % 10)]
  }

  lemma {:induction false} DigitsInjective(n: int, m: int, w: nat)
    requires 0 <= n < Pow10(w) && 0 <= m < Pow10(w)
    requires Digits(n, w) == Digits(m, w)
    ensures n == m
  {
    if w > 0 {
      SplitAtLength(Digits(n / 10, w - 1), [Digit(n % 10)], Digits(m / 10, w - 1), [Digit(m % 10)]);
      assert [Digit(n % 10)][0] == [Digit(m % 10)][0];
      DigitsInjective(n / 10, m / 10, w - 1);
    }
  }

  datatype Fields = Fields(year: int, month: int, day: int, hour: int, minute: int, second: int, fraction: int)

  /** Year, month and day of month of the given day number. */
  function Date(days: int): (int, int, int)
    requires 0 <= days
  {
    var (y, d) := SplitYear(days, 1);
    var m := MonthOf(d, Leap(y), 12);
    (y, m, d - MonthStart(m, Leap(y)) + 1)
  }

  lemma DateInjective(a: int, b: int)
    requires a >= 0 && b >= 0 && Date(a) == Date(b)
    ensures a == b
  {
    var (y, d) := SplitYear(a, 1);
    var (z, e) := SplitYear(b, 1);
    assert y == z && d == e;
  }

  function Calendar(t: Instant): Fields {
    var seconds := t / 10_000_000;
    var minutes := seconds / 60;
    var hours := minutes / 60;
    var (y, m, d) := Date(hours / 24);
    Fields(y, m, d, hours % 24, minutes % 60, seconds % 60, t % 10_000_000)
  }

  lemma CalendarInRange(t: Instant)
    ensures InRange(Calendar(t))
  {
    PowersOfTen();
    var (y, d) := SplitYear(t / 10_000_000 / 60 / 60 / 24, 1);
    if y >= 10000 { DaysBeforeMonotone(10000, y); }
  }

  lemma PowersOfTen()
    ensures Pow10(2) == 100 && Pow10(4) == 10000 && Pow10(7) == 10000000
  {
    assert Pow10(1) == 10;
    assert Pow10(3) == 1000;
    assert Pow10(5) == 100000;
    assert Pow10(6) == 1000000;
  }

  lemma CalendarInjective(t: Instant, u: Instant)
    requires Calendar(t) == Calendar(u)
    ensures t == u
  {
    var s, r := t / 10_000_000, u / 10_000_000;
    DateInjective(s / 60 / 60 / 24, r / 60 / 60 / 24);
    Recompose(s / 60 / 60, r / 60 / 60, 24);
    Recompose(s / 60, r / 60, 60);
    Recompose(s, r, 60);
  }

  lemma Recompose(a: int, b: int, n: int)
    requires n > 0 && a / n == b / n && a % n == b % n
    ensures a == b
  {
    assert a == a / n * n + a % n && b == b / n * n + b % n;
  }

  /** One zero-padded number, then a separator, then the rest. */
  function Numbered(n: int, w: nat, sep: char, rest: string): (s: string)
    requires 0 <= n
    ensures '|' in s ==> sep == '|' || '|' in rest
  {
    Digits(n, w) + ([sep] + rest)
  }

  lemma PeelNumber(n: int, m: int, w: nat, sep: char, x: string, y: string)
    requires 0 <= n < Pow10(w) && 0 <= m < Pow10(w)
    requires Numbered(n, w, sep, x) == Numbered(m, w, sep, y)
    ensures n == m && x == y
  {
    SplitAtLength(Digits(n, w), [sep] + x, Digits(m, w), [sep] + y);
    SplitAtLength([sep], x, [sep], y);
    DigitsInjective(n, m, w);
  }

  predicate InRange(f: Fields) {
    && 0 <= f.year < Pow10(4) && 0 <= f.month < Pow10(2) && 0 <= f.day < Pow10(2)
    && 0 <= f.hour < Pow10(2) && 0 <= f.minute < Pow10(2) && 0 <= f.second < Pow10(2)
    && 0 <= f.fraction < Pow10(7)
  }

  function TimeText(f: Fields): (s: string)
    requires InRange(f)
    ensures '|' !in s
  {
    Numbered(f.hour, 2, ':', Numbered(f.minute, 2, ':', Numbered(f.second, 2, '.', Numbered(f.fraction, 7, 'Z', ""))))
  }

  function DateTimeText(f: Fields): (s: string)
    requires InRange(f)
    ensures '|' !in s
  {
    Numbered(f.year, 4, '-', Numbered(f.month, 2, '-', Numbered(f.day, 2, 'T', TimeText(f))))
  }

  lemma TimeTextInjective(f: Fields, g: Fields)
    requires InRange(f) && InRange(g) && TimeText(f) == TimeText(g)
    ensures f.hour == g.hour && f.minute == g.minute && f.second == g.second && f.fraction == g.fraction
  {
    var a7, b7 := Numbered(f.fraction, 7, 'Z', ""), Numbered(g.fraction, 7, 'Z', "");
    var a6, b6 := Numbered(f.second, 2, '.', a7), Numbered(g.second, 2, '.', b7);
    PeelNumber(f.hour, g.hour, 2, ':', Numbered(f.minute, 2, ':', a6), Numbered(g.minute, 2, ':', b6));
    PeelNumber(f.minute, g.minute, 2, ':', a6, b6);
    PeelNumber(f.second, g.second, 2, '.', a7, b7);
    PeelNumber(f.fraction, g.fraction, 7, 'Z', "", "");
  }

  /** The "O" form: yyyy-MM-ddTHH:mm:ss.fffffffZ. */
  function Stamp(t: Instant): (s: string)
    ensures '|' !in s
  {
    CalendarInRange(t);
    DateTimeText(Calendar(t))
  }

  /** No two instants print alike, so the text form determines the instant to the tick. */
  lemma StampInjective(t: Instant, u: Instant)
    requires Stamp(t) == Stamp(u)
    ensures t == u
  {
    var f, g := Calendar(t), Calendar(u);
    CalendarInRange(t);
    CalendarInRange(u);
    var a3, b3 := Numbered(f.day, 2, 'T', TimeText(f)), Numbered(g.day, 2, 'T', TimeText(g));
    PeelNumber(f.year, g.year, 4, '-', Numbered(f.month, 2, '-', a3), Numbered(g.month, 2, '-', b3));
    PeelNumber(f.month, g.month, 2, '-', a3, b3);
    PeelNumber(f.day, g.day, 2, 'T', TimeText(f), TimeText(g));
    TimeTextInjective(f, g);
    CalendarInjective(t, u);
  }

  // ----- What the text says -----

  /** The number that decimal digits spell. */
  function Number(s: string): int {
    if s == "" then 0 else 10 * Number(s[..|s| - 1]) + (s[|s| - 1] as int - '0' as int)
  }

  lemma {:induction false} DigitsSpell(n: int, w: nat)
    requires 0 <= n < Pow10(w)
    ensures Number(Digits(n, w)) == n
  {
    if w > 0 {
      DigitsSpell(n / 10, w - 1);
      assert Digits(n, w)[..w - 1] == Digits(n / 10, w - 1);
    }
  }

  function MonthLength(m: int, leap: bool): int {
    if m == 2 then if leap then 29 else 28
    else if m == 4 || m == 6 || m == 9 || m == 11 then 30 else 31
  }

  /** Days from the first of January to the first of month m, month by month. */
  function DaysOfMonths(m: int, leap: bool): int
    decreases m
  {
    if m <= 1 then 0 else DaysOfMonths(m - 1, leap) + MonthLength(m - 1, leap)
  }

  /** Days from 0001-01-01 to the first of January of year y, year by year. */
  function DaysOfYears(y: int): int
    decreases y
  {
    if y <= 1 then 0 else DaysOfYears(y - 1) + if (y - 1) % 4 == 0 && ((y - 1) % 100 != 0 || (y - 1) % 400 == 0) then 366 else 365
  }

  lemma MonthsAdd(m: int, leap: bool)
    requires 1 <= m <= 12
    ensures MonthStart(m, leap) == DaysOfMonths(m, leap)
    ensures m < 12 ==> MonthStart(m + 1, leap) == MonthStart(m, leap) + MonthLength(m, leap)
    decreases m
  {
    if m > 1 { MonthsAdd(m - 1, leap); }
  }

  lemma {:induction false} YearsAdd(y: int)
    requires 1 <= y
    ensures DaysBefore(y) == DaysOfYears(y)
    decreases y
  {
    if y > 1 {
      YearsAdd(y - 1);
      DaysBeforeNext(y - 1);
    }
  }

  lemma MonthHolds(day: int, leap: bool, m: int)
    requires 1 <= m <= 12 && 0 <= day < (if m == 12 then (if leap then 366 else 365) else MonthStart(m + 1, leap))
    ensures var r := MonthOf(day, leap, m); 1 <= r <= 12 && 0 <= day - MonthStart(r, leap) < MonthLength(r, leap)
    decreases m
  {
    if MonthStart(m, leap) > day { MonthHolds(day, leap, m - 1); }
  }

  /** The printed date and time are those of the instant in the Gregorian calendar. */
  lemma CalendarIsGregorian(t: Instant)
    ensures var f := Calendar(t);
            && f.year >= 1 && 1 <= f.month <= 12 && 1 <= f.day <= MonthLength(f.month, Leap(f.year))
            && 0 <= f.hour < 24 && 0 <= f.minute < 60 && 0 <= f.second < 60 && 0 <= f.fraction < SECOND
            && t == (DaysOfYears(f.year) + DaysOfMonths(f.month, Leap(f.year)) + f.day - 1) * DAY
                    + f.hour * HOUR + f.minute * MINUTE + f.second * SECOND + f.fraction
  {
    var days := t / 10_000_000 / 60 / 60 / 24;
    var (y, d) := SplitYear(days, 1);
    assert days == DaysBefore(y) + d;
    MonthHolds(d, Leap(y), 12);
    YearsAdd(y);
    MonthsAdd(Calendar(t).month, Leap(y));
  }

  /** The text spells the fields of the date and time with leading zeros. */
  lemma StampSpells(t: Instant)
    ensures InRange(Calendar(t))
    ensures var f := Calendar(t);
            Stamp(t) == Digits(f.year, 4) + "-" + Digits(f.month, 2) + "-" + Digits(f.day, 2) + "T"
                        + Digits(f.hour, 2) + ":" + Digits(f.minute, 2) + ":" + Digits(f.second, 2) + "." + Digits(f.fraction, 7) + "Z"
  {
    CalendarInRange(t);
    var f := Calendar(t);
    hide Calendar, Digits;
  }
}
