/** Instants: what a datetime denotes, and that instants compare as their calendar fields do. */
module Calendar {
  import opened Common
  import opened CursorCodec

  /** Days of the years before this one, and of the months before this one in its year. */
  function DaysBeforeYear(year: nat): int
    requires year >= 1
  {
    (year - 1) * 365 + (year - 1) / 4 - (year - 1) / 100 + (year - 1) / 400
  }

  function DaysBeforeMonth(year: nat, month: nat): int {
    if month <= 1 then 0 else DaysBeforeMonth(year, month - 1) + DaysIn(year, month - 1)
  }

  function DayNumber(year: nat, month: nat, day: nat): int
    requires year >= 1
  {
    DaysBeforeYear(year) + DaysBeforeMonth(year, month) + day
  }

  /** Microseconds from the start of year 1, UTC. The driver sends every datetime to the database as
      the instant it denotes. */
  function Moment(zone: Timestamp -> int, t: Timestamp): int
    requires Valid(t)
  {
    var seconds := ((DayNumber(t.year, t.month, t.day) * 24 + t.hour) * 60 + t.minute) * 60 + t.second;
    seconds * 1_000_000 + t.micro - (if t.offset.Some? then t.offset.value else zone(t))
  }

  // ---- the calendar ----

  /** The lengths of the months: 29 days for February in years divisible by 4, except those divisible
      by 100 and not by 400. */
  lemma MonthLengths(year: nat, month: nat)
    requires 1 <= month <= 12
    ensures DaysIn(year, month)
         == if month == 2 && year % 4 == 0 && (year % 100 != 0 || year % 400 == 0) then 29
            else [31, 28, 31, 30, 31, 30, 31, 31, 30, 31, 30, 31][month - 1]
  {
  }

  /** The day after a date, over ends of months and years. */
  function NextDay(year: nat, month: nat, day: nat): (nat, nat, nat) {
    if day < DaysIn(year, month) then (year, month, day + 1)
    else if month < 12 then (year, month + 1, 1)
    else (year + 1, 1, 1)
  }

  predicate ValidDate(year: nat, month: nat, day: nat) {
    year >= 1 && 1 <= month <= 12 && 1 <= day <= DaysIn(year, month)
  }

  lemma YearLength(year: nat)
    requires year >= 1
    ensures DaysBeforeYear(year + 1) == DaysBeforeYear(year) + DaysBeforeMonth(year, 12) + 31
  {
    TwelveMonths(year);
    LeapDays(year);
  }

  lemma TwelveMonths(year: nat)
    ensures DaysBeforeMonth(year, 12) == 306 + DaysIn(year, 2)
  {
    assert DaysBeforeMonth(year, 3) == 31 + DaysIn(year, 2) by {
      assert DaysBeforeMonth(year, 2) == 31;
    }
    assert DaysBeforeMonth(year, 6) == DaysBeforeMonth(year, 3) + 92 by {
      assert DaysBeforeMonth(year, 5) == DaysBeforeMonth(year, 4) + 30;
    }
    assert DaysBeforeMonth(year, 9) == DaysBeforeMonth(year, 6) + 92 by {
      assert DaysBeforeMonth(year, 8) == DaysBeforeMonth(year, 7) + 31;
    }
    assert DaysBeforeMonth(year, 12) == DaysBeforeMonth(year, 9) + 91 by {
      assert DaysBeforeMonth(year, 11) == DaysBeforeMonth(year, 10) + 31;
    }
  }

  lemma LeapDays(year: nat)
    requires year >= 1
    ensures year / 4 - year / 100 + year / 400
         == (year - 1) / 4 - (year - 1) / 100 + (year - 1) / 400 + (DaysIn(year, 2) - 28)
  {
    Multiples(year);
    QuotientNext(year);
    assert DaysIn(year, 2) == if year % 4 == 0 && (year % 100 != 0 || year % 400 == 0) then 29 else 28;
  }

  lemma Multiples(year: nat)
    ensures year % 400 == 0 ==> year % 100 == 0
    ensures year % 100 == 0 ==> year % 4 == 0
  {
    if year % 400 == 0 {
      var k := 4 * (year / 400);
      assert year == k * 100;
      Hundreds(k);
    }
    if year % 100 == 0 {
      var k := 25 * (year / 100);
      assert year == k * 4;
      Fours(k);
    }
  }

  lemma Hundreds(k: nat)
    ensures k * 100 % 100 == 0
  {
  }

  lemma Fours(k: nat)
    ensures k * 4 % 4 == 0
  {
  }

  lemma QuotientNext(year: nat)
    requires year >= 1
    ensures year / 4 == (year - 1) / 4 + (if year % 4 == 0 then 1 else 0)
    ensures year / 100 == (year - 1) / 100 + (if year % 100 == 0 then 1 else 0)
    ensures year / 400 == (year - 1) / 400 + (if year % 400 == 0 then 1 else 0)
  {
  }

  /** The next day has the next number. */
  lemma NextDayNumber(year: nat, month: nat, day: nat)
    requires ValidDate(year, month, day)
    ensures var (y, m, d) := NextDay(year, month, day);
      ValidDate(y, m, d) && DayNumber(y, m, d) == DayNumber(year, month, day) + 1
  {
    if day == DaysIn(year, month) && month == 12 {
      YearLength(year);
    }
  }

  lemma {:induction false} MonthsApart(year: nat, m: nat, n: nat)
    requires 1 <= m < n
    ensures DaysBeforeMonth(year, m) + DaysIn(year, m) <= DaysBeforeMonth(year, n)
    decreases n
  {
    if m < n - 1 {
      MonthsApart(year, m, n - 1);
    }
  }

  lemma {:induction false} YearsApart(y: nat, z: nat, month: nat, day: nat)
    requires ValidDate(y, month, day) && y < z
    ensures DayNumber(y, month, day) <= DaysBeforeYear(z)
    decreases z
  {
    if y < z - 1 {
      YearsApart(y, z - 1, month, day);
      YearLength(z - 1);
      TwelveMonths(z - 1);
    } else {
      YearLength(y);
      if month < 12 {
        MonthsApart(y, month, 12);
      }
    }
  }

  lemma {:induction false} MonthsFromZero(year: nat, month: nat)
    ensures DaysBeforeMonth(year, month) >= 0
  {
    if month > 1 {
      MonthsFromZero(year, month - 1);
    }
  }

  /** Dates in calendar order have increasing numbers. */
  lemma DatesInOrder(y: nat, m: nat, d: nat, y': nat, m': nat, d': nat)
    requires ValidDate(y, m, d) && ValidDate(y', m', d')
    requires y < y' || (y == y' && (m < m' || (m == m' && d < d')))
    ensures DayNumber(y, m, d) < DayNumber(y', m', d')
  {
    if y < y' {
      YearsApart(y, y', m, d);
      MonthsFromZero(y', m');
    } else if m < m' {
      MonthsApart(y, m, m');
    }
  }

  // ---- instants ----

  /** On one date, at one offset, instants differ by the time of day in microseconds. */
  lemma SameDay(zone: Timestamp -> int, a: Timestamp, b: Timestamp)
    requires Valid(a) && Valid(b) && a.offset == b.offset && a.offset.Some?
    requires a.year == b.year && a.month == b.month && a.day == b.day
    ensures Moment(zone, b) - Moment(zone, a)
         == 3_600_000_000 * (b.hour - a.hour) + 60_000_000 * (b.minute - a.minute)
            + 1_000_000 * (b.second - a.second) + (b.micro - a.micro)
  {
  }

  /** The same time on the next day is 86,400 seconds later. */
  lemma DayLater(zone: Timestamp -> int, a: Timestamp, b: Timestamp)
    requires Valid(a) && Valid(b) && a.offset == b.offset && a.offset.Some?
    requires (b.year, b.month, b.day) == NextDay(a.year, a.month, a.day)
    requires a.hour == b.hour && a.minute == b.minute && a.second == b.second && a.micro == b.micro
    ensures Moment(zone, b) == Moment(zone, a) + 86_400_000_000
  {
    NextDayNumber(a.year, a.month, a.day);
    hide DayNumber, NextDay;
  }

  /** An offset is subtracted; a naive datetime has the offset of the server's zone. */
  lemma OffsetSubtracts(zone: Timestamp -> int, t: Timestamp)
    requires Valid(t)
    ensures Moment(zone, t)
         == Moment(zone, t.(offset := Some(0))) - (if t.offset.Some? then t.offset.value else zone(t))
  {
  }

  /** The fields of a, read from the year down to the microsecond, come before those of b. */
  predicate Earlier(a: Timestamp, b: Timestamp) {
    || a.year < b.year
    || (a.year == b.year
        && (|| a.month < b.month
            || (a.month == b.month
                && (a.day < b.day || (a.day == b.day && EarlierInDay(a, b))))))
  }

  predicate EarlierInDay(a: Timestamp, b: Timestamp) {
    || a.hour < b.hour
    || (a.hour == b.hour
        && (|| a.minute < b.minute
            || (a.minute == b.minute
                && (a.second < b.second || (a.second == b.second && a.micro < b.micro)))))
  }

  lemma EarlierIsBefore(zone: Timestamp -> int, a: Timestamp, b: Timestamp)
    requires Valid(a) && Valid(b) && a.offset == b.offset && a.offset.Some? && Earlier(a, b)
    ensures Moment(zone, a) < Moment(zone, b)
  {
    if a.year != b.year || a.month != b.month || a.day != b.day {
      DatesInOrder(a.year, a.month, a.day, b.year, b.month, b.day);
      hide DayNumber;
    }
  }

  /** At equal offsets instants compare exactly as year, month, day, hour, minute, second and
      microsecond do, and are equal exactly when all of these are. */
  lemma MomentOrder(zone: Timestamp -> int, a: Timestamp, b: Timestamp)
    requires Valid(a) && Valid(b) && a.offset == b.offset && a.offset.Some?
    ensures Moment(zone, a) < Moment(zone, b) <==> Earlier(a, b)
    ensures Moment(zone, a) == Moment(zone, b) <==> a == b
  {
    hide Moment;
    if Earlier(a, b) {
      EarlierIsBefore(zone, a, b);
    } else if Earlier(b, a) {
      EarlierIsBefore(zone, b, a);
    }
  }
}
