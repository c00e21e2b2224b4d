/** The proleptic Gregorian calendar and the three bucket labels retention uses:
    UTC day, ISO week (week dates of section 4.1.4 of ISO 8601:2004) and month.

    A day is the number of days since Monday 0001-01-01; an instant is a number of
    nanoseconds since the start of that day. */
module Calendar {

  const DAYS_PER_400_YEARS := 146097
  const DAYS_PER_100_YEARS := 36524
  const DAYS_PER_4_YEARS := 1461
  const NANOS_PER_DAY := 86_400_000_000_000

  // ---------------------------------------------------------------- years

  predicate Leap(y: int) {
    y % 4 == 0 && (y % 100 != 0 || y % 400 == 0)
  }

  /** Day number of January 1 of year y. */
  function NewYear(y: int): int {
    var p := y - 1;
    365 * p + p / 4 - p / 100 + p / 400
  }

  function YearLength(y: int): int {
    if Leap(y) then 366 else 365
  }

  lemma NewYearStep(y: int)
    ensures NewYear(y + 1) == NewYear(y) + YearLength(y)
  {
    FourthStep(y);
    HundredthStep(y);
    FourHundredthStep(y);
  }

  lemma FourthStep(y: int)
    ensures y / 4 == (y - 1) / 4 + if y % 4 == 0 then 1 else 0
  {
  }

  lemma HundredthStep(y: int)
    ensures y / 100 == (y - 1) / 100 + if y % 100 == 0 then 1 else 0
    ensures y % 100 == 0 ==> y % 4 == 0
  {
    assert y == 100 * (y / 100) + y % 100;
  }

  lemma FourHundredthStep(y: int)
    ensures y / 400 == (y - 1) / 400 + if y % 400 == 0 then 1 else 0
    ensures y % 400 == 0 ==> y % 100 == 0
  {
    assert y == 400 * (y / 400) + y % 400;
  }

  lemma {:induction false} NewYearIncreasing(a: int, b: int)
    requires a <= b
    ensures NewYear(a) + 365 * (b - a) <= NewYear(b)
    decreases b - a
  {
    if a >= b {
    } else {
      NewYearStep(b - 1);
      NewYearIncreasing(a, b - 1);
    }
  }

  /** The year a day falls in: cut off whole 400-, 100-, 4- and 1-year cycles. The
      last cycle of each kind is a day longer, hence the two corrections by n / 4. */
  function YearOf(day: int): int {
    var c400 := day / DAYS_PER_400_YEARS;
    var d1 := day % DAYS_PER_400_YEARS;
    var c100 := d1 / DAYS_PER_100_YEARS - d1 / DAYS_PER_100_YEARS / 4;
    var d2 := d1 - DAYS_PER_100_YEARS * c100;
    var c4 := d2 / DAYS_PER_4_YEARS;
    var d3 := d2 % DAYS_PER_4_YEARS;
    var c1 := d3 / 365 - d3 / 365 / 4;
    1 + 400 * c400 + 100 * c100 + 4 * c4 + c1
  }

  /** NewYear of a year given by its cycle counts. */
  lemma NewYearOfCycles(a: int, b: int, c: int, e: int)
    requires 0 <= b <= 3 && 0 <= c <= 24 && 0 <= e <= 3
    ensures NewYear(1 + 400 * a + 100 * b + 4 * c + e)
         == DAYS_PER_400_YEARS * a + DAYS_PER_100_YEARS * b + DAYS_PER_4_YEARS * c + 365 * e
    ensures Leap(1 + 400 * a + 100 * b + 4 * c + e) <==> e == 3 && (c != 24 || b == 3)
  {
    QuartersOfCycles(a, b, c, e);
    RemaindersOfCycles(a, b, c, e);
  }

  lemma QuartersOfCycles(a: int, b: int, c: int, e: int)
    requires 0 <= b <= 3 && 0 <= c <= 24 && 0 <= e <= 3
    ensures var p := 400 * a + 100 * b + 4 * c + e;
            p / 4 == 100 * a + 25 * b + c && p / 100 == 4 * a + b && p / 400 == a
  {
  }

  lemma RemaindersOfCycles(a: int, b: int, c: int, e: int)
    requires 0 <= b <= 3 && 0 <= c <= 24 && 0 <= e <= 3
    ensures var y := 400 * a + 100 * b + 4 * c + e + 1; var q := 4 * c + e + 1;
            && y % 4 == (e + 1) % 4
            && y % 100 == (if q == 100 then 0 else q)
            && y % 400 == (if b == 3 && q == 100 then 0 else 100 * b + q)
  {
    var q := 4 * c + e + 1;
    var y := 400 * a + 100 * b + q;
    Fourth(100 * a + 25 * b + c, e + 1);
    Hundredth(4 * a + b, q);
    FourHundredth(a, 100 * b + q);
  }

  lemma Fourth(k: int, r: int)
    requires 0 <= r <= 4
    ensures (4 * k + r) % 4 == r % 4
  {
  }

  lemma Hundredth(k: int, r: int)
    requires 0 <= r <= 100
    ensures (100 * k + r) % 100 == if r == 100 then 0 else r
  {
    assert r == 100 ==> 100 * k + r == 100 * (k + 1);
  }

  lemma FourHundredth(k: int, r: int)
    requires 0 <= r <= 400
    ensures (400 * k + r) % 400 == if r == 400 then 0 else r
  {
    assert r == 400 ==> 400 * k + r == 400 * (k + 1);
  }

  lemma CutCenturies(d: int)
    requires 0 <= d < DAYS_PER_400_YEARS
    ensures var b := d / DAYS_PER_100_YEARS - d / DAYS_PER_100_YEARS / 4;
            && 0 <= b <= 3
            && 0 <= d - DAYS_PER_100_YEARS * b <= DAYS_PER_100_YEARS
            && (d - DAYS_PER_100_YEARS * b == DAYS_PER_100_YEARS ==> b == 3)
  {
    assert 0 <= d / DAYS_PER_100_YEARS <= 4;
  }

  lemma CutFourYears(d: int)
    requires 0 <= d <= DAYS_PER_100_YEARS
    ensures 0 <= d / DAYS_PER_4_YEARS <= 24
    ensures d / DAYS_PER_4_YEARS == 24 ==> d % DAYS_PER_4_YEARS <= 1460
    ensures d / DAYS_PER_4_YEARS == 24 && d % DAYS_PER_4_YEARS == 1460 ==> d == DAYS_PER_100_YEARS
  {
  }

  lemma CutYears(d: int)
    requires 0 <= d < DAYS_PER_4_YEARS
    ensures var e := d / 365 - d / 365 / 4;
            && 0 <= e <= 3 && 0 <= d - 365 * e <= 365
            && (d - 365 * e == 365 ==> e == 3 && d == 1460)
  {
    assert 0 <= d / 365 <= 4;
  }

  /** The cycles a day is cut into, and what is left of it in its year. */
  lemma CutDay(day: int) returns (a: int, b: int, c: int, e: int, left: int)
    ensures YearOf(day) == 1 + 400 * a + 100 * b + 4 * c + e
    ensures 0 <= b <= 3 && 0 <= c <= 24 && 0 <= e <= 3
    ensures day == DAYS_PER_400_YEARS * a + DAYS_PER_100_YEARS * b + DAYS_PER_4_YEARS * c + 365 * e + left
    ensures 0 <= left <= 365 && (left == 365 ==> e == 3 && (c != 24 || b == 3))
  {
    a := day / DAYS_PER_400_YEARS;
    var d1 := day % DAYS_PER_400_YEARS;
    CutCenturies(d1);
    b := d1 / DAYS_PER_100_YEARS - d1 / DAYS_PER_100_YEARS / 4;
    var d2 := d1 - DAYS_PER_100_YEARS * b;
    CutFourYears(d2);
    c := d2 / DAYS_PER_4_YEARS;
    var d3 := d2 % DAYS_PER_4_YEARS;
    CutYears(d3);
    e := d3 / 365 - d3 / 365 / 4;
    left := d3 - 365 * e;
  }

  /** YearOf is the inverse of NewYear: the day lies within the year it names. */
  lemma YearOfSpec(day: int)
    ensures NewYear(YearOf(day)) <= day < NewYear(YearOf(day) + 1)
  {
    hide NewYear, YearOf, Leap;
    var a, b, c, e, left := CutDay(day);
    NewYearOfCycles(a, b, c, e);
    NewYearStep(YearOf(day));
  }

  /** ... and the only year it lies within. */
  lemma YearOfUnique(day: int, y: int)
    requires NewYear(y) <= day < NewYear(y + 1)
    ensures YearOf(day) == y
  {
    hide NewYear, YearOf;
    YearOfSpec(day);
    if YearOf(day) < y {
      NewYearIncreasing(YearOf(day) + 1, y);
    } else if y < YearOf(day) {
      NewYearIncreasing(y + 1, YearOf(day));
    }
  }

  lemma YearMonotone(a: int, b: int)
    requires a <= b
    ensures YearOf(a) <= YearOf(b)
  {
    hide NewYear, YearOf;
    YearOfSpec(a);
    YearOfSpec(b);
    if YearOf(b) < YearOf(a) {
      NewYearIncreasing(YearOf(b) + 1, YearOf(a));
    }
  }

  // --------------------------------------------------------------- months

  /** Days of the year before the first of month m (m == 13 gives the year's length). */
  function DaysBeforeMonth(y: int, m: int): int
    requires 1 <= m <= 13
  {
    var common := [0, 31, 59, 90, 120, 151, 181, 212, 243, 273, 304, 334, 365];
    common[m - 1] + if m > 2 && Leap(y) then 1 else 0
  }

  lemma DaysBeforeMonthIncreasing(y: int, m: int, n: int)
    requires 1 <= m < n <= 13
    ensures DaysBeforeMonth(y, m) + 28 <= DaysBeforeMonth(y, n)
  {
  }

  function MonthFrom(y: int, m: int, yday: int): (r: int)
    requires 1 <= m <= 12 && DaysBeforeMonth(y, m) <= yday < YearLength(y)
    ensures m <= r <= 12 && DaysBeforeMonth(y, r) <= yday < DaysBeforeMonth(y, r + 1)
    decreases 12 - m
  {
    if m == 12 || yday < DaysBeforeMonth(y, m + 1) then m else MonthFrom(y, m + 1, yday)
  }

  datatype Date = Date(year: int, month: int, day: int)

  predicate RealDate(d: Date) {
    1 <= d.month <= 12 &&
    1 <= d.day <= DaysBeforeMonth(d.year, d.month + 1) - DaysBeforeMonth(d.year, d.month)
  }

  function DayOfDate(d: Date): int
    requires 1 <= d.month <= 12
  {
    NewYear(d.year) + DaysBeforeMonth(d.year, d.month) + d.day - 1
  }

  function DateOfDay(day: int): (d: Date)
    ensures RealDate(d)
    ensures DayOfDate(d) == day
  {
    YearOfSpec(day);
    var y := YearOf(day);
    NewYearStep(y);
    var yday := day - NewYear(y);
    var m := MonthFrom(y, 1, yday);
    Date(y, m, yday - DaysBeforeMonth(y, m) + 1)
  }

  predicate Earlier(a: Date, b: Date) {
    a.year < b.year ||
    (a.year == b.year && (a.month < b.month || (a.month == b.month && a.day < b.day)))
  }

  /** The calendar order of dates is the order of days. */
  lemma DayOfDateMonotone(a: Date, b: Date)
    requires RealDate(a) && RealDate(b)
    ensures Earlier(a, b) <==> DayOfDate(a) < DayOfDate(b)
  {
    hide NewYear, DaysBeforeMonth;
    DateWithinYear(a);
    DateWithinYear(b);
    if a.year < b.year {
      NewYearIncreasing(a.year + 1, b.year);
    } else if b.year < a.year {
      NewYearIncreasing(b.year + 1, a.year);
    } else if a.month < b.month {
      DateWithinMonth(a, b.month);
    } else if b.month < a.month {
      DateWithinMonth(b, a.month);
    }
  }

  lemma DateWithinMonth(d: Date, n: int)
    requires RealDate(d) && d.month < n <= 12
    ensures DayOfDate(d) < NewYear(d.year) + DaysBeforeMonth(d.year, n)
  {
    if d.month + 1 < n {
      DaysBeforeMonthIncreasing(d.year, d.month + 1, n);
    }
  }

  lemma DateWithinYear(d: Date)
    requires RealDate(d)
    ensures NewYear(d.year) <= DayOfDate(d) < NewYear(d.year + 1)
  {
    NewYearStep(d.year);
    if d.month < 12 {
      DaysBeforeMonthIncreasing(d.year, d.month + 1, 13);
    }
    if 1 < d.month {
      DaysBeforeMonthIncreasing(d.year, 1, d.month);
    }
  }

  /** Which dates there are: thirty days in April, June, September and November, in February
      28 and in leap years 29, all the rest 31. */
  lemma RealDateMeans(d: Date)
    ensures RealDate(d)
       <==> && 1 <= d.month <= 12
            && 1 <= d.day <= (if d.month == 4 || d.month == 6 || d.month == 9 || d.month == 11 then 30
                              else if d.month != 2 then 31
                              else if d.year % 4 == 0 && (d.year % 100 != 0 || d.year % 400 == 0) then 29
                              else 28)
  {
    hide DaysBeforeMonth;
    if 1 <= d.month <= 12 {
      MonthSpan(d.year, d.month);
    }
  }

  lemma MonthSpan(y: int, m: int)
    requires 1 <= m <= 12
    ensures DaysBeforeMonth(y, m + 1) - DaysBeforeMonth(y, m)
         == if m == 4 || m == 6 || m == 9 || m == 11 then 30 else if m != 2 then 31 else if Leap(y) then 29 else 28
  {
    hide Leap;
    assert m in {1, 2, 3, 4, 5, 6, 7, 8, 9, 10, 11, 12};
  }

  lemma SameDay(a: Date, b: Date)
    requires RealDate(a) && RealDate(b) && DayOfDate(a) == DayOfDate(b)
    ensures a == b
  {
    hide RealDate, DayOfDate;
    DayOfDateMonotone(a, b);
    DayOfDateMonotone(b, a);
  }

  lemma FirstDay(day: int)
    requires day == 0
    ensures DateOfDay(day) == Date(1, 1, 1)
  {
    hide DateOfDay;
    SameDay(DateOfDay(day), Date(1, 1, 1));
  }

  /** Each day has the date after that of the day before. */
  lemma NextDay(day: int)
    ensures var d := DateOfDay(day);
            var length := if d.month == 4 || d.month == 6 || d.month == 9 || d.month == 11 then 30
                          else if d.month != 2 then 31
                          else if d.year % 4 == 0 && (d.year % 100 != 0 || d.year % 400 == 0) then 29
                          else 28;
            DateOfDay(day + 1) == if d.day < length then Date(d.year, d.month, d.day + 1)
                                  else if d.month < 12 then Date(d.year, d.month + 1, 1)
                                  else Date(d.year + 1, 1, 1)
  {
    hide DateOfDay, NewYear;
    var d := DateOfDay(day);
    RealDateMeans(d);
    NewYearStep(d.year);
    var next := if RealDate(d.(day := d.day + 1)) then d.(day := d.day + 1)
                else if d.month < 12 then Date(d.year, d.month + 1, 1) else Date(d.year + 1, 1, 1);
    RealDateMeans(next);
    RealDateMeans(d.(day := d.day + 1));
    SameDay(DateOfDay(day + 1), next);
  }

  /** From the first of a month, its days in turn, and after the last the first of the next. */
  lemma MonthLength(day: int, k: nat)
    requires DateOfDay(day).day == 1
    ensures var d := DateOfDay(day);
            var length := if d.month == 4 || d.month == 6 || d.month == 9 || d.month == 11 then 30
                          else if d.month != 2 then 31
                          else if d.year % 4 == 0 && (d.year % 100 != 0 || d.year % 400 == 0) then 29
                          else 28;
            && (k < length ==> DateOfDay(day + k) == Date(d.year, d.month, 1 + k))
            && (k == length ==> DateOfDay(day + k) == if d.month < 12 then Date(d.year, d.month + 1, 1)
                                                      else Date(d.year + 1, 1, 1))
  {
    hide DateOfDay, NewYear;
    var d := DateOfDay(day);
    NewYearStep(d.year);
    var next := if d.month < 12 then Date(d.year, d.month + 1, 1) else Date(d.year + 1, 1, 1);
    RealDateMeans(d);
    RealDateMeans(next);
    RealDateMeans(d.(day := 1 + k));
    if RealDate(d.(day := 1 + k)) {
      SameDay(DateOfDay(day + k), d.(day := 1 + k));
    } else if DayOfDate(next) == day + k {
      SameDay(DateOfDay(day + k), next);
    }
  }

  // ------------------------------------------------------------ ISO weeks

  /** Monday of the day's week; day 0 is a Monday. */
  function Monday(day: int): int {
    day - day % 7
  }

  datatype Week = Week(year: int, number: int)

  /** The week is named after the year its Thursday falls in. */
  function WeekOfDay(day: int): Week {
    var thursday := Monday(day) + 3;
    var y := YearOf(thursday);
    Week(y, (thursday - NewYear(y)) / 7 + 1)
  }

  /** ISO 8601: week 1 is the week with January 4 in it. */
  function FirstMonday(y: int): int {
    Monday(NewYear(y) + 3)
  }

  function WeeksIn(y: int): int {
    (FirstMonday(y + 1) - FirstMonday(y)) / 7
  }

  /** The week label is the week date of ISO 8601, section 4.1.4: year y owns the days
      from its first Monday to the next year's, counted in sevens from 1. */
  lemma WeekIsIso(day: int)
    ensures var w := WeekOfDay(day);
            && FirstMonday(w.year) <= day < FirstMonday(w.year + 1)
            && w.number == (day - FirstMonday(w.year)) / 7 + 1
            && 1 <= w.number <= WeeksIn(w.year)
  {
    hide NewYear, YearOf, Leap;
    var y := YearOf(Monday(day) + 3);
    YearOfSpec(Monday(day) + 3);
    WeekBetween(NewYear(y), NewYear(y + 1), day);
  }

  /** A week whose Thursday is on or after January 1 starts on or after the Monday of the
      week with January 4 in it, and likewise for the next year. */
  lemma WeekBetween(start: int, end: int, day: int)
    requires start <= Monday(day) + 3 < end
    ensures Monday(start + 3) <= day < Monday(end + 3)
    ensures (Monday(day) + 3 - start) / 7 == (day - Monday(start + 3)) / 7
    ensures 0 <= (day - Monday(start + 3)) / 7 < (Monday(end + 3) - Monday(start + 3)) / 7
  {
    var first, m, next := Monday(start + 3), Monday(day), Monday(end + 3);
    SevensApart(first, m);
    SevensApart(m, next);
    SevensApart(first, next);
    assert first <= start + 3 <= first + 6;
    assert first <= m;
    assert m < next;
  }

  /** Multiples of seven: what lies strictly within three days of one is no later one. */
  lemma SevensApart(a: int, b: int)
    requires a % 7 == 0 && b % 7 == 0
    ensures (b - a) % 7 == 0
    ensures a < b <==> a + 6 < b
  {
  }

  /** A year has 53 weeks exactly when it starts on a Thursday, or on a Wednesday and is
      a leap year; otherwise 52. */
  lemma WeeksInYear(y: int)
    ensures WeeksIn(y) == if NewYear(y) % 7 == 3 || (NewYear(y) % 7 == 2 && Leap(y)) then 53 else 52
  {
    NewYearStep(y);
    WeeksBetween(NewYear(y), NewYear(y + 1));
  }

  lemma WeeksBetween(start: int, end: int)
    requires end == start + 365 || end == start + 366
    ensures (Monday(end + 3) - Monday(start + 3)) / 7
         == if start % 7 == 3 || (start % 7 == 2 && end == start + 366) then 53 else 52
  {
  }

  /** The label is constant from Monday to Sunday and no other day shares it. */
  lemma SameWeekIffSameMonday(a: int, b: int)
    ensures WeekOfDay(a) == WeekOfDay(b) <==> Monday(a) == Monday(b)
  {
    hide NewYear, YearOf, FirstMonday;
    MondayOfWeek(a);
    MondayOfWeek(b);
  }

  /** January 4 is in week 1 of its year, and weeks turn on days divisible by seven, the first
      of which is Monday 0001-01-01. */
  lemma WeekOne(y: int)
    ensures WeekOfDay(DayOfDate(Date(y, 1, 4))) == Week(y, 1)
  {
    hide WeekOfDay, NewYear, Monday, DaysBeforeMonth;
    var day := NewYear(y) + 3;
    assert DayOfDate(Date(y, 1, 4)) == day by { FirstOfYear(y); }
    NewYearIncreasing(y, y + 1);
    MondayNear(day, NewYear(y + 1) + 3);
    WeekUnique(day, y);
    WeekIsIso(day);
  }

  lemma MondayNear(day: int, later: int)
    requires day + 7 <= later
    ensures Monday(day) <= day < Monday(day) + 7 && day < Monday(later)
  {
  }

  /** A day later it is the same week except on a Monday, when the next of the year begins,
      or week 1 of the next year after the last: the 53rd in a year that begins on a Thursday,
      or in a leap year that begins on a Wednesday, and the 52nd in any other. */
  lemma NextWeek(day: int)
    ensures var w := WeekOfDay(day);
            var start := DayOfDate(Date(w.year, 1, 1)) % 7;
            var leap := w.year % 4 == 0 && (w.year % 100 != 0 || w.year % 400 == 0);
            WeekOfDay(day + 1) == if (day + 1) % 7 != 0 then w
                                  else if w.number < (if start == 3 || (start == 2 && leap) then 53 else 52)
                                  then Week(w.year, w.number + 1)
                                  else Week(w.year + 1, 1)
  {
    hide WeekOfDay, FirstMonday, NewYear, WeeksIn, Monday, DaysBeforeMonth;
    var y := WeekOfDay(day).year;
    WeekIsIso(day);
    WeeksInYear(y);
    WeeksSpan(y);
    assert DayOfDate(Date(y, 1, 1)) == NewYear(y) by { FirstOfYear(y); }
    FirstMondayIsMonday(y);
    FirstMondayIsMonday(y + 1);
    if day + 1 < FirstMonday(y + 1) {
      WeekUnique(day + 1, y);
    } else {
      FirstMondayIsMonday(y + 2);
      WeeksInYear(y + 1);
      WeeksSpan(y + 1);
      WeekUnique(day + 1, y + 1);
    }
    WeekIsIso(day + 1);
    NextInSevens(FirstMonday(y), WeeksIn(y), day);
  }

  lemma FirstWeek(day: int)
    requires day == 0
    ensures WeekOfDay(day) == Week(1, 1)
  {
    hide WeekOfDay;
    WeekUnique(day, 1);
    WeekIsIso(day);
  }

  lemma FirstOfYear(y: int)
    ensures DayOfDate(Date(y, 1, 1)) == NewYear(y)
  {
  }

  lemma WeeksSpan(y: int)
    ensures FirstMonday(y + 1) == FirstMonday(y) + 7 * WeeksIn(y)
  {
    hide FirstMonday;
    FirstMondayIsMonday(y);
    FirstMondayIsMonday(y + 1);
    SevensApart(FirstMonday(y), FirstMonday(y + 1));
  }

  /** The week's year is the one whose weeks include the day. */
  lemma WeekUnique(day: int, y: int)
    requires FirstMonday(y) <= day < FirstMonday(y + 1)
    ensures WeekOfDay(day).year == y
  {
    hide WeekOfDay, FirstMonday, WeeksIn;
    WeekIsIso(day);
    var z := WeekOfDay(day).year;
    if z < y {
      FirstMondayMonotone(z + 1, y);
    } else if y < z {
      FirstMondayMonotone(y + 1, z);
    }
  }

  lemma FirstMondayMonotone(y: int, z: int)
    requires y <= z
    ensures FirstMonday(y) <= FirstMonday(z)
  {
    hide NewYear;
    NewYearIncreasing(y, z);
    MondayMonotone(NewYear(y) + 3, NewYear(z) + 3);
  }

  lemma NextInSevens(first: int, weeks: int, day: int)
    requires first % 7 == 0 && first <= day < first + 7 * weeks
    ensures (day + 1 - first) / 7 == (day - first) / 7 + (if (day + 1) % 7 == 0 then 1 else 0)
    ensures (day + 1) % 7 == 0 ==> (day + 1 == first + 7 * weeks <==> (day - first) / 7 + 1 == weeks)
    ensures day + 1 == first + 7 * weeks ==> (day + 1) % 7 == 0 && (day + 1 - (first + 7 * weeks)) / 7 == 0
  {
    var k := (day - first) / 7;
    var r := (day - first) % 7;
    assert day - first == 7 * k + r;
    assert (day + 1) % 7 == (r + 1) % 7 by { SevensDrop(first, 7 * k, r + 1); }
  }

  lemma SevensDrop(a: int, b: int, c: int)
    requires a % 7 == 0 && b % 7 == 0
    ensures (a + b + c) % 7 == c % 7
  {
  }

  lemma MondayOfWeek(day: int)
    ensures Monday(day) == FirstMonday(WeekOfDay(day).year) + (WeekOfDay(day).number - 1) * 7
  {
    hide WeekOfDay, FirstMonday, Monday, WeeksIn;
    var w := WeekOfDay(day);
    WeekIsIso(day);
    FirstMondayIsMonday(w.year);
    SevensFloor(FirstMonday(w.year), day);
  }

  lemma FirstMondayIsMonday(y: int)
    ensures FirstMonday(y) % 7 == 0
  {
    MondayIsMonday(NewYear(y) + 3);
  }

  lemma MondayIsMonday(day: int)
    ensures Monday(day) % 7 == 0
  {
  }

  lemma SevensFloor(base: int, day: int)
    requires base % 7 == 0
    ensures Monday(day) == base + (day - base) / 7 * 7
  {
  }

  // --------------------------------------------------------------- labels

  datatype Period = Daily | Weekly | Monthly

  function DayOfInstant(t: int): int {
    t / NANOS_PER_DAY
  }

  /** The bucket label of an instant, as the number its digits spell: yyyymmdd, the ISO
      year and week, or yyyymm. */
  function Label(p: Period, t: int): int {
    var day := DayOfInstant(t);
    match p
    case Daily => var d := DateOfDay(day); 10000 * d.year + 100 * d.month + d.day
    case Weekly => var w := WeekOfDay(day); 100 * w.year + w.number
    case Monthly => var d := DateOfDay(day); 100 * d.year + d.month
  }

  lemma DayBounds(day: int)
    ensures var d := DateOfDay(day); 1 <= d.day <= 31 && 1 <= d.month <= 12
  {
  }

  /** Two instants share the daily label exactly on the same UTC day. */
  lemma DailyLabelExact(s: int, t: int)
    ensures Label(Daily, s) == Label(Daily, t) <==> s / 86_400_000_000_000 == t / 86_400_000_000_000
  {
    var a, b := DateOfDay(DayOfInstant(s)), DateOfDay(DayOfInstant(t));
    DayBounds(DayOfInstant(s));
    DayBounds(DayOfInstant(t));
    DigitsExact(a.year, a.month, a.day, b.year, b.month, b.day);
    assert DayOfDate(a) == DayOfInstant(s) && DayOfDate(b) == DayOfInstant(t);
  }

  lemma DigitsExact(y: int, m: int, d: int, y': int, m': int, d': int)
    requires 0 <= m < 100 && 0 <= m' < 100 && 0 <= d < 100 && 0 <= d' < 100
    ensures 10000 * y + 100 * m + d == 10000 * y' + 100 * m' + d' <==> y == y' && m == m' && d == d'
    ensures 10000 * y + 100 * m + d < 10000 * y' + 100 * m' + d'
       <==> y < y' || (y == y' && (m < m' || (m == m' && d < d')))
  {
  }

  lemma TwoDigitsExact(y: int, m: int, y': int, m': int)
    requires 0 <= m < 100 && 0 <= m' < 100
    ensures 100 * y + m == 100 * y' + m' <==> y == y' && m == m'
    ensures 100 * y + m < 100 * y' + m' <==> y < y' || (y == y' && m < m')
  {
  }

  lemma WeekBounds(day: int)
    ensures 1 <= WeekOfDay(day).number <= 53
  {
    WeekIsIso(day);
    WeeksInYear(WeekOfDay(day).year);
  }

  lemma MondayMeans(a: int, b: int)
    ensures Monday(a) == Monday(b) <==> a / 7 == b / 7
  {
  }

  /** Two instants share the weekly label exactly in the same Monday-to-Sunday week. */
  lemma WeeklyLabelExact(s: int, t: int)
    ensures Label(Weekly, s) == Label(Weekly, t)
       <==> s / 86_400_000_000_000 / 7 == t / 86_400_000_000_000 / 7
  {
    MondayMeans(DayOfInstant(s), DayOfInstant(t));
    var v, w := WeekOfDay(DayOfInstant(s)), WeekOfDay(DayOfInstant(t));
    WeekBounds(DayOfInstant(s));
    WeekBounds(DayOfInstant(t));
    TwoDigitsExact(v.year, v.number, w.year, w.number);
    SameWeekIffSameMonday(DayOfInstant(s), DayOfInstant(t));
  }

  /** Two instants share the monthly label exactly in the same month of the same year. */
  lemma MonthlyLabelExact(s: int, t: int)
    ensures var a, b := DateOfDay(s / 86_400_000_000_000), DateOfDay(t / 86_400_000_000_000);
            Label(Monthly, s) == Label(Monthly, t) <==> a.year == b.year && a.month == b.month
  {
    var a, b := DateOfDay(DayOfInstant(s)), DateOfDay(DayOfInstant(t));
    DayBounds(DayOfInstant(s));
    DayBounds(DayOfInstant(t));
    TwoDigitsExact(a.year, a.month, b.year, b.month);
  }

  /** Labels never decrease with time, across year ends and 53-week years too. */
  lemma LabelMonotone(p: Period, s: int, t: int)
    requires s <= t
    ensures Label(p, s) <= Label(p, t)
  {
    var a := DayOfInstant(s);
    var b := DayOfInstant(t);
    assert a <= b;
    match p
    case Weekly =>
      WeekMonotone(a, b);
    case Daily =>
      DateMonotone(a, b);
      var c, d := DateOfDay(a), DateOfDay(b);
      DayBounds(a);
      DayBounds(b);
      DigitsExact(d.year, d.month, d.day, c.year, c.month, c.day);
    case Monthly =>
      DateMonotone(a, b);
      DayBounds(a);
      DayBounds(b);
  }

  lemma DateMonotone(a: int, b: int)
    requires a <= b
    ensures !Earlier(DateOfDay(b), DateOfDay(a))
  {
    DayOfDateMonotone(DateOfDay(b), DateOfDay(a));
  }

  lemma WeekMonotone(a: int, b: int)
    requires a <= b
    ensures var v, w := WeekOfDay(a), WeekOfDay(b);
            && 1 <= v.number <= 53 && 1 <= w.number
            && (v.year < w.year || (v.year == w.year && v.number <= w.number))
  {
    WeekIsIso(a);
    WeekIsIso(b);
    WeeksInYear(WeekOfDay(a).year);
    MondayMonotone(a, b);
    YearMonotone(Monday(a) + 3, Monday(b) + 3);
    if WeekOfDay(a).year == WeekOfDay(b).year {
      var first := FirstMonday(WeekOfDay(a).year);
      assert a - first <= b - first;
    }
  }

  lemma MondayMonotone(a: int, b: int)
    requires a <= b
    ensures Monday(a) <= Monday(b)
  {
  }
}
