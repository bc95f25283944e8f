/** What the search for the next minute promises, and where its promise ends. */
module CronTheorems {
  import opened Calendar
  import opened Cron

  /** A step selects the arithmetic progression from its start. */
  lemma {:induction false} ReachesProgression(from: nat, step: nat, v: nat)
    requires 0 < step
    ensures Reaches(from, step, v) <==> from <= v && (v - from) % step == 0
    decreases v + 1 - from
  {
    if from < v {
      ReachesProgression(from + step, step, v);
      ModStep(v - from, step);
    } else if from == v {
      assert 0 % step == 0;
    }
  }

  lemma ModStep(n: int, step: int)
    requires 0 < step && 0 < n
    ensures step <= n ==> n % step == (n - step) % step
    ensures n < step ==> n % step != 0
  {
    if n < step {
      assert n / step == 0;
    } else {
      var q, r := (n - step) / step, (n - step) % step;
      assert n == (q + 1) * step + r;
      DivUnique(n, step, q + 1, r);
    }
  }

  lemma DivUnique(n: int, d: int, q: int, r: int)
    requires 0 < d && 0 <= r < d && n == q * d + r
    ensures n % d == r
  {
    var e := n / d - q;
    assert e * d + n % d == r;
    assert 0 < e ==> d <= e * d;
    assert e < 0 ==> e * d <= -d;
  }

  // -------------------------------------------------------------- where it starts

  /** The search starts at the first minute strictly after its input, unless the input is negative
      and not on a minute: there truncating division skips one minute. */
  lemma StartIsNextMinute(after: int)
    ensures after < SearchStart(after) && SearchStart(after) % 60 == 0
    ensures (0 <= after || after % 60 == 0) <==> SearchStart(after) - 60 <= after
  {
  }

  /** The result is the least named minute strictly after the input. */
  ghost predicate LeastNamed(s: Schedule, after: int, t: int) {
    && after < t && t % 60 == 0 && Names(s, t)
    && forall u :: after < u < t && u % 60 == 0 ==> !Names(s, u)
  }

  /** What the search finds is the least named minute strictly after its input, except exactly when
      the input is negative, off the minute, and the minute truncation skips is itself named. */
  lemma FoundIsLeast(s: Schedule, after: int, t: int)
    requires SearchStart(after) <= t && t % 60 == 0 && Names(s, t) && NothingNamed(s, SearchStart(after), t)
    ensures LeastNamed(s, after, t) <==>
            0 <= after || after % 60 == 0 || !Names(s, SearchStart(after) - 60)
  {
    hide Names;
    StartIsNextMinute(after);
    var skipped := SearchStart(after) - 60;
    forall u | after < u < t && u % 60 == 0 && u != skipped
      ensures !Names(s, u)
    {
      assert SearchStart(after) <= u;
    }
  }

  lemma WithinMinute(k: int, sec: int)
    requires 0 <= sec < 60
    ensures (60 * k + sec) % 60 == sec
  {
  }

  lemma WithinDay(days: int, rest: int)
    requires 0 <= rest < 86_400
    ensures var t := 86_400 * days + rest; t / 86_400 == days && t % 86_400 == rest
  {
  }

  lemma DayAndRest(days: int, rest: int)
    requires 0 <= rest < 86_400
    ensures var t := days * 86_400 + rest; t / 86_400 == days && t % 86_400 == rest && t % 60 == rest % 60
  {
    WithinDay(days, rest);
    var minutes, sec := rest / 60, rest % 60;
    assert days * 86_400 + rest == 60 * (1440 * days + minutes) + sec;
    WithinMinute(1440 * days + minutes, sec);
  }

  /** A schedule cannot tell the seconds of one minute apart. */
  lemma NamesWholeMinutes(s: Schedule, t: int)
    ensures Names(s, t) == Names(s, t - t % 60)
  {
    hide CivilFromDays, Matches;
    var days, rest := t / 86_400, t % 86_400;
    var floor := rest - rest % 60;
    DayAndRest(days, rest);
    DayAndRest(days, floor);
    assert t - t % 60 == days * 86_400 + floor;
    assert rest / 3600 == floor / 3600 && rest % 3600 / 60 == floor % 3600 / 60;
  }

  // ------------------------------------------------------------ where it gives up

  /** The most days a month ever has. */
  function LongestMonth(month: int): int {
    if month == 2 then 29 else MonthLength(1, month)
  }

  /** Every date the schedule can match is a 29 February. */
  predicate LeapDayOnly(s: Schedule) {
    && s.weekday.any
    && forall m, d | 1 <= m <= 12 && 1 <= d <= 31 ::
         FieldMatches(s.month, m) && FieldMatches(s.day, d) && d <= LongestMonth(m) ==> m == 2 && d == 29
  }

  lemma YearBounds(d: Date)
    requires ValidDate(d)
    ensures YearStart(d.year - 1) + 306 <= DaysFromCivil(d) + 719_468 < YearStart(d.year) + 306
  {
    hide YearStart;
    YearStep(d.year - 1);
  }

  /** Any date of next year is more than a day and at most two years and a day away. */
  lemma NextYearIsNear(today: Date, next: Date)
    requires ValidDate(today) && ValidDate(next) && next.year == today.year + 1
    ensures 1 <= DaysFromCivil(next) - DaysFromCivil(today) <= 731
  {
    hide YearStart, DaysFromCivil, ValidDate;
    YearBounds(today);
    YearBounds(next);
    YearStep(today.year - 1);
    YearStep(today.year);
  }

  /** The second at a given day number, hour and minute reads back as just that. */
  lemma ReadsBack(n: int, h: int, m: int)
    requires 0 <= h < 24 && 0 <= m < 60
    ensures var t := n * 86_400 + h * 3600 + m * 60;
            && t % 60 == 0
            && FromEpoch(t) == Civil(CivilFromDays(n).month, CivilFromDays(n).day, h, m, (n + 4) % 7)
  {
    hide CivilFromDays;
    var t := n * 86_400 + h * 3600 + m * 60;
    assert t / 86_400 == n && t % 86_400 == h * 3600 + m * 60;
    assert (h * 3600 + m * 60) / 3600 == h && (h * 3600 + m * 60) % 3600 == m * 60;
  }

  lemma CivilOfDate(d: Date)
    requires ValidDate(d)
    ensures CivilFromDays(DaysFromCivil(d)) == d
  {
    hide CivilFromDays, DaysFromCivil, ValidDate;
    CivilIsExact(DaysFromCivil(d));
    DayNumbersDiffer(CivilFromDays(DaysFromCivil(d)), d);
  }

  /** A matching date of the year after `from` gives a named minute in the window from `from`. */
  lemma NamedNextYear(s: Schedule, from: int, d: Date, h: int, m: int)
    requires ValidDate(d) && d.year == CivilFromDays(from / 86_400).year + 1
    requires 0 <= h < 24 && 0 <= m < 60 && FieldMatches(s.hour, h) && FieldMatches(s.minute, m)
    requires FieldMatches(s.month, d.month) && DayMatches(s, d.day, (DaysFromCivil(d) + 4) % 7)
    ensures !NothingNamed(s, from, from + WINDOW)
  {
    hide CivilFromDays, DaysFromCivil, ValidDate, FieldMatches, DayMatches;
    var today := from / 86_400;
    CivilIsExact(today);
    NextYearIsNear(CivilFromDays(today), d);
    var n := DaysFromCivil(d);
    CivilOfDate(d);
    ReadsBack(n, h, m);
    var t := n * 86_400 + h * 3600 + m * 60;
    assert Names(s, t);
    assert from <= t < from + WINDOW;
  }

  /** Some day of the first week of any month falls on a given weekday. */
  lemma WeekdayInFirstWeek(year: int, month: int, weekday: int) returns (d: Date)
    requires 1 <= month <= 12 && 0 <= weekday < 7
    ensures d.year == year && d.month == month && ValidDate(d) && d.day <= 7
    ensures (DaysFromCivil(d) + 4) % 7 == weekday
  {
    hide YearStart, MonthStart, Leap;
    var first := DaysFromCivil(Date(year, month, 1));
    var k := (weekday - first - 4) % 7;
    d := Date(year, month, 1 + k);
    assert DaysFromCivil(d) == first + k;
  }

  /** Unless the schedule can only match a 29 February, finding nothing in one window means it never
      names any minute at all. */
  lemma EmptyWindowMeansNever(s: Schedule, from: int, t: int)
    requires ValidSchedule(s) && !LeapDayOnly(s) && NothingNamed(s, from, from + WINDOW)
    ensures !Names(s, t)
  {
    hide CivilFromDays, DaysFromCivil, NothingNamed;
    if Names(s, t) {
      var date := CivilFromDays(t / 86_400);
      CivilIsExact(t / 86_400);
      var c := FromEpoch(t);
      ClockBounds(t);
      var year := CivilFromDays(from / 86_400).year + 1;
      if s.weekday.any {
        var m, d := OtherDate(s, date);
        var next := Date(year, m, d);
        assert FieldMatches(s.weekday, (DaysFromCivil(next) + 4) % 7);
        NamedNextYear(s, from, next, c.hour, c.minute);
      } else {
        var w :| 0 <= w <= 6 && FieldMatches(s.weekday, w);
        var next := WeekdayInFirstWeek(year, date.month, w);
        NamedNextYear(s, from, next, c.hour, c.minute);
      }
    }
  }

  lemma ClockBounds(t: int)
    ensures 0 <= FromEpoch(t).hour < 24 && 0 <= FromEpoch(t).minute < 60
  {
    hide CivilFromDays;
  }

  /** A date that every year has, whose month and day the schedule allows. */
  lemma OtherDate(s: Schedule, date: Date) returns (m: int, d: int)
    requires s.weekday.any && !LeapDayOnly(s) && ValidDate(date)
    requires FieldMatches(s.month, date.month) && FieldMatches(s.day, date.day)
    ensures 1 <= m <= 12 && 1 <= d && (m == 2 ==> d <= 28) && (m != 2 ==> d <= MonthLength(1, m))
    ensures FieldMatches(s.month, m) && FieldMatches(s.day, d)
  {
    hide FieldMatches;
    m, d := date.month, date.day;
    if m == 2 && d == 29 {
      m, d :| 1 <= m <= 12 && 1 <= d <= 31 && FieldMatches(s.month, m) && FieldMatches(s.day, d)
              && d <= LongestMonth(m) && !(m == 2 && d == 29);
    }
  }

  /** The day number of 1 March 2096, after which no 29 February comes for eight years. */
  const MARCH_2096 := 46_081

  lemma LeapDayIsFar(d: Date)
    requires ValidDate(d) && d.month == 2 && d.day == 29
    ensures !(MARCH_2096 <= DaysFromCivil(d) <= MARCH_2096 + 1465)
  {
    assert Leap(d.year);
    if 2101 <= d.year {
      YearsRise(2100, d.year - 1);
    } else if d.year <= 2096 {
      YearsRise(d.year - 1, 2095);
    }
  }

  /** A leap-day schedule finds nothing in the window after February 2096. */
  lemma LeapDayMissed(s: Schedule)
    requires ValidSchedule(s) && LeapDayOnly(s)
    ensures NothingNamed(s, SearchStart(MARCH_2096 * 86_400), SearchStart(MARCH_2096 * 86_400) + WINDOW)
  {
    hide CivilFromDays, DaysFromCivil, FieldMatches;
    var from := SearchStart(MARCH_2096 * 86_400);
    assert from == MARCH_2096 * 86_400 + 60;
    forall t | from <= t < from + WINDOW && t % 60 == 0
      ensures !Names(s, t)
    {
      var date := CivilFromDays(t / 86_400);
      CivilIsExact(t / 86_400);
      if date.month == 2 && date.day == 29 {
        LeapDayIsFar(date);
      }
    }
  }

  /** But 29 February 2104 is one of the days it names. */
  lemma LeapDayNamed(s: Schedule) returns (t: int)
    requires ValidSchedule(s) && LeapDayOnly(s) && FieldMatches(s.month, 2) && FieldMatches(s.day, 29)
    ensures Names(s, t)
  {
    hide CivilFromDays, DaysFromCivil, FieldMatches;
    var h :| 0 <= h <= 23 && FieldMatches(s.hour, h);
    var m :| 0 <= m <= 59 && FieldMatches(s.minute, m);
    var leap := Date(2104, 2, 29);
    var n := DaysFromCivil(leap);
    CivilOfDate(leap);
    ReadsBack(n, h, m);
    t := n * 86_400 + h * 3600 + m * 60;
    assert FieldMatches(s.weekday, (n + 4) % 7);
  }

  /** Whether finding nothing after any later moment means the schedule never names a minute. */
  ghost predicate NoneMeansNever(s: Schedule) {
    forall after, t :: 0 <= after && NothingNamed(s, SearchStart(after), SearchStart(after) + WINDOW) ==> !Names(s, t)
  }

  /** Four years cover every schedule except exactly those that only ever match a 29 February. */
  lemma WindowCoversAllButLeapDays(s: Schedule)
    requires ValidSchedule(s)
    ensures NoneMeansNever(s) <==> !(LeapDayOnly(s) && FieldMatches(s.month, 2) && FieldMatches(s.day, 29))
  {
    hide ValidSchedule, NothingNamed, Names, FieldMatches;
    if LeapDayOnly(s) && FieldMatches(s.month, 2) && FieldMatches(s.day, 29) {
      LeapDayMissed(s);
      var t := LeapDayNamed(s);
    } else {
      forall after, t | 0 <= after && NothingNamed(s, SearchStart(after), SearchStart(after) + WINDOW)
        ensures !Names(s, t)
      {
        if LeapDayOnly(s) {
          ImpossibleDay(s, t);
        } else {
          EmptyWindowMeansNever(s, SearchStart(after), t);
        }
      }
    }
  }

  lemma ImpossibleDay(s: Schedule, t: int)
    requires ValidSchedule(s) && LeapDayOnly(s) && !(FieldMatches(s.month, 2) && FieldMatches(s.day, 29))
    ensures !Names(s, t)
  {
    hide CivilFromDays, DaysFromCivil, FieldMatches;
    CivilIsExact(t / 86_400);
  }
}
