/** Which minutes a schedule names, from its fields and the calendar. */
module CronNames {
  import opened Base
  import opened Calendar
  import opened Cron
  import opened CronTheorems

  const THURSDAY := 4

  /** The weekday of a day number, Sunday being 0, by counting from 1 January 1970, a Thursday. */
  function Weekday(n: int): int
    decreases if 0 <= n then n else -n
  {
    if n == 0 then THURSDAY
    else if 0 < n then (Weekday(n - 1) + 1) % 7
    else (Weekday(n + 1) + 6) % 7
  }

  lemma {:induction false} WeekdayCounts(n: int)
    ensures Weekday(n) == (n + 4) % 7
    decreases if 0 <= n then n else -n
  {
    if 0 < n {
      WeekdayCounts(n - 1);
      NextInWeek(n + 3);
    } else if n < 0 {
      WeekdayCounts(n + 1);
      NextInWeek(n + 4);
    }
  }

  lemma NextInWeek(x: int)
    ensures (x % 7 + 1) % 7 == (x + 1) % 7 && ((x + 1) % 7 + 6) % 7 == x % 7
  {
  }

  /** The field has the flag of this value set. */
  predicate Flagged(f: Field, v: int) {
    f.low <= v < f.low + |f.allowed| && f.allowed[v - f.low]
  }

  /** Where both days are restricted either is enough; a star leaves the decision to the other. */
  predicate DayNamed(s: Schedule, d: Date) {
    var day, weekday := Flagged(s.day, d.day), Flagged(s.weekday, Weekday(DaysFromCivil(d)));
    || (!s.day.any && !s.weekday.any && (day || weekday))
    || (s.day.any && weekday)
    || (s.weekday.any && day)
  }

  /** A second of the calendar. */
  function SecondOf(d: Date, h: int, m: int, sec: int): int {
    DaysFromCivil(d) * 86_400 + h * 3600 + m * 60 + sec
  }

  lemma NamesMinute(s: Schedule, n: int, h: int, m: int, sec: int)
    requires 0 <= h < 24 && 0 <= m < 60 && 0 <= sec < 60
    ensures Names(s, n * 86_400 + h * 3600 + m * 60 + sec) == Names(s, n * 86_400 + h * 3600 + m * 60)
  {
    hide Names;
    var t := n * 86_400 + h * 3600 + m * 60;
    DayAndRest(n, h * 3600 + m * 60 + sec);
    assert h * 3600 + m * 60 + sec == 60 * (h * 60 + m) + sec;
    NamesWholeMinutes(s, t + sec);
  }

  /** A valid schedule names a minute of a real date exactly when minute, hour and month are allowed
      and the day rule takes the date. */
  lemma NamesIff(s: Schedule, d: Date, h: int, m: int, sec: int)
    requires ValidSchedule(s) && ValidDate(d)
    requires 0 <= h < 24 && 0 <= m < 60 && 0 <= sec < 60
    ensures Names(s, SecondOf(d, h, m, sec)) <==>
            Flagged(s.minute, m) && Flagged(s.hour, h) && Flagged(s.month, d.month) && DayNamed(s, d)
  {
    hide CivilFromDays, DaysFromCivil, Weekday, ValidSchedule, DayMatches, DayNamed;
    var n := DaysFromCivil(d);
    NamesMinute(s, n, h, m, sec);
    CivilOfDate(d);
    ReadsBack(n, h, m);
    WeekdayCounts(n);
    DayRule(s, d);
  }

  lemma DayRule(s: Schedule, d: Date)
    requires ValidSchedule(s) && ValidDate(d)
    ensures DayMatches(s, d.day, Weekday(DaysFromCivil(d))) <==> DayNamed(s, d)
  {
    hide DaysFromCivil, Weekday;
    var w := Weekday(DaysFromCivil(d));
    WeekdayCounts(DaysFromCivil(d));
    assert 1 <= d.day <= 31 && 0 <= w <= 6;
    assert s.day.any ==> FieldMatches(s.day, d.day);
    assert s.weekday.any ==> FieldMatches(s.weekday, w);
  }

  /** Every second is one of the calendar, so that says it of all of them. */
  lemma EverySecond(t: int) returns (d: Date, h: int, m: int, sec: int)
    ensures ValidDate(d) && 0 <= h < 24 && 0 <= m < 60 && 0 <= sec < 60 && t == SecondOf(d, h, m, sec)
  {
    hide CivilFromDays, DaysFromCivil;
    var n, rest := t / 86_400, t % 86_400;
    d := CivilFromDays(n);
    CivilIsExact(n);
    h, m, sec := rest / 3600, rest % 3600 / 60, rest % 60;
    assert rest == h * 3600 + m * 60 + sec;
  }

  // ------------------------------------------------------------------ the search

  /** The search returns the first named minute of its window. */
  lemma {:induction false} FirstNamedIs(s: Schedule, from: int, limit: int, t: int)
    requires from % 60 == 0 && t % 60 == 0 && from <= t < limit && Names(s, t) && NothingNamed(s, from, t)
    ensures FirstNamed(s, from, limit) == Some(t)
    decreases t - from
  {
    hide Names;
    if from < t {
      assert !Names(s, from);
      FirstNamedIs(s, from + 60, limit, t);
    }
  }

  function Only(v: nat, low: nat, count: nat): Field {
    Field(seq(count, i => i + low == v), low, false)
  }

  function Star(low: nat, count: nat): Field {
    Field(seq(count, _ => true), low, true)
  }

  /** `0 0 13 * 5`: midnight of every 13th and of every Friday. */
  function ThirteenthOrFriday(): Schedule {
    Schedule(Only(0, 0, 60), Only(0, 0, 24), Only(13, 1, 31), Star(1, 12), Only(5, 0, 7))
  }

  lemma ThirteenthOrFridayValid()
    ensures ValidSchedule(ThirteenthOrFriday())
  {
    hide ValidField;
    OnlyValid(0, 0, 60);
    OnlyValid(0, 0, 24);
    OnlyValid(13, 1, 31);
    OnlyValid(5, 0, 7);
    StarValid(1, 12);
  }

  lemma OnlyValid(v: nat, low: nat, count: nat)
    requires low <= v < low + count
    ensures ValidField(Only(v, low, count), low, low + count - 1)
  {
    assert FieldMatches(Only(v, low, count), v);
  }

  lemma StarValid(low: nat, count: nat)
    requires 0 < count
    ensures ValidField(Star(low, count), low, low + count - 1)
  {
    assert FieldMatches(Star(low, count), low);
  }

  lemma January(day: int)
    requires 1 <= day <= 31
    ensures ValidDate(Date(1970, 1, day)) && DaysFromCivil(Date(1970, 1, day)) == day - 1
  {
  }

  lemma NamedInJanuary(day: int, h: int, m: int, sec: int)
    requires 1 <= day <= 31 && 0 <= h < 24 && 0 <= m < 60 && 0 <= sec < 60
    ensures Names(ThirteenthOrFriday(), (day - 1) * 86_400 + h * 3600 + m * 60 + sec) <==>
            h == 0 && m == 0 && (day == 13 || (day + 3) % 7 == 5)
  {
    hide Names, DaysFromCivil, Weekday, ValidSchedule;
    ThirteenthOrFridayValid();
    January(day);
    WeekdayCounts(day - 1);
    NamesIff(ThirteenthOrFriday(), Date(1970, 1, day), h, m, sec);
  }

  /** After Friday 9 January 1970 it names Tuesday the 13th next, not Friday the 16th. */
  lemma ThirteenthComesFirst()
    ensures NextNamed(ThirteenthOrFriday(), 8 * 86_400) == Some(12 * 86_400)
  {
    hide Names, ThirteenthOrFriday;
    var s, from := ThirteenthOrFriday(), SearchStart(8 * 86_400);
    assert from == 8 * 86_400 + 60;
    NamedInJanuary(13, 0, 0, 0);
    forall t | from <= t < 12 * 86_400 && t % 60 == 0 ensures !Names(s, t) {
      var n, rest := t / 86_400, t % 86_400;
      NamedInJanuary(n + 1, rest / 3600, rest % 3600 / 60, rest % 60);
      assert rest == rest / 3600 * 3600 + rest % 3600 / 60 * 60 + rest % 60;
    }
    FirstNamedIs(s, from, from + WINDOW, 12 * 86_400);
  }
}
