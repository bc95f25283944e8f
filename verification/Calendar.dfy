/** The Gregorian calendar, and the closed form that turns a day number into a date. */
module Calendar {

  datatype Date = Date(year: int, month: int, day: int)

  /** The first day of the epoch: day number zero. */
  const EPOCH := Date(1970, 1, 1)

  predicate Leap(year: int) {
    year % 4 == 0 && (year % 100 != 0 || year % 400 == 0)
  }

  function MonthLength(year: int, month: int): int {
    if month == 2 then if Leap(year) then 29 else 28
    else if month == 4 || month == 6 || month == 9 || month == 11 then 30
    else 31
  }

  predicate ValidDate(d: Date) {
    1 <= d.month <= 12 && 1 <= d.day <= MonthLength(d.year, d.month)
  }

  /** The day after. */
  function Next(d: Date): Date {
    if d.day < MonthLength(d.year, d.month) then Date(d.year, d.month, d.day + 1)
    else if d.month < 12 then Date(d.year, d.month + 1, 1)
    else Date(d.year + 1, 1, 1)
  }

  /** `civil_from_days`. */
  function CivilFromDays(days: int): Date {
    var z := days + 719_468;
    var era := z / 146_097;
    var doe := z % 146_097;
    var yoe := YearOfEra(doe);
    var year := yoe + era * 400;
    var doy := doe - (365 * yoe + yoe / 4 - yoe / 100);
    var mp := (5 * doy + 2) / 153;
    var day := doy - (153 * mp + 2) / 5 + 1;
    var month := if mp < 10 then mp + 3 else mp - 9;
    Date(if month <= 2 then year + 1 else year, month, day)
  }

  function YearOfEra(doe: int): int {
    (doe - doe / 1460 + doe / 36_524 - doe / 146_096) / 365
  }

  // ------------------------------------------------- years that start in March

  /** Days before 1 March of `year`, counted from 1 March of year 0. */
  function YearStart(year: int): int {
    365 * year + year / 4 - year / 100 + year / 400
  }

  /** Days from 1 March to the first of the month `mp` months later. */
  function MonthStart(mp: int): int {
    (153 * mp + 2) / 5
  }

  /** The day number of a date. */
  function DaysFromCivil(d: Date): int {
    var year := if d.month <= 2 then d.year - 1 else d.year;
    var mp := if d.month <= 2 then d.month + 9 else d.month - 3;
    YearStart(year) + MonthStart(mp) + d.day - 1 - 719_468
  }

  lemma YearStep(year: int)
    ensures YearStart(year + 1) == YearStart(year) + 365 + if Leap(year + 1) then 1 else 0
  {
    assert (year + 1) / 4 == year / 4 + if (year + 1) % 4 == 0 then 1 else 0;
    assert (year + 1) / 100 == year / 100 + if (year + 1) % 100 == 0 then 1 else 0;
    assert (year + 1) / 400 == year / 400 + if (year + 1) % 400 == 0 then 1 else 0;
  }

  lemma YearsRise(a: int, b: int)
    requires a <= b
    ensures YearStart(a) + 365 * (b - a) <= YearStart(b)
    decreases b - a
  {
    if a < b {
      YearStep(b - 1);
      YearsRise(a, b - 1);
    }
  }

  /** The day after a date has the next day number. */
  lemma NextIsOneDayOn(d: Date)
    requires ValidDate(d)
    ensures ValidDate(Next(d)) && DaysFromCivil(Next(d)) == DaysFromCivil(d) + 1
  {
    if d.month == 2 {
      YearStep(d.year - 1);
    }
  }

  /** A day of the 400-year era, taken apart into centuries, four-year cycles and years. */
  lemma YearParts(doe: int, c: int, q: int, y: int, r: int)
    requires 0 <= c <= 3 && 0 <= q <= 24 && 0 <= y <= 3 && 0 <= r <= 365
    requires doe == 36_524 * c + 1461 * q + 365 * y + r
    requires r == 365 ==> y == 3 && (q < 24 || c == 3)
    ensures YearOfEra(doe) == 100 * c + 4 * q + y
  {
    var low := 24 * c + q + 365 * y + r;
    assert doe == 1460 * (25 * c + q) + low;
    assert doe / 1460 == 25 * c + q + low / 1460;
    var mid := 1461 * q + 365 * y + r;
    assert doe / 36_524 == c + mid / 36_524;
    assert low / 1460 == if 1460 <= low then 1 else 0;
    assert mid / 36_524 == if mid == 36_524 then 1 else 0;
    assert doe / 146_096 == if doe == 146_096 then 1 else 0;
  }

  lemma YearOfEraExact(doe: int)
    requires 0 <= doe < 146_097
    ensures var y := YearOfEra(doe);
            && 0 <= y <= 399
            && YearStart(y) <= doe < YearStart(y) + 365 + (if Leap(y + 1) then 1 else 0)
  {
    var c := if doe == 146_096 then 3 else doe / 36_524;
    var d := doe - 36_524 * c;
    var q := if d == 36_524 then 24 else d / 1461;
    var e := d - 1461 * q;
    var y := if 1460 <= e then 3 else e / 365;
    var r := e - 365 * y;
    YearParts(doe, c, q, y, r);
    var n := 100 * c + 4 * q + y;
    assert n / 4 == 25 * c + q;
    assert n / 100 == c;
    assert n / 400 == 0;
  }

  /** The month index of a day of a March year. */
  lemma MonthOfYear(doy: int)
    requires 0 <= doy <= 365
    ensures var mp := (5 * doy + 2) / 153;
            0 <= mp <= 11 && MonthStart(mp) <= doy && (mp < 11 ==> doy < MonthStart(mp + 1))
  {
  }

  /** The 400-year era repeats exactly. */
  lemma EraShift(era: int, yoe: int)
    ensures YearStart(yoe + era * 400) == YearStart(yoe) + era * 146_097
    ensures Leap(yoe + era * 400) == Leap(yoe)
  {
    assert (yoe + era * 400) / 4 == yoe / 4 + era * 100;
    assert (yoe + era * 400) / 100 == yoe / 100 + era * 4;
    assert (yoe + era * 400) / 400 == yoe / 400 + era;
    assert (yoe + era * 400) % 4 == yoe % 4;
    assert (yoe + era * 400) % 100 == yoe % 100;
    assert (yoe + era * 400) % 400 == yoe % 400;
  }

  /** The closed form gives a real date, and that date's day number is the one it came from. */
  lemma CivilIsExact(days: int)
    ensures ValidDate(CivilFromDays(days)) && DaysFromCivil(CivilFromDays(days)) == days
  {
    hide YearOfEra, Leap;
    var z := days + 719_468;
    var era, doe := z / 146_097, z % 146_097;
    var yoe := YearOfEra(doe);
    YearOfEraExact(doe);
    EraShift(era, yoe);
    EraShift(era, yoe + 1);
    assert yoe + 1 + era * 400 == yoe + era * 400 + 1;
    var doy := doe - YearStart(yoe);
    assert YearStart(yoe) == 365 * yoe + yoe / 4 - yoe / 100;
    MonthOfYear(doy);
  }

  /** Day numbers name dates uniquely. */
  lemma DayNumbersDiffer(a: Date, b: Date)
    requires ValidDate(a) && ValidDate(b) && DaysFromCivil(a) == DaysFromCivil(b)
    ensures a == b
  {
    hide YearStart, MonthStart, MonthLength, DaysFromCivil;
    var ya := if a.month <= 2 then a.year - 1 else a.year;
    var yb := if b.month <= 2 then b.year - 1 else b.year;
    DayOfYearBounds(a);
    DayOfYearBounds(b);
    if ya < yb {
      YearsRise(ya + 1, yb);
    } else if yb < ya {
      YearsRise(yb + 1, ya);
    } else {
      SameYear(a, b);
    }
  }

  /** A date lies inside its March year. */
  lemma DayOfYearBounds(d: Date)
    requires ValidDate(d)
    ensures var year := if d.month <= 2 then d.year - 1 else d.year;
            YearStart(year) <= DaysFromCivil(d) + 719_468 < YearStart(year + 1)
  {
    YearStep(if d.month <= 2 then d.year - 1 else d.year);
  }

  lemma SameYear(a: Date, b: Date)
    requires ValidDate(a) && ValidDate(b) && DaysFromCivil(a) == DaysFromCivil(b)
    requires (if a.month <= 2 then a.year - 1 else a.year) == (if b.month <= 2 then b.year - 1 else b.year)
    ensures a == b
  {
    hide YearStart, Leap;
    var ma := if a.month <= 2 then a.month + 9 else a.month - 3;
    var mb := if b.month <= 2 then b.month + 9 else b.month - 3;
    MonthFits(a);
    MonthFits(b);
    assert ma < mb ==> MonthStart(ma + 1) <= MonthStart(mb);
    assert mb < ma ==> MonthStart(mb + 1) <= MonthStart(ma);
  }

  lemma MonthFits(d: Date)
    requires ValidDate(d)
    ensures var mp := if d.month <= 2 then d.month + 9 else d.month - 3;
            mp < 11 ==> d.day <= MonthStart(mp + 1) - MonthStart(mp)
  {
  }

  /** `civil_from_days` starts at 1 January 1970 and steps to the Gregorian successor, for every
      day number. */
  lemma CivilSteps(days: int)
    ensures CivilFromDays(0) == EPOCH
    ensures CivilFromDays(days + 1) == Next(CivilFromDays(days))
  {
    hide CivilFromDays, DaysFromCivil, ValidDate, Next;
    CivilIsExact(days);
    CivilIsExact(days + 1);
    NextIsOneDayOn(CivilFromDays(days));
    DayNumbersDiffer(CivilFromDays(days + 1), Next(CivilFromDays(days)));
    CivilIsExact(0);
    EpochIsDayZero();
    DayNumbersDiffer(CivilFromDays(0), EPOCH);
  }

  lemma EpochIsDayZero()
    ensures ValidDate(EPOCH) && DaysFromCivil(EPOCH) == 0
  {
  }

  /** `n` days after a date, by counting. */
  function Later(d: Date, n: nat): Date {
    if n == 0 then d else Next(Later(d, n - 1))
  }

  /** Counting forward from any day number agrees with the closed form. */
  lemma {:induction false} CivilIsCounting(from: int, n: nat)
    ensures CivilFromDays(from + n) == Later(CivilFromDays(from), n)
  {
    hide CivilFromDays, Next;
    if 0 < n {
      CivilIsCounting(from, n - 1);
      CivilSteps(from + n - 1);
    }
  }
}
