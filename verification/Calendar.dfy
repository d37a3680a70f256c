/**
 Calendar arithmetic of the date inputs: Hinnant's `days_from_civil` against a plain
 day count, and ISO week numbers against the weeks themselves. The source divides
 and takes remainders towards zero; both operators are spelled out.
 */
module Calendar {
  import opened Common

  function TruncDiv(a: int, b: int): int
    requires b > 0
  {
    if a >= 0 then a / b else -((-a) / b)
  }

  function TruncRem(a: int, b: int): int
    requires b > 0
  {
    a - b * TruncDiv(a, b)
  }

  predicate IsLeapYear(year: int) {
    (TruncRem(year, 4) == 0 && TruncRem(year, 100) != 0) || TruncRem(year, 400) == 0
  }

  function DaysInMonth(year: int, month: int): int {
    match month
    case 1 | 3 | 5 | 7 | 8 | 10 | 12 => 31
    case 4 | 6 | 9 | 11 => 30
    case 2 => if IsLeapYear(year) then 29 else 28
    case _ => 0
  }

  predicate ValidYmd(year: int, month: int, day: int) {
    year >= 1 && 1 <= month <= 12 && 1 <= day <= DaysInMonth(year, month)
  }

  /** `days_from_civil`. */
  function DaysFromCivil(year: int, month: int, day: int): int {
    var y := if month <= 2 then year - 1 else year;
    var era := TruncDiv(if y >= 0 then y else y - 399, 400);
    var yoe := y - era * 400;
    var doy := TruncDiv(153 * (if month > 2 then month - 3 else month + 9) + 2, 5) + day - 1;
    var doe := yoe * 365 + TruncDiv(yoe, 4) - TruncDiv(yoe, 100) + doy;
    era * 146097 + doe - 719468
  }

  // -------------------------------------------------------- the plain day count

  /** Days in the months of `year` before `month`. */
  function DaysBeforeMonth(year: int, month: int): int
    requires 1 <= month <= 13
    decreases month
  {
    if month == 1 then 0 else DaysBeforeMonth(year, month - 1) + DaysInMonth(year, month - 1)
  }

  function YearLength(year: int): int { DaysBeforeMonth(year, 13) }

  /** Days from 1970-01-01 to the first day of `year`, counted year by year. */
  function YearStart(year: int): int
    decreases if year >= 1970 then year - 1970 else 1970 - year
  {
    if year == 1970 then 0
    else if year > 1970 then YearStart(year - 1) + YearLength(year - 1)
    else YearStart(year + 1) - YearLength(year)
  }

  function DayNumber(year: int, month: int, day: int): int
    requires 1 <= month <= 12
  {
    YearStart(year) + DaysBeforeMonth(year, month) + day - 1
  }

  // ------------------------------------------------------------- closed forms

  /** Days before March of `y`, up to a constant. */
  function MarchCount(y: int): int { 365 * y + y / 4 - y / 100 + y / 400 }

  lemma LeapExact(y: int)
    ensures IsLeapYear(y) <==> (y % 4 == 0 && y % 100 != 0) || y % 400 == 0
  {
    RemZero(y, 4);
    RemZero(y, 100);
    RemZero(y, 400);
  }

  lemma RemZero(a: int, b: int)
    requires b > 0
    ensures TruncRem(a, b) == 0 <==> a % b == 0
  {
    if a < 0 {
      var q := (-a) / b;
      assert -a == b * q + (-a) % b;
      if (-a) % b == 0 {
        assert a == b * (-q);
        ModUnique(a, b, -q, 0);
      } else {
        assert a == b * (-q - 1) + (b - (-a) % b);
        ModUnique(a, b, -q - 1, b - (-a) % b);
      }
    }
  }

  lemma ModUnique(a: int, b: int, q: int, r: int)
    requires b > 0 && 0 <= r < b && a == b * q + r
    ensures a / b == q && a % b == r
  {
    var k := q - a / b;
    assert b * k == a % b - r;
    assert k >= 1 ==> b * k >= b;
    assert k <= -1 ==> b * k <= -b;
  }

  lemma DivStep(y: int, b: int)
    requires b > 1
    ensures y / b - (y - 1) / b == if y % b == 0 then 1 else 0
  {
    if y % b == 0 {
      ModUnique(y - 1, b, y / b - 1, b - 1);
    } else {
      ModUnique(y - 1, b, y / b, y % b - 1);
    }
  }

  lemma Divisibility(y: int)
    ensures y % 400 == 0 ==> y % 100 == 0
    ensures y % 100 == 0 ==> y % 4 == 0
  {
    if y % 400 == 0 {
      ModUnique(y, 100, 4 * (y / 400), 0);
    }
    if y % 100 == 0 {
      ModUnique(y, 4, 25 * (y / 100), 0);
    }
  }

  lemma MarchStep(y: int)
    ensures MarchCount(y) - MarchCount(y - 1) == if IsLeapYear(y) then 366 else 365
  {
    LeapExact(y);
    Divisibility(y);
    DivStep(y, 4);
    DivStep(y, 100);
    DivStep(y, 400);
  }

  lemma EraSplit(y: int)
    ensures var era := TruncDiv(if y >= 0 then y else y - 399, 400);
            era == y / 400 && 0 <= y - era * 400 < 400
  {
  }

  lemma EraCount(era: int, yoe: int)
    requires 0 <= yoe < 400
    ensures era * 146097 + yoe * 365 + yoe / 4 - yoe / 100 == MarchCount(400 * era + yoe)
  {
    ModUnique(400 * era + yoe, 400, era, yoe);
    ModUnique(400 * era + yoe, 4, 100 * era + yoe / 4, yoe % 4);
    ModUnique(400 * era + yoe, 100, 4 * era + yoe / 100, yoe % 100);
  }

  /** Day of the March-based year on which a month starts. */
  function MonthShift(month: int): int
    requires 1 <= month <= 12
  {
    (153 * (if month > 2 then month - 3 else month + 9) + 2) / 5
  }

  lemma CivilClosed(year: int, month: int, day: int)
    requires 1 <= month <= 12
    ensures DaysFromCivil(year, month, day)
            == MarchCount(if month <= 2 then year - 1 else year) + MonthShift(month) + day - 1 - 719468
  {
    var y := if month <= 2 then year - 1 else year;
    EraSplit(y);
    EraCount(y / 400, y - (y / 400) * 400);
  }

  lemma {:induction false} MonthTable(year: int, month: int)
    requires 1 <= month <= 12
    ensures month <= 2 ==> DaysBeforeMonth(year, month) == MonthShift(month) - 306
    ensures month > 2 ==> DaysBeforeMonth(year, month) == MonthShift(month) + 59 + (if IsLeapYear(year) then 1 else 0)
  {
    if month > 1 {
      MonthTable(year, month - 1);
    }
  }

  lemma YearLengthExact(year: int)
    ensures YearLength(year) == if IsLeapYear(year) then 366 else 365
  {
    MonthTable(year, 12);
  }

  lemma {:induction false} YearStartClosed(year: int)
    ensures YearStart(year) == MarchCount(year - 1) + 306 - 719468
    decreases if year >= 1970 then year - 1970 else 1970 - year
  {
    if year > 1970 {
      YearStartClosed(year - 1);
      YearLengthExact(year - 1);
      MarchStep(year - 1);
    } else if year < 1970 {
      YearStartClosed(year + 1);
      YearLengthExact(year);
      MarchStep(year);
    }
  }

  /** The closed form is the plain day count, for every integer year. */
  lemma CivilExact(year: int, month: int, day: int)
    requires 1 <= month <= 12
    ensures DaysFromCivil(year, month, day) == DayNumber(year, month, day)
  {
    CivilClosed(year, month, day);
    YearStartClosed(year);
    MonthTable(year, month);
    MarchStep(year);
  }

  // --------------------------------------------------- dates in calendar order

  datatype Date = Date(year: int, month: int, day: int)

  ghost predicate Real(d: Date) {
    1 <= d.month <= 12 && 1 <= d.day <= DaysInMonth(d.year, d.month)
  }

  function Days(d: Date): int { DaysFromCivil(d.year, d.month, d.day) }

  function Next(d: Date): Date {
    if d.day < DaysInMonth(d.year, d.month) then d.(day := d.day + 1)
    else if d.month < 12 then Date(d.year, d.month + 1, 1)
    else Date(d.year + 1, 1, 1)
  }

  ghost predicate Before(a: Date, b: Date) {
    || a.year < b.year
    || (a.year == b.year && a.month < b.month)
    || (a.year == b.year && a.month == b.month && a.day < b.day)
  }

  lemma YearStep(year: int)
    ensures YearStart(year + 1) == YearStart(year) + YearLength(year)
  {
  }

  lemma NextCount(d: Date)
    requires Real(d)
    ensures Real(Next(d))
    ensures DayNumber(Next(d).year, Next(d).month, Next(d).day) == DayNumber(d.year, d.month, d.day) + 1
  {
    if d.day == DaysInMonth(d.year, d.month) && d.month == 12 {
      YearStep(d.year);
      assert DaysBeforeMonth(d.year, 13) == DaysBeforeMonth(d.year, 12) + 31;
    }
  }

  /** Consecutive dates are exactly one day apart. */
  lemma NextDay(d: Date)
    requires Real(d)
    ensures Real(Next(d)) && Days(Next(d)) == Days(d) + 1
  {
    NextCount(d);
    CivilExact(d.year, d.month, d.day);
    CivilExact(Next(d).year, Next(d).month, Next(d).day);
  }

  lemma {:induction false} MonthsOrdered(year: int, m: int, n: int)
    requires 1 <= m < n <= 13
    ensures DaysBeforeMonth(year, m) + DaysInMonth(year, m) <= DaysBeforeMonth(year, n)
    decreases n
  {
    if m < n - 1 {
      MonthsOrdered(year, m, n - 1);
    }
  }

  lemma {:induction false} YearsOrdered(y: int, z: int)
    requires y < z
    ensures YearStart(y) + YearLength(y) <= YearStart(z)
    decreases z - y
  {
    YearStep(z - 1);
    if y < z - 1 {
      YearsOrdered(y, z - 1);
      YearLengthExact(z - 1);
    }
  }

  /** Day numbers are strictly increasing in calendar order, hence injective. */
  lemma DaysIncrease(a: Date, b: Date)
    requires Real(a) && Real(b) && Before(a, b)
    ensures Days(a) < Days(b)
  {
    CivilExact(a.year, a.month, a.day);
    CivilExact(b.year, b.month, b.day);
    MonthsOrdered(a.year, a.month, 13);
    MonthTable(b.year, b.month);
    if a.year < b.year {
      YearsOrdered(a.year, b.year);
      if b.month > 1 {
        MonthsOrdered(b.year, 1, b.month);
      }
    } else if a.month < b.month {
      MonthsOrdered(a.year, a.month, b.month);
    }
  }

  lemma DaysInjective(a: Date, b: Date)
    requires Real(a) && Real(b)
    ensures Days(a) == Days(b) <==> a == b
  {
    if Before(a, b) {
      DaysIncrease(a, b);
    } else if Before(b, a) {
      DaysIncrease(b, a);
    }
  }

  lemma {:induction false} EarlyYear(k: nat)
    ensures YearStart(1970 - k) <= -365 * k
  {
    if k > 0 {
      EarlyYear(k - 1);
      YearLengthExact(1970 - k);
    }
  }

  lemma {:induction false} Walk(d: Date, k: nat) returns (r: Date)
    requires Real(d)
    ensures Real(r) && Days(r) == Days(d) + k
    decreases k
  {
    if k == 0 {
      r := d;
    } else {
      NextDay(d);
      r := Walk(Next(d), k - 1);
    }
  }

  /** Every day number is the number of exactly one real date. */
  lemma DaysOnto(n: int)
    ensures exists d :: Real(d) && Days(d) == n
  {
    var k: nat := if n >= 0 then 0 else -n;
    var start := Date(1970 - k, 1, 1);
    EarlyYear(k);
    CivilExact(1970 - k, 1, 1);
    var d := Walk(start, n - Days(start));
  }

  // ---------------------------------------------------------------- ISO weeks

  /** The source's weekday: 0 = Sunday .. 6 = Saturday, but negative for some days before 1970. */
  function SourceWeekday(days: int): int { TruncRem(TruncRem(days, 7) + 4, 7) }

  /** The Monday on or before January 4th. */
  function Week1From(jan4: int): int { jan4 - TruncRem(SourceWeekday(jan4) + 6, 7) }

  function Week1Monday(year: int): int { Week1From(DaysFromCivil(year, 1, 4)) }

  predicate ThursdayAtAnEnd(jan1: int, dec31: int) { SourceWeekday(jan1) == 4 || SourceWeekday(dec31) == 4 }

  predicate HasIsoWeek53(year: int) {
    ThursdayAtAnEnd(DaysFromCivil(year, 1, 1), DaysFromCivil(year, 12, 31))
  }

  /** Whole weeks since Monday 1969-12-29. */
  function WeekNumber(year: int, week: int): int {
    TruncDiv(Week1Monday(year) + (week - 1) * 7 - (-3), 7)
  }

  function WeeksIn(year: int): int { if HasIsoWeek53(year) then 53 else 52 }

  predicate IsMonday(days: int) { (days + 3) % 7 == 0 }

  lemma RemPositive(n: int)
    requires n >= 0
    ensures TruncRem(n, 7) == n % 7
  {
  }

  lemma RemNegative(n: int)
    requires n < 0
    ensures TruncRem(n, 7) == -((-n) % 7)
    ensures n % 7 == 0 <==> (-n) % 7 == 0
    ensures n % 7 != 0 ==> n % 7 == 7 - (-n) % 7
  {
  }

  lemma SmallRems(r: int)
    requires -7 < r < 7
    ensures TruncRem(TruncRem(r + 4, 7) + 6, 7) == (r + 10) % 7
    ensures TruncRem(r + 4, 7) == 4 <==> r == 0
  {
  }

  lemma ShiftMod(days: int, r: int)
    requires days % 7 == r % 7
    ensures (days + 3) % 7 == (r + 10) % 7
  {
  }

  /** Truncation does no harm: the Monday offset and the Thursday test are right for every day. */
  lemma WeekdayExact(days: int)
    ensures TruncRem(SourceWeekday(days) + 6, 7) == (days + 3) % 7
    ensures SourceWeekday(days) == 4 <==> days % 7 == 0
  {
    var r := TruncRem(days, 7);
    if days >= 0 {
      RemPositive(days);
    } else {
      RemNegative(days);
    }
    assert -7 < r < 7 && days % 7 == r % 7 && (r == 0 <==> days % 7 == 0);
    SmallRems(r);
    ShiftMod(days, r);
  }

  lemma Week1FromExact(n: int)
    ensures IsMonday(Week1From(n)) && Week1From(n) <= n < Week1From(n) + 7
  {
    WeekdayExact(n);
  }

  /** The ends and the fourths of January of a year and the next, from one number and one length. */
  lemma YearDays(year: int) returns (n: int, length: int)
    ensures DaysFromCivil(year, 1, 1) == n && DaysFromCivil(year, 12, 31) == n + length - 1
    ensures DaysFromCivil(year, 1, 4) == n + 3 && DaysFromCivil(year + 1, 1, 4) == n + length + 3
    ensures length == 365 || length == 366
  {
    n, length := YearStart(year), YearLength(year);
    YearLengthExact(year);
    LastDay(year);
    Jan4(year);
    Jan4(year + 1);
    YearStep(year);
  }

  lemma {:induction false} LastDay(year: int)
    ensures DaysFromCivil(year, 1, 1) == YearStart(year)
    ensures DaysFromCivil(year, 12, 31) == YearStart(year) + YearLength(year) - 1
  {
    CivilExact(year, 1, 1);
    CivilExact(year, 12, 31);
    assert YearLength(year) == DaysBeforeMonth(year, 12) + 31;
  }

  lemma {:induction false} Jan4(year: int)
    ensures DaysFromCivil(year, 1, 4) == YearStart(year) + 3
  {
    CivilExact(year, 1, 4);
  }

  /** Week 1 starts on a Monday and contains January 4th, hence the year's first Thursday. */
  lemma Week1Exact(year: int)
    ensures IsMonday(Week1Monday(year))
    ensures Week1Monday(year) <= DaysFromCivil(year, 1, 4) < Week1Monday(year) + 7
    ensures DaysFromCivil(year, 1, 1) <= Week1Monday(year) + 3 < DaysFromCivil(year, 1, 8)
  {
    Week1FromExact(DaysFromCivil(year, 1, 4));
    CivilExact(year, 1, 4);
    CivilExact(year, 1, 1);
    CivilExact(year, 1, 8);
  }

  lemma TileArith(monday: int, next: int, n: int, length: int)
    requires length == 365 || length == 366
    requires IsMonday(monday) && monday <= n + 3 < monday + 7
    requires IsMonday(next) && next <= n + length + 3 < next + 7
    ensures next - monday == if n % 7 == 0 || (n + length - 1) % 7 == 0 then 371 else 364
  {
  }

  lemma WeeksTileAt(n: int, length: int)
    requires length == 365 || length == 366
    ensures Week1From(n + length + 3) - Week1From(n + 3) == if ThursdayAtAnEnd(n, n + length - 1) then 371 else 364
  {
    Week1FromExact(n + 3);
    Week1FromExact(n + length + 3);
    WeekdayExact(n);
    WeekdayExact(n + length - 1);
    TileArith(Week1From(n + 3), Week1From(n + length + 3), n, length);
  }

  /** Consecutive years' first Mondays are 53 or 52 weeks apart, exactly as the source's test says. */
  lemma WeeksTile(year: int)
    ensures Week1Monday(year + 1) - Week1Monday(year) == if HasIsoWeek53(year) then 371 else 364
  {
    var n, length := YearDays(year);
    WeeksTileAt(n, length);
  }

  lemma ExactDivision(n: int)
    requires n % 7 == 0
    ensures 7 * TruncDiv(n, 7) == n
  {
  }

  lemma WeekShift(n: int, k: int)
    requires n % 7 == 0
    ensures (n + k * 7) % 7 == 0
  {
    ModUnique(n + k * 7, 7, n / 7 + k, 0);
  }

  /** The final division by seven is exact, before and after the epoch. */
  lemma WeekNumberExact(year: int, week: int)
    ensures 7 * WeekNumber(year, week) == Week1Monday(year) + (week - 1) * 7 + 3
  {
    var monday := Week1Monday(year);
    Week1FromExact(DaysFromCivil(year, 1, 4));
    WeekShift(monday + 3, week - 1);
    ExactDivision(monday + 3 + (week - 1) * 7);
  }

  /** Successive weeks are numbered successively, across year ends too. */
  lemma WeeksConsecutive(year: int, week: int)
    requires 1 <= week <= WeeksIn(year)
    ensures (if week < WeeksIn(year) then WeekNumber(year, week + 1) else WeekNumber(year + 1, 1))
            == WeekNumber(year, week) + 1
  {
    WeekNumberExact(year, week);
    WeekNumberExact(year, week + 1);
    WeekNumberExact(year + 1, 1);
    WeeksTile(year);
  }

  lemma NextFirstMonday(year: int)
    ensures Week1Monday(year) + 7 * WeeksIn(year) == Week1Monday(year + 1)
    ensures WeeksIn(year) >= 52
  {
    WeeksTile(year);
  }

  lemma {:induction false} MondaysOrdered(y: int, z: int)
    requires y < z
    ensures Week1Monday(y) + 7 * WeeksIn(y) <= Week1Monday(z)
    decreases z - y
  {
    NextFirstMonday(y);
    if y + 1 < z {
      MondaysOrdered(y + 1, z);
    }
  }

  lemma WeekNumberInjective(y: int, w: int, z: int, v: int)
    requires 1 <= w <= WeeksIn(y) && 1 <= v <= WeeksIn(z)
    ensures WeekNumber(y, w) == WeekNumber(z, v) <==> y == z && w == v
  {
    WeekNumberExact(y, w);
    WeekNumberExact(z, v);
    if y < z {
      MondaysOrdered(y, z);
    } else if z < y {
      MondaysOrdered(z, y);
    }
  }

  ghost predicate InWeek(days: int, year: int, week: int) {
    1 <= week <= WeeksIn(year) && Week1Monday(year) + 7 * (week - 1) <= days < Week1Monday(year) + 7 * week
  }

  /** Every day lies in a valid ISO week ... */
  lemma DayHasWeek(days: int)
    ensures exists y, w :: InWeek(days, y, w)
  {
    DaysOnto(days);
    var d :| Real(d) && Days(d) == days;
    var y := d.year;
    YearBounds(d);
    Week1Exact(y);
    Week1Exact(y + 1);
    WeeksTile(y - 1);
    WeeksTile(y);
    WeeksTile(y + 1);
    var z := if days < Week1Monday(y) then y - 1 else if days < Week1Monday(y + 1) then y else y + 1;
    NextFirstMonday(z);
    WeekOf(days, z, Week1Monday(z), Week1Monday(z + 1));
  }

  lemma WeekOf(days: int, z: int, monday: int, next: int)
    requires monday == Week1Monday(z) && next == monday + 7 * WeeksIn(z) && monday <= days < next
    ensures exists y, w :: InWeek(days, y, w)
  {
    var w := (days - monday) / 7 + 1;
    assert 7 * (w - 1) <= days - monday < 7 * w;
    assert InWeek(days, z, w);
  }

  lemma YearBounds(d: Date)
    requires Real(d)
    ensures DaysFromCivil(d.year, 1, 1) <= Days(d) < DaysFromCivil(d.year + 1, 1, 1)
    ensures DaysFromCivil(d.year, 1, 4) == DaysFromCivil(d.year, 1, 1) + 3
    ensures DaysFromCivil(d.year + 1, 1, 4) == DaysFromCivil(d.year + 1, 1, 1) + 3
    ensures DaysFromCivil(d.year + 1, 1, 1) <= DaysFromCivil(d.year, 1, 1) + 366
  {
    CivilExact(d.year, d.month, d.day);
    CivilExact(d.year, 1, 1);
    CivilExact(d.year, 1, 4);
    CivilExact(d.year + 1, 1, 1);
    CivilExact(d.year + 1, 1, 4);
    MonthsOrdered(d.year, d.month, 13);
    YearStep(d.year);
    YearLengthExact(d.year);
    if d.month > 1 {
      MonthsOrdered(d.year, 1, d.month);
    }
  }

  /** ... and in only one. */
  lemma DayHasOneWeek(days: int, y: int, w: int, z: int, v: int)
    requires InWeek(days, y, w) && InWeek(days, z, v)
    ensures y == z && w == v
  {
    if y < z {
      MondaysOrdered(y, z);
    } else if z < y {
      MondaysOrdered(z, y);
    }
  }

  // ------------------------------------------------------------------- parsers

  predicate IsDigit(c: char) { '0' <= c <= '9' }

  function DigitValue(c: char): int
    requires IsDigit(c)
  {
    c as int - '0' as int
  }

  /** `fold(0, |acc, b| acc * 10 + digit)`. */
  function Fold(s: string): int
    requires forall i :: 0 <= i < |s| ==> IsDigit(s[i])
  {
    if s == [] then 0 else Fold(s[..|s| - 1]) * 10 + DigitValue(s[|s| - 1])
  }

  /** `digits(s, n)`. */
  function Digits(s: string, n: nat): Option<(int, string)> {
    if |s| < n || !(forall i :: 0 <= i < n ==> IsDigit(s[i])) then None
    else Some((Fold(s[..n]), s[n..]))
  }

  /** `lit(s, ch)`. */
  function Lit(s: string, c: char): Option<string> {
    if s != [] && s[0] == c then Some(s[1..]) else None
  }

  /** `parse_date`, giving days since the epoch. */
  function ParseDate(s: string): Option<int> {
    var year := Digits(s, 4);
    if year.None? then None else
    var a := Lit(year.value.1, '-');
    if a.None? then None else
    var month := Digits(a.value, 2);
    if month.None? then None else
    var b := Lit(month.value.1, '-');
    if b.None? then None else
    var day := Digits(b.value, 2);
    if day.None? || day.value.1 != [] then None
    else if !ValidYmd(year.value.0, month.value.0, day.value.0) then None
    else Some(DaysFromCivil(year.value.0, month.value.0, day.value.0))
  }

  /** `parse_week`, giving weeks since Monday 1969-12-29. */
  function ParseWeek(s: string): Option<int> {
    var year := Digits(s, 4);
    if year.None? then None else
    var a := Lit(year.value.1, '-');
    if a.None? then None else
    var b := Lit(a.value, 'W');
    if b.None? then None else
    var week := Digits(b.value, 2);
    if week.None? || week.value.1 != [] then None
    else if year.value.0 < 1 || !(1 <= week.value.0 <= 53) then None
    else if week.value.0 == 53 && !HasIsoWeek53(year.value.0) then None
    else Some(WeekNumber(year.value.0, week.value.0))
  }

  function Power10(n: nat): nat { if n == 0 then 1 else 10 * Power10(n - 1) }

  /** The `n`-digit zero-padded decimal of `v`. */
  function Padded(v: nat, n: nat): string
    requires v < Power10(n)
  {
    if n == 0 then [] else Padded(v / 10, n - 1) + [('0' as int + v % 10) as char]
  }

  lemma {:induction false} PaddedDigits(v: nat, n: nat)
    requires v < Power10(n)
    ensures |Padded(v, n)| == n
    ensures forall i :: 0 <= i < n ==> IsDigit(Padded(v, n)[i])
    ensures Fold(Padded(v, n)) == v
    decreases n
  {
    if n > 0 {
      PaddedDigits(v / 10, n - 1);
      var p := Padded(v, n);
      assert p[..n - 1] == Padded(v / 10, n - 1);
    }
  }

  lemma {:induction false} FoldPads(s: string)
    requires forall i :: 0 <= i < |s| ==> IsDigit(s[i])
    ensures 0 <= Fold(s) < Power10(|s|)
    ensures Padded(Fold(s), |s|) == s
  {
    if s != [] {
      var t := s[..|s| - 1];
      FoldPads(t);
      assert Fold(s) / 10 == Fold(t) && Fold(s) % 10 == DigitValue(s[|s| - 1]);
      assert s == t + [s[|s| - 1]];
    }
  }

  /** Exactly the texts of `n` digits parse, to the number they spell. */
  lemma {:induction false} DigitsExact(s: string, n: nat)
    ensures Digits(s, n).Some? ==>
              var (v, rest) := Digits(s, n).value;
              0 <= v < Power10(n) && s == Padded(v, n) + rest
  {
    if Digits(s, n).Some? {
      FoldPads(s[..n]);
    }
  }

  lemma {:induction false} DigitsReads(v: nat, n: nat, rest: string)
    requires v < Power10(n)
    ensures Digits(Padded(v, n) + rest, n) == Some((v, rest))
  {
    PaddedDigits(v, n);
    var s := Padded(v, n) + rest;
    assert s[..n] == Padded(v, n) && s[n..] == rest;
    assert forall i :: 0 <= i < n ==> s[i] == Padded(v, n)[i];
  }

  lemma Powers()
    ensures Power10(2) == 100 && Power10(4) == 10000
  {
    assert Power10(1) == 10 && Power10(2) == 100 && Power10(3) == 1000;
  }

  function DateText(d: Date): string
    requires 0 <= d.year < Power10(4) && 0 <= d.month < Power10(2) && 0 <= d.day < Power10(2)
  {
    Padded(d.year, 4) + ("-" + (Padded(d.month, 2) + ("-" + (Padded(d.day, 2) + ""))))
  }

  /** A text parses exactly when it spells a real date of years 1 to 9999, to that date's day count. */
  lemma ParseDateExact(s: string, n: int)
    ensures ParseDate(s) == Some(n) <==>
            exists d :: DateTextOf(d, s) && DayNumber(d.year, d.month, d.day) == n
  {
    Powers();
    if ParseDate(s).Some? {
      ParseDateSpells(s);
    }
    forall d | DateTextOf(d, s)
      ensures ParseDate(s) == Some(DayNumber(d.year, d.month, d.day))
    {
      ParseDateReads(d);
    }
  }

  ghost predicate DateTextOf(d: Date, s: string) {
    && Real(d) && 1 <= d.year <= 9999
    && d.year < Power10(4) && d.month < Power10(2) && d.day < Power10(2)
    && s == DateText(d)
  }

  lemma LitReads(c: char, rest: string)
    ensures Lit([c] + rest, c) == Some(rest)
  {
    assert ([c] + rest)[1..] == rest;
  }

  /** The separators and numbers of a date's text, one after the other. */
  lemma DateTextReads(d: Date, afterYear: string, fromMonth: string, afterMonth: string, fromDay: string)
    requires Real(d) && 1 <= d.year < Power10(4) && d.month < Power10(2) && d.day < Power10(2)
    requires fromDay == Padded(d.day, 2) + "" && afterMonth == "-" + fromDay
    requires fromMonth == Padded(d.month, 2) + afterMonth && afterYear == "-" + fromMonth
    ensures Digits(DateText(d), 4) == Some((d.year, afterYear)) && Lit(afterYear, '-') == Some(fromMonth)
    ensures Digits(fromMonth, 2) == Some((d.month, afterMonth)) && Lit(afterMonth, '-') == Some(fromDay)
    ensures Digits(fromDay, 2) == Some((d.day, ""))
  {
    DigitsReads(d.day, 2, "");
    LitReads('-', fromDay);
    DigitsReads(d.month, 2, afterMonth);
    LitReads('-', fromMonth);
    DigitsReads(d.year, 4, afterYear);
  }

  lemma ParseDateReads(d: Date)
    requires Real(d) && 1 <= d.year < Power10(4) && d.month < Power10(2) && d.day < Power10(2)
    ensures ParseDate(DateText(d)) == Some(DayNumber(d.year, d.month, d.day))
  {
    var fromDay := Padded(d.day, 2) + "";
    var afterMonth := "-" + fromDay;
    var fromMonth := Padded(d.month, 2) + afterMonth;
    DateTextReads(d, "-" + fromMonth, fromMonth, afterMonth, fromDay);
    CivilExact(d.year, d.month, d.day);
  }

  lemma ParseDateSpells(s: string)
    requires ParseDate(s).Some?
    ensures exists d :: DateTextOf(d, s) && ParseDate(s).value == DayNumber(d.year, d.month, d.day)
  {
    Powers();
    var (year, r1) := Digits(s, 4).value;
    DigitsExact(s, 4);
    var (month, r2) := Digits(r1[1..], 2).value;
    DigitsExact(r1[1..], 2);
    assert r1 == "-" + r1[1..];
    var (day, r3) := Digits(r2[1..], 2).value;
    DigitsExact(r2[1..], 2);
    assert r2 == "-" + r2[1..];
    var d := Date(year, month, day);
    DayInMonth(d);
    assert DateTextOf(d, s);
    CivilExact(year, month, day);
  }

  lemma DayInMonth(d: Date)
    requires ValidYmd(d.year, d.month, d.day)
    ensures Real(d) && d.day <= 31
  {
  }

  function WeekText(year: nat, week: nat): string
    requires year < Power10(4) && week < Power10(2)
  {
    Padded(year, 4) + ("-" + ("W" + (Padded(week, 2) + "")))
  }

  ghost predicate WeekTextOf(year: nat, week: nat, s: string) {
    && 1 <= year <= 9999 && 1 <= week <= WeeksIn(year)
    && year < Power10(4) && week < Power10(2)
    && s == WeekText(year, week)
  }

  lemma ParseWeekReads(year: nat, week: nat)
    requires 1 <= year < Power10(4) && 1 <= week <= WeeksIn(year) && week < Power10(2)
    ensures ParseWeek(WeekText(year, week)) == Some(WeekNumber(year, week))
  {
    var tail := Padded(week, 2) + "";
    DigitsReads(week, 2, "");
    DigitsReads(year, 4, "-" + ("W" + tail));
    assert ("-" + ("W" + tail))[1..] == "W" + tail;
    assert ("W" + tail)[1..] == tail;
  }

  lemma ParseWeekSpells(s: string)
    requires ParseWeek(s).Some?
    ensures exists year: nat, week: nat :: WeekTextOf(year, week, s) && ParseWeek(s).value == WeekNumber(year, week)
  {
    Powers();
    var (year, r1) := Digits(s, 4).value;
    DigitsExact(s, 4);
    assert r1 == "-" + r1[1..];
    var r2 := r1[1..];
    assert r2 == "W" + r2[1..];
    var (week, r3) := Digits(r2[1..], 2).value;
    DigitsExact(r2[1..], 2);
    assert WeekTextOf(year, week, s);
  }

  /** Every week text determines its week, and different texts different weeks. */
  lemma ParseWeekInjective(s: string, t: string)
    requires ParseWeek(s).Some? && ParseWeek(s) == ParseWeek(t)
    ensures s == t
  {
    ParseWeekSpells(s);
    ParseWeekSpells(t);
    var y: nat, w: nat :| WeekTextOf(y, w, s) && ParseWeek(s).value == WeekNumber(y, w);
    var z: nat, v: nat :| WeekTextOf(z, v, t) && ParseWeek(t).value == WeekNumber(z, v);
    WeekNumberInjective(y, w, z, v);
  }
}
