/** Day counts and proleptic Gregorian dates: the log's conversion one way, the credential
    parser's conversion the other, and an independent calendar both are measured against. */
module Calendar {
  datatype Date = Date(year: int, month: int, day: int)

  /** Integer division rounding toward zero. */
  function TruncDiv(a: int, b: int): int
    requires b > 0
  {
    if a >= 0 then a / b else -((-a) / b)
  }

  /** Days since 1970-01-01 to a date. */
  function CivilFromDays(days: int): Date {
    var z := days + 719_468;
    CivilInEra(EraOf(z), z - EraOf(z) * 146_097)
  }

  /** The 400-year era of a day counted from 0000-03-01. */
  function EraOf(z: int): int {
    TruncDiv(if z >= 0 then z else z - 146_096, 146_097)
  }

  function CivilInEra(era: int, doe: int): Date {
    var yoe := YearOfEra(doe);
    var y := yoe + era * 400;
    var doy := doe - (365 * yoe + yoe / 4 - yoe / 100);
    var mp := (5 * doy + 2) / 153;
    var d := doy - (153 * mp + 2) / 5 + 1;
    var m := if mp < 10 then mp + 3 else mp - 9;
    Date(if m <= 2 then y + 1 else y, m, d)
  }

  function YearOfEra(doe: int): int {
    (doe - doe / 1460 + doe / 36524 - doe / 146_096) / 365
  }

  /** A date to days since 1970-01-01; total, also on dates no calendar has. */
  function DaysFromCivil(date: Date): int {
    var y := if date.month <= 2 then date.year - 1 else date.year;
    var era := TruncDiv(if y >= 0 then y else y - 399, 400);
    var yoe := y - era * 400;
    var doy := TruncDiv(153 * (if date.month > 2 then date.month - 3 else date.month + 9) + 2, 5) + date.day - 1;
    var doe := yoe * 365 + yoe / 4 - yoe / 100 + doy;
    era * 146_097 + doe - 719_468
  }

  // ---------- The calendar itself ----------

  predicate IsLeap(year: int) {
    year % 4 == 0 && (year % 100 != 0 || year % 400 == 0)
  }

  function DaysInMonth(year: int, month: int): int {
    if month == 2 then (if IsLeap(year) then 29 else 28)
    else if month == 4 || month == 6 || month == 9 || month == 11 then 30
    else 31
  }

  predicate IsDate(date: Date) {
    1 <= date.month <= 12 && 1 <= date.day <= DaysInMonth(date.year, date.month)
  }

  function NextDay(date: Date): Date {
    if date.day < DaysInMonth(date.year, date.month) then date.(day := date.day + 1)
    else if date.month < 12 then Date(date.year, date.month + 1, 1)
    else Date(date.year + 1, 1, 1)
  }

  predicate Before(a: Date, b: Date) {
    a.year < b.year || (a.year == b.year && (a.month < b.month || (a.month == b.month && a.day < b.day)))
  }

  // ---------- Era, year of era, day of year ----------

  /** Years here start on 1 March, so the leap day is a year's last. */
  function YearLength(yoe: int): int {
    if IsLeap(yoe + 1) then 366 else 365
  }

  predicate InEra(yoe: int, doy: int) {
    0 <= yoe < 400 && 0 <= doy < YearLength(yoe)
  }

  function YearStart(yoe: int): int {
    365 * yoe + yoe / 4 - yoe / 100
  }

  function DayNumber(era: int, yoe: int, doy: int): int {
    era * 146_097 + YearStart(yoe) + doy - 719_468
  }

  function MonthStart(mp: int): int {
    (153 * mp + 2) / 5
  }

  function MonthOf(doy: int): int {
    (5 * doy + 2) / 153
  }

  function DateOf(era: int, yoe: int, doy: int): Date {
    var mp := MonthOf(doy);
    var m := if mp < 10 then mp + 3 else mp - 9;
    Date(era * 400 + yoe + (if m <= 2 then 1 else 0), m, doy - MonthStart(mp) + 1)
  }

  lemma YearStartDigits(c: int, q: int, r: int)
    requires 0 <= c <= 3 && 0 <= q <= 24 && 0 <= r <= 3
    ensures YearStart(100 * c + 4 * q + r) == 36524 * c + 1461 * q + 365 * r
    ensures YearLength(100 * c + 4 * q + r) == if r == 3 && (q < 24 || c == 3) then 366 else 365
  {
    var y := 100 * c + 4 * q + r;
    assert y / 4 == 25 * c + q;
    assert y / 100 == c;
  }

  /** The closed form picks the year a day of the era falls in. */
  lemma YearOfEraDigits(c: int, q: int, r: int, doy: int)
    requires 0 <= c <= 3 && 0 <= q <= 24 && 0 <= r <= 3
    requires 0 <= doy < YearLength(100 * c + 4 * q + r)
    ensures YearOfEra(36524 * c + 1461 * q + 365 * r + doy) == 100 * c + 4 * q + r
  {
    YearStartDigits(c, q, r);
    var doe := 36524 * c + 1461 * q + 365 * r + doy;
    var e1 := if 24 * c + q + 365 * r + doy >= 1460 then 1 else 0;
    assert doe / 1460 == 25 * c + q + e1;
    var e2 := if q == 24 && r == 3 && doy == 365 then 1 else 0;
    assert doe / 36524 == c + e2;
    assert doe / 146_096 == e2;
    assert doe - doe / 1460 + doe / 36524 - doe / 146_096 == 365 * (100 * c + 4 * q + r) + (doy - e1);
  }

  lemma YearOfEraCorrect(yoe: int, doy: int)
    requires InEra(yoe, doy)
    ensures YearOfEra(YearStart(yoe) + doy) == yoe
    ensures 0 <= YearStart(yoe) + doy < 146_097
  {
    var c, q, r := yoe / 100, (yoe % 100) / 4, yoe % 4;
    assert yoe == 100 * c + 4 * q + r;
    YearStartDigits(c, q, r);
    YearOfEraDigits(c, q, r, doy);
  }

  /** Every day number is one day of one year of one era. */
  lemma Decompose(days: int) returns (era: int, yoe: int, doy: int)
    ensures InEra(yoe, doy) && days == DayNumber(era, yoe, doy)
  {
    var z := days + 719_468;
    era := z / 146_097;
    var doe := z % 146_097;
    var c := if doe / 36524 <= 3 then doe / 36524 else 3;
    var inCentury := doe - 36524 * c;
    var q := if inCentury / 1461 <= 24 then inCentury / 1461 else 24;
    var inCycle := inCentury - 1461 * q;
    var r := if inCycle / 365 <= 3 then inCycle / 365 else 3;
    yoe, doy := 100 * c + 4 * q + r, inCycle - 365 * r;
    YearStartDigits(c, q, r);
  }

  lemma TruncatedEra(z: int, m: int, k: int)
    requires m > 0 && 0 <= z - k * m < m
    ensures TruncDiv(if z >= 0 then z else z - (m - 1), m) == k
  {
    if z >= 0 {
      DivUnique(z, m, k);
    } else {
      DivUnique(-z + (m - 1), m, -k);
    }
  }

  lemma DivUnique(a: int, m: int, k: int)
    requires m > 0 && 0 <= a - k * m < m
    ensures a / m == k
  {
    var q := a / m;
    assert 0 <= a - q * m < m;
    if q < k {
      MulStep(k, q, m);
    } else if q > k {
      MulStep(q, k, m);
    }
  }

  lemma MulStep(big: int, small: int, m: int)
    requires m > 0 && big > small
    ensures big * m >= small * m + m
    decreases big - small
  {
    assert big * m == (big - 1) * m + m;
    if big - 1 > small {
      MulStep(big - 1, small, m);
    }
  }

  lemma MonthOfDay(doy: int)
    requires 0 <= doy <= 365
    ensures var mp := MonthOf(doy); 0 <= mp <= 11 && MonthStart(mp) <= doy < MonthStart(mp + 1)
  {
  }

  /** The month table: lengths of the twelve months from March. */
  lemma MonthLengths(mp: int, year: int)
    requires 0 <= mp < 11
    ensures MonthStart(mp + 1) - MonthStart(mp) == DaysInMonth(year, if mp < 10 then mp + 3 else mp - 9)
  {
  }

  lemma CivilOfDayNumber(days: int, era: int, yoe: int, doy: int)
    requires InEra(yoe, doy) && days == DayNumber(era, yoe, doy)
    ensures CivilFromDays(days) == DateOf(era, yoe, doy)
  {
    YearOfEraCorrect(yoe, doy);
    CivilOfOffset(era, YearStart(yoe) + doy);
    CivilOfYearAndDay(era, yoe, doy);
  }

  lemma CivilOfOffset(era: int, doe: int)
    requires 0 <= doe < 146_097
    ensures CivilFromDays(era * 146_097 + doe - 719_468) == CivilInEra(era, doe)
  {
    EraOfOffset(era, doe);
  }

  lemma EraOfOffset(era: int, doe: int)
    requires 0 <= doe < 146_097
    ensures EraOf(era * 146_097 + doe) == era
  {
    TruncatedEra(era * 146_097 + doe, 146_097, era);
  }

  lemma CivilOfYearAndDay(era: int, yoe: int, doy: int)
    requires InEra(yoe, doy)
    ensures CivilInEra(era, YearStart(yoe) + doy) == DateOf(era, yoe, doy)
  {
    YearOfEraCorrect(yoe, doy);
  }

  lemma DateOfIsDate(era: int, yoe: int, doy: int)
    requires InEra(yoe, doy)
    ensures IsDate(DateOf(era, yoe, doy))
  {
    MonthOfDay(doy);
    LeapInEra(era, yoe);
    var mp := MonthOf(doy);
    if mp < 11 {
      MonthLengths(mp, DateOf(era, yoe, doy).year);
    }
  }

  lemma LeapInEra(era: int, yoe: int)
    ensures IsLeap(era * 400 + yoe + 1) <==> IsLeap(yoe + 1)
  {
    var y := yoe + 1;
    ModShift(y, 4, 100 * era);
    ModShift(y, 100, 4 * era);
    ModShift(y, 400, era);
  }

  lemma ModShift(a: int, m: int, k: int)
    requires m > 0
    ensures (k * m + a) % m == a % m
  {
    var q, r := a / m, a % m;
    assert k * m + a == (k + q) * m + r;
    DivUnique(k * m + a, m, k + q);
  }

  lemma DaysOfDate(era: int, yoe: int, doy: int)
    requires InEra(yoe, doy)
    ensures DaysFromCivil(DateOf(era, yoe, doy)) == DayNumber(era, yoe, doy)
  {
    MonthOfDay(doy);
    TruncatedEra(era * 400 + yoe, 400, era);
  }

  /** Every date of the calendar is the date of some day. */
  lemma DateDecomposes(date: Date) returns (era: int, yoe: int, doy: int)
    requires IsDate(date)
    ensures InEra(yoe, doy) && DateOf(era, yoe, doy) == date
  {
    var y := if date.month <= 2 then date.year - 1 else date.year;
    era, yoe := y / 400, y % 400;
    var mp := if date.month > 2 then date.month - 3 else date.month + 9;
    doy := MonthStart(mp) + date.day - 1;
    LeapInEra(era, yoe);
    if mp < 11 {
      MonthLengths(mp, date.year);
    }
    MonthByStart(mp, doy);
  }

  lemma MonthByStart(mp: int, doy: int)
    requires 0 <= mp <= 11 && MonthStart(mp) <= doy <= 365 && (mp < 11 ==> doy < MonthStart(mp + 1))
    ensures MonthOf(doy) == mp
  {
  }

  // ---------- Main results ----------

  /** The two conversions are inverse, and every day number names a date of the calendar. */
  lemma DaysRoundTrip(days: int)
    ensures IsDate(CivilFromDays(days)) && DaysFromCivil(CivilFromDays(days)) == days
  {
    var era, yoe, doy := Decompose(days);
    CivilOfDayNumber(days, era, yoe, doy);
    DateOfIsDate(era, yoe, doy);
    DaysOfDate(era, yoe, doy);
  }

  /** ... in the other direction exactly on the calendar's dates. */
  lemma DateRoundTrip(date: Date)
    ensures CivilFromDays(DaysFromCivil(date)) == date <==> IsDate(date)
  {
    if IsDate(date) {
      var era, yoe, doy := DateDecomposes(date);
      DaysOfDate(era, yoe, doy);
      CivilOfDayNumber(DaysFromCivil(date), era, yoe, doy);
    } else {
      DaysRoundTrip(DaysFromCivil(date));
    }
  }

  /** One more day is the calendar's next day; with the epoch this fixes the conversion everywhere. */
  lemma DaysAdvance(days: int)
    ensures CivilFromDays(days + 1) == NextDay(CivilFromDays(days))
  {
    var era, yoe, doy := Decompose(days);
    var era', yoe', doy' := Successor(era, yoe, doy);
    CivilOfDayNumber(days, era, yoe, doy);
    CivilOfDayNumber(days + 1, era', yoe', doy');
  }

  lemma Successor(era: int, yoe: int, doy: int) returns (era': int, yoe': int, doy': int)
    requires InEra(yoe, doy)
    ensures InEra(yoe', doy') && DayNumber(era', yoe', doy') == DayNumber(era, yoe, doy) + 1
    ensures DateOf(era', yoe', doy') == NextDay(DateOf(era, yoe, doy))
  {
    if doy + 1 < YearLength(yoe) {
      era', yoe', doy' := era, yoe, doy + 1;
      DayWithinYear(era, yoe, doy);
    } else {
      LastOfYear(era, yoe, doy);
      doy' := 0;
      if yoe < 399 {
        era', yoe' := era, yoe + 1;
        YearEnds(yoe);
      } else {
        era', yoe' := era + 1, 0;
      }
    }
  }

  lemma LastOfYear(era: int, yoe: int, doy: int)
    requires InEra(yoe, doy) && doy + 1 == YearLength(yoe)
    ensures NextDay(DateOf(era, yoe, doy)) == Date(era * 400 + yoe + 1, 3, 1)
  {
    LeapInEra(era, yoe);
    MonthByStart(11, doy);
  }

  lemma YearEnds(yoe: int)
    requires 0 <= yoe < 399
    ensures YearStart(yoe + 1) == YearStart(yoe) + YearLength(yoe)
  {
    var c, q, r := yoe / 100, (yoe % 100) / 4, yoe % 4;
    assert yoe == 100 * c + 4 * q + r;
    YearStartDigits(c, q, r);
    if r < 3 {
      YearStartDigits(c, q, r + 1);
    } else if q < 24 {
      YearStartDigits(c, q + 1, 0);
    } else {
      YearStartDigits(c + 1, 0, 0);
    }
  }

  lemma DayWithinYear(era: int, yoe: int, doy: int)
    requires InEra(yoe, doy) && doy + 1 < YearLength(yoe)
    ensures DateOf(era, yoe, doy + 1) == NextDay(DateOf(era, yoe, doy))
  {
    MonthOfDay(doy);
    MonthOfDay(doy + 1);
    LeapInEra(era, yoe);
    var mp := MonthOf(doy);
    if mp < 11 {
      MonthLengths(mp, DateOf(era, yoe, doy).year);
      if doy + 1 < MonthStart(mp + 1) {
        MonthByStart(mp, doy + 1);
      } else {
        MonthByStart(mp + 1, doy + 1);
      }
    } else {
      MonthByStart(11, doy + 1);
    }
  }

  lemma Epoch()
    ensures CivilFromDays(0) == Date(1970, 1, 1)
  {
  }

  lemma BeforeNext(date: Date)
    requires IsDate(date)
    ensures Before(date, NextDay(date))
  {
  }

  lemma BeforeTransitive(a: Date, b: Date, c: Date)
    requires Before(a, b) && Before(b, c)
    ensures Before(a, c)
  {
  }

  lemma OneDayLater(a: int, b: int)
    requires b == a + 1
    ensures Before(CivilFromDays(a), CivilFromDays(b))
  {
    DaysRoundTrip(a);
    DaysAdvance(a);
    BeforeNext(CivilFromDays(a));
  }

  lemma {:induction false} StepsChain(date: int -> Date, a: int, b: int)
    requires a < b && forall d, next :: next == d + 1 ==> Before(date(d), date(next))
    ensures Before(date(a), date(b))
    decreases b - a
  {
    var last := b - 1;
    assert Before(date(last), date(b));
    if a < last {
      StepsChain(date, a, last);
      BeforeTransitive(date(a), date(last), date(b));
    }
  }

  /** Later days are later dates. */
  lemma DaysOrder(a: int, b: int)
    requires a < b
    ensures Before(CivilFromDays(a), CivilFromDays(b))
  {
    forall d, next | next == d + 1
      ensures Before(CivilFromDays(d), CivilFromDays(next))
    {
      OneDayLater(d, next);
    }
    StepsChain(CivilFromDays, a, b);
  }
}
