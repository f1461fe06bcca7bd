/** The proleptic Gregorian calendar from 1970 on, and the date arithmetic of the backup names. */
module Calendar {

  datatype Date = Date(year: nat, month: nat, day: nat)

  // The calendar, by counting --------------------------------------------------------------------

  /** The leap rule of Appendix C of RFC 3339. */
  predicate Leap(y: nat) { y % 4 == 0 && (y % 100 != 0 || y % 400 == 0) }

  function YearLength(y: nat): nat { if Leap(y) then 366 else 365 }

  function MonthLength(y: nat, m: nat): nat {
    if m == 2 then if Leap(y) then 29 else 28
    else if m == 4 || m == 6 || m == 9 || m == 11 then 30
    else 31
  }

  predicate OnCalendar(c: Date) {
    c.year >= 1970 && 1 <= c.month <= 12 && 1 <= c.day <= MonthLength(c.year, c.month)
  }

  function DaysToYear(y: nat): nat {
    if y <= 1970 then 0 else DaysToYear(y - 1) + YearLength(y - 1)
  }

  function DaysToMonth(y: nat, m: nat): nat {
    if m <= 1 then 0 else DaysToMonth(y, m - 1) + MonthLength(y, m - 1)
  }

  /** Days from 1970-01-01 to a date. */
  function DayNumber(c: Date): nat
    requires OnCalendar(c)
  {
    DaysToYear(c.year) + DaysToMonth(c.year, c.month) + (c.day - 1)
  }

  predicate Before(a: Date, b: Date) {
    || a.year < b.year
    || (a.year == b.year && a.month < b.month)
    || (a.year == b.year && a.month == b.month && a.day < b.day)
  }

  // The arithmetic, by dividing ------------------------------------------------------------------

  /** The year of a 400-year era, counted from 1 March, that a day of the era falls in. */
  function YearOfEra(doe: nat): int { (doe - doe / 1460 + doe / 36524 - doe / 146096) / 365 }

  /** The days of an era before one of its years. */
  function DaysBeforeYear(yoe: int): int { 365 * yoe + yoe / 4 - yoe / 100 }

  /** The days of a year from 1 March before its month `mp`. */
  function DaysBeforeMonth(mp: int): int { (153 * mp + 2) / 5 }

  /** The date of day `doy` of the year that begins on 1 March `y`. */
  function FromMarch(y: nat, doy: nat): Date
    requires doy <= 365
  {
    MonthDivided(doy);
    var mp := (5 * doy + 2) / 153;
    var day := doy - DaysBeforeMonth(mp) + 1;
    var month := if mp < 10 then mp + 3 else mp - 9;
    Date(y + if month <= 2 then 1 else 0, month, day)
  }

  function DateOf(days: nat): Date {
    var z := days + 719468;
    var era, doe := z / 146097, z % 146097;
    EraDivided(doe);
    var yoe := YearOfEra(doe);
    FromMarch(yoe + era * 400, doe - DaysBeforeYear(yoe))
  }

  /** Dividing an era: its year is found exactly, and the year has 366 days only when the February at
      its end is a leap year's. */
  lemma EraDivided(doe: nat)
    requires doe < 146097
    ensures var y := YearOfEra(doe);
            && 0 <= y < 400
            && 0 <= doe - DaysBeforeYear(y) <= 365
            && (doe - DaysBeforeYear(y) == 365 ==> Leap(y + 1))
  {
    hide YearOfEra, DaysBeforeYear, Leap;
    var c := if doe == 146096 then 3 else doe / 36524;
    var inCentury := doe - 36524 * c;
    var q := inCentury / 1461;
    var inFour := inCentury - 1461 * q;
    var r := if inFour == 1460 then 3 else inFour / 365;
    var d := inFour - 365 * r;
    assert Parts(c, q, r, d);
    PartsDivided(c, q, r, d);
    PartsCounted(c, q, r, d);
  }

  /** Centuries, then groups of four years, then years, then days. */
  predicate Parts(c: nat, q: nat, r: nat, d: nat) {
    && c <= 3 && q <= 24 && r <= 3 && d <= 365
    && (d == 365 ==> r == 3 && (q < 24 || c == 3))
  }

  lemma By365(n: nat, q: nat)
    requires 365 * q <= n < 365 * q + 365
    ensures n / 365 == q
  {
  }

  lemma By1460(n: nat, q: nat)
    requires 1460 * q <= n < 1460 * q + 1460
    ensures n / 1460 == q
  {
  }

  lemma By36524(n: nat, q: nat)
    requires 36524 * q <= n < 36524 * q + 36524
    ensures n / 36524 == q
  {
  }

  lemma By146096(n: nat, q: nat)
    requires 146096 * q <= n < 146096 * q + 146096
    ensures n / 146096 == q
  {
  }

  lemma PartsDivided(c: nat, q: nat, r: nat, d: nat)
    requires Parts(c, q, r, d)
    ensures YearOfEra(36524 * c + 1461 * q + 365 * r + d) == 100 * c + 4 * q + r
  {
    var doe := 36524 * c + 1461 * q + 365 * r + d;
    var y := 100 * c + 4 * q + r;
    var e := if 24 * c + q + 365 * r + d < 1460 then 0 else 1;
    var last := if doe == 146096 then 1 else 0;
    By1460(doe, 25 * c + q + e);
    By36524(doe, c + last);
    By146096(doe, last);
    assert 0 <= d - e < 365;
    By365(doe - (25 * c + q + e) + (c + last) - last, y);
  }

  lemma PartsCounted(c: nat, q: nat, r: nat, d: nat)
    requires Parts(c, q, r, d)
    ensures 36524 * c + 1461 * q + 365 * r + d - DaysBeforeYear(100 * c + 4 * q + r) == d
    ensures d == 365 ==> Leap(100 * c + 4 * q + r + 1)
  {
    var y := 100 * c + 4 * q + r;
    assert y / 4 == 25 * c + q && y / 100 == c;
    if d == 365 {
      assert y + 1 == 4 * (25 * c + q + 1);
      if q == 24 { assert y + 1 == 400; }
    }
  }

  lemma MonthDivided(doy: nat)
    requires doy <= 365
    ensures var mp := (5 * doy + 2) / 153;
            && mp <= 11
            && DaysBeforeMonth(mp) <= doy
            && (mp < 11 ==> doy < DaysBeforeMonth(mp + 1))
  {
  }

  // One undoes the other -------------------------------------------------------------------------

  /** How many of the years up to `y` are leap years. */
  function LeapYears(y: nat): int { y / 4 - y / 100 + y / 400 }

  lemma {:induction false} YearsCounted(y: nat)
    requires y >= 1970
    ensures DaysToYear(y) == 365 * (y - 1970) + LeapYears(y - 1) - 477
    decreases y
  {
    if y > 1970 {
      YearsCounted(y - 1);
      LeapsCounted(y - 1);
    }
  }

  lemma LeapsCounted(y: nat)
    requires y > 0
    ensures LeapYears(y) == LeapYears(y - 1) + (if Leap(y) then 1 else 0)
  {
    Stepped(y, 4);
    Stepped(y, 100);
    Stepped(y, 400);
    Multiples(y);
  }

  lemma Multiples(y: nat)
    ensures y % 400 == 0 ==> y % 100 == 0
    ensures y % 100 == 0 ==> y % 4 == 0
  {
    if y % 400 == 0 { Hundreds(y, 4 * (y / 400)); }
    if y % 100 == 0 { Fours(y, 25 * (y / 100)); }
  }

  lemma Hundreds(y: nat, k: nat)
    requires y == 100 * k
    ensures y % 100 == 0
  {
  }

  lemma Fours(y: nat, k: nat)
    requires y == 4 * k
    ensures y % 4 == 0
  {
  }

  lemma Stepped(y: nat, k: nat)
    requires y > 0 && k in {4, 100, 400}
    ensures y / k == (y - 1) / k + (if y % k == 0 then 1 else 0)
  {
  }

  lemma MonthsCounted(y: nat)
    ensures DaysToMonth(y, 2) == 31
    ensures forall m {:trigger DaysToMonth(y, m)} :: 3 <= m <= 13 ==>
              DaysToMonth(y, m) == DaysBeforeMonth(m - 3) + 59 + (if Leap(y) then 1 else 0)
    ensures DaysToMonth(y, 13) == YearLength(y)
  {
    assert DaysToMonth(y, 3) == DaysToMonth(y, 2) + MonthLength(y, 2);
    assert DaysToMonth(y, 5) == DaysToMonth(y, 4) + 30;
    assert DaysToMonth(y, 7) == DaysToMonth(y, 6) + 30;
    assert DaysToMonth(y, 9) == DaysToMonth(y, 8) + 31;
    assert DaysToMonth(y, 11) == DaysToMonth(y, 10) + 31;
    assert DaysToMonth(y, 13) == DaysToMonth(y, 12) + 31;
  }

  lemma MarchPlaced(y: nat, doy: nat)
    requires y >= 1969 && doy <= 365 && (doy == 365 ==> Leap(y + 1)) && (y == 1969 ==> doy >= 306)
    ensures var c := FromMarch(y, doy);
            && OnCalendar(c) && (c.year == y || c.year == y + 1)
            && DaysToMonth(c.year, c.month) + c.day - 1
               == if c.year == y then doy + 59 + (if Leap(y) then 1 else 0) else doy - 306
  {
    MonthDivided(doy);
    MonthsCounted(FromMarch(y, doy).year);
  }

  lemma EpochStarts(y: nat, doy: nat, days: nat)
    requires doy <= 365 && days == 365 * y + LeapYears(y) + doy - 719468
    ensures y >= 1969 && (y == 1969 ==> doy >= 306)
  {
  }

  /** A day as a day of a year that begins in March. */
  lemma InMarchYear(days: nat) returns (y: nat, doy: nat)
    ensures doy <= 365 && (doy == 365 ==> Leap(y + 1)) && DateOf(days) == FromMarch(y, doy)
    ensures days == 365 * y + LeapYears(y) + doy - 719468
  {
    hide FromMarch, YearOfEra, LeapYears;
    var z := days + 719468;
    var era, doe := z / 146097, z % 146097;
    EraDivided(doe);
    var yoe := YearOfEra(doe);
    y, doy := yoe + era * 400, doe - DaysBeforeYear(yoe);
    EraCounted(era, yoe);
    LeapAgain(era, yoe + 1);
  }

  lemma LeapAgain(era: nat, y: nat)
    ensures Leap(y + era * 400) == Leap(y)
  {
    Again(era, y, 4);
    Again(era, y, 100);
    Again(era, y, 400);
  }

  lemma Again(era: nat, y: nat, k: nat)
    requires k in {4, 100, 400}
    ensures (y + era * 400) % k == y % k
  {
  }

  /** The date computed for a day number is on the calendar, and counting up to it gives the number
      back. */
  lemma CountsBack(days: nat)
    ensures OnCalendar(DateOf(days)) && DayNumber(DateOf(days)) == days
  {
    hide DaysToYear, DaysToMonth, DateOf, FromMarch, Leap, MonthLength, LeapYears;
    var y, doy := InMarchYear(days);
    EpochStarts(y, doy, days);
    MarchPlaced(y, doy);
    LeapsCounted(y);
    YearsCounted(DateOf(days).year);
  }

  /** The leap days of whole eras and of the years since. */
  lemma EraCounted(era: nat, yoe: nat)
    requires yoe < 400
    ensures LeapYears(400 * era + yoe) == 97 * era + yoe / 4 - yoe / 100
  {
    var y := 400 * era + yoe;
    assert y / 4 == 100 * era + yoe / 4;
    assert y / 100 == 4 * era + yoe / 100;
    assert y / 400 == era;
  }

  /** Later dates have larger numbers. */
  lemma Monotone(a: Date, b: Date)
    requires OnCalendar(a) && OnCalendar(b) && Before(a, b)
    ensures DayNumber(a) < DayNumber(b)
  {
    if a.year < b.year {
      MonthsIncrease(a.year, a.month + 1, 13);
      MonthsCounted(a.year);
      YearsIncrease(a.year + 1, b.year);
    } else if a.month < b.month {
      MonthsIncrease(a.year, a.month + 1, b.month);
    }
  }

  lemma {:induction false} YearsIncrease(a: nat, b: nat)
    requires 1970 <= a <= b
    ensures DaysToYear(a) <= DaysToYear(b)
    decreases b
  {
    if a < b { YearsIncrease(a, b - 1); }
  }

  lemma {:induction false} MonthsIncrease(y: nat, a: nat, b: nat)
    requires 1 <= a <= b
    ensures DaysToMonth(y, a) <= DaysToMonth(y, b)
    decreases b
  {
    if a < b { MonthsIncrease(y, a, b - 1); }
  }

  /** Every date is the one computed for its number. */
  lemma Inverts(c: Date)
    requires OnCalendar(c)
    ensures DateOf(DayNumber(c)) == c
  {
    var d := DateOf(DayNumber(c));
    CountsBack(DayNumber(c));
    if Before(c, d) { Monotone(c, d); }
    if Before(d, c) { Monotone(d, c); }
  }

  /** Dates computed for larger numbers are later. */
  lemma DatesIncrease(a: nat, b: nat)
    requires a < b
    ensures Before(DateOf(a), DateOf(b))
  {
    CountsBack(a);
    CountsBack(b);
    if !Before(DateOf(a), DateOf(b)) && DateOf(a) != DateOf(b) { Monotone(DateOf(b), DateOf(a)); }
  }
}
