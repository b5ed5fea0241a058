/**
 * Proleptic Gregorian calendar arithmetic on day numbers (days since 1970-01-01), the
 * integer view of a JavaScript `Date` at midnight. `MakeDay` is the ECMAScript abstract
 * operation behind `new Date(y, m, d)`: out-of-range months and days roll over.
 */
module CivilDates {

  datatype Civil = Civil(year: int, month: int, day: int)

  predicate IsLeapYear(y: int) {
    y % 4 == 0 && (y % 100 != 0 || y % 400 == 0)
  }

  function DaysInMonth(y: int, m: int): (n: int)
    requires 1 <= m <= 12
    ensures 28 <= n <= 31
  {
    if m == 2 then (if IsLeapYear(y) then 29 else 28)
    else if m == 4 || m == 6 || m == 9 || m == 11 then 30
    else 31
  }

  predicate IsValidCivil(c: Civil) {
    1 <= c.month <= 12 && 1 <= c.day <= DaysInMonth(c.year, c.month)
  }

  /** Day number of 1 March of year `yy` (years here run from March to February). */
  function MarchStart(yy: int): int {
    var era := yy / 400;
    var yoe := yy % 400;
    era * 146097 + yoe * 365 + yoe / 4 - yoe / 100 - 719468
  }

  /** Days from 1 March to the first day of the month `mp` months later (0..11). */
  function MonthOffset(mp: int): int {
    (153 * mp + 2) / 5
  }

  /** Day number of year `y`, month `m` (1..12), day `d`; `d` may lie outside the month. */
  function DaysFromCivil(y: int, m: int, d: int): int
    requires 1 <= m <= 12
  {
    var yy := if m <= 2 then y - 1 else y;
    var mp := if m > 2 then m - 3 else m + 9;
    MarchStart(yy) + MonthOffset(mp) + d - 1
  }

  /** ECMAScript MakeDay(year, month, date) with a zero-based month that may be out of range. */
  function MakeDay(year: int, monthIndex: int, date: int): int {
    DaysFromCivil(year + monthIndex / 12, monthIndex % 12 + 1, 1) + date - 1
  }

  /** Day of a 400-year era (which starts on 1 March) to (year of era, day of that March-based year). */
  function YearOfEra(doe: int): (r: (int, int))
    requires 0 <= doe < 146097
    ensures 0 <= r.0 < 400 && 0 <= r.1 <= 365
    ensures r.1 == 365 ==> r.0 % 4 == 3 && (r.0 % 100 != 99 || r.0 == 399)
    ensures doe == r.0 * 365 + r.0 / 4 - r.0 / 100 + r.1
  {
    var c := if doe / 36524 < 3 then doe / 36524 else 3;
    var rc := doe - 36524 * c;
    var q := rc / 1461;
    var rq := rc % 1461;
    var yq := if rq / 365 < 3 then rq / 365 else 3;
    var yoe := 100 * c + 4 * q + yq;
    assert 0 <= q <= 24;
    assert yoe / 4 == 25 * c + q;
    assert yoe / 100 == c;
    (yoe, rq - 365 * yq)
  }

  /** Day of a March-based year to (month counted from March, day of that month). */
  function MonthOfYearDay(doy: int): (r: (int, int))
    requires 0 <= doy <= 365
    ensures 0 <= r.0 <= 11 && 1 <= r.1 <= 31
    ensures (153 * r.0 + 2) / 5 + r.1 - 1 == doy
    ensures r.0 < 11 ==> doy < (153 * (r.0 + 1) + 2) / 5
  {
    var mp := (5 * doy + 2) / 153;
    (mp, doy - (153 * mp + 2) / 5 + 1)
  }

  /** Calendar date of a day number (what `getFullYear`, `getMonth() + 1` and `getDate` read). */
  function CivilFromDays(z: int): (c: Civil)
    ensures 1 <= c.month <= 12 && 1 <= c.day <= 31
  {
    var z' := z + 719468;
    CivilOfEraDay(z' / 146097, z' % 146097)
  }

  /** The calendar date of day `doe` of 400-year era `era` (eras start on 1 March 0000). */
  function CivilOfEraDay(era: int, doe: int): (c: Civil)
    requires 0 <= doe < 146097
    ensures 1 <= c.month <= 12 && 1 <= c.day <= 31
  {
    var (yoe, doy) := YearOfEra(doe);
    var (mp, d) := MonthOfYearDay(doy);
    var m := if mp < 10 then mp + 3 else mp - 9;
    Civil(era * 400 + yoe + (if m <= 2 then 1 else 0), m, d)
  }

  lemma EraOfYear(era: int, yoe: int)
    requires 0 <= yoe < 400
    ensures (era * 400 + yoe) / 400 == era && (era * 400 + yoe) % 400 == yoe
  {
  }

  /** `DaysFromCivil` in terms of the era, the day of the era and the March-based month. */
  lemma DaysFromCivilOfParts(era: int, doe: int, yoe: int, doy: int, mp: int, d: int)
    requires 0 <= yoe < 400 && 0 <= mp <= 11
    requires doe == yoe * 365 + yoe / 4 - yoe / 100 + doy && (153 * mp + 2) / 5 + d - 1 == doy
    ensures var m := if mp < 10 then mp + 3 else mp - 9;
      var year := era * 400 + yoe + (if m <= 2 then 1 else 0);
      DaysFromCivil(year, m, d) == era * 146097 + doe - 719468
  {
    EraOfYear(era, yoe);
  }

  lemma CivilOfEraDayRoundTrip(era: int, doe: int)
    requires 0 <= doe < 146097
    ensures var c := CivilOfEraDay(era, doe); DaysFromCivil(c.year, c.month, c.day) == era * 146097 + doe - 719468
  {
    var (yoe, doy) := YearOfEra(doe);
    var (mp, d) := MonthOfYearDay(doy);
    DaysFromCivilOfParts(era, doe, yoe, doy, mp, d);
  }

  /** Every day number is the day number of the calendar date read from it. */
  lemma CivilFromDaysRoundTrip(z: int)
    ensures var c := CivilFromDays(z); DaysFromCivil(c.year, c.month, c.day) == z
  {
    var z' := z + 719468;
    assert z' == (z' / 146097) * 146097 + z' % 146097;
    CivilOfEraDayRoundTrip(z' / 146097, z' % 146097);
  }

  /** Within a month, `MakeDay` with the zero-based month is the civil day number. */
  lemma MakeDayInMonth(y: int, m: int, d: int)
    requires 1 <= m <= 12
    ensures MakeDay(y, m - 1, d) == DaysFromCivil(y, m, d)
  {
    assert (m - 1) / 12 == 0 && (m - 1) % 12 == m - 1;
  }

  lemma LeapInEra(era: int, yoe: int)
    requires 0 <= yoe < 400
    ensures IsLeapYear(era * 400 + yoe) <==> yoe % 4 == 0 && (yoe % 100 != 0 || yoe == 0)
  {
    var y := era * 400 + yoe;
    assert y % 4 == yoe % 4 by {
      assert y == 4 * (100 * era) + yoe;
    }
    assert y % 100 == yoe % 100 by {
      assert y == 100 * (4 * era) + yoe;
    }
    EraOfYear(era, yoe);
  }

  lemma MarchStartOf(era: int, yoe: int)
    requires 0 <= yoe < 400
    ensures MarchStart(era * 400 + yoe) == era * 146097 + yoe * 365 + yoe / 4 - yoe / 100 - 719468
  {
    EraOfYear(era, yoe);
  }

  lemma QuarterStep(x: int)
    ensures (x + 1) / 4 - x / 4 == if (x + 1) % 4 == 0 then 1 else 0
  {
    var q, r := x / 4, x % 4;
    assert x == 4 * q + r;
    if r == 3 {
      assert x + 1 == 4 * (q + 1);
    } else {
      assert x + 1 == 4 * q + (r + 1);
    }
  }

  lemma CenturyStep(x: int)
    ensures (x + 1) / 100 - x / 100 == if (x + 1) % 100 == 0 then 1 else 0
    ensures (x + 1) % 100 == 0 ==> (x + 1) % 4 == 0
  {
    var q, r := x / 100, x % 100;
    assert x == 100 * q + r;
    if r == 99 {
      assert x + 1 == 100 * (q + 1);
      assert x + 1 == 4 * (25 * (q + 1));
    } else {
      assert x + 1 == 100 * q + (r + 1);
    }
  }

  lemma YearLengthInEra(era: int, yoe: int)
    requires 0 <= yoe < 399
    ensures MarchStart(era * 400 + yoe + 1) - MarchStart(era * 400 + yoe)
      == if IsLeapYear(era * 400 + yoe + 1) then 366 else 365
  {
    MarchStartOf(era, yoe);
    MarchStartOf(era, yoe + 1);
    LeapInEra(era, yoe + 1);
    QuarterStep(yoe);
    CenturyStep(yoe);
  }

  lemma YearLengthAtEraEnd(era: int)
    ensures MarchStart(era * 400 + 400) - MarchStart(era * 400 + 399) == 366
    ensures IsLeapYear(era * 400 + 400)
  {
    MarchStartOf(era, 399);
    MarchStartOf(era + 1, 0);
    LeapInEra(era + 1, 0);
  }

  /** The March-based year `yy` has 366 days exactly when February of `yy + 1` is a leap February. */
  lemma MarchYearLength(yy: int)
    ensures MarchStart(yy + 1) - MarchStart(yy) == if IsLeapYear(yy + 1) then 366 else 365
  {
    var era := yy / 400;
    var yoe := yy % 400;
    assert yy == era * 400 + yoe;
    if yoe == 399 {
      YearLengthAtEraEnd(era);
    } else {
      YearLengthInEra(era, yoe);
    }
  }

  /** The day after the last day of month `m` is the first day of the next month (`MakeDay` rolls over). */
  lemma NextMonthStart(y: int, m: int)
    requires 1 <= m <= 12
    ensures DaysFromCivil(y, m, 1) + DaysInMonth(y, m) == MakeDay(y, m, 1)
  {
    if m == 12 {
      assert MakeDay(y, 12, 1) == DaysFromCivil(y + 1, 1, 1);
      assert MonthOffset(10) - MonthOffset(9) == 31;
    } else if m == 2 {
      FebruaryEnd(y);
    } else {
      MakeDayInMonth(y, m + 1, 1);
      MonthLength(m);
    }
  }

  lemma FebruaryEnd(y: int)
    ensures DaysFromCivil(y, 2, 1) + DaysInMonth(y, 2) == MakeDay(y, 2, 1)
  {
    assert MakeDay(y, 2, 1) == DaysFromCivil(y, 3, 1);
    assert DaysFromCivil(y, 3, 1) == MarchStart(y);
    assert DaysFromCivil(y, 2, 1) == MarchStart(y - 1) + 337;
    MarchYearLength(y - 1);
  }

  /** Month lengths other than February's, read off `MonthOffset`. */
  lemma MonthLength(m: int)
    requires 1 <= m <= 11 && m != 2
    ensures var mp := if m > 2 then m - 3 else m + 9;
      MonthOffset(mp + 1) - MonthOffset(mp) == DaysInMonth(0, m)
  {
  }

  /** A day past the end of its month rolls over into the next month. */
  lemma MakeDayRollover(y: int, m: int, d: int)
    requires 1 <= m <= 12 && d > DaysInMonth(y, m)
    ensures MakeDay(y, m - 1, d) == MakeDay(y, m, d - DaysInMonth(y, m))
  {
    MakeDayInMonth(y, m, 1);
    NextMonthStart(y, m);
  }

  // ---------------------------------------------------------------------------
  // The calendar date of a day number is a real date, and the only one with that number

  /** The days of the month `mp` months after March, except February (`mp` = 11). */
  lemma MonthSpan(mp: int)
    requires 0 <= mp < 11
    ensures var m := if mp < 10 then mp + 3 else mp - 9;
      MonthOffset(mp + 1) - MonthOffset(mp) == DaysInMonth(0, m)
  {
  }

  /** A year of an era with a 29 February is a leap year. */
  lemma LeapFebruaryOfEra(era: int, yoe: int)
    requires 0 <= yoe < 400 && yoe % 4 == 3 && (yoe % 100 != 99 || yoe == 399)
    ensures IsLeapYear(era * 400 + yoe + 1)
  {
    if yoe == 399 {
      assert era * 400 + yoe + 1 == (era + 1) * 400 + 0;
      LeapInEra(era + 1, 0);
    } else {
      LeapInEra(era, yoe + 1);
    }
  }

  /** And a leap February belongs to such a year of its era. */
  lemma LeapYearOfEra(era: int, yoe: int)
    requires 0 <= yoe < 400 && IsLeapYear(era * 400 + yoe + 1)
    ensures yoe % 4 == 3 && (yoe % 100 != 99 || yoe == 399)
  {
    if yoe == 399 {
    } else {
      LeapInEra(era, yoe + 1);
    }
  }

  lemma CivilOfEraDayValid(era: int, doe: int)
    requires 0 <= doe < 146097
    ensures IsValidCivil(CivilOfEraDay(era, doe))
  {
    var (yoe, doy) := YearOfEra(doe);
    var (mp, d) := MonthOfYearDay(doy);
    if mp == 11 {
      if d == 29 {
        LeapFebruaryOfEra(era, yoe);
      }
    } else {
      MonthSpan(mp);
    }
  }

  /** The calendar date read from a day number is a real date: its day lies within its month. */
  lemma CivilFromDaysValid(z: int)
    ensures IsValidCivil(CivilFromDays(z))
  {
    var z' := z + 719468;
    CivilOfEraDayValid(z' / 146097, z' % 146097);
  }

  /** Only one (year of era, day of year) pair names a day of an era. */
  lemma YearOfEraOfParts(yoe: int, doy: int)
    requires 0 <= yoe < 400 && 0 <= doy <= 365 && (doy == 365 ==> yoe % 4 == 3 && (yoe % 100 != 99 || yoe == 399))
    ensures var doe := yoe * 365 + yoe / 4 - yoe / 100 + doy;
      0 <= doe < 146097 && YearOfEra(doe) == (yoe, doy)
  {
    // The century, the four-year cycle within it and the year within that cycle.
    var c, q, yq := yoe / 100, yoe % 100 / 4, yoe % 4;
    assert yoe == 100 * c + 4 * q + yq && 0 <= q < 25;
    assert yoe / 4 == 25 * c + q;
    YearOfEraOfCycle(yoe * 365 + yoe / 4 - yoe / 100 + doy, c, q, yq, doy);
  }

  /** `YearOfEra` of the day `doy` of year `yq` of four-year cycle `q` of century `c` of an era. */
  lemma YearOfEraOfCycle(doe: int, c: int, q: int, yq: int, doy: int)
    requires 0 <= c < 4 && 0 <= q < 25 && 0 <= yq < 4 && 0 <= doy <= 365
    requires doy == 365 ==> yq == 3 && (q != 24 || c == 3)
    requires doe == 36524 * c + 1461 * q + 365 * yq + doy
    ensures 0 <= doe < 146097 && YearOfEra(doe) == (100 * c + 4 * q + yq, doy)
  {
    var rc := 1461 * q + 365 * yq + doy;
    assert rc < 36524 || c == 3;
    assert (if doe / 36524 < 3 then doe / 36524 else 3) == c;
    assert rc / 1461 == q && rc % 1461 == 365 * yq + doy;
    var rq := 365 * yq + doy;
    assert (if rq / 365 < 3 then rq / 365 else 3) == yq;
  }

  /** Only one (month from March, day) pair names a day of a March-based year. */
  lemma MonthOfYearDayOfParts(mp: int, d: int)
    requires 0 <= mp <= 11 && 1 <= d && (mp < 11 ==> d <= MonthOffset(mp + 1) - MonthOffset(mp)) && (mp == 11 ==> d <= 29)
    ensures var doy := MonthOffset(mp) + d - 1;
      0 <= doy <= 365 && MonthOfYearDay(doy) == (mp, d)
  {
  }

  /** A real calendar date is the date read back from its day number. */
  lemma DaysFromCivilInverse(y: int, m: int, d: int)
    requires IsValidCivil(Civil(y, m, d))
    ensures CivilFromDays(DaysFromCivil(y, m, d)) == Civil(y, m, d)
  {
    var era, doe := EraDayOfCivil(y, m, d);
    var z' := DaysFromCivil(y, m, d) + 719468;
    assert z' / 146097 == era && z' % 146097 == doe;
  }

  /** The era and the day of the era of a real date, which `CivilOfEraDay` reads back as that date. */
  lemma EraDayOfCivil(y: int, m: int, d: int) returns (era: int, doe: int)
    requires IsValidCivil(Civil(y, m, d))
    ensures DaysFromCivil(y, m, d) + 719468 == era * 146097 + doe && 0 <= doe < 146097
    ensures CivilOfEraDay(era, doe) == Civil(y, m, d)
  {
    var yy := if m <= 2 then y - 1 else y;
    var yoe := yy % 400;
    era := yy / 400;
    assert yy == era * 400 + yoe;
    var mp, doy := YearDayOfCivil(era, yoe, y, m, d);
    YearOfEraOfParts(yoe, doy);
    doe := yoe * 365 + yoe / 4 - yoe / 100 + doy;
    MarchStartOf(era, yoe);
    CivilOfEraDayOfParts(era, doe, yoe, doy, mp, d);
  }

  /** The month from March and the day of the March-based year of a real date in year `yoe` of era `era`. */
  lemma YearDayOfCivil(era: int, yoe: int, y: int, m: int, d: int) returns (mp: int, doy: int)
    requires IsValidCivil(Civil(y, m, d)) && 0 <= yoe < 400 && era * 400 + yoe == (if m <= 2 then y - 1 else y)
    ensures mp == (if m > 2 then m - 3 else m + 9) && doy == MonthOffset(mp) + d - 1
    ensures 0 <= doy <= 365 && MonthOfYearDay(doy) == (mp, d)
    ensures doy == 365 ==> yoe % 4 == 3 && (yoe % 100 != 99 || yoe == 399)
  {
    mp := if m > 2 then m - 3 else m + 9;
    if mp == 11 && d == 29 {
      LeapYearOfEra(era, yoe);
    } else if mp < 11 {
      MonthSpan(mp);
    }
    MonthOfYearDayOfParts(mp, d);
    doy := MonthOffset(mp) + d - 1;
  }

  /** `CivilOfEraDay` once the year of the era, the day of the year and the month are known. */
  lemma CivilOfEraDayOfParts(era: int, doe: int, yoe: int, doy: int, mp: int, d: int)
    requires 0 <= doe < 146097 && YearOfEra(doe) == (yoe, doy) && 0 <= doy <= 365 && MonthOfYearDay(doy) == (mp, d)
    ensures var m := if mp < 10 then mp + 3 else mp - 9;
      CivilOfEraDay(era, doe) == Civil(era * 400 + yoe + (if m <= 2 then 1 else 0), m, d)
  {
  }
}
