/** Day numbers to dates: `civil_date` of visor/src/contacts_ui.rs, against the
  * proleptic Gregorian calendar counted day by day. */
module CivilDate {
  datatype Date = Date(year: int, month: int, day: int)

  // ---- The calendar ------------------------------------------------------

  predicate IsLeap(y: int) {
    y % 4 == 0 && (y % 100 != 0 || y % 400 == 0)
  }

  function DaysInMonth(y: int, m: int): (n: int)
  {
    if m == 2 then (if IsLeap(y) then 29 else 28)
    else if m == 4 || m == 6 || m == 9 || m == 11 then 30
    else 31
  }

  predicate Valid(d: Date) {
    1 <= d.month <= 12 && 1 <= d.day <= DaysInMonth(d.year, d.month)
  }

  /** The day after `d`. */
  function Next(d: Date): (n: Date) {
    if d.day < DaysInMonth(d.year, d.month) then d.(day := d.day + 1)
    else if d.month < 12 then Date(d.year, d.month + 1, 1)
    else Date(d.year + 1, 1, 1)
  }

  /** Days from 1 January of year 0 to 1 January of `y`. */
  function DaysBeforeYear(y: int): int {
    365 * y + (y + 3) / 4 - (y + 99) / 100 + (y + 399) / 400
  }

  function DaysBeforeMonth(y: int, m: int): int
    decreases m, y
  {
    if m <= 1 then 0 else DaysBeforeMonth(y, m - 1) + DaysInMonth(y, m - 1)
  }

  /** Days from 1 January 1970 to `d`. */
  function DayNumber(d: Date): int {
    DaysBeforeYear(d.year) + DaysBeforeMonth(d.year, d.month) + d.day - 1 - 719_528
  }

  /** Rounding up instead of down counts one more, except at a multiple. */
  lemma Fours(y: int)
    ensures (y + 3) / 4 == y / 4 + if y % 4 == 0 then 0 else 1
    ensures (y + 4) / 4 == y / 4 + 1
  {
  }

  lemma Centuries(y: int)
    ensures (y + 99) / 100 == y / 100 + if y % 100 == 0 then 0 else 1
    ensures (y + 100) / 100 == y / 100 + 1
  {
  }

  lemma Quads(y: int)
    ensures (y + 399) / 400 == y / 400 + if y % 400 == 0 then 0 else 1
    ensures (y + 400) / 400 == y / 400 + 1
  {
  }

  lemma Multiples(y: int)
    ensures y % 400 == 0 ==> y % 100 == 0
    ensures y % 100 == 0 ==> y % 4 == 0
  {
    WholeTimes(4 * (y / 400), 25 * (y / 100));
    assert y % 400 == 0 ==> y == 100 * (4 * (y / 400));
    assert y % 100 == 0 ==> y == 4 * (25 * (y / 100));
  }

  lemma WholeTimes(hundreds: int, fours: int)
    ensures (100 * hundreds) % 100 == 0 && (4 * fours) % 4 == 0
  {
  }

  /** Leap years before `y`, by rounding down. */
  lemma LeapsBefore(y: int)
    ensures DaysBeforeYear(y) == 365 * y + y / 4 - y / 100 + y / 400 + if IsLeap(y) then 0 else 1
    ensures DaysBeforeYear(y + 1) == 365 * y + y / 4 - y / 100 + y / 400 + 366
  {
    Fours(y);
    Centuries(y);
    Quads(y);
    Multiples(y);
  }

  /** A year is as many days as its months are. */
  lemma YearLength(y: int)
    ensures DaysBeforeYear(y + 1) - DaysBeforeYear(y) == DaysBeforeMonth(y, 12) + DaysInMonth(y, 12)
  {
    MonthTable(y);
    LeapsBefore(y);
  }

  lemma MonthTable(y: int)
    ensures var leap := if IsLeap(y) then 1 else 0;
            && DaysBeforeMonth(y, 2) == 31 && DaysBeforeMonth(y, 3) == 59 + leap
            && DaysBeforeMonth(y, 4) == 90 + leap && DaysBeforeMonth(y, 5) == 120 + leap
            && DaysBeforeMonth(y, 6) == 151 + leap && DaysBeforeMonth(y, 7) == 181 + leap
            && DaysBeforeMonth(y, 8) == 212 + leap && DaysBeforeMonth(y, 9) == 243 + leap
            && DaysBeforeMonth(y, 10) == 273 + leap && DaysBeforeMonth(y, 11) == 304 + leap
            && DaysBeforeMonth(y, 12) == 334 + leap
  {
  }

  /** `DayNumber` counts: day 0 is 1 January 1970, and the next date is the next number. */
  lemma DayNumberCounts(d: Date)
    requires Valid(d)
    ensures DayNumber(Date(1970, 1, 1)) == 0
    ensures Valid(Next(d)) && DayNumber(Next(d)) == DayNumber(d) + 1
  {
    Epoch();
    if d.day < DaysInMonth(d.year, d.month) {
      assert Next(d) == d.(day := d.day + 1);
    } else if d.month < 12 {
      MonthEnds(d.year, d.month);
    } else {
      YearEnds(d.year);
    }
  }

  lemma Epoch()
    ensures DayNumber(Date(1970, 1, 1)) == 0
  {
  }

  lemma MonthEnds(y: int, m: int)
    requires 1 <= m < 12
    ensures DayNumber(Date(y, m + 1, 1)) == DayNumber(Date(y, m, DaysInMonth(y, m))) + 1
  {
    assert DaysBeforeMonth(y, m + 1) == DaysBeforeMonth(y, m) + DaysInMonth(y, m);
  }

  lemma YearEnds(y: int)
    ensures DayNumber(Date(y + 1, 1, 1)) == DayNumber(Date(y, 12, 31)) + 1
  {
    YearLength(y);
    assert DaysBeforeMonth(y + 1, 1) == 0;
  }

  // ---- The code ----------------------------------------------------------

  function CivilDate(days: int): (r: Date) {
    var z := days + 719_468;
    var era := Era(z);
    DateIn(era, z - era * 146_097)
  }

  function Era(z: int): int {
    (if z >= 0 then z else z - 146_096) / 146_097
  }

  function DateIn(era: int, dayOfEra: int): Date {
    var yearOfEra := YearOfEra(dayOfEra);
    var dayOfYear := dayOfEra - YearStart(yearOfEra);
    var monthPrime := (5 * dayOfYear + 2) / 153;
    var day := dayOfYear - (153 * monthPrime + 2) / 5 + 1;
    var month := monthPrime + (if monthPrime < 10 then 3 else -9);
    Date(yearOfEra + era * 400 + (if month <= 2 then 1 else 0), month, day)
  }

  function YearOfEra(dayOfEra: int): int {
    (dayOfEra - dayOfEra / 1_460 + dayOfEra / 36_524 - dayOfEra / 146_096) / 365
  }

  function YearStart(y: int): int { 365 * y + y / 4 - y / 100 }

  /** Within a four-year cycle `a`, day `s` of it: which year, and how it starts. */
  lemma FourYears(doe: int, a: int, s: int, b: int, c: int, y: int)
    requires 0 <= doe < 2 * 146_097 && doe == 1_460 * a + s && 0 <= s < 1_460
    requires b == doe / 36_524 && c == doe / 146_096 && y == YearOfEra(doe)
    ensures y / 4 == a || y / 4 == a - 1
    ensures y / 4 == a ==> c - b <= doe - 365 * y - y / 4 <= 364 + c - b
    ensures y / 4 == a - 1 ==> 1 + c - b <= doe - 365 * y - y / 4 <= 365 + c - b
  {
    assert a == doe / 1_460;
    var n := s - a + b - c;
    var k := n / 365;
    assert doe - a + b - c == 365 * (4 * a) + n;
    assert y == 4 * a + k;
    assert -1 <= k <= 3;
  }

  lemma Hundreds(doe: int, b: int, c: int, y: int)
    requires 0 <= doe < 2 * 146_097 - 1 && b == doe / 36_524 && c == doe / 146_096 && y == YearOfEra(doe)
    ensures doe < 146_097 ==> 0 <= y <= 399
    ensures doe >= 146_097 ==> 400 <= y <= 799
    ensures b - c <= y / 100 <= b - c + 1 && (doe < 146_097 ==> y / 100 == b - c)
  {
    match b
    case 0 =>
    case 1 =>
    case 2 =>
    case 3 =>
    case 4 =>
    case 5 =>
    case 6 =>
    case 7 =>
    case _ =>
  }

  /** In the first era the year is the one running; in the second, a day early. */
  lemma YearOfEraFits(doe: int)
    requires 0 <= doe < 2 * 146_097 - 1
    ensures doe < 146_097 ==> 0 <= YearOfEra(doe) <= 399 && 0 <= doe - YearStart(YearOfEra(doe)) <= 365
    ensures doe >= 146_097 ==> 400 <= YearOfEra(doe) <= 799 && 0 <= doe - YearStart(YearOfEra(doe)) <= 366
  {
    var a, s, b, c, y := doe / 1_460, doe % 1_460, doe / 36_524, doe / 146_096, YearOfEra(doe);
    FourYears(doe, a, s, b, c, y);
    Hundreds(doe, b, c, y);
  }

  /** Day 365 of a March year is a leap day. */
  lemma LeapDay(doe: int)
    requires 0 <= doe < 146_097 && doe - YearStart(YearOfEra(doe)) == 365
    ensures IsLeap(YearOfEra(doe) + 1)
  {
    var a, s, b, c, y := doe / 1_460, doe % 1_460, doe / 36_524, doe / 146_096, YearOfEra(doe);
    FourYears(doe, a, s, b, c, y);
    Hundreds(doe, b, c, y);
    assert y == 4 * a - 1 by {
      assert doe - a + b - c == 365 * (4 * a) + (s - a + b - c);
    }
    FourAfter(a);
    if (y + 1) % 100 == 0 { CenturyEnd(doe, y / 100, b, c, y); }
  }

  lemma FourAfter(a: int)
    ensures (4 * a - 1 + 1) % 4 == 0
  {
  }

  /** A century that ends on a leap day is the era's last. */
  lemma CenturyEnd(doe: int, j: int, b: int, c: int, y: int)
    requires 0 <= doe < 146_097 && b == doe / 36_524 && c == doe / 146_096
    requires y == 100 * j + 99 && doe - YearStart(y) == 365 && j == b - c
    ensures y + 1 == 400
  {
    assert y / 4 == 25 * j + 24 && y / 100 == j;
    assert doe == 36_524 * (j + 1);
  }

  /** Months counted from March: which one day `doy` is in, and on which day. */
  lemma MonthOfYear(doy: int)
    requires 0 <= doy <= 366
    ensures var mp := (5 * doy + 2) / 153;
            0 <= mp <= 11 && (153 * mp + 2) / 5 <= doy && (mp < 11 ==> doy < (153 * (mp + 1) + 2) / 5)
  {
  }

  /** `DayNumber` of a date given by its March year and its day of that year. */
  lemma MarchDayNumber(marchYear: int, mp: int, day: int)
    requires 0 <= mp <= 11
    ensures var month := mp + (if mp < 10 then 3 else -9);
            DayNumber(Date(marchYear + (if month <= 2 then 1 else 0), month, day)) ==
            YearStart(marchYear) + marchYear / 400 + (153 * mp + 2) / 5 + day - 1 - 719_468
  {
    MonthTable(marchYear);
    MonthTable(marchYear + 1);
    MarchYears(marchYear);
  }

  lemma MarchYears(y: int)
    ensures DaysBeforeYear(y + 1) == YearStart(y) + y / 400 + 366
    ensures DaysBeforeYear(y) + 59 + (if IsLeap(y) then 1 else 0) == YearStart(y) + y / 400 + 60
  {
    LeapsBefore(y);
  }

  // ---- What the code computes --------------------------------------------

  /** The days whose era the code gets right: every day from 1 March of year 0 on,
    * and before that only the last day of each 400-year era. Elsewhere the
    * adjustment for a truncating division meets one that already rounds down. */
  predicate RightEra(days: int) {
    days + 719_468 >= 0 || (days + 719_468) % 146_097 == 146_096
  }

  lemma EraOf(z: int)
    ensures var era := Era(z);
            if z >= 0 || z % 146_097 == 146_096 then 0 <= z - era * 146_097 < 146_097
            else 146_097 <= z - era * 146_097 < 2 * 146_097 - 1
  {
  }

  /** The code after it has settled on an era. */
  lemma DateInEra(days: int, era: int, doe: int)
    requires doe == days + 719_468 - era * 146_097 && 0 <= doe < 2 * 146_097 - 1
    ensures var d := DateIn(era, doe);
            1 <= d.month <= 12 && DayNumber(d) == days + (if doe < 146_097 then 0 else 1)
  {
    YearOfEraFits(doe);
    var y := YearOfEra(doe);
    var doy := doe - YearStart(y);
    MonthOfYear(doy);
    var mp := (5 * doy + 2) / 153;
    var day := doy - (153 * mp + 2) / 5 + 1;
    MarchDayNumber(y + era * 400, mp, day);
    var month := mp + (if mp < 10 then 3 else -9);
    assert DateIn(era, doe) == Date(y + era * 400 + (if month <= 2 then 1 else 0), month, day);
    Eras(y, era);
    EraDays(doe, y, era);
  }

  lemma EraDays(doe: int, y: int, era: int)
    requires doe < 146_097 ==> 0 <= y <= 399
    requires doe >= 146_097 ==> 400 <= y <= 799
    ensures YearStart(y) + era * 146_096 + (y / 400 + era) ==
            YearStart(y) + era * 146_097 + (if doe < 146_097 then 0 else 1)
  {
  }

  lemma DateInFirstEra(era: int, doe: int)
    requires 0 <= doe < 146_097
    ensures Valid(DateIn(era, doe))
  {
    YearOfEraFits(doe);
    var y := YearOfEra(doe);
    var doy := doe - YearStart(y);
    var mp := (5 * doy + 2) / 153;
    if doy == 365 {
      LeapDay(doe);
      LeapEras(y + 1, era);
    }
    MonthLengths(DateIn(era, doe), mp, doy - (153 * mp + 2) / 5 + 1, doy);
  }

  /** On any day at all the result is that day's date, or numbered as the next day's. */
  lemma CivilDateNumber(days: int)
    ensures DayNumber(CivilDate(days)) == days + (if RightEra(days) then 0 else 1)
    ensures 1 <= CivilDate(days).month <= 12
    ensures RightEra(days) ==> Valid(CivilDate(days))
  {
    var z := days + 719_468;
    EraOf(z);
    var era := Era(z);
    DateInEra(days, era, z - era * 146_097);
    if RightEra(days) {
      DateInFirstEra(era, z - era * 146_097);
    }
  }

  lemma Eras(y: int, era: int)
    ensures YearStart(y + era * 400) == YearStart(y) + era * 146_096
    ensures (y + era * 400) / 400 == y / 400 + era
  {
    assert (y + 4 * (100 * era)) / 4 == y / 4 + 100 * era;
    DivHundred(y, 4 * era);
    assert (y + 400 * era) / 400 == y / 400 + era;
  }

  lemma DivHundred(y: int, k: int)
    ensures (y + 100 * k) / 100 == y / 100 + k
  {
  }

  lemma LeapEras(y: int, era: int)
    requires IsLeap(y)
    ensures IsLeap(y + era * 400)
  {
    EraFours(y, era);
    EraCenturies(y, era);
    EraQuads(y, era);
  }

  lemma EraFours(y: int, era: int)
    ensures (y + era * 400) % 4 == y % 4
  {
    assert (y + era * 400) / 4 == y / 4 + era * 100;
  }

  lemma EraCenturies(y: int, era: int)
    ensures (y + era * 400) % 100 == y % 100
  {
    assert (y + era * 400) / 100 == y / 100 + era * 4;
  }

  lemma EraQuads(y: int, era: int)
    ensures (y + era * 400) % 400 == y % 400
  {
    assert (y + era * 400) / 400 == y / 400 + era;
  }

  lemma MonthLengths(d: Date, mp: int, day: int, doy: int)
    requires 0 <= doy <= 365 && mp == (5 * doy + 2) / 153 && day == doy - (153 * mp + 2) / 5 + 1
    requires d.month == mp + (if mp < 10 then 3 else -9) && d.day == day
    requires doy == 365 ==> IsLeap(d.year)
    ensures Valid(d)
  {
    MonthOfYear(doy);
  }

  lemma {:induction false} YearsAscend(a: int, b: int)
    requires a <= b
    ensures DaysBeforeYear(a) <= DaysBeforeYear(b)
    decreases b - a
  {
    if a < b {
      YearsAscend(a, b - 1);
      YearLength(b - 1);
      MonthTable(b - 1);
    }
  }

  /** Valid dates with one day number are one date. */
  lemma DayNumberInjective(a: Date, b: Date)
    requires Valid(a) && Valid(b) && DayNumber(a) == DayNumber(b)
    ensures a == b
  {
    if a.year < b.year {
      EarlierYear(a, b);
    } else if b.year < a.year {
      EarlierYear(b, a);
    } else {
      MonthTable(a.year);
    }
  }

  lemma EarlierYear(a: Date, b: Date)
    requires Valid(a) && Valid(b) && a.year < b.year
    ensures DayNumber(a) < DayNumber(b)
  {
    MonthTable(a.year);
    MonthTable(b.year);
    YearLength(a.year);
    YearsAscend(a.year + 1, b.year);
  }

  /** The code gives the date of a day exactly when it gets its era right. */
  lemma CivilDateIff(days: int)
    ensures Valid(CivilDate(days)) && DayNumber(CivilDate(days)) == days <==> RightEra(days)
  {
    CivilDateNumber(days);
  }

  /** Two-sided inverse of the calendar's own numbering. */
  lemma CivilDateInverse(d: Date, days: int)
    requires RightEra(days)
    ensures CivilDate(days) == d <==> Valid(d) && DayNumber(d) == days
  {
    CivilDateNumber(days);
    if Valid(d) && DayNumber(d) == days { DayNumberInjective(d, CivilDate(days)); }
  }

  lemma CivilDateConsecutive(days: int)
    requires RightEra(days) && RightEra(days + 1)
    ensures CivilDate(days + 1) == Next(CivilDate(days))
  {
    CivilDateNumber(days);
    DayNumberCounts(CivilDate(days));
    CivilDateInverse(Next(CivilDate(days)), days + 1);
  }

  /** The day before the last day of year-0 February, and that last day, print alike. */
  lemma CivilDateCollides()
    ensures CivilDate(-719_469) == CivilDate(-719_470) == Date(0, 2, 29)
    ensures RightEra(-719_469) && !RightEra(-719_470)
  {
    assert Era(-1) == -1 && Era(-2) == -2;
    assert DateIn(-1, 146_096) == Date(0, 2, 29) by { assert YearOfEra(146_096) == 399; }
    assert DateIn(-2, 292_192) == Date(0, 2, 29) by { assert YearOfEra(292_192) == 799; }
  }

  /** The date of a time in seconds, as `claimed_label` takes it before printing. */
  function ClaimedDate(seconds: int): Date {
    CivilDate(seconds / 86_400)
  }

  /** From 1 March of year 0 on, a claimed time is labelled `d` exactly within that day. */
  lemma ClaimedWithinDay(seconds: int, d: Date)
    requires Valid(d) && RightEra(seconds / 86_400)
    ensures ClaimedDate(seconds) == d <==> DayNumber(d) * 86_400 <= seconds < (DayNumber(d) + 1) * 86_400
  {
    CivilDateInverse(d, seconds / 86_400);
  }
}
