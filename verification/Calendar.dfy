/** The Gregorian calendar and the civil-date arithmetic of `iso8601_utc` (src/alerts.rs:190-200). */
module Calendar {
  datatype Date = Date(year: int, month: int, day: int)

  /** Leap years, as in Appendix C of RFC 3339. */
  predicate IsLeap(year: int) {
    year % 4 == 0 && (year % 100 != 0 || year % 400 == 0)
  }

  function MonthLength(year: int, month: int): int {
    if month == 2 then (if IsLeap(year) then 29 else 28)
    else if month == 4 || month == 6 || month == 9 || month == 11 then 30
    else 31
  }

  predicate ValidDate(d: Date) {
    1 <= d.month <= 12 && 1 <= d.day <= MonthLength(d.year, d.month)
  }

  function DaysInYear(year: int): int {
    if IsLeap(year) then 366 else 365
  }

  /** Days from 1970-01-01 to the first of January of `year`, summed year by year. */
  function DaysBeforeYear(year: int): int
    requires year >= 1970
    decreases year
  {
    if year == 1970 then 0 else DaysBeforeYear(year - 1) + DaysInYear(year - 1)
  }

  /** Days from the first of January to the first of `month`, summed month by month. */
  function DaysBeforeMonth(year: int, month: int): int
    requires 1 <= month <= 12
    decreases month
  {
    if month == 1 then 0 else DaysBeforeMonth(year, month - 1) + MonthLength(year, month - 1)
  }

  /** The reference day count: days since 1970-01-01. */
  function DayNumber(d: Date): int
    requires d.year >= 1970 && ValidDate(d)
  {
    DaysBeforeYear(d.year) + DaysBeforeMonth(d.year, d.month) + d.day - 1
  }

  function Tomorrow(d: Date): Date
    requires ValidDate(d)
  {
    if d.day < MonthLength(d.year, d.month) then d.(day := d.day + 1)
    else if d.month < 12 then Date(d.year, d.month + 1, 1)
    else Date(d.year + 1, 1, 1)
  }

  // ---------------------------------------------------------------------
  // The arithmetic of the code. Every operand is non-negative here or the
  // code uses div_euclid, so Dafny's `/` is the code's division.
  // ---------------------------------------------------------------------

  function YearOfEra(doe: int): int {
    (doe - doe / 1460 + doe / 36524 - doe / 146096) / 365
  }

  function DayOfYear(doe: int): int {
    var yoe := YearOfEra(doe);
    doe - (365 * yoe + yoe / 4 - yoe / 100)
  }

  /** The date of day `doe` of a 400-year era. */
  function CivilInEra(era: int, doe: int): Date {
    var yoe := YearOfEra(doe);
    var year := yoe + era * 400;
    var doy := DayOfYear(doe);
    var mp := (5 * doy + 2) / 153;
    var day := doy - (153 * mp + 2) / 5 + 1;
    var month := if mp < 10 then mp + 3 else mp - 9;
    Date(if month <= 2 then year + 1 else year, month, day)
  }

  function CivilFromDays(days: int): Date {
    var z := days + 719468;
    var era := z / 146097;
    CivilInEra(era, z - era * 146097)
  }

  // ---------------------------------------------------------------------
  // Year and day of year, for a year that starts on the first of March
  // ---------------------------------------------------------------------

  /** March-based year `y` ends with the February of civil year `y + 1`. */
  function MarchYearLength(y: int): int {
    DaysInYear(y + 1)
  }

  /** The four digits of a day of era: century, four-year cycle, year, day. */
  predicate EraDigits(c: int, q: int, r: int, doy: int) {
    && 0 <= c <= 3 && 0 <= q <= 24 && 0 <= r <= 3
    && 0 <= doy < MarchYearLength(100 * c + 4 * q + r)
  }

  function FromEraDigits(c: int, q: int, r: int, doy: int): int {
    36524 * c + 1461 * q + 365 * r + doy
  }

  /** The two divisions invert the positional form: the correction terms cancel exactly. */
  lemma EraFormula(c: int, q: int, r: int, doy: int)
    requires EraDigits(c, q, r, doy)
    ensures 0 <= FromEraDigits(c, q, r, doy) <= 146096
    ensures YearOfEra(FromEraDigits(c, q, r, doy)) == 100 * c + 4 * q + r
    ensures DayOfYear(FromEraDigits(c, q, r, doy)) == doy
  {
    var doe := FromEraDigits(c, q, r, doy);
    var y := 100 * c + 4 * q + r;
    assert doy == 365 ==> r == 3 && (q == 24 ==> c == 3);
    assert doe / 36524 - doe / 146096 == c;
    var carry := 24 * c + q + 365 * r + doy;
    assert doe == 1460 * (25 * c + q) + carry;
    assert doe / 1460 == 25 * c + q + (if carry >= 1460 then 1 else 0);
    assert y / 4 == 25 * c + q;
    assert y / 100 == c;
  }

  /** Every day of an era has such digits. */
  lemma EraSplit(doe: int) returns (c: int, q: int, r: int, doy: int)
    requires 0 <= doe <= 146096
    ensures EraDigits(c, q, r, doy) && doe == FromEraDigits(c, q, r, doy)
  {
    c := if doe / 36524 == 4 then 3 else doe / 36524;
    var inCentury := doe - 36524 * c;
    q := inCentury / 1461;
    var inCycle := inCentury - 1461 * q;
    r := if inCycle / 365 == 4 then 3 else inCycle / 365;
    doy := inCycle - 365 * r;
  }

  /** The bounds the code's comments claim: year of era in 0..399, and a day of year that exists in it. */
  lemma EraBounds(doe: int)
    requires 0 <= doe <= 146096
    ensures 0 <= YearOfEra(doe) <= 399
    ensures 0 <= DayOfYear(doe) < MarchYearLength(YearOfEra(doe)) <= 366
  {
    var c, q, r, doy := EraSplit(doe);
    EraFormula(c, q, r, doy);
  }

  // ---------------------------------------------------------------------
  // Month and day, for a day of a March-based year
  // ---------------------------------------------------------------------

  /** Days from the first of March to the first of March-based month `mp`. */
  function MonthStart(mp: int): int {
    (153 * mp + 2) / 5
  }

  function MarchMonth(month: int): int {
    if month >= 3 then month - 3 else month + 9
  }

  function MarchYear(d: Date): int {
    if d.month >= 3 then d.year else d.year - 1
  }

  /** Closed form of the year sums: days from 0000-03-01 to the first of March of year `y`. */
  function MarchDays(y: int): int {
    365 * y + y / 4 - y / 100 + y / 400
  }

  lemma QuarterStep(y: int)
    ensures y / 4 - (y - 1) / 4 == if y % 4 == 0 then 1 else 0
  {
  }

  lemma CenturyStep(y: int)
    ensures y / 100 - (y - 1) / 100 == if y % 100 == 0 then 1 else 0
  {
  }

  lemma EraStep(y: int)
    ensures y / 400 - (y - 1) / 400 == if y % 400 == 0 then 1 else 0
    ensures y % 400 == 0 ==> y % 100 == 0
    ensures y % 100 == 0 ==> y % 4 == 0
  {
    assert y == 400 * (y / 400) + y % 400;
    assert y == 100 * (y / 100) + y % 100;
  }

  lemma MarchYearStep(y: int)
    ensures MarchDays(y) - MarchDays(y - 1) == DaysInYear(y)
  {
    QuarterStep(y);
    CenturyStep(y);
    EraStep(y);
  }

  lemma {:induction false} YearSum(year: int)
    requires year >= 1970
    ensures DaysBeforeYear(year) == MarchDays(year - 1) - 719162
    decreases year
  {
    if year > 1970 {
      YearSum(year - 1);
      MarchYearStep(year - 1);
    }
  }

  /** Closed form of the month sums, measured from the first of March. */
  lemma MonthSum(year: int, month: int)
    requires 1 <= month <= 12
    ensures month >= 3 ==> DaysBeforeMonth(year, month) == MonthStart(month - 3) + DaysInYear(year) - 306
    ensures month <= 2 ==> DaysBeforeMonth(year, month) == MonthStart(month + 9) - 306
    decreases month
  {
    if month > 1 { MonthSum(year, month - 1); }
  }

  /** The reference count of a date is its March-based position, shifted to 1970. */
  lemma DayNumberFromMarch(d: Date)
    requires d.year >= 1970 && ValidDate(d)
    ensures DayNumber(d) == MarchDays(MarchYear(d)) + MonthStart(MarchMonth(d.month)) + d.day - 1 - 719468
  {
    YearSum(d.year);
    MonthSum(d.year, d.month);
    MarchYearStep(d.year);
  }

  function MarchDay(d: Date): int {
    MonthStart(MarchMonth(d.month)) + d.day - 1
  }

  lemma DigitsOfDate(d: Date, era: int, c: int, q: int, r: int)
    requires ValidDate(d) && 0 <= c <= 3 && 0 <= q <= 24 && 0 <= r <= 3
    requires MarchYear(d) == 400 * era + 100 * c + 4 * q + r
    ensures EraDigits(c, q, r, MarchDay(d))
  {
    LeapInEra(era, 100 * c + 4 * q + r + 1);
    MonthInMarchYear(d);
  }

  lemma DateOfMarchDay(d: Date)
    requires ValidDate(d)
    ensures DateInMarchYear(MarchYear(d), MarchDay(d)) == d
  {
    MonthOfDay(d);
  }

  /** What the code computes on the March-based position of any date. */
  lemma CivilFromMarch(d: Date, days: int)
    requires ValidDate(d) && days + 719468 == MarchDays(MarchYear(d)) + MarchDay(d)
    ensures CivilFromDays(days) == d
  {
    var era, c, q, r := YearDigits(MarchYear(d));
    DigitsOfDate(d, era, c, q, r);
    MarchDaysDigits(era, c, q, r);
    CivilFromDigits(days, era, c, q, r, MarchDay(d));
    DateOfMarchDay(d);
  }

  function DateInMarchYear(year: int, doy: int): Date {
    var mp := (5 * doy + 2) / 153;
    Date(if mp < 10 then year else year + 1, if mp < 10 then mp + 3 else mp - 9, doy - MonthStart(mp) + 1)
  }

  lemma CivilFromEraDigits(era: int, c: int, q: int, r: int, doy: int)
    requires EraDigits(c, q, r, doy)
    ensures CivilInEra(era, FromEraDigits(c, q, r, doy)) == DateInMarchYear(400 * era + 100 * c + 4 * q + r, doy)
  {
    EraFormula(c, q, r, doy);
    MarchMonthBounds(doy);
  }

  lemma DigitsInEra(c: int, q: int, r: int, doy: int)
    requires EraDigits(c, q, r, doy)
    ensures 0 <= FromEraDigits(c, q, r, doy) <= 146096
  {
    EraFormula(c, q, r, doy);
  }

  lemma CivilFromEra(days: int, era: int, doe: int)
    requires 0 <= doe <= 146096 && days + 719468 == 146097 * era + doe
    ensures CivilFromDays(days) == CivilInEra(era, doe)
  {
    EraOf(days + 719468, era, doe);
  }

  lemma CivilFromDigits(days: int, era: int, c: int, q: int, r: int, doy: int)
    requires EraDigits(c, q, r, doy)
    requires days + 719468 == 146097 * era + FromEraDigits(c, q, r, doy)
    ensures CivilFromDays(days) == DateInMarchYear(400 * era + 100 * c + 4 * q + r, doy)
  {
    DigitsInEra(c, q, r, doy);
    CivilFromEra(days, era, FromEraDigits(c, q, r, doy));
    CivilFromEraDigits(era, c, q, r, doy);
  }

  lemma MarchMonthBounds(doy: int)
    requires 0 <= doy <= 365
    ensures 0 <= (5 * doy + 2) / 153 <= 11
  {
  }

  lemma YearDigits(y: int) returns (era: int, c: int, q: int, r: int)
    ensures 0 <= c <= 3 && 0 <= q <= 24 && 0 <= r <= 3
    ensures y == 400 * era + 100 * c + 4 * q + r
  {
    era := y / 400;
    c := y % 400 / 100;
    q := y % 400 % 100 / 4;
    r := y % 400 % 100 % 4;
  }

  lemma EraOf(z: int, era: int, doe: int)
    requires 0 <= doe <= 146096 && z == 146097 * era + doe
    ensures z / 146097 == era
  {
  }

  lemma LeapInEra(era: int, yoe: int)
    ensures IsLeap(400 * era + yoe) == IsLeap(yoe)
  {
    SameMod4(100 * era, yoe);
    SameMod100(4 * era, yoe);
    SameMod400(era, yoe);
  }

  lemma SameMod4(k: int, y: int)
    ensures (4 * k + y) % 4 == y % 4
  {
  }

  lemma SameMod100(k: int, y: int)
    ensures (100 * k + y) % 100 == y % 100
  {
  }

  lemma SameMod400(k: int, y: int)
    ensures (400 * k + y) % 400 == y % 400
  {
  }

  /** A valid date lies inside its March-based year. */
  lemma MonthInMarchYear(d: Date)
    requires ValidDate(d)
    ensures 0 <= MonthStart(MarchMonth(d.month)) + d.day - 1 < MarchYearLength(MarchYear(d))
  {
  }

  /** The month formula inverts the month starts. */
  lemma MonthOfDay(d: Date)
    requires ValidDate(d)
    ensures var doy := MonthStart(MarchMonth(d.month)) + d.day - 1;
            (5 * doy + 2) / 153 == MarchMonth(d.month)
  {
  }

  lemma MarchDaysDigits(era: int, c: int, q: int, r: int)
    requires 0 <= c <= 3 && 0 <= q <= 24 && 0 <= r <= 3
    ensures MarchDays(400 * era + 100 * c + 4 * q + r) == 146097 * era + 36524 * c + 1461 * q + 365 * r
  {
    var y := 400 * era + 100 * c + 4 * q + r;
    assert y / 4 == 100 * era + 25 * c + q;
    assert y / 100 == 4 * era + c;
    assert y / 400 == era;
  }

  // ---------------------------------------------------------------------
  // Main results
  // ---------------------------------------------------------------------

  /** The code inverts the reference count on every date from 1970 on. */
  lemma CivilOfDayNumber(d: Date)
    requires d.year >= 1970 && ValidDate(d)
    ensures CivilFromDays(DayNumber(d)) == d
  {
    DayNumberFromMarch(d);
    CivilFromMarch(d, DayNumber(d));
  }

  /** Tomorrow is one day later in the reference count. */
  lemma DayNumberOfTomorrow(d: Date)
    requires d.year >= 1970 && ValidDate(d)
    ensures ValidDate(Tomorrow(d)) && Tomorrow(d).year >= 1970
    ensures DayNumber(Tomorrow(d)) == DayNumber(d) + 1
  {
    if d.day == MonthLength(d.year, d.month) && d.month == 12 {
      MonthSum(d.year, 12);
    }
  }

  /** The date `n` days after the epoch, one day at a time. */
  ghost function NthDate(n: nat): (d: Date)
    ensures ValidDate(d) && d.year >= 1970
  {
    if n == 0 then Date(1970, 1, 1)
    else
      DayNumberOfTomorrow(NthDate(n - 1));
      Tomorrow(NthDate(n - 1))
  }

  lemma {:induction false} DayNumberOfNth(n: nat)
    ensures DayNumber(NthDate(n)) == n
  {
    if n > 0 {
      DayNumberOfNth(n - 1);
      DayNumberOfTomorrow(NthDate(n - 1));
    }
  }

  lemma CivilIsNth(n: nat)
    ensures CivilFromDays(n) == NthDate(n)
  {
    DayNumberOfNth(n);
    CivilOfDayNumber(NthDate(n));
  }

  /** Every day count from the epoch on prints a real date, and counting that date gives the day back. */
  lemma DayNumberOfCivil(days: int)
    requires days >= 0
    ensures ValidDate(CivilFromDays(days)) && CivilFromDays(days).year >= 1970
    ensures DayNumber(CivilFromDays(days)) == days
  {
    CivilIsNth(days);
    DayNumberOfNth(days);
  }

  /** Consecutive day counts print consecutive dates, across every month, leap and century boundary. */
  lemma ConsecutiveDays(days: int)
    requires days >= 0
    ensures ValidDate(CivilFromDays(days))
    ensures CivilFromDays(days + 1) == Tomorrow(CivilFromDays(days))
  {
    CivilIsNth(days);
    CivilIsNth(days + 1);
  }

  // ---------------------------------------------------------------------
  // Order
  // ---------------------------------------------------------------------

  predicate Before(a: Date, b: Date) {
    a.year < b.year || (a.year == b.year && (a.month < b.month || (a.month == b.month && a.day < b.day)))
  }

  lemma {:induction false} DaysBeforeYearGrows(a: int, b: int)
    requires 1970 <= a <= b
    ensures DaysBeforeYear(a) <= DaysBeforeYear(b)
    decreases b
  {
    if a < b { DaysBeforeYearGrows(a, b - 1); }
  }

  lemma {:induction false} DaysBeforeMonthGrows(year: int, a: int, b: int)
    requires 1 <= a < b <= 12
    ensures DaysBeforeMonth(year, a) + MonthLength(year, a) <= DaysBeforeMonth(year, b)
    decreases b
  {
    if a < b - 1 { DaysBeforeMonthGrows(year, a, b - 1); }
  }

  /** The reference count is strictly increasing in date order. */
  lemma DayNumberOrder(a: Date, b: Date)
    requires a.year >= 1970 && ValidDate(a) && b.year >= 1970 && ValidDate(b)
    ensures DayNumber(a) < DayNumber(b) <==> Before(a, b)
  {
    if Before(a, b) { DayNumberGrows(a, b); }
    if Before(b, a) { DayNumberGrows(b, a); }
  }

  lemma DayNumberGrows(a: Date, b: Date)
    requires a.year >= 1970 && ValidDate(a) && b.year >= 1970 && ValidDate(b)
    requires Before(a, b)
    ensures DayNumber(a) < DayNumber(b)
  {
    if a.year < b.year {
      MonthSum(a.year, a.month);
      MonthSum(a.year, 12);
      if a.month < 12 { DaysBeforeMonthGrows(a.year, a.month, 12); }
      DaysBeforeYearGrows(a.year + 1, b.year);
      if b.month > 1 { DaysBeforeMonthGrows(b.year, 1, b.month); }
    } else if a.month < b.month {
      DaysBeforeMonthGrows(a.year, a.month, b.month);
    }
  }
}
