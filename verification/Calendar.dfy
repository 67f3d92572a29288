/** The two halves of the civil calendar, written independently in
    `src/stamp.rs` (`civil_from_days`) and `src/config/timestamp.rs`
    (`days_from_civil`, `days_in_month`), and that they are inverse. */
module Calendar {
  /** Rust's integer division, which truncates toward zero. */
  function Truncated(a: int, b: int): (q: int)
    requires b > 0
  {
    if a >= 0 then a / b else -((-a) / b)
  }

  datatype Date = Date(year: int, month: int, day: int)

  function YearOfEra(dayOfEra: int): (y: int) {
    Truncated(dayOfEra - Truncated(dayOfEra, 1460) + Truncated(dayOfEra, 36524) - Truncated(dayOfEra, 146096), 365)
  }

  /** Which 400-year era a day, counted from 1 March of year 0, lies in. */
  function EraOf(shifted: int): (e: int) {
    Truncated(if shifted >= 0 then shifted else shifted - 146096, 146097)
  }

  /** The date of a day, counted from 0, of the year that begins on 1 March of `y`. */
  function CivilInYear(y: int, dayOfYear: int): (d: Date) {
    var shiftedMonth := Truncated(5 * dayOfYear + 2, 153);
    var day := dayOfYear - Truncated(153 * shiftedMonth + 2, 5) + 1;
    var month := if shiftedMonth < 10 then shiftedMonth + 3 else shiftedMonth - 9;
    Date(y + if month <= 2 then 1 else 0, month, day)
  }

  /** The rest of the conversion, for a day of an era. */
  function CivilInEra(era: int, dayOfEra: int): (d: Date) {
    var yearOfEra := YearOfEra(dayOfEra);
    CivilInYear(yearOfEra + era * 400,
                dayOfEra - (365 * yearOfEra + Truncated(yearOfEra, 4) - Truncated(yearOfEra, 100)))
  }

  function CivilFromDays(days: int): (d: Date) {
    var shifted := days + 719468;
    var era := EraOf(shifted);
    CivilInEra(era, shifted - era * 146097)
  }

  function DaysFromCivil(year: int, month: int, day: int): (n: int) {
    var y := if month <= 2 then year - 1 else year;
    var era := Truncated(if y >= 0 then y else y - 399, 400);
    var yearOfEra := y - era * 400;
    var shiftedMonth := if month > 2 then month - 3 else month + 9;
    var dayOfYear := Truncated(153 * shiftedMonth + 2, 5) + day - 1;
    var dayOfEra := yearOfEra * 365 + Truncated(yearOfEra, 4) - Truncated(yearOfEra, 100) + dayOfYear;
    era * 146097 + dayOfEra - 719468
  }

  predicate LeapYear(year: int) {
    year % 4 == 0 && (year % 100 != 0 || year % 400 == 0)
  }

  function DaysInMonth(year: int, month: int): (n: int) {
    if month == 4 || month == 6 || month == 9 || month == 11 then 30
    else if month == 2 then if LeapYear(year) then 29 else 28
    else if 1 <= month <= 12 then 31
    else 0
  }

  /** A date the calendar has. */
  predicate ValidDate(d: Date) {
    1 <= d.month <= 12 && 1 <= d.day <= DaysInMonth(d.year, d.month)
  }

  // ---------------------------------------- years that begin on 1 March

  /** The length of the year that begins on 1 March of year `y`. */
  function YearLength(y: int): (n: int) {
    if LeapYear(y + 1) then 366 else 365
  }

  /** The days from 1 March of year 0 to 1 March of year `y`. */
  function YearStart(y: int): (n: int) {
    365 * y + y / 4 - y / 100 + y / 400
  }

  lemma YearStartStep(y: int)
    ensures YearStart(y + 1) == YearStart(y) + YearLength(y)
  {
    QuotientStep(y, 4);
    QuotientStep(y, 100);
    QuotientStep(y, 400);
    assert (y + 1) % 400 == 0 ==> (y + 1) % 100 == 0;
    assert (y + 1) % 100 == 0 ==> (y + 1) % 4 == 0;
  }

  lemma QuotientStep(y: int, k: int)
    requires k > 0
    ensures (y + 1) / k == y / k + if (y + 1) % k == 0 then 1 else 0
  {
    var q, r := y / k, y % k;
    assert y == k * q + r;
    if r == k - 1 {
      assert y + 1 == k * (q + 1);
      Quotient(y + 1, k, q + 1, 0);
    } else {
      Quotient(y + 1, k, q, r + 1);
    }
  }

  lemma Quotient(n: int, k: int, q: int, r: int)
    requires k > 0 && 0 <= r < k && n == k * q + r
    ensures n / k == q && n % k == r
  {
    var d := n / k - q;
    assert k * d == r - n % k;
    assert d >= 1 ==> k * d >= k;
    assert d <= -1 ==> k * d <= -k;
  }

  /** Dividing down, also below zero: what the source's adjustment computes. */
  lemma AdjustedDivisionFloors(n: int, k: int)
    requires k > 0
    ensures Truncated(if n >= 0 then n else n - (k - 1), k) == n / k
  {
    if n < 0 {
      var q, r := n / k, n % k;
      assert -(n - (k - 1)) == k * (-q) + (k - 1 - r);
      Quotient(-(n - (k - 1)), k, -q, k - 1 - r);
    }
  }

  /** The days of an era split into a year and a day of it. */
  lemma EraSplits(dayOfEra: int) returns (y: int, doy: int)
    requires 0 <= dayOfEra < 146097
    ensures 0 <= y < 400 && 0 <= doy < YearLength(y)
    ensures dayOfEra == YearStart(y) + doy
  {
    var c := if dayOfEra / 36524 < 3 then dayOfEra / 36524 else 3;
    var ofCentury := dayOfEra - 36524 * c;
    var q := if ofCentury / 1461 < 24 then ofCentury / 1461 else 24;
    var ofCycle := ofCentury - 1461 * q;
    var r := if ofCycle / 365 < 3 then ofCycle / 365 else 3;
    doy := ofCycle - 365 * r;
    y := 100 * c + 4 * q + r;
    YearParts(c, q, r);
  }

  /** A year of the era by centuries, four-year cycles and years. */
  lemma YearParts(c: int, q: int, r: int)
    requires 0 <= c < 4 && 0 <= q < 25 && 0 <= r < 4
    ensures var y := 100 * c + 4 * q + r;
            && y / 4 == 25 * c + q && y / 100 == c && y / 400 == 0
            && YearStart(y) == 36524 * c + 1461 * q + 365 * r
            && YearLength(y) == if r == 3 && (q < 24 || c == 3) then 366 else 365
  {
  }

  lemma EraFormula(c: int, q: int, r: int, doy: int)
    requires 0 <= c < 4 && 0 <= q < 25 && 0 <= r < 4 && 0 <= doy <= 365
    requires doy == 365 ==> r == 3 && (q < 24 || c == 3)
    ensures var n := 36524 * c + 1461 * q + 365 * r + doy;
            && n - n / 1460 + n / 36524 - n / 146096 >= 0
            && (n - n / 1460 + n / 36524 - n / 146096) / 365 == 100 * c + 4 * q + r
  {
    var n := 36524 * c + 1461 * q + 365 * r + doy;
    var late := if 24 * c + q + 365 * r + doy >= 1460 then 1 else 0;
    var last := if n == 146096 then 1 else 0;
    Quotient(n, 1460, 25 * c + q + late, 24 * c + q + 365 * r + doy - 1460 * late);
    Quotient(n, 36524, c + last, n - 36524 * (c + last));
    Quotient(n, 146096, last, n - 146096 * last);
    var y := 100 * c + 4 * q + r;
    Quotient(365 * y + doy - late, 365, y, doy - late);
  }

  /** The source's one-line formula finds the year a day of the era lies in. */
  lemma YearOfEraFinds(y: int, doy: int)
    requires 0 <= y < 400 && 0 <= doy < YearLength(y)
    ensures YearOfEra(YearStart(y) + doy) == y
  {
    var c, q, r := y / 100, (y % 100) / 4, y % 4;
    assert y == 100 * c + 4 * q + r;
    YearParts(c, q, r);
    hide YearStart, YearLength;
    EraFormula(c, q, r, doy);
  }

  // ------------------------------------------------------------ the months

  function MonthStart(m: int): (n: int)
    requires 0 <= m <= 12
  {
    (153 * m + 2) / 5
  }

  lemma MonthSplits(doy: int) returns (m: int)
    requires 0 <= doy < 366
    ensures 0 <= m < 12 && MonthStart(m) <= doy < MonthStart(m + 1)
  {
    m := (5 * doy + 2) / 153;
  }

  /** The date of a day of a year that begins on 1 March. */
  function DateOf(y: int, m: int, day: int): (d: Date)
    requires 0 <= m < 12
  {
    Date(if m >= 10 then y + 1 else y, if m < 10 then m + 3 else m - 9, day)
  }

  lemma MonthLengths(y: int, m: int)
    requires 0 <= m < 12
    ensures var d := DateOf(y, m, 1);
            && 1 <= d.month <= 12
            && (m < 11 ==> DaysInMonth(d.year, d.month) == MonthStart(m + 1) - MonthStart(m))
            && (m == 11 ==> DaysInMonth(d.year, d.month) == YearLength(y) - MonthStart(11))
  {
  }

  // --------------------------------------------------------- both functions

  /** The day of the year `y` of an era, and the month it lies in. */
  lemma CivilInEraIs(era: int, y: int, m: int, day: int)
    requires 0 <= y < 400 && 0 <= m < 12 && day >= 1
    requires MonthStart(m) + day - 1 < MonthStart(m + 1)
    requires MonthStart(m) + day - 1 < YearLength(y)
    ensures CivilInEra(era, YearStart(y) + MonthStart(m) + day - 1) == DateOf(400 * era + y, m, day)
  {
    hide CivilInYear, YearLength, YearOfEra, YearStart, Truncated;
    var doy := MonthStart(m) + day - 1;
    YearOfEraFinds(y, doy);
    DayOfYearOf(y, doy);
    CivilInYearIs(400 * era + y, m, day);
    hide MonthStart;
  }

  lemma CivilInYearIs(y: int, m: int, day: int)
    requires 0 <= m < 12 && day >= 1 && MonthStart(m) + day - 1 < MonthStart(m + 1)
    ensures CivilInYear(y, MonthStart(m) + day - 1) == DateOf(y, m, day)
  {
  }

  lemma EraOfShifted(era: int, doe: int)
    requires 0 <= doe < 146097
    ensures EraOf(146097 * era + doe) == era
  {
  }

  lemma DayOfYearOf(y: int, doy: int)
    requires 0 <= y < 400
    ensures YearStart(y) + doy - (365 * y + Truncated(y, 4) - Truncated(y, 100)) == doy
  {
  }

  /** The forward conversion, in terms of years that begin on 1 March. */
  lemma CivilFromDaysIs(y: int, m: int, day: int)
    requires 0 <= m < 12 && ValidDate(DateOf(y, m, day))
    ensures CivilFromDays(YearStart(y) + MonthStart(m) + day - 1 - 719468) == DateOf(y, m, day)
  {
    YearHasTheDay(y, m, day);
    YearStartByEra(y);
    CivilFromEraDay(y, y / 400, y % 400, m, day);
  }

  lemma CivilFromEraDay(y: int, era: int, yoe: int, m: int, day: int)
    requires 0 <= yoe < 400 && y == 400 * era + yoe && 0 <= m < 12
    requires YearStart(y) == 146097 * era + YearStart(yoe)
    requires 0 <= MonthStart(m) <= MonthStart(m) + day - 1 < MonthStart(m + 1)
    requires MonthStart(m) + day - 1 < YearLength(yoe)
    ensures CivilFromDays(YearStart(y) + MonthStart(m) + day - 1 - 719468) == DateOf(y, m, day)
  {
    hide CivilInEra, EraOf, YearStart, YearLength, MonthStart;
    var doe := YearStart(yoe) + MonthStart(m) + day - 1;
    YearBounds(yoe);
    EraOfShifted(era, doe);
    CivilInEraIs(era, yoe, m, day);
    assert YearStart(y) + MonthStart(m) + day - 1 - 719468 + 719468 == 146097 * era + doe;
  }

  lemma YearHasTheDay(y: int, m: int, day: int)
    requires 0 <= m < 12 && ValidDate(DateOf(y, m, day))
    ensures 0 <= MonthStart(m) <= MonthStart(m) + day - 1 < MonthStart(m + 1)
    ensures MonthStart(m) + day - 1 < YearLength(y) == YearLength(y % 400)
  {
    YearLengthByEra(y);
    MonthLengths(y, m);
    assert MonthStart(11) == 337 && MonthStart(12) == 367;
    assert m < 11 ==> MonthStart(m + 1) <= 337;
    assert 365 <= YearLength(y) <= 366;
    hide YearLength, DaysInMonth;
  }

  lemma YearStartByEra(y: int)
    ensures YearStart(y) == 146097 * (y / 400) + YearStart(y % 400)
    ensures (y % 400) / 400 == 0
  {
    var e, r := y / 400, y % 400;
    assert y == 400 * e + r;
    assert y / 4 == 100 * e + r / 4;
    assert y / 100 == 4 * e + r / 100;
  }

  lemma YearLengthByEra(y: int)
    ensures YearLength(y) == YearLength(y % 400)
  {
    var e, r := y / 400, y % 400;
    Quotient(y + 1, 4, 100 * e + (r + 1) / 4, (r + 1) % 4);
    Quotient(y + 1, 100, 4 * e + (r + 1) / 100, (r + 1) % 100);
    Quotient(y + 1, 400, e + (r + 1) / 400, (r + 1) % 400);
  }

  lemma YearBounds(y: int)
    requires 0 <= y < 400
    ensures 0 <= YearStart(y) && YearStart(y) + YearLength(y) <= 146097
  {
  }

  /** The backward conversion, in the same terms. */
  lemma DaysFromCivilIs(y: int, m: int, day: int)
    requires 0 <= m < 12
    ensures var d := DateOf(y, m, day);
            DaysFromCivil(d.year, d.month, d.day) == YearStart(y) + MonthStart(m) + day - 1 - 719468
  {
    AdjustedDivisionFloors(y, 400);
    YearStartByEra(y);
  }

  /** Every day number is a day of some year, month and day. */
  lemma DayIsADate(days: int) returns (y: int, m: int, day: int)
    ensures 0 <= m < 12 && ValidDate(DateOf(y, m, day))
    ensures days == YearStart(y) + MonthStart(m) + day - 1 - 719468
  {
    var shifted := days + 719468;
    var era, doe := shifted / 146097, shifted % 146097;
    var yoe, doy := EraSplits(doe);
    y := 400 * era + yoe;
    Quotient(y, 400, era, yoe);
    YearStartByEra(y);
    YearLengthByEra(y);
    m := MonthSplits(doy);
    day := doy - MonthStart(m) + 1;
    MonthLengths(y, m);
  }

  /** A valid date is such a day. */
  lemma DateIsADay(d: Date) returns (y: int, m: int)
    requires ValidDate(d)
    ensures 0 <= m < 12 && DateOf(y, m, d.day) == d
  {
    y := if d.month <= 2 then d.year - 1 else d.year;
    m := if d.month > 2 then d.month - 3 else d.month + 9;
  }

  // -------------------------------------------------------------- theorems

  /** For every day number the date found exists, and it counts back to it. */
  lemma DaysRoundTrip(days: int)
    ensures var d := CivilFromDays(days);
            ValidDate(d) && DaysFromCivil(d.year, d.month, d.day) == days
  {
    hide *;
    var y, m, day := DayIsADate(days);
    CivilFromDaysIs(y, m, day);
    DaysFromCivilIs(y, m, day);
  }

  /** Every valid date is found again from its day number. */
  lemma DatesRoundTrip(d: Date)
    requires ValidDate(d)
    ensures CivilFromDays(DaysFromCivil(d.year, d.month, d.day)) == d
  {
    hide *;
    var y, m := DateIsADay(d);
    DaysFromCivilIs(y, m, d.day);
    CivilFromDaysIs(y, m, d.day);
  }

  predicate Earlier(a: Date, b: Date) {
    a.year < b.year || (a.year == b.year && (a.month < b.month || (a.month == b.month && a.day < b.day)))
  }

  lemma {:induction false} YearsAreOrdered(a: int, b: int)
    requires a < b
    ensures YearStart(a) + YearLength(a) <= YearStart(b)
    decreases b - a
  {
    YearStartStep(a);
    if a + 1 < b {
      YearsAreOrdered(a + 1, b);
    }
  }

  lemma MonthsAreOrdered(a: int, b: int)
    requires 0 <= a < b < 12
    ensures MonthStart(a + 1) <= MonthStart(b)
  {
  }

  /** Years that begin on 1 March order dates as the calendar does. */
  lemma MarchYearsKeepOrder(y: int, m: int, d: int, y': int, m': int, d': int)
    requires 0 <= m < 12 && 0 <= m' < 12
    requires Earlier(DateOf(y, m, d), DateOf(y', m', d'))
    ensures y < y' || (y == y' && (m < m' || (m == m' && d < d')))
  {
  }

  lemma LaterDaysCountMore(y: int, m: int, d: int, y': int, m': int, d': int)
    requires 0 <= m < 12 && 0 <= m' < 12
    requires ValidDate(DateOf(y, m, d)) && ValidDate(DateOf(y', m', d'))
    requires y < y' || (y == y' && (m < m' || (m == m' && d < d')))
    ensures YearStart(y) + MonthStart(m) + d < YearStart(y') + MonthStart(m') + d'
  {
    YearHasTheDay(y, m, d);
    YearHasTheDay(y', m', d');
    hide *;
    if y < y' {
      YearsAreOrdered(y, y');
    } else if m < m' {
      MonthsAreOrdered(m, m');
    }
  }

  /** A later date has a larger day number. */
  lemma LaterDatesCountMore(a: Date, b: Date)
    requires ValidDate(a) && ValidDate(b) && Earlier(a, b)
    ensures DaysFromCivil(a.year, a.month, a.day) < DaysFromCivil(b.year, b.month, b.day)
  {
    hide *;
    var y, m := DateIsADay(a);
    var y', m' := DateIsADay(b);
    DaysFromCivilIs(y, m, a.day);
    DaysFromCivilIs(y', m', b.day);
    MarchYearsKeepOrder(y, m, a.day, y', m', b.day);
    LaterDaysCountMore(y, m, a.day, y', m', b.day);
  }

  /** The calendar keeps the order of days, both ways. */
  lemma CalendarKeepsOrder(a: int, b: int)
    ensures a < b <==> Earlier(CivilFromDays(a), CivilFromDays(b))
  {
    hide CivilFromDays, DaysFromCivil, ValidDate;
    DaysRoundTrip(a);
    DaysRoundTrip(b);
    var d, e := CivilFromDays(a), CivilFromDays(b);
    if Earlier(d, e) {
      LaterDatesCountMore(d, e);
    } else if Earlier(e, d) {
      LaterDatesCountMore(e, d);
    }
  }
}
