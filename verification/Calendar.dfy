/** `days_from_civil` and `civil_from_days`: day numbers of the proleptic Gregorian calendar. */
module Calendar {

  datatype Date = Date(year: int, month: int, day: int)

  /** Division as the source's language does it: towards zero. */
  function TruncDiv(a: int, b: int): int
    requires b > 0
  {
    if a >= 0 then a / b else -((-a) / b)
  }

  // ---- The calendar, independently of any arithmetic -------------------------------

  predicate Leap(y: int) {
    y % 4 == 0 && (y % 100 != 0 || y % 400 == 0)
  }

  function MonthLength(m: int, leap: bool): int {
    if m == 2 then if leap then 29 else 28
    else if m == 4 || m == 6 || m == 9 || m == 11 then 30
    else 31
  }

  predicate ValidDate(x: Date) {
    1 <= x.month <= 12 && 1 <= x.day <= MonthLength(x.month, Leap(x.year))
  }

  function NextDay(x: Date): (n: Date)
    ensures ValidDate(x) ==> ValidDate(n)
  {
    if x.day < MonthLength(x.month, Leap(x.year)) then Date(x.year, x.month, x.day + 1)
    else if x.month < 12 then Date(x.year, x.month + 1, 1)
    else Date(x.year + 1, 1, 1)
  }

  predicate Before(x: Date, y: Date) {
    || x.year < y.year
    || (x.year == y.year && x.month < y.month)
    || (x.year == y.year && x.month == y.month && x.day < y.day)
  }

  // ---- The source's arithmetic -----------------------------------------------------

  function DaysFromCivil(x: Date): int {
    var y := if x.month <= 2 then x.year - 1 else x.year;
    var era := TruncDiv(if y >= 0 then y else y - 399, 400);
    var mp := (x.month + 9) % 12;
    var doy := MonthStart(mp) + x.day - 1;
    var doe := YearStart(y - era * 400) + doy;
    era * 146097 + doe - 719468
  }

  function CivilFromDays(days: int): Date {
    var z := days + 719468;
    var era := EraOf(z);
    DateInEra(era, z - era * 146097)
  }

  function EraOf(z: int): int {
    TruncDiv(if z >= 0 then z else z - 146096, 146097)
  }

  function DateInEra(era: int, doe: int): Date {
    var yoe := YearOfEra(doe);
    DateInYear(yoe + era * 400, doe - YearStart(yoe))
  }

  function DateInYear(y: int, doy: int): Date {
    var mp := (5 * doy + 2) / 153;
    var d := doy - MonthStart(mp) + 1;
    var m := if mp < 10 then mp + 3 else mp - 9;
    Date(if m <= 2 then y + 1 else y, m, d)
  }

  function YearOfEra(doe: int): int {
    (doe - doe / 1460 + doe / 36524 - doe / 146096) / 365
  }

  /** Days before year `yoe` of a 400-year era, whose years begin in March. */
  function YearStart(yoe: int): int {
    yoe * 365 + yoe / 4 - yoe / 100
  }

  /** Days before month `mp`, counted from March. */
  function MonthStart(mp: int): int {
    (153 * mp + 2) / 5
  }

  // ---- Years that begin in March ---------------------------------------------------

  /** `doy` is a day of the March year `yoe`, which ends with the February of the next. */
  predicate DayOfYear(yoe: int, doy: int) {
    0 <= doy <= 364 || (doy == 365 && Leap(yoe + 1))
  }

  /** A year of the era as centuries, four-year cycles and years. */
  predicate Parts(yoe: int, c: int, q: int, r: int) {
    0 <= c < 4 && 0 <= q < 25 && 0 <= r < 4 && yoe == 100 * c + 4 * q + r
  }

  lemma PartsStart(yoe: int, c: int, q: int, r: int)
    requires Parts(yoe, c, q, r)
    ensures YearStart(yoe) == 36524 * c + 1461 * q + 365 * r
  {
    assert yoe / 4 == 25 * c + q && yoe / 100 == c;
  }

  lemma PartsLeap(yoe: int, c: int, q: int, r: int)
    requires Parts(yoe, c, q, r)
    ensures Leap(yoe + 1) <==> r == 3 && (q == 24 ==> c == 3)
  {
    var next := yoe + 1;
    assert next % 4 == (r + 1) % 4;
    if r == 3 {
      assert q < 24 ==> next % 100 == 4 * q + 4;
      assert q == 24 ==> next == 100 * (c + 1);
    }
  }

  /** The correction terms of `YearOfEra`, on all days but the last of an era. */
  lemma Corrections(c: int, q: int, r: int, doy: int)
    requires 0 <= c < 4 && 0 <= q < 25 && 0 <= r < 4 && 0 <= doy <= 365
    requires 1461 * q + 365 * r + doy < 36524
    ensures var doe := 36524 * c + 1461 * q + 365 * r + doy;
            var g := (24 * c + q + 365 * r + doy) / 1460;
            doe / 1460 == 25 * c + q + g && doe / 36524 == c && doe / 146096 == 0 && 0 <= doe < 146096
  {
  }

  lemma YearRecovered(yoe: int, doy: int)
    requires 0 <= yoe < 400 && DayOfYear(yoe, doy)
    ensures 0 <= YearStart(yoe) + doy < 146097
    ensures YearOfEra(YearStart(yoe) + doy) == yoe
  {
    var c, q, r := yoe / 100, yoe % 100 / 4, yoe % 4;
    PartsStart(yoe, c, q, r);
    PartsLeap(yoe, c, q, r);
    if 1461 * q + 365 * r + doy < 36524 {
      Corrections(c, q, r, doy);
      YearQuotient(c, q, r, doy);
    } else {
      assert YearStart(yoe) + doy == 146096;
    }
  }

  lemma YearQuotient(c: int, q: int, r: int, doy: int)
    requires 0 <= c < 4 && 0 <= q < 25 && 0 <= r < 4 && (0 <= doy <= 364 || (doy == 365 && r == 3))
    ensures var doe := 36524 * c + 1461 * q + 365 * r + doy;
            var g := (24 * c + q + 365 * r + doy) / 1460;
            (doe - (25 * c + q + g) + c) / 365 == 100 * c + 4 * q + r
  {
    var n := 24 * c + q + 365 * r + doy;
    var g := n / 1460;
    assert g == if n < 1460 then 0 else 1;
    assert 0 <= doy - g < 365;
  }

  lemma YearContains(doe: int)
    requires 0 <= doe < 146097
    ensures var yoe := YearOfEra(doe);
            0 <= yoe < 400 && DayOfYear(yoe, doe - YearStart(yoe))
  {
    var c := if doe == 146096 then 3 else doe / 36524;
    var w := doe - 36524 * c;
    var q := w / 1461;
    var v := w - 1461 * q;
    var r := if v == 1460 then 3 else v / 365;
    var yoe := 100 * c + 4 * q + r;
    PartsStart(yoe, c, q, r);
    PartsLeap(yoe, c, q, r);
    YearRecovered(yoe, v - 365 * r);
  }

  // ---- Inverses ----------------------------------------------------------------------

  /** Both directions round towards minus infinity, as the calendar needs. */
  lemma EraFloors(a: int, b: int)
    requires b == 400 || b == 146097
    ensures TruncDiv(if a >= 0 then a else a - (b - 1), b) == a / b
  {
  }

  /** The month and day of a March year's day number, and back. */
  lemma MonthRecovered(y: int, m: int, d: int, leap: bool)
    requires 1 <= m <= 12 && 1 <= d <= MonthLength(m, leap)
    ensures var doy := MonthStart((m + 9) % 12) + d - 1;
            && DateInYear(y, doy) == Date(if m <= 2 then y + 1 else y, m, d)
            && (0 <= doy <= 364 || (doy == 365 && leap))
  {
    var mp := (m + 9) % 12;
    assert mp == if m <= 2 then m + 9 else m - 3;
    assert (5 * (MonthStart(mp) + d - 1) + 2) / 153 == mp;
  }

  lemma MonthContains(y: int, doy: int, leap: bool)
    requires 0 <= doy <= 364 || (doy == 365 && leap)
    ensures var x := DateInYear(y, doy);
            && 1 <= x.month <= 12 && 1 <= x.day <= MonthLength(x.month, leap)
            && MarchYear(x) == y && MarchDay(x) == doy
  {
    var mp := (5 * doy + 2) / 153;
    assert 0 <= mp < 12;
    assert (DateInYear(y, doy).month + 9) % 12 == mp;
  }

  lemma LeapInEra(y: int)
    ensures Leap(y + 1) <==> Leap(y % 400 + 1)
  {
    LeapRepeats(y / 400, y % 400 + 1);
  }

  lemma LeapRepeats(q: int, r: int)
    ensures Leap(400 * q + r) <==> Leap(r)
  {
    RemainderOfFour(r, 100 * q);
    RemainderOfHundred(r, 4 * q);
    RemainderOfEra(r, q);
  }

  lemma RemainderOfFour(r: int, k: int)
    ensures (4 * k + r) % 4 == r % 4
  {
  }

  lemma RemainderOfHundred(r: int, k: int)
    ensures (100 * k + r) % 100 == r % 100
  {
  }

  lemma RemainderOfEra(r: int, k: int)
    ensures (400 * k + r) % 400 == r % 400
  {
  }

  /** A date as a March year and a day of it. */
  function MarchYear(x: Date): int {
    if x.month <= 2 then x.year - 1 else x.year
  }

  function MarchDay(x: Date): int {
    MonthStart((x.month + 9) % 12) + x.day - 1
  }

  lemma DateInYearInverts(x: Date)
    requires ValidDate(x)
    ensures DateInYear(MarchYear(x), MarchDay(x)) == x && DayOfYear(MarchYear(x), MarchDay(x))
  {
    MonthRecovered(MarchYear(x), x.month, x.day, Leap(x.year));
  }

  lemma DateInYearValid(y: int, doy: int)
    requires DayOfYear(y, doy)
    ensures var x := DateInYear(y, doy);
            ValidDate(x) && MarchYear(x) == y && MarchDay(x) == doy
  {
    MonthContains(y, doy, Leap(y + 1));
  }

  /** Where an era and a day of it meet the day number. */
  function DayNumber(era: int, doe: int): int {
    era * 146097 + doe - 719468
  }

  /** The day number of the first of March. */
  function YearBase(y: int): int {
    DayNumber(y / 400, YearStart(y % 400))
  }

  lemma DaysInEra(x: Date)
    ensures DaysFromCivil(x) == YearBase(MarchYear(x)) + MarchDay(x)
  {
    EraFloors(MarchYear(x), 400);
  }

  lemma SplitsIntoEra(z: int, era: int, doe: int)
    requires z == era * 146097 + doe && 0 <= doe < 146097
    ensures EraOf(z) == era && z - era * 146097 == doe
  {
    EraFloors(z, 146097);
  }

  lemma CivilInEra(days: int, era: int, yoe: int, doy: int)
    requires 0 <= yoe < 400 && DayOfYear(yoe, doy) && days == DayNumber(era, YearStart(yoe) + doy)
    ensures CivilFromDays(days) == DateInYear(yoe + era * 400, doy)
  {
    YearRecovered(yoe, doy);
    CivilSplits(days, era, YearStart(yoe) + doy, DateInYear(yoe + era * 400, doy));
  }

  lemma CivilSplits(days: int, era: int, doe: int, x: Date)
    requires 0 <= doe < 146097 && DateInEra(era, doe) == x && days == DayNumber(era, doe)
    ensures CivilFromDays(days) == x
  {
    SplitsIntoEra(days + 719468, era, doe);
  }

  /** Every valid date comes back from its day number. */
  lemma DateRoundTrip(x: Date)
    requires ValidDate(x)
    ensures CivilFromDays(DaysFromCivil(x)) == x
  {
    DateInYearInverts(x);
    DaysInEra(x);
    CivilOfYear(DaysFromCivil(x), MarchYear(x), MarchDay(x));
  }

  lemma CivilOfYear(days: int, y: int, doy: int)
    requires DayOfYear(y, doy) && days == YearBase(y) + doy
    ensures CivilFromDays(days) == DateInYear(y, doy)
  {
    LeapInEra(y);
    CivilInEra(days, y / 400, y % 400, doy);
  }

  /** Every day number, negative ones too, is a valid date's and comes back. */
  lemma DayRoundTrip(days: int)
    ensures ValidDate(CivilFromDays(days)) && DaysFromCivil(CivilFromDays(days)) == days
  {
    var z := days + 719468;
    var era, doe := z / 146097, z % 146097;
    YearContains(doe);
    var yoe := YearOfEra(doe);
    var doy := doe - YearStart(yoe);
    CivilInEra(days, era, yoe, doy);
    DayOfEraRoundTrip(era, yoe, doy);
  }

  lemma DayOfEraRoundTrip(era: int, yoe: int, doy: int)
    requires 0 <= yoe < 400 && DayOfYear(yoe, doy)
    ensures var x := DateInYear(yoe + era * 400, doy);
            ValidDate(x) && DaysFromCivil(x) == DayNumber(era, YearStart(yoe) + doy)
  {
    var y := yoe + era * 400;
    assert y / 400 == era && y % 400 == yoe;
    LeapInEra(y);
    DateInYearValid(y, doy);
    DaysInEra(DateInYear(y, doy));
  }

  // ---- The day number counts days ----------------------------------------------------

  lemma EpochIsZero()
    ensures DaysFromCivil(Date(1970, 1, 1)) == 0
  {
    assert TruncDiv(1969, 400) == 4 && MonthStart(10) == 306;
    assert YearStart(369) == 134774;
  }

  lemma YearLength(y: int)
    ensures YearBase(y + 1) == YearBase(y) + if Leap(y + 1) then 366 else 365
  {
    var yoe := y % 400;
    LeapInEra(y);
    if yoe == 399 {
      assert (y + 1) / 400 == y / 400 + 1 && (y + 1) % 400 == 0;
    } else {
      assert (y + 1) / 400 == y / 400 && (y + 1) % 400 == yoe + 1;
      NextYearOfEra(yoe);
    }
  }

  lemma NextYearOfEra(yoe: int)
    requires 0 <= yoe < 399
    ensures YearStart(yoe + 1) == YearStart(yoe) + if Leap(yoe + 1) then 366 else 365
  {
    var c, q, r := yoe / 100, yoe % 100 / 4, yoe % 4;
    PartsLeap(yoe, c, q, r);
    PartsStart(yoe, c, q, r);
    if r < 3 {
      PartsStart(yoe + 1, c, q, r + 1);
    } else if q < 24 {
      PartsStart(yoe + 1, c, q + 1, 0);
    } else {
      PartsStart(yoe + 1, c + 1, 0, 0);
    }
  }

  /** The calendar's next day has the next number. */
  lemma NextDayIsNext(x: Date)
    requires ValidDate(x)
    ensures DaysFromCivil(NextDay(x)) == DaysFromCivil(x) + 1
  {
    DaysInEra(x);
    DaysInEra(NextDay(x));
    NextDayInMarchYear(x);
    YearLength(MarchYear(x));
  }

  lemma NextDayInMarchYear(x: Date)
    requires ValidDate(x)
    ensures var y, n := MarchYear(x), NextDay(x);
            || (MarchYear(n) == y && MarchDay(n) == MarchDay(x) + 1)
            || (MarchYear(n) == y + 1 && MarchDay(n) == 0 && MarchDay(x) == if Leap(y + 1) then 365 else 364)
  {
    NextMarchDay(x.year, x.month, x.day, Leap(x.year));
  }

  /** A step within a March year, or from its last day to the first of the next. */
  lemma NextMarchDay(y: int, m: int, d: int, leap: bool)
    requires 1 <= m <= 12 && 1 <= d <= MonthLength(m, leap)
    ensures var x, last := Date(y, m, d), d == MonthLength(m, leap);
            && (!last ==> MarchDay(Date(y, m, d + 1)) == MarchDay(x) + 1)
            && (last && m == 2 ==> MarchDay(x) == (if leap then 365 else 364) && MarchDay(Date(y, 3, 1)) == 0)
            && (last && m != 2 && m < 12 ==> MarchDay(Date(y, m + 1, 1)) == MarchDay(x) + 1)
            && (last && m == 12 ==> MarchDay(Date(y + 1, 1, 1)) == MarchDay(x) + 1)
  {
    MarchMonth(m);
    MarchMonth(if m == 12 then 1 else m + 1);
    MarchMonthLength(m, leap);
  }

  lemma MarchMonth(m: int)
    requires 1 <= m <= 12
    ensures (m + 9) % 12 == if m <= 2 then m + 9 else m - 3
  {
  }

  lemma MarchMonthLength(m: int, leap: bool)
    requires 1 <= m <= 12
    ensures var mp := if m <= 2 then m + 9 else m - 3;
            if m == 2 then MonthStart(mp) == 337 && MonthStart(0) == 0
            else MonthStart(mp + 1) == MonthStart(mp) + MonthLength(m, leap)
  {
  }

  /** A day past the end of its month is counted into the next month. */
  lemma OverlongDay(x: Date, y: Date)
    requires 1 <= x.month <= 12 && MonthLength(x.month, Leap(x.year)) < x.day <= 31
    requires y == Date(x.year, x.month + 1, x.day - MonthLength(x.month, Leap(x.year)))
    ensures ValidDate(y) && DaysFromCivil(x) == DaysFromCivil(y) && CivilFromDays(DaysFromCivil(x)) == y
  {
    CountedOn(x.year, x.month, x.day - y.day, y.day);
    DateRoundTrip(y);
  }

  lemma CountedOn(y: int, m: int, n: int, k: int)
    requires 1 <= m < 12 && n == MonthLength(m, Leap(y))
    ensures DaysFromCivil(Date(y, m, n + k)) == DaysFromCivil(Date(y, m + 1, k))
  {
    FirstOfNextMonth(y, m, n);
    DaysInMonth(y, m, n, n + k);
    DaysInMonth(y, m + 1, 1, k);
  }

  lemma FirstOfNextMonth(y: int, m: int, n: int)
    requires 1 <= m < 12 && n == MonthLength(m, Leap(y))
    ensures DaysFromCivil(Date(y, m + 1, 1)) == DaysFromCivil(Date(y, m, n)) + 1
  {
    NextDayIsNext(Date(y, m, n));
  }

  lemma DaysInMonth(y: int, m: int, d: int, e: int)
    ensures DaysFromCivil(Date(y, m, e)) == DaysFromCivil(Date(y, m, d)) + (e - d)
  {
  }

  /** Years begin in order. */
  lemma {:induction false} YearsIncrease(y: int, n: nat)
    ensures YearBase(y + n) >= YearBase(y)
    decreases n
  {
    if n > 0 {
      YearsIncrease(y, n - 1);
      YearLength(y + (n - 1));
    }
  }

  lemma BeforeIsLess(x: Date, y: Date)
    requires ValidDate(x) && ValidDate(y) && Before(x, y)
    ensures DaysFromCivil(x) < DaysFromCivil(y)
  {
    var a, b := MarchYear(x), MarchYear(y);
    DaysInEra(x);
    DaysInEra(y);
    DateInYearInverts(x);
    DateInYearInverts(y);
    if a < b {
      LaterMarchYear(a, MarchDay(x), b);
    } else {
      LaterInMarchYear(x, y);
    }
  }

  lemma LaterMarchYear(a: int, doy: int, b: int)
    requires DayOfYear(a, doy) && a < b
    ensures YearBase(a) + doy < YearBase(b)
  {
    YearLength(a);
    YearsIncrease(a + 1, b - a - 1);
  }

  lemma LaterInMarchYear(x: Date, y: Date)
    requires ValidDate(x) && ValidDate(y) && Before(x, y) && MarchYear(x) >= MarchYear(y)
    ensures MarchYear(x) == MarchYear(y) && MarchDay(x) < MarchDay(y)
  {
    LaterMarchDay(x.month, x.day, y.month, y.day, Leap(x.year));
  }

  lemma LaterMarchDay(m: int, d: int, m': int, d': int, leap: bool)
    requires 1 <= m <= 12 && 1 <= d <= MonthLength(m, leap) && 1 <= m' <= 12 && 1 <= d' <= 31
    requires (m <= 2 && m' <= 2) || (m > 2 && m' > 2) || (m > 2 && m' <= 2)
    requires (m <= 2 <==> m' <= 2) ==> m < m' || (m == m' && d < d')
    ensures MonthStart((m + 9) % 12) + d < MonthStart((m' + 9) % 12) + d'
  {
    assert (m + 9) % 12 == if m <= 2 then m + 9 else m - 3;
    assert (m' + 9) % 12 == if m' <= 2 then m' + 9 else m' - 3;
  }

  /** Later dates have larger numbers, and only they do. */
  lemma DaysIncrease(x: Date, y: Date)
    requires ValidDate(x) && ValidDate(y)
    ensures Before(x, y) <==> DaysFromCivil(x) < DaysFromCivil(y)
  {
    if Before(x, y) {
      BeforeIsLess(x, y);
    } else if Before(y, x) {
      BeforeIsLess(y, x);
    }
  }
}
