/** The proleptic Gregorian calendar: day counts, dates, and the three copies of the
    arithmetic between them. */
module Calendars {

  datatype Date = Date(year: int, month: int, day: int)

  // ----- What a calendar is -------------------------------------------------------------

  predicate IsLeap(y: int) {
    y % 4 == 0 && (y % 100 != 0 || y % 400 == 0)
  }

  function MonthDays(y: int, m: int): int {
    if m == 2 then (if IsLeap(y) then 29 else 28)
    else if m == 4 || m == 6 || m == 9 || m == 11 then 30
    else 31
  }

  predicate IsDate(d: Date) {
    1 <= d.month <= 12 && 1 <= d.day <= MonthDays(d.year, d.month)
  }

  function NextDay(d: Date): Date {
    if d.day < MonthDays(d.year, d.month) then d.(day := d.day + 1)
    else if d.month < 12 then Date(d.year, d.month + 1, 1)
    else Date(d.year + 1, 1, 1)
  }

  // ----- The arithmetic -----------------------------------------------------------------

  /** Days since 1970-01-01, by eras of 400 years that begin on March 1st. */
  function DaysFromCivil(year: int, month: nat, day: int): int {
    var y := if month <= 2 then year - 1 else year;
    var era := y / 400;
    var yoe := y - era * 400;
    var mp := (month + 9) % 12;
    var doy := (153 * mp + 2) / 5 + day - 1;
    var doe := yoe * 365 + yoe / 4 - yoe / 100 + doy;
    era * 146097 + doe - 719468
  }

  function YearOfEra(doe: nat): int {
    (doe - doe / 1460 + doe / 36524 - doe / 146096) / 365
  }

  function CivilFromDays(days: int): Date {
    var z := days + 719468;
    var era := z / 146097;
    var doe := z - era * 146097;
    var yoe := YearOfEra(doe);
    var doy := doe - (365 * yoe + yoe / 4 - yoe / 100);
    var mp := (5 * doy + 2) / 153;
    var day := doy - (153 * mp + 2) / 5 + 1;
    var month := if mp < 10 then mp + 3 else mp - 9;
    Date(yoe + era * 400 + (if month <= 2 then 1 else 0), month, day)
  }

  // ----- Years of an era -------------------------------------------------------------------

  /** Days of an era before its year k. */
  function YearStart(k: int): int {
    365 * k + k / 4 - k / 100
  }

  /** Days in year k of an era: from March 1st, so the leap day is its last. */
  function YearDays(k: int): int {
    if IsLeap(k + 1) then 366 else 365
  }

  lemma YearStep(k: nat)
    requires k < 400
    ensures YearStart(k) + YearDays(k) == (if k == 399 then 146097 else YearStart(k + 1))
  {}

  /** Century a, leap cycle b, year c, and day of the year: YearOfEra counts the years. */
  lemma YearOfParts(a: int, b: int, c: int, doy: int)
    requires 0 <= a < 4 && 0 <= b < 25 && 0 <= c < 4
    requires 0 <= doy < (if c == 3 && (b < 24 || a == 3) then 366 else 365)
    ensures var doe := 36524 * a + 1461 * b + 365 * c + doy;
      0 <= doe < 146097 && YearOfEra(doe) == 100 * a + 4 * b + c
  {
    var doe := 36524 * a + 1461 * b + 365 * c + doy;
    var rest := 24 * a + b + 365 * c + doy;
    var e := if 1460 <= rest then 1 else 0;
    Quotient(doe, 1460, 25 * a + b + e, rest - 1460 * e);
    if doe == 146096 {
      assert YearOfEra(doe) == 399;
    } else {
      Quotient(doe, 36524, a, 1461 * b + 365 * c + doy);
      Quotient(doe, 146096, 0, doe);
      Quotient(36500 * a + 1460 * b + 365 * c + doy - e, 365, 100 * a + 4 * b + c, doy - e);
    }
  }

  lemma Quotient(x: int, d: int, q: int, r: int)
    requires 0 < d && 0 <= r < d && x == d * q + r
    ensures x / d == q && x % d == r
  {
    var q', r' := x / d, x % d;
    assert x == d * q' + r';
    if q < q' { Gap(d, q, q'); }
    if q' < q { Gap(d, q', q); }
  }

  lemma Gap(d: int, m: int, n: int)
    requires 0 < d && m < n
    ensures d * m + d <= d * n
  {
    AtLeast(d, n - m);
  }

  lemma AtLeast(d: int, k: int)
    requires 0 < d && 1 <= k
    ensures d <= d * k
  {}

  lemma YearStartOfParts(a: int, b: int, c: int)
    requires 0 <= a < 4 && 0 <= b < 25 && 0 <= c < 4
    ensures var k := 100 * a + 4 * b + c;
      && YearStart(k) == 36524 * a + 1461 * b + 365 * c
      && YearDays(k) == (if c == 3 && (b < 24 || a == 3) then 366 else 365)
  {}

  /** Every day of an era lies in exactly the year `YearOfEra` names. */
  lemma YearOfEraFinds(doe: nat)
    requires doe < 146097
    ensures var k := YearOfEra(doe); 0 <= k < 400 && YearStart(k) <= doe < YearStart(k) + YearDays(k)
  {
    var a := if doe == 146096 then 3 else doe / 36524;
    var r := doe - 36524 * a;
    var b := if r == 36524 then 24 else r / 1461;
    var s := r - 1461 * b;
    var c := if s == 1460 then 3 else s / 365;
    YearOfParts(a, b, c, s - 365 * c);
    YearStartOfParts(a, b, c);
  }

  lemma YearOfEraUnique(doe: nat, k: nat)
    requires k < 400 && YearStart(k) <= doe < YearStart(k) + YearDays(k)
    ensures doe < 146097 && YearOfEra(doe) == k
  {
    var a, b, c := k / 100, (k % 100) / 4, k % 4;
    assert k == 100 * a + 4 * b + c;
    YearStartOfParts(a, b, c);
    YearOfParts(a, b, c, doe - YearStart(k));
  }

  // ----- Months of a March year --------------------------------------------------------------

  /** Days of a March year before its month mp, March being month 0. */
  function MonthStart(mp: int): int {
    (153 * mp + 2) / 5
  }

  /** The March year and month of a civil one. */
  function MarchYear(year: int, month: int): int {
    if month <= 2 then year - 1 else year
  }

  /** The March month of a civil one. */
  function MarchMonth(month: nat): (mp: int)
    ensures 0 <= mp < 12
  {
    (month + 9) % 12
  }

  function CivilMonth(mp: int): int {
    if mp < 10 then mp + 3 else mp - 9
  }

  /** Day `doy` of a March year lies in its month `mp`. */
  predicate InMonth(doy: int, mp: int) {
    0 <= mp < 12 && MonthStart(mp) <= doy < (if mp < 11 then MonthStart(mp + 1) else 366)
  }

  lemma MonthCount(month: int)
    requires 1 <= month <= 12
    ensures CivilMonth(MarchMonth(month)) == month
  {}

  lemma MarchCount(mp: int)
    requires 0 <= mp < 12
    ensures 1 <= CivilMonth(mp) <= 12 && MarchMonth(CivilMonth(mp)) == mp
  {}

  lemma MonthLengths(year: int, mp: int)
    requires 0 <= mp < 11
    ensures MonthDays(year, CivilMonth(mp)) == MonthStart(mp + 1) - MonthStart(mp) && 0 <= MonthStart(mp)
  {
    hide IsLeap;
  }

  lemma MonthStarts()
    ensures MonthStart(11) == 337 && MonthStart(0) == 0
  {}

  /** A day of the March year lies in exactly one of its months. */
  lemma MonthFinds(doy: int)
    requires 0 <= doy < 366
    ensures InMonth(doy, (5 * doy + 2) / 153)
  {}

  lemma MonthUnique(doy: int, mp: int)
    requires InMonth(doy, mp)
    ensures (5 * doy + 2) / 153 == mp
  {}

  lemma LeapCycle(y: int, k: int, era: int)
    requires y == k + 400 * era
    ensures IsLeap(y) <==> IsLeap(k)
  {
    Quotient(y, 4, k / 4 + 100 * era, k % 4);
    Quotient(y, 100, k / 100 + 4 * era, k % 100);
    Quotient(y, 400, k / 400 + era, k % 400);
  }

  // ----- Dates and day counts are the same thing ------------------------------------------------

  /** Where a day lies: era, year of the era, day of that year, month of that year. */
  predicate Place(era: int, yoe: int, mp: int, doy: int) {
    0 <= yoe < 400 && 0 <= doy < YearDays(yoe) && InMonth(doy, mp)
  }

  function PlaceDays(era: int, yoe: int, doy: int): int {
    era * 146097 + YearStart(yoe) + doy - 719468
  }

  function PlaceDate(era: int, yoe: int, mp: int, doy: int): Date {
    Date(yoe + era * 400 + (if CivilMonth(mp) <= 2 then 1 else 0), CivilMonth(mp), doy - MonthStart(mp) + 1)
  }

  lemma DaysByPlace(year: int, month: nat, day: int)
    ensures var y := MarchYear(year, month);
      DaysFromCivil(year, month, day) == PlaceDays(y / 400, y % 400, MonthStart(MarchMonth(month)) + day - 1)
  {
    var y := MarchYear(year, month);
    assert y - y / 400 * 400 == y % 400;
  }

  lemma CivilByPlace(era: int, yoe: int, mp: int, doy: int)
    requires Place(era, yoe, mp, doy)
    ensures CivilFromDays(PlaceDays(era, yoe, doy)) == PlaceDate(era, yoe, mp, doy)
  {
    YearOfEraUnique(YearStart(yoe) + doy, yoe);
    MonthUnique(doy, mp);
    hide YearOfEra, YearDays, IsLeap, InMonth;
    Quotient(146097 * era + YearStart(yoe) + doy, 146097, era, YearStart(yoe) + doy);
    CivilUnfolds(PlaceDays(era, yoe, doy), era, YearStart(yoe) + doy, yoe, doy, mp);
  }

  lemma CivilUnfolds(days: int, era: int, doe: nat, yoe: int, doy: int, mp: int)
    requires (days + 719468) / 146097 == era && days + 719468 == era * 146097 + doe && YearOfEra(doe) == yoe
    requires doy == doe - YearStart(yoe) && (5 * doy + 2) / 153 == mp
    ensures CivilFromDays(days) == PlaceDate(era, yoe, mp, doy)
  {
    hide YearOfEra;
  }

  /** A place is a real date, and a real date is a place. */
  lemma PlaceIsDate(era: int, yoe: int, mp: int, doy: int)
    requires Place(era, yoe, mp, doy)
    ensures var d := PlaceDate(era, yoe, mp, doy);
      IsDate(d) && MarchYear(d.year, d.month) == yoe + era * 400 && MarchMonth(d.month) == mp
  {
    MarchCount(mp);
    var d := PlaceDate(era, yoe, mp, doy);
    if mp < 11 {
      hide YearDays;
      MonthLengths(d.year, mp);
    } else {
      LeapCycle(d.year, yoe + 1, era);
      MonthStarts();
      hide IsLeap, MonthStart;
    }
  }

  lemma DateIsPlace(d: Date)
    requires IsDate(d)
    ensures var y, mp := MarchYear(d.year, d.month), MarchMonth(d.month);
      var doy := MonthStart(mp) + d.day - 1;
      Place(y / 400, y % 400, mp, doy) && PlaceDate(y / 400, y % 400, mp, doy) == d
  {
    var y, mp := MarchYear(d.year, d.month), MarchMonth(d.month);
    MonthCount(d.month);
    MonthStarts();
    assert y % 400 + y / 400 * 400 == y;
    if mp < 11 {
      MonthLengths(d.year, mp);
      MonthStartMono(mp + 1);
      hide IsLeap, MonthStart;
    } else {
      LeapCycle(d.year, y % 400 + 1, y / 400);
      hide IsLeap, MonthStart;
    }
  }

  lemma MonthStartMono(mp: int)
    requires 0 <= mp < 12
    ensures 0 <= MonthStart(mp) <= 337
  {}

  /** `civil_from_days` undoes `days_from_civil` on every real date. */
  lemma DateRoundTrip(d: Date)
    requires IsDate(d)
    ensures CivilFromDays(DaysFromCivil(d.year, d.month, d.day)) == d
  {
    var y, mp := MarchYear(d.year, d.month), MarchMonth(d.month);
    DateIsPlace(d);
    DaysByPlace(d.year, d.month, d.day);
    hide Place, PlaceDate, PlaceDays, DaysFromCivil, CivilFromDays, MonthStart, IsDate;
    CivilByPlace(y / 400, y % 400, mp, MonthStart(mp) + d.day - 1);
  }

  /** Every day count is that of a real date, and `days_from_civil` undoes
      `civil_from_days` on all of them. */
  lemma DaysRoundTrip(days: int)
    ensures IsDate(CivilFromDays(days))
    ensures var d := CivilFromDays(days); DaysFromCivil(d.year, d.month, d.day) == days
  {
    var era, yoe, mp, doy := PlaceOf(days);
    CivilByPlace(era, yoe, mp, doy);
    PlaceIsDate(era, yoe, mp, doy);
    var d := CivilFromDays(days);
    DaysByPlace(d.year, d.month, d.day);
    hide Place, CivilFromDays, DaysFromCivil, IsDate, CivilMonth, YearStart, MonthStart, MarchYear, MarchMonth;
    Quotient(400 * era + yoe, 400, era, yoe);
  }

  lemma PlaceOf(days: int) returns (era: int, yoe: int, mp: int, doy: int)
    ensures Place(era, yoe, mp, doy) && PlaceDays(era, yoe, doy) == days
    ensures 0 <= yoe < 400
  {
    var z := days + 719468;
    var doe := z % 146097;
    era, yoe := z / 146097, YearOfEra(doe);
    YearOfEraFinds(doe);
    hide YearOfEra;
    doy := doe - YearStart(yoe);
    YearDaysRange(yoe);
    MonthFinds(doy);
    mp := (5 * doy + 2) / 153;
    hide YearStart, YearDays, InMonth;
  }

  lemma YearDaysRange(k: int)
    ensures 365 <= YearDays(k) <= 366
  {}

  // ----- The day count counts days -----------------------------------------------------------------

  /** Days since the epoch of March 1st of a March year. */
  function MarchFirst(y: int): int {
    PlaceDays(y / 400, y % 400, 0)
  }

  lemma YearRoll(y: int)
    ensures MarchFirst(y + 1) == MarchFirst(y) + YearDays(y % 400)
  {
    YearStep(y % 400);
    var era, k := y / 400, y % 400;
    assert y == 400 * era + k;
    hide YearDays;
    if k == 399 {
      Quotient(y + 1, 400, era + 1, 0);
    } else {
      Quotient(y + 1, 400, era, k + 1);
    }
  }

  lemma {:induction false} MarchFirstMono(y: int, z: int)
    requires y < z
    ensures MarchFirst(y) < MarchFirst(z)
    decreases z - y
  {
    hide MarchFirst, YearDays;
    YearRoll(z - 1);
    YearDaysRange((z - 1) % 400);
    if y < z - 1 { MarchFirstMono(y, z - 1); }
  }

  lemma DaysByMarch(year: int, month: nat, day: int)
    ensures DaysFromCivil(year, month, day) == MarchFirst(MarchYear(year, month)) + MonthStart(MarchMonth(month))
        + day - 1
  {
    DaysByPlace(year, month, day);
    hide DaysFromCivil, MarchYear, MarchMonth, MonthStart, YearStart;
  }

  lemma MonthStep(month: int)
    requires 1 <= month <= 12
    ensures if month == 2 then MarchMonth(month) == 11
            else MarchMonth(if month == 12 then 1 else month + 1) == MarchMonth(month) + 1
  {}

  /** The day after a date has the next day count; with the epoch, 1970-01-01, at zero,
      that makes `days_from_civil` the count of days of the Gregorian calendar. */
  lemma NextDaySucceeds(d: Date)
    requires IsDate(d)
    ensures var n := NextDay(d);
      IsDate(n) && DaysFromCivil(n.year, n.month, n.day) == DaysFromCivil(d.year, d.month, d.day) + 1
    ensures DaysFromCivil(1970, 1, 1) == 0
  {
    MonthRolls(d.year, d.month);
    if d.day < MonthDays(d.year, d.month) {
      DaysByMarch(d.year, d.month, d.day);
      DaysByMarch(d.year, d.month, d.day + 1);
      hide MarchFirst, MarchMonth, MonthStart, IsLeap;
    }
    EpochIsZero();
    hide DaysFromCivil, MarchFirst, IsLeap;
  }

  lemma EpochIsZero()
    ensures DaysFromCivil(1970, 1, 1) == 0
  {}

  /** The first of the next month comes after the last of this one. */
  lemma MonthRolls(year: int, month: nat)
    requires 1 <= month <= 12
    ensures var last, n := MonthDays(year, month), NextDay(Date(year, month, MonthDays(year, month)));
      IsDate(n) && 28 <= last && DaysFromCivil(n.year, n.month, n.day) == DaysFromCivil(year, month, last) + 1
  {
    var last := MonthDays(year, month);
    var n := NextDay(Date(year, month, last));
    MonthLast(year, month);
    DaysByMarch(year, month, last);
    DaysByMarch(n.year, n.month, n.day);
    MonthStep(month);
    MonthCount(month);
    var mp := MarchMonth(month);
    if month == 2 {
      FebruaryEnds(year);
      YearRoll(year - 1);
    } else {
      MonthLengths(year, mp);
    }
    hide DaysFromCivil, MarchFirst, MonthStart, MonthDays, YearDays, MarchMonth, CivilMonth;
  }

  lemma MonthLast(year: int, month: nat)
    requires 1 <= month <= 12
    ensures 28 <= MonthDays(year, month) && IsDate(NextDay(Date(year, month, MonthDays(year, month))))
  {
    hide IsLeap;
  }

  lemma FebruaryEnds(year: int)
    ensures MonthDays(year, 2) == YearDays((year - 1) % 400) - 337 && MonthStart(11) == 337 && MonthStart(0) == 0
        && MarchMonth(3) == 0
  {
    LeapCycle(year, (year - 1) % 400 + 1, (year - 1) / 400);
    hide IsLeap;
  }

  /** A date is real exactly when it survives the round trip through its day count. */
  lemma RealDatesSurvive(year: int, month: nat, day: int)
    ensures IsDate(Date(year, month, day)) <==> CivilFromDays(DaysFromCivil(year, month, day)) == Date(year, month, day)
  {
    hide IsDate, CivilFromDays, DaysFromCivil;
    if IsDate(Date(year, month, day)) { DateRoundTrip(Date(year, month, day)); }
    DaysRoundTrip(DaysFromCivil(year, month, day));
  }

  // ----- The clock of the view ------------------------------------------------------------------------

  /** Division as the source's `/` on signed integers: towards zero. */
  function TruncDiv(a: int, b: int): int
    requires 0 < b
  {
    if 0 <= a then a / b else -(-a / b)
  }

  function ToI32(x: int): int {
    (x + 0x8000_0000) % 0x1_0000_0000 - 0x8000_0000
  }

  datatype Instant = Instant(date: Date, hour: int, minute: int, second: int)

  predicate IsInstant(i: Instant) {
    IsDate(i.date) && 0 <= i.hour < 24 && 0 <= i.minute < 60 && 0 <= i.second < 60
  }

  function InstantOf(unix: int): Instant {
    var secs := unix % 86400;
    Instant(CivilFromDays(unix / 86400), secs / 3600, secs / 60 % 60, secs % 60)
  }

  /** The clock's conversion: the year is cast to 32 bits. */
  function CivilFromUnix(unix: int): Instant {
    var i := InstantOf(unix);
    i.(date := i.date.(year := ToI32(i.date.year)))
  }

  function ClockDays(year: int, month: nat, day: int): int {
    var y := year - (if month <= 2 then 1 else 0);
    var era := TruncDiv(if 0 <= y then y else y - 399, 400);
    var yoe := y - era * 400;
    var mp := (month + 9) % 12;
    var doy := (153 * mp + 2) / 5 + day - 1;
    var doe := yoe * 365 + yoe / 4 - yoe / 100 + doy;
    era * 146097 + doe - 719468
  }

  function UnixFromCivil(year: int, month: nat, day: int, hour: int, minute: int, second: int): int {
    ClockDays(year, month, day) * 86400 + hour * 3600 + minute * 60 + second
  }

  /** Truncating the shifted year is flooring it: the clock's arithmetic is the
      compilers'. */
  lemma ClockAgrees(year: int, month: nat, day: int)
    ensures ClockDays(year, month, day) == DaysFromCivil(year, month, day)
  {
    var y := MarchYear(year, month);
    TruncFloors(y);
  }

  lemma TruncFloors(y: int)
    ensures TruncDiv(if 0 <= y then y else y - 399, 400) == y / 400
  {
    if y < 0 {
      var q, r := y / 400, y % 400;
      Quotient(399 - y, 400, -q, 399 - r);
    }
  }

  lemma SecondsSplit(unix: int)
    ensures var i := InstantOf(unix);
      && unix == unix / 86400 * 86400 + i.hour * 3600 + i.minute * 60 + i.second
      && 0 <= i.hour < 24 && 0 <= i.minute < 60 && 0 <= i.second < 60
  {
    hide CivilFromDays;
  }

  lemma SecondsJoin(days: int, hour: int, minute: int, second: int)
    requires 0 <= hour < 24 && 0 <= minute < 60 && 0 <= second < 60
    ensures var unix := days * 86400 + hour * 3600 + minute * 60 + second;
      unix / 86400 == days && InstantOf(unix) == Instant(CivilFromDays(days), hour, minute, second)
  {
    hide CivilFromDays;
    Quotient(days * 86400 + hour * 3600 + minute * 60 + second, 86400, days, hour * 3600 + minute * 60 + second);
    var secs := hour * 3600 + minute * 60 + second;
    Quotient(secs, 3600, hour, minute * 60 + second);
    Quotient(secs, 60, hour * 60 + minute, second);
    Quotient(hour * 60 + minute, 60, hour, minute);
  }

  /** An instant and its timestamp: each the other's inverse. */
  lemma InstantRoundTrips(unix: int, i: Instant)
    ensures IsInstant(InstantOf(unix))
    ensures var j := InstantOf(unix);
      UnixFromCivil(j.date.year, j.date.month, j.date.day, j.hour, j.minute, j.second) == unix
    ensures IsInstant(i) ==>
      InstantOf(UnixFromCivil(i.date.year, i.date.month, i.date.day, i.hour, i.minute, i.second)) == i
  {
    hide IsDate, CivilFromDays, DaysFromCivil, ClockDays;
    var j := InstantOf(unix);
    SecondsSplit(unix);
    DaysRoundTrip(unix / 86400);
    MonthIsNat(j.date);
    ClockAgrees(j.date.year, j.date.month, j.date.day);
    if IsInstant(i) {
      MonthIsNat(i.date);
      ClockAgrees(i.date.year, i.date.month, i.date.day);
      DateRoundTrip(i.date);
      SecondsJoin(DaysFromCivil(i.date.year, i.date.month, i.date.day), i.hour, i.minute, i.second);
    }
    hide InstantOf;
  }

  lemma MonthIsNat(d: Date)
    ensures IsDate(d) ==> 1 <= d.month <= 12
  {}

  predicate FitsI32(x: int) {
    -0x8000_0000 <= x < 0x8000_0000
  }

  /** The clock's two conversions undo each other exactly on the timestamps whose year
      fits the clock's 32 bits. */
  lemma ClockRoundTrip(unix: int)
    ensures var i := CivilFromUnix(unix);
      && 1 <= i.date.month
      && (UnixFromCivil(i.date.year, i.date.month, i.date.day, i.hour, i.minute, i.second) == unix
          <==> FitsI32(InstantOf(unix).date.year))
  {
    hide IsDate, CivilFromDays, ClockDays;
    var i, j := CivilFromUnix(unix), InstantOf(unix);
    InstantRoundTrips(unix, j);
    MonthIsNat(j.date);
    WrapsOrNot(j.date.year);
    if !FitsI32(j.date.year) {
      OtherYear(j.date.year, i.date.year, j.date.month, j.date.day);
      ClockAgrees(i.date.year, i.date.month, i.date.day);
      ClockAgrees(j.date.year, i.date.month, i.date.day);
    }
    hide InstantOf, DaysFromCivil, ToI32;
  }

  lemma WrapsOrNot(x: int)
    ensures ToI32(x) == x <==> FitsI32(x)
  {}

  lemma OtherYear(y: int, z: int, month: nat, day: int)
    requires y != z
    ensures DaysFromCivil(y, month, day) != DaysFromCivil(z, month, day)
  {
    DaysByMarch(y, month, day);
    DaysByMarch(z, month, day);
    hide DaysFromCivil, MarchFirst;
    if y < z {
      MarchFirstMono(MarchYear(y, month), MarchYear(z, month));
    } else {
      MarchFirstMono(MarchYear(z, month), MarchYear(y, month));
    }
  }

  /** The comment on `unix_from_civil` says an out-of-range month rolls into the next
      year. It does up to month 14; from month 15 on the carry is lost and the result is a
      year or more early. */
  lemma MonthRollover(year: int, month: nat, day: int)
    ensures ClockDays(year, month, day) == ClockDays(year + (month - 1) / 12, (month - 1) % 12 + 1, day)
        <==> month <= 14
  {
    var year', month' := year + (month - 1) / 12, (month - 1) % 12 + 1;
    ClockAgrees(year, month, day);
    ClockAgrees(year', month', day);
    DaysByMarch(year, month, day);
    DaysByMarch(year', month', day);
    SameMarchMonth(month);
    CarryKept(year, month);
    hide ClockDays, DaysFromCivil, MarchFirst, MarchMonth, MonthStart;
    if month > 14 {
      MarchFirstMono(MarchYear(year, month), MarchYear(year', month'));
    }
  }

  lemma SameMarchMonth(month: nat)
    ensures MarchMonth(month) == MarchMonth((month - 1) % 12 + 1)
  {}

  lemma CarryKept(year: int, month: nat)
    ensures var year', month' := year + (month - 1) / 12, (month - 1) % 12 + 1;
      if month <= 14 then MarchYear(year', month') == MarchYear(year, month)
          else MarchYear(year, month) < MarchYear(year', month')
  {}

  // ----- The reference year of the planner ---------------------------------------------------------------

  const DAYS_BEFORE_MONTH := [0, 31, 59, 90, 120, 151, 181, 212, 243, 273, 304, 334]

  /** Month and day of a day count, the year dropped. */
  function MonthDayFromUnixDays(days: int): (int, int) {
    var z := days + 719468;
    var era := z / 146097;
    var dayOfEra := z - era * 146097;
    var yearOfEra := (dayOfEra - dayOfEra / 1460 + dayOfEra / 36524 - dayOfEra / 146096) / 365;
    var dayOfYear := dayOfEra - (365 * yearOfEra + yearOfEra / 4 - yearOfEra / 100);
    var monthShifted := (5 * dayOfYear + 2) / 153;
    (if monthShifted < 10 then monthShifted + 3 else monthShifted - 9,
     dayOfYear - (153 * monthShifted + 2) / 5 + 1)
  }

  lemma ThirdCopyAgrees(days: int)
    ensures var d := CivilFromDays(days);
      MonthDayFromUnixDays(days) == (d.month, d.day) && 1 <= d.month <= 12 && 1 <= d.day <= 31
  {
    DaysRoundTrip(days);
    hide IsLeap, DaysFromCivil;
  }

  /** The whole hour of reference year `year` a timestamp falls in. */
  function ReferenceHour(unix: int, year: int): int {
    ThirdCopyAgrees(unix / 86400);
    var (month, day) := MonthDayFromUnixDays(unix / 86400);
    var dayOfYear := DAYS_BEFORE_MONTH[month - 1] + day - 1 + (if month > 2 && IsLeap(year) then 1 else 0);
    dayOfYear * 24 + unix % 86400 / 3600
  }

  lemma DaysBefore(year: int, month: nat)
    requires 1 <= month <= 12
    ensures MarchFirst(MarchYear(year, month)) + MonthStart(MarchMonth(month)) - MarchFirst(year - 1) - MonthStart(10)
         == DAYS_BEFORE_MONTH[month - 1] + (if month > 2 && IsLeap(year) then 1 else 0)
  {
    YearRoll(year - 1);
    FebruaryEnds(year);
    hide MarchFirst, IsLeap, YearDays;
  }

  /** The reference hour is the hour of the reference year at which the same month, day
      and time of day fall: whole days since its January 1st, a 29th of February counting
      as the day after the 28th in a year that has none; so it stays inside the year. */
  lemma ReferenceHourIsCalendar(unix: int, year: int)
    ensures var i := InstantOf(unix);
      && 1 <= i.date.month
      && ReferenceHour(unix, year)
         == (DaysFromCivil(year, i.date.month, i.date.day) - DaysFromCivil(year, 1, 1)) * 24 + i.hour
      && 0 <= ReferenceHour(unix, year) < (if IsLeap(year) then 8784 else 8760)
  {
    var d := CivilFromDays(unix / 86400);
    ThirdCopyAgrees(unix / 86400);
    DaysRoundTrip(unix / 86400);
    DaysByMarch(year, d.month, d.day);
    DaysByMarch(year, 1, 1);
    DaysBefore(year, d.month);
    SecondsSplit(unix);
    DayFits(d, year);
    hide CivilFromDays, DaysFromCivil, MonthDayFromUnixDays, MarchFirst, MarchMonth, MonthStart, IsLeap;
  }

  lemma DayFits(d: Date, year: int)
    requires IsDate(d)
    ensures 0 <= DAYS_BEFORE_MONTH[d.month - 1] + d.day - 1 + (if d.month > 2 && IsLeap(year) then 1 else 0)
         < (if IsLeap(year) then 366 else 365)
  {
    hide IsLeap;
  }
}