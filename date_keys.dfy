/** `getDateKey` (app/TodayPage.jsx): a time value's UTC calendar date as the
    first ten characters of `Date.prototype.toISOString()`, which is the ISO 8601
    `full-date` ("YYYY-MM-DD", RFC 3339 section 5.6) for years 0000 to 9999. */
module DateKeys {
  import opened Strings

  const MsPerDay: int := 86400000

  /** A JavaScript Date holds a time value at most 8.64e15 ms from the epoch. */
  const MaxTime: int := 8640000000000000

  /** Milliseconds since 1970-01-01T00:00:00Z that a `Date` can hold. */
  type Time = t: int | -MaxTime <= t <= MaxTime

  /** The UTC day number (days since 1970-01-01) of a time value. Dafny's `/` on a
      positive divisor is floor division, which is how an instant before the epoch
      falls on the earlier day. */
  function DayOf(t: int): int {
    t / MsPerDay
  }

  /** A proleptic Gregorian calendar date; years are astronomical (year 0 is 1 BC). */
  datatype Civil = Civil(year: int, month: int, day: int)

  predicate IsLeapYear(y: int) {
    y % 4 == 0 && (y % 100 != 0 || y % 400 == 0)
  }

  function DaysInMonth(y: int, m: int): int
    requires 1 <= m <= 12
  {
    if m == 2 then (if IsLeapYear(y) then 29 else 28)
    else if m == 4 || m == 6 || m == 9 || m == 11 then 30
    else 31
  }

  predicate ValidCivil(c: Civil) {
    1 <= c.month <= 12 && 1 <= c.day <= DaysInMonth(c.year, c.month)
  }

  /** Days from 0000-03-01 to 1970-01-01. The calendar arithmetic below counts years
      from March, so that the leap day is the last day of its year. */
  const EpochShift: int := 719468

  /** Days of the March-based year before March-based month `mp` (0 is March, 11 is
      February). */
  function DaysBeforeMonth(mp: int): int {
    (153 * mp + 2) / 5
  }

  /** Days of an era before its March-based year `yoe` (0 to 399). */
  function DaysBeforeYear(yoe: int): int {
    365 * yoe + yoe / 4 - yoe / 100
  }

  /** The March-based year `yoe` of an era ends in a leap day: the calendar year
      `yoe + 1` is a leap year. */
  predicate EndsInLeapDay(yoe: int) {
    (yoe + 1) % 4 == 0 && ((yoe + 1) % 100 != 0 || yoe + 1 == 400)
  }

  /** The March-based year of an era (of 146097 days) that its day `doe` falls in.
      An era splits into centuries of 36524 days (the last one a day longer), a
      century into four-year blocks of 1461 days (the last block a day shorter,
      except in the era's last century) and a block into years of 365 days (the last
      year a day longer). */
  function YearOfEra(doe: int): (yoe: int)
    requires 0 <= doe < 146097
    ensures 0 <= yoe <= 399
    ensures 0 <= doe - DaysBeforeYear(yoe) <= 365
    ensures doe - DaysBeforeYear(yoe) == 365 ==> EndsInLeapDay(yoe)
    ensures yoe == 399 <==> doe >= 145731
  {
    var cen := if doe / 36524 < 3 then doe / 36524 else 3;
    var doc := doe - 36524 * cen;
    var quad := doc / 1461;
    var doq := doc % 1461;
    var yoq := if doq / 365 < 3 then doq / 365 else 3;
    var yoe := 100 * cen + 4 * quad + yoq;
    assert yoe / 4 == 25 * cen + quad;
    assert yoe / 100 == cen;
    assert DaysBeforeYear(yoe) == 36524 * cen + 1461 * quad + 365 * yoq;
    yoe
  }

  /** The civil date of day number `n`. */
  function CivilOf(n: int): (c: Civil)
    ensures ValidCivil(c) && DayOfCivil(c) == n
  {
    var z := n + EpochShift;
    var era := z / 146097;
    var yoe := YearOfEra(z % 146097);
    var doy := z % 146097 - DaysBeforeYear(yoe);
    CivilOfFacts(era, yoe, doy);
    CivilFromParts(era, yoe, doy)
  }

  /** The date on day `doy` (0 is March 1) of the March-based year `yoe` of era `era`. */
  function CivilFromParts(era: int, yoe: int, doy: int): Civil {
    var mp := (5 * doy + 2) / 153;
    var m := if mp < 10 then mp + 3 else mp - 9;
    Civil(400 * era + yoe + (if m <= 2 then 1 else 0), m, doy - DaysBeforeMonth(mp) + 1)
  }

  /** The arithmetic behind `CivilOf`'s contract, once a day number has been split
      into its era, March-based year of the era and day of that year. */
  lemma CivilOfFacts(era: int, yoe: int, doy: int)
    requires 0 <= yoe <= 399 && 0 <= doy <= 365
    requires doy == 365 ==> EndsInLeapDay(yoe)
    ensures var c := CivilFromParts(era, yoe, doy);
      ValidCivil(c) && DayOfCivil(c) == era * 146097 + DaysBeforeYear(yoe) + doy - EpochShift
  {
    var mp := (5 * doy + 2) / 153;
    var m := if mp < 10 then mp + 3 else mp - 9;
    var y := 400 * era + yoe + (if m <= 2 then 1 else 0);
    MonthOfDay(doy);
    var ym := if m <= 2 then y - 1 else y;
    assert ym == 400 * era + yoe;
    assert ym / 400 == era && ym % 400 == yoe;
    if doy == 365 {
      assert m == 2 && y == 400 * era + (yoe + 1);
      LeapShift(era, yoe + 1);
    }
  }

  /** Whole eras do not change whether a year is a leap year. */
  lemma LeapShift(era: int, k: int)
    requires 1 <= k <= 400
    requires k % 4 == 0 && (k % 100 != 0 || k == 400)
    ensures IsLeapYear(400 * era + k)
  {
    EraMod(era, k);
  }

  lemma EraMod(era: int, k: int)
    ensures (400 * era + k) % 4 == k % 4
    ensures (400 * era + k) % 100 == k % 100
    ensures (400 * era + k) % 400 == k % 400
  {
    Mod4(100 * era, k);
    Mod100(4 * era, k);
  }

  lemma Mod4(a: int, k: int)
    ensures (4 * a + k) % 4 == k % 4
  {
  }

  lemma Mod100(a: int, k: int)
    ensures (100 * a + k) % 100 == k % 100
  {
  }

  /** Which March-based month a day of the year falls in, and its day in that month. */
  lemma MonthOfDay(doy: int)
    requires 0 <= doy <= 365
    ensures
      var mp := (5 * doy + 2) / 153;
      var m := if mp < 10 then mp + 3 else mp - 9;
      var d := doy - DaysBeforeMonth(mp) + 1;
      0 <= mp <= 11 && 1 <= d && (m <= 2 <==> doy >= 306) &&
      (mp < 11 ==> d <= DaysInMonth(0, m)) &&
      (mp == 11 ==> d <= 28 || doy == 365)
  {
    var mp := (5 * doy + 2) / 153;
    assert 0 <= mp <= 11;
    assert DaysBeforeMonth(mp) <= doy < DaysBeforeMonth(mp + 1);
  }

  /** The day number of a civil date: the inverse of `CivilOf`. */
  function DayOfCivil(c: Civil): int {
    var y := if c.month <= 2 then c.year - 1 else c.year;
    var mp := if c.month > 2 then c.month - 3 else c.month + 9;
    (y / 400) * 146097 + DaysBeforeYear(y % 400) + DaysBeforeMonth(mp) + c.day - 1 - EpochShift
  }

  /** The first and last day numbers whose year has four digits (0000-01-01 and
      9999-12-31). */
  const FirstDay: int := -719528
  const LastDay: int := 2932896

  /** The days from 0000-01-01 to 9999-12-31 are exactly those with a four-digit year. */
  lemma FourDigitYears(n: int)
    ensures FirstDay <= n <= LastDay <==> 0 <= CivilOf(n).year <= 9999
  {
    var z := n + EpochShift;
    var doe := z % 146097;
    var yoe := YearOfEra(doe);
    var doy := doe - DaysBeforeYear(yoe);
    YearOfCivil(n, z, doe, yoe, doy);
    YearBounds(z, z / 146097, doe, yoe, doy);
  }

  /** The year of `CivilOf(n)` from the era, the year of the era and the day of the
      March-based year. */
  lemma YearOfCivil(n: int, z: int, doe: int, yoe: int, doy: int)
    requires z == n + EpochShift && doe == z % 146097
    requires yoe == YearOfEra(doe) && doy == doe - DaysBeforeYear(yoe)
    ensures CivilOf(n).year == 400 * (z / 146097) + yoe + (if doy >= 306 then 1 else 0)
    ensures yoe == 399 ==> doy == doe - 145731
  {
    assert CivilOf(n) == CivilFromParts(z / 146097, yoe, doy);
    MonthOfDay(doy);
  }

  lemma YearBounds(z: int, era: int, doe: int, yoe: int, doy: int)
    requires z == 146097 * era + doe && 0 <= doe < 146097
    requires 0 <= yoe <= 399 && 0 <= doy <= 365
    requires yoe == 399 <==> doe >= 145731
    requires yoe == 399 ==> doy == doe - 145731
    ensures -60 <= z <= 3652364 <==>
      0 <= 400 * era + yoe + (if doy >= 306 then 1 else 0) <= 9999
  {
    if era <= -2 {
    } else if era == -1 {
    } else if era <= 23 {
    } else if era == 24 {
    } else {
    }
  }

  function Abs(x: int): nat {
    if x < 0 then -x else x
  }

  /** The year field of `toISOString`: four digits for years 0 to 9999, otherwise
      the expanded form, a sign and six digits. */
  function IsoYear(y: int): (s: string)
    ensures 0 <= y <= 9999 ==> |s| == 4
    ensures |s| >= 4
  {
    if 0 <= y <= 9999 then FixedDigits(y, 4)
    else (if y < 0 then "-" else "+") + FixedDigits(Abs(y), 6)
  }

  /** The date part of `toISOString`: year, month and day separated by hyphens. */
  function IsoDate(c: Civil): (s: string)
    requires ValidCivil(c)
    ensures |s| >= 10
  {
    IsoYear(c.year) + "-" + FixedDigits(c.month, 2) + "-" + FixedDigits(c.day, 2)
  }

  /** `getDateKey` of any instant on day `n`: `toISOString().slice(0, 10)`. The time
      of day that `toISOString` appends after the date never reaches the slice. */
  function KeyOfDay(n: int): (k: string)
    ensures |k| == 10
    ensures 0 <= CivilOf(n).year <= 9999 ==> k == IsoDate(CivilOf(n))
  {
    IsoDate(CivilOf(n))[..10]
  }

  /** `getDateKey(value)` for a time value: the key of its UTC day. */
  function DateKey(t: Time): (k: string)
    ensures |k| == 10
    ensures FirstDay <= DayOf(t) <= LastDay ==> k == IsoDate(CivilOf(DayOf(t)))
  {
    FourDigitYears(DayOf(t));
    KeyOfDay(DayOf(t))
  }

  /** For a four-digit year the key has the shape "YYYY-MM-DD". */
  lemma KeyOfDayShape(n: int)
    requires FirstDay <= n <= LastDay
    ensures var k := KeyOfDay(n);
      k[4] == '-' && k[7] == '-' &&
      forall i :: 0 <= i < 10 && i != 4 && i != 7 ==> IsDigit(k[i])
  {
    FourDigitYears(n);
    var c := CivilOf(n);
    var k := KeyOfDay(n);
    assert k == FixedDigits(c.year, 4) + "-" + FixedDigits(c.month, 2) + "-" + FixedDigits(c.day, 2);
  }

  /** Two instants on the same UTC day get the same key. */
  lemma DateKeySameDay(t1: Time, t2: Time)
    requires DayOf(t1) == DayOf(t2)
    ensures DateKey(t1) == DateKey(t2)
  {
  }

  /** Within the four-digit years, different days get different keys. */
  lemma KeyOfDayInjective(n1: int, n2: int)
    requires FirstDay <= n1 <= LastDay && FirstDay <= n2 <= LastDay
    requires KeyOfDay(n1) == KeyOfDay(n2)
    ensures n1 == n2
  {
    var c1, c2 := CivilOf(n1), CivilOf(n2);
    FourDigitYears(n1);
    FourDigitYears(n2);
    IsoDateFields(c1);
    IsoDateFields(c2);
    FixedDigitsInjective(c1.year, c2.year, 4);
    FixedDigitsInjective(c1.month, c2.month, 2);
    FixedDigitsInjective(c1.day, c2.day, 2);
    assert c1 == c2;
  }

  /** Where the fields of a four-digit-year date sit in its ISO form. */
  lemma IsoDateFields(c: Civil)
    requires ValidCivil(c) && 0 <= c.year <= 9999
    ensures |IsoDate(c)| == 10
    ensures IsoDate(c)[..4] == FixedDigits(c.year, 4)
    ensures IsoDate(c)[5..7] == FixedDigits(c.month, 2)
    ensures IsoDate(c)[8..] == FixedDigits(c.day, 2)
  {
    var y, m, d := FixedDigits(c.year, 4), FixedDigits(c.month, 2), FixedDigits(c.day, 2);
    assert IsoDate(c) == y + "-" + m + "-" + d;
  }

  /** A key starts with a digit for a four-digit year and with the year's sign
      otherwise. */
  lemma KeyOfDayFirstChar(n: int)
    ensures FirstDay <= n <= LastDay ==> IsDigit(KeyOfDay(n)[0])
    ensures !(FirstDay <= n <= LastDay) ==> KeyOfDay(n)[0] == '+' || KeyOfDay(n)[0] == '-'
  {
    var c := CivilOf(n);
    FourDigitYears(n);
    assert KeyOfDay(n)[0] == IsoDate(c)[0] == IsoYear(c.year)[0];
  }

  /** A day of a four-digit year shares its key with no other day at all, whether or
      not that other day's year has four digits. */
  lemma KeyOfDayMatches(n1: int, n2: int)
    requires FirstDay <= n1 <= LastDay
    ensures KeyOfDay(n1) == KeyOfDay(n2) <==> n1 == n2
  {
    if KeyOfDay(n1) == KeyOfDay(n2) {
      KeyOfDayFirstChar(n1);
      KeyOfDayFirstChar(n2);
      KeyOfDayInjective(n1, n2);
    }
  }

  /** Two instants with four-digit years share a key exactly when they fall on the
      same UTC day. */
  lemma DateKeySameDayIff(t1: Time, t2: Time)
    requires FirstDay <= DayOf(t1) <= LastDay && FirstDay <= DayOf(t2) <= LastDay
    ensures DateKey(t1) == DateKey(t2) <==> DayOf(t1) == DayOf(t2)
  {
    if DateKey(t1) == DateKey(t2) {
      KeyOfDayInjective(DayOf(t1), DayOf(t2));
    }
  }

  /** Past year 9999 the ten-character slice stops after the month ("+010000-01"), so
      the first two days of January 10000 share a key. */
  lemma ExpandedYearsCollide()
    ensures KeyOfDay(LastDay + 1) == KeyOfDay(LastDay + 2) == "+010000-01"
  {
    FirstDaysOf10000();
    ExpandedPrefix();
  }

  lemma FirstDaysOf10000()
    ensures CivilOf(LastDay + 1) == Civil(10000, 1, 1)
    ensures CivilOf(LastDay + 2) == Civil(10000, 1, 2)
  {
    assert (LastDay + 1 + EpochShift) / 146097 == 24 && (LastDay + 1 + EpochShift) % 146097 == 146037;
    assert (LastDay + 2 + EpochShift) / 146097 == 24 && (LastDay + 2 + EpochShift) % 146097 == 146038;
    assert YearOfEra(146037) == 399 && YearOfEra(146038) == 399;
  }

  lemma ExpandedPrefix()
    ensures IsoDate(Civil(10000, 1, 1))[..10] == IsoDate(Civil(10000, 1, 2))[..10] == "+010000-01"
  {
    assert FixedDigits(10, 3) == "010";
    assert FixedDigits(10000, 6) == "010000";
  }

  /** The epoch, as `new Date(0).toISOString().slice(0, 10)` gives it. */
  lemma DateKeyOfEpoch()
    ensures DateKey(0) == "1970-01-01"
  {
    KeyOfEpochDay();
  }

  lemma KeyOfEpochDay()
    ensures KeyOfDay(0) == "1970-01-01"
  {
    assert (0 + EpochShift) / 146097 == 4 && (0 + EpochShift) % 146097 == 135080;
    assert YearOfEra(135080) == 369;
    assert CivilOf(0) == Civil(1970, 1, 1);
    IsoDateOfEpoch();
  }

  /** A leap day: 2024-02-29T00:00:00Z. */
  lemma DateKeyOfLeapDay()
    ensures DateKey(1709164800000) == "2024-02-29"
  {
    KeyOfLeapDay();
  }

  lemma KeyOfLeapDay()
    ensures KeyOfDay(19782) == "2024-02-29"
  {
    CivilOfLeapDay();
    IsoDateOfLeapDay();
  }

  lemma CivilOfLeapDay()
    ensures CivilOf(19782) == Civil(2024, 2, 29)
  {
    assert (19782 + EpochShift) / 146097 == 5 && (19782 + EpochShift) % 146097 == 8765;
    assert YearOfEra(8765) == 23;
  }

  lemma IsoDateOfEpoch()
    ensures IsoDate(Civil(1970, 1, 1)) == "1970-01-01"
  {
    assert FixedDigits(1, 2) == "01";
    assert FixedDigits(1970, 4) == "1970";
  }

  lemma IsoDateOfLeapDay()
    ensures IsoDate(Civil(2024, 2, 29)) == "2024-02-29"
  {
    assert FixedDigits(2, 2) == "02" && FixedDigits(29, 2) == "29";
    assert FixedDigits(2024, 4) == "2024";
  }
}
