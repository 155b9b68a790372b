/**
 * Time values. libical's `icaltimetype` is kept as its civil fields; its
 * conversion to Unix seconds is restated from the proleptic Gregorian
 * calendar, with a zone reduced to a fixed UTC offset. chrono's dates are
 * day numbers, and its `DateTime` range bounds the checked addition.
 */
module Times {
  import opened Wrappers

  /** Unix seconds. */
  type Timestamp = int

  /** A calendar day, numbered from 1970-01-01 = 0. */
  type Date = int

  const SecondsPerDay: int := 86400

  /** libical's `icaltimetype`. `utcOffset` is the offset of its zone (0 for UTC, floating times and dates). */
  datatype IcalTime = IcalTime(
    year: int, month: int, day: int,
    hour: int, minute: int, second: int,
    isDate: bool, utcOffset: int)

  /** `icaltime_null_time()`. */
  const NullTime: IcalTime := IcalTime(0, 0, 0, 0, 0, 0, false, 0)

  /** `icaltime_is_null_time`: libical tests whether the six fields add up to zero. */
  predicate IsNullTime(t: IcalTime)
  {
    t.second + t.minute + t.hour + t.day + t.month + t.year == 0
  }

  /** Days from 1970-01-01 to the given proleptic Gregorian date. */
  function DaysFromCivil(year: int, month: int, day: int): int
  {
    var y := if month <= 2 then year - 1 else year;
    var era := y / 400;
    var yoe := y - era * 400;
    var mp := if month > 2 then month - 3 else month + 9;
    var doy := (153 * mp + 2) / 5 + day - 1;
    var doe := yoe * 365 + yoe / 4 - yoe / 100 + doy;
    era * 146097 + doe - 719468
  }

  /** `icaltime_as_timet_with_zone(t, t.zone)`; the null time converts to 0. */
  function AsUnix(t: IcalTime): Timestamp
  {
    if IsNullTime(t) then 0
    else DaysFromCivil(t.year, t.month, t.day) * SecondsPerDay
         + t.hour * 3600 + t.minute * 60 + t.second - t.utcOffset
  }

  /**
   * `icaltime_as_timet`: the fields read as if they were UTC, whatever the
   * time's zone; 0 for the null time.
   */
  function WallClock(t: IcalTime): (r: Timestamp)
    ensures IsNullTime(t) ==> r == 0
    ensures !IsNullTime(t) ==> r == AsUnix(t) + t.utcOffset
  {
    AsUnix(t.(utcOffset := 0))
  }

  /** `icaltime_subtract`: the seconds from `t2` to `t1` on the wall clock, both zones ignored. */
  function Subtract(t1: IcalTime, t2: IcalTime): Timestamp
  {
    WallClock(t1) - WallClock(t2)
  }

  /** The civil date of a day number: the inverse of DaysFromCivil. */
  function CivilFromDays(days: int): (int, int, int)
  {
    var z := days + 719468;
    var era := z / 146097;
    CivilOfEra(era, z - era * 146097)
  }

  /** The civil date of day `doe` of 400-year era `era` (eras start on 0000-03-01). */
  function CivilOfEra(era: int, doe: int): (int, int, int)
  {
    var yoe := (doe - doe / 1460 + doe / 36524 - doe / 146096) / 365;
    var doy := doe - (365 * yoe + yoe / 4 - yoe / 100);
    CivilOfYear(yoe + era * 400, doy)
  }

  /** The civil date of day `doy` of the year starting on March 1 of year `y`. */
  function CivilOfYear(y: int, doy: int): (int, int, int)
  {
    var mp := (5 * doy + 2) / 153;
    var d := doy - (153 * mp + 2) / 5 + 1;
    var m := if mp < 10 then mp + 3 else mp - 9;
    (if m <= 2 then y + 1 else y, m, d)
  }

  /** `IcalTime::from_timestamp`: the UTC time of a Unix timestamp. */
  function UtcTime(t: Timestamp): (r: IcalTime)
    ensures !r.isDate && r.utcOffset == 0
    ensures 1 <= r.month <= 12 && 1 <= r.day <= 31
    ensures DaysFromCivil(r.year, r.month, r.day) == t / SecondsPerDay
    ensures r.hour * 3600 + r.minute * 60 + r.second == t % SecondsPerDay
    ensures !IsNullTime(r) ==> AsUnix(r) == t
  {
    UtcFields(t);
    var civil := CivilFromDays(t / SecondsPerDay);
    var secs := t % SecondsPerDay;
    IcalTime(civil.0, civil.1, civil.2, secs / 3600, secs % 3600 / 60, secs % 60, false, 0)
  }

  /** The fields UtcTime assembles: a real date of the timestamp's day, and its seconds into the day. */
  lemma UtcFields(t: Timestamp)
    ensures var civil := CivilFromDays(t / SecondsPerDay);
            var secs := t % SecondsPerDay;
            var r := IcalTime(civil.0, civil.1, civil.2, secs / 3600, secs % 3600 / 60, secs % 60, false, 0);
            && 1 <= r.month <= 12 && 1 <= r.day <= 31
            && DaysFromCivil(r.year, r.month, r.day) == t / SecondsPerDay
            && r.hour * 3600 + r.minute * 60 + r.second == t % SecondsPerDay
            && (!IsNullTime(r) ==> AsUnix(r) == t)
  {
    var days := t / SecondsPerDay;
    var secs := t % SecondsPerDay;
    CivilRoundTrip(days);
    SecondsOfDay(secs);
    assert days * SecondsPerDay + secs == t;
  }

  lemma SecondsOfDay(secs: int)
    requires 0 <= secs < SecondsPerDay
    ensures secs / 3600 * 3600 + secs % 3600 / 60 * 60 + secs % 60 == secs
  {
  }

  // ---------------------------------------------------------------------
  // CivilFromDays inverts DaysFromCivil. A day number splits into a
  // 400-year era and a day of the era; the day of the era into a year of
  // the era and a day of a March-based year; that into a month and a day.

  /**
   * Inside one year of a four-year cycle of a century, the year of the era
   * is that year's number and the day of the year is below 366.
   */
  lemma DayOfYearInYear(doe: int, century: int, cycle: int, yr: int)
    requires 0 <= century <= 3 && 0 <= cycle <= 24 && 0 <= yr <= 3
    requires 36524 * century + 1461 * cycle + 365 * yr <= doe
    requires doe < 36524 * century + 1461 * cycle + 365 * yr + (if yr == 3 then 366 else 365)
    requires doe < 36524 * century + 36524 && doe <= 146095
    ensures var yoe := (doe - doe / 1460 + century) / 365;
            var doy := doe - (365 * yoe + yoe / 4 - yoe / 100);
            yoe == 100 * century + 4 * cycle + yr && 0 <= doy <= 365
  {
    var yoe := (doe - doe / 1460 + century) / 365;
    assert yoe == 100 * century + 4 * cycle + yr;
    assert yoe / 4 == 25 * century + cycle;
    assert yoe / 100 == century;
  }

  lemma DayOfYearInCentury(doe: int, century: int)
    requires 0 <= century <= 3 && 36524 * century <= doe < 36524 * century + 36524 && doe <= 146095
    ensures var yoe := (doe - doe / 1460 + century) / 365;
            var doy := doe - (365 * yoe + yoe / 4 - yoe / 100);
            0 <= yoe <= 399 && 0 <= doy <= 365
  {
    var cycle := (doe - 36524 * century) / 1461;
    var inCycle := doe - 36524 * century - 1461 * cycle;
    assert 0 <= cycle <= 24 && 0 <= inCycle < 1461;
    var yr := if inCycle / 365 < 3 then inCycle / 365 else 3;
    DayOfYearInYear(doe, century, cycle, yr);
  }

  /** The year of the era and the day of the year CivilFromDays finds for a day of the era. */
  lemma DayOfYearRange(doe: int)
    requires 0 <= doe <= 146096
    ensures var yoe := (doe - doe / 1460 + doe / 36524 - doe / 146096) / 365;
            var doy := doe - (365 * yoe + yoe / 4 - yoe / 100);
            0 <= yoe <= 399 && 0 <= doy <= 365
  {
    if doe < 146096 {
      var century := doe / 36524;
      assert doe / 146096 == 0 && 0 <= century <= 3;
      DayOfYearInCentury(doe, century);
    } else {
      assert doe / 1460 == 100 && doe / 36524 == 4 && doe / 146096 == 1;
    }
  }

  /** A day of a March-based year maps to a real month and day, and back to that day of the year. */
  lemma CivilOfYearRoundTrip(y: int, doy: int)
    requires 0 <= doy <= 365
    ensures var c := CivilOfYear(y, doy);
            var yoe := y - (y / 400) * 400;
            && 1 <= c.1 <= 12 && 1 <= c.2 <= 31
            && DaysFromCivil(c.0, c.1, c.2) == (y / 400) * 146097 + yoe * 365 + yoe / 4 - yoe / 100 + doy - 719468
  {
    var mp := (5 * doy + 2) / 153;
    assert 0 <= mp <= 11;
    var m := if mp < 10 then mp + 3 else mp - 9;
    assert (if m > 2 then m - 3 else m + 9) == mp;
  }

  lemma EraOfYear(era: int, yoe: int)
    requires 0 <= yoe <= 399
    ensures (yoe + era * 400) / 400 == era
  {
  }

  lemma CivilOfEraParts(era: int, yoe: int, doy: int)
    requires 0 <= yoe <= 399 && 0 <= doy <= 365
    ensures var c := CivilOfYear(yoe + era * 400, doy);
            && DaysFromCivil(c.0, c.1, c.2) == era * 146097 + yoe * 365 + yoe / 4 - yoe / 100 + doy - 719468
            && 1 <= c.1 <= 12 && 1 <= c.2 <= 31
  {
    EraOfYear(era, yoe);
    CivilOfYearRoundTrip(yoe + era * 400, doy);
  }

  /** Day `doe` of era `era` maps to a date that DaysFromCivil numbers `era * 146097 + doe - 719468`. */
  lemma CivilOfEraRoundTrip(era: int, doe: int)
    requires 0 <= doe <= 146096
    ensures var c := CivilOfEra(era, doe);
            DaysFromCivil(c.0, c.1, c.2) == era * 146097 + doe - 719468 && 1 <= c.1 <= 12 && 1 <= c.2 <= 31
  {
    var yoe := (doe - doe / 1460 + doe / 36524 - doe / 146096) / 365;
    var doy := doe - (365 * yoe + yoe / 4 - yoe / 100);
    assert CivilOfEra(era, doe) == CivilOfYear(yoe + era * 400, doy);
    assert 0 <= yoe <= 399 && 0 <= doy <= 365 by { DayOfYearRange(doe); }
    CivilOfEraParts(era, yoe, doy);
  }

  /** CivilFromDays gives a real month and day, and DaysFromCivil turns it back into the day number. */
  lemma CivilRoundTrip(days: int)
    ensures var c := CivilFromDays(days);
            DaysFromCivil(c.0, c.1, c.2) == days && 1 <= c.1 <= 12 && 1 <= c.2 <= 31
  {
    var z := days + 719468;
    CivilOfEraRoundTrip(z / 146097, z - (z / 146097) * 146097);
  }

  /** `icaltime_add(t, seconds)`: the same zone and date-ness, `seconds` later. */
  function AddSeconds(t: IcalTime, seconds: int): IcalTime
  {
    var wall := AsUnix(t) + t.utcOffset + seconds;
    var civil := CivilFromDays(wall / SecondsPerDay);
    var secs := wall % SecondsPerDay;
    IcalTime(civil.0, civil.1, civil.2, secs / 3600, secs % 3600 / 60, secs % 60, t.isDate, t.utcOffset)
  }

  /** chrono's `DateTime<Utc>` range: -262144-01-01T00:00:00 to +262143-12-31T23:59:59. */
  const MinDateTime: Timestamp := -8334632851200
  const MaxDateTime: Timestamp := 8210298412799

  /** `DateTime::checked_add_signed(Duration::seconds(d))`. */
  function CheckedAdd(t: Timestamp, d: int): (r: Option<Timestamp>)
    ensures r.Some? <==> MinDateTime <= t + d <= MaxDateTime
    ensures r.Some? ==> r.value == t + d
  {
    if MinDateTime <= t + d <= MaxDateTime then Some(t + d) else None
  }

  /**
   * `Local.timestamp(t, 0).date()`: the day of `t` in the local zone, whose
   * offset from UTC is `localOffset` seconds.
   */
  function LocalDate(localOffset: int, t: Timestamp): Date
  {
    (t + localOffset) / SecondsPerDay
  }

  lemma LocalDateMonotone(localOffset: int, a: Timestamp, b: Timestamp)
    requires a <= b
    ensures LocalDate(localOffset, a) <= LocalDate(localOffset, b)
  {
  }
}
