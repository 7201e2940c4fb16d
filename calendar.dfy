/** The calendar arithmetic behind a `moment`: a date-time is a set of
    fields, and an instant (here counted in minutes since 1970-01-01 00:00
    local time) is computed from them the way ECMAScript's MakeDay and
    MakeTime do. Fields are never normalised: a date of 35 or an hour of 24
    simply lands later, as `new Date(y, m, d, h, min)` does. */
module Calendar {

  const MinutesPerHour := 60
  const MinutesPerDay := 1440

  /** A moment's fields. `month` is 0-indexed, as moment's setters expect. */
  datatype Moment = Moment(year: int, month: int, date: int, hour: int, minute: int)

  /** Days from 1970-01-01 to the proleptic Gregorian date y-m-d, 1 <= m <= 12. */
  function DaysFromCivil(y: int, m: int, d: int): int
    requires 1 <= m <= 12
  {
    var y' := if m <= 2 then y - 1 else y;
    var era := y' / 400;
    var yoe := y' - era * 400;
    var mp := if m > 2 then m - 3 else m + 9;
    var doy := (153 * mp + 2) / 5 + d - 1;
    var doe := yoe * 365 + yoe / 4 - yoe / 100 + doy;
    era * 146097 + doe - 719468
  }

  /** ECMAScript's MakeDay: the month carries into the year, the date is added
      as a number of days to the first of that month. */
  function MakeDay(year: int, month: int, date: int): int {
    DaysFromCivil(year + month / 12, month % 12 + 1, 1) + date - 1
  }

  /** The instant a moment's fields denote, in minutes. */
  function Instant(m: Moment): int {
    MakeDay(m.year, m.month, m.date) * MinutesPerDay + m.hour * MinutesPerHour + m.minute
  }

  /** The fields a call to `moment()` produces: the clock part is normalised. */
  predicate ClockNormal(m: Moment) {
    0 <= m.hour < 24 && 0 <= m.minute < 60
  }

  /** `m.day()`: the weekday of the moment, 0 for Sunday to 6 for Saturday
      (1970-01-01 was a Thursday). */
  function DayOfWeek(m: Moment): (w: int)
    ensures 0 <= w < 7
  {
    (Instant(m) / MinutesPerDay + 4) % 7
  }

  /** The weekday of a moment with a normal clock on day `d` is
      `(d + 4) % 7`, counted from Sunday. */
  lemma DayOfWeekOfDay(m: Moment, d: int)
    requires ClockNormal(m) && MakeDay(m.year, m.month, m.date) == d
    ensures DayOfWeek(m) == (d + 4) % 7
  {
    DayOfInstant(m);
  }

  /** 1 January 1970 is day 0, a Thursday (weekday 4). */
  lemma EpochIsThursday()
    ensures MakeDay(1970, 0, 1) == 0
    ensures (MakeDay(1970, 0, 1) + 4) % 7 == 4
  {
    assert MakeDay(1970, 0, 1) == DaysFromCivil(1970, 1, 1);
    assert 1969 / 400 == 4;
    var yoe := 1969 - 4 * 400;
    assert yoe == 369 && yoe / 4 == 92 && yoe / 100 == 3;
    assert (153 * 10 + 2) / 5 == 306;
  }

  /** 1 January 2024 is day 19723, a Monday (weekday 1). */
  lemma NewYear2024IsMonday()
    ensures MakeDay(2024, 0, 1) == 19723
    ensures (MakeDay(2024, 0, 1) + 4) % 7 == 1
  {
    assert MakeDay(2024, 0, 1) == DaysFromCivil(2024, 1, 1);
    assert 2023 / 400 == 5;
    var yoe := 2023 - 5 * 400;
    assert yoe == 23 && yoe / 4 == 5 && yoe / 100 == 0;
    assert (153 * 10 + 2) / 5 == 306;
  }

  /** For a normalised clock the calendar day of the instant is the one the
      date fields name. */
  lemma DayOfInstant(m: Moment)
    requires ClockNormal(m)
    ensures Instant(m) / MinutesPerDay == MakeDay(m.year, m.month, m.date)
    ensures DayOfWeek(m) == (MakeDay(m.year, m.month, m.date) + 4) % 7
  {
    var d := MakeDay(m.year, m.month, m.date);
    var r := m.hour * MinutesPerHour + m.minute;
    assert 0 <= r < MinutesPerDay;
    assert Instant(m) == d * MinutesPerDay + r;
  }
}
