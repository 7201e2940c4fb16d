/** The quick-pick dates of the snooze and send-later menus: "later today",
    "tonight", "tomorrow", "this weekend", "next week". Each takes the current
    moment and sets some of its fields. */
module RelativeDates {
  import opened Calendar

  const MorningHour := 9
  const EveningHour := 20
  const MidnightHour := 24

  const Sunday := 0
  const Monday := 1
  const Saturday := 6

  /** `Days.NextMonday`: the argument to `day()` that reaches next week's
      Monday; from a Sunday that is the very next day. */
  function NextMonday(day: int): int {
    if day == Sunday then 1 else 8
  }

  /** `Days.ThisWeekend`: the argument to `day()` that reaches the coming
      Saturday; from a Saturday that is the Saturday after. */
  function ThisWeekend(day: int): int {
    if day == Saturday then 13 else 6
  }

  /** From any weekday, next Monday is one to seven days ahead. */
  lemma NextMondayOffset(day: int)
    requires 0 <= day < 7
    ensures 1 <= NextMonday(day) - day <= 7
    ensures NextMonday(day) % 7 == Monday
  {
  }

  /** From any weekday, this weekend's Saturday is one to seven days ahead. */
  lemma ThisWeekendOffset(day: int)
    requires 0 <= day < 7
    ensures 1 <= ThisWeekend(day) - day <= 7
    ensures ThisWeekend(day) % 7 == Saturday
  {
  }

  /** `oclock`: minutes (and seconds) cleared. */
  function OClock(m: Moment): Moment {
    m.(minute := 0)
  }

  /** `morning`, `evening` and `midnight` with their default hours. */
  function AtHour(m: Moment, hour: int): Moment {
    OClock(m.(hour := hour))
  }

  /** moment's `day(n)` setter: weekday `n` of the week (Sunday first) the
      moment is in, values past 6 reaching into the following weeks. */
  function SetDay(m: Moment, n: int): Moment {
    m.(date := m.date + n - DayOfWeek(m))
  }

  /** `laterToday`: three hours on, on the hour. */
  function LaterToday(now: Moment): Moment {
    OClock(now.(hour := now.hour + 3))
  }

  /** `tonight`: 8 pm, or midnight once it is 8 pm or later. */
  function Tonight(now: Moment): Moment {
    if now.hour >= EveningHour then AtHour(now, MidnightHour) else AtHour(now, EveningHour)
  }

  /** `tomorrow`: 9 am the next day. */
  function Tomorrow(now: Moment): Moment {
    AtHour(now.(date := now.date + 1), MorningHour)
  }

  /** `tomorrowEvening`: 8 pm the next day. */
  function TomorrowEvening(now: Moment): Moment {
    AtHour(now.(date := now.date + 1), EveningHour)
  }

  /** `thisWeekend`: 9 am on the coming Saturday. */
  function ThisWeekendMorning(now: Moment): Moment {
    AtHour(SetDay(now, ThisWeekend(DayOfWeek(now))), MorningHour)
  }

  /** `nextWeek`: 9 am on the coming Monday. */
  function NextWeekMorning(now: Moment): Moment {
    AtHour(SetDay(now, NextMonday(DayOfWeek(now))), MorningHour)
  }

  /** The day number a moment with a normal clock falls on. */
  function DayNumber(m: Moment): int {
    MakeDay(m.year, m.month, m.date)
  }

  /** "Later today" is on the hour, more than two and at most three hours on. */
  lemma LaterTodayWithinThreeHours(now: Moment)
    requires ClockNormal(now)
    ensures Instant(now) + 2 * MinutesPerHour < Instant(LaterToday(now)) <= Instant(now) + 3 * MinutesPerHour
    ensures Instant(LaterToday(now)) % MinutesPerHour == 0
  {
  }

  /** "Tonight" is later the same day, at 8 pm or at the midnight that ends it. */
  lemma {:induction false} TonightIsLaterToday(now: Moment)
    requires ClockNormal(now)
    ensures Instant(now) < Instant(Tonight(now))
    ensures Instant(Tonight(now)) == DayNumber(now) * MinutesPerDay +
              (if now.hour >= EveningHour then MinutesPerDay else EveningHour * MinutesPerHour)
  {
  }

  /** "Tomorrow" and "tomorrow evening" fall on the next calendar day. */
  lemma {:induction false} TomorrowIsNextDay(now: Moment)
    ensures Instant(Tomorrow(now)) == (DayNumber(now) + 1) * MinutesPerDay + MorningHour * MinutesPerHour
    ensures Instant(TomorrowEvening(now)) == (DayNumber(now) + 1) * MinutesPerDay + EveningHour * MinutesPerHour
  {
  }

  /** Setting the weekday moves by whole days only. */
  lemma {:induction false} SetDayShift(now: Moment, n: int)
    requires ClockNormal(now)
    ensures DayNumber(SetDay(now, n)) == DayNumber(now) + n - DayOfWeek(now)
    ensures DayOfWeek(now) == (DayNumber(now) + 4) % 7
  {
    DayOfInstant(now);
  }

  /** A moment at `hour` on day `d` has weekday `(d + 4) % 7`. */
  lemma {:induction false} WeekdayAtHour(m: Moment, hour: int)
    requires 0 <= hour < 24
    ensures DayOfWeek(AtHour(m, hour)) == (DayNumber(m) + 4) % 7
    ensures DayNumber(AtHour(m, hour)) == DayNumber(m)
  {
    DayOfInstant(AtHour(m, hour));
  }

  /** Moving from weekday `w` of day `d` by `n - w` days reaches weekday `n % 7`. */
  lemma WeekdayArithmetic(d: int, w: int, n: int)
    requires w == (d + 4) % 7
    ensures (d + n - w + 4) % 7 == n % 7
  {
    var q := (d + 4) / 7;
    assert d + 4 == 7 * q + w;
    assert d + n - w + 4 == 7 * q + n;
  }

  /** 9 am on weekday `n` of the current week, `n` counted from Sunday and
      running past Saturday into the next week. */
  lemma {:induction false} MorningOfWeekday(now: Moment, n: int)
    requires ClockNormal(now)
    ensures var r := AtHour(SetDay(now, n), MorningHour);
            && DayOfWeek(r) == n % 7 && r.hour == MorningHour && r.minute == 0
            && DayNumber(r) - DayNumber(now) == n - DayOfWeek(now)
  {
    SetDayShift(now, n);
    WeekdayAtHour(SetDay(now, n), MorningHour);
    WeekdayArithmetic(DayNumber(now), DayOfWeek(now), n);
  }

  /** "Next week" is 9 am on a Monday one to seven days ahead. */
  lemma {:induction false} NextWeekIsMonday(now: Moment)
    requires ClockNormal(now)
    ensures var r := NextWeekMorning(now);
            && DayOfWeek(r) == Monday && r.hour == MorningHour && r.minute == 0
            && 1 <= DayNumber(r) - DayNumber(now) <= 7
  {
    NextMondayOffset(DayOfWeek(now));
    MorningOfWeekday(now, NextMonday(DayOfWeek(now)));
  }

  /** "This weekend" is 9 am on a Saturday one to seven days ahead. */
  lemma {:induction false} ThisWeekendIsSaturday(now: Moment)
    requires ClockNormal(now)
    ensures var r := ThisWeekendMorning(now);
            && DayOfWeek(r) == Saturday && r.hour == MorningHour && r.minute == 0
            && 1 <= DayNumber(r) - DayNumber(now) <= 7
  {
    ThisWeekendOffset(DayOfWeek(now));
    MorningOfWeekday(now, ThisWeekend(DayOfWeek(now)));
  }
}
