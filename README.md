# Mailspring date utilities, modelled in Dafny

Mailspring's `DateUtils` (`app/src/date-utils.ts`) turns what a user types
into a snooze, send-later or event field into dates. This project models the
logic it adds around the `moment` and `chrono-node` libraries, and proves
properties of that logic:

- **Shorthand expander** (`Shorthand`, `shorthand.dfy`). `expandDateLikeString`
  rewrites "1230", "2h", "3d", "1w", "2mo", "t", "nw" and "tom 3pm" into
  phrases chrono understands. Proved: what each rule produces, that its
  output is never itself a shorthand, that it changes exactly the shorthand
  strings, and that applying it twice is the same as applying it once.
- **Direction refiners** (`DirectionRefiner`, `refiner.dfy`). These are the
  `refine` closures of the future and past parsers, plus `isPastDate`. They
  are modelled as methods over chrono's result objects (`Chrono`,
  `chrono.dfy`), proved against a pure function `Refined`. Proved: only
  implied values move, by exactly ±7 days, ±1 month or ±1 year and under
  exactly the stated conditions; ends are never touched; a weekday-only
  mention moves by exactly one week.
- **Span merge** (`SpanResolver`, `resolver.dfy`). `parseDateString` is
  modelled twice:
  - a pure left fold `Resolve` over the list of mentions;
  - the nested loops over chrono's result objects, proved equal to it,
    including the in-place `Object.assign` on `knownValues`.

  Proved:
  - first match wins, per side and per dimension;
  - flags only grow;
  - each rule that fires removes one occurrence of the mention's text;
  - a mention carrying only a zero hour or Sunday is ignored;
  - the end is always after the start.
- **Quick-pick dates** (`RelativeDates`, `relative_dates.dfy`). These are
  `Days.NextMonday`, `Days.ThisWeekend`, `laterToday`, `tonight`, `tomorrow`,
  `tomorrowEvening`, `thisWeekend` and `nextWeek`. Proved: the weekday and
  distance of next Monday and of this weekend's Saturday, and where the other
  helpers land.
- **Time format** (`TimeFormat`, `time_format.dfy`). `getTimeFormat` takes the
  24-hour-clock setting as a parameter.
- **Future date filter** (`FutureDate`, `future_date.dfy`).
  `futureDateFromString` takes chrono's `parseDate` and the clock as
  parameters.

`Calendar` (`calendar.dfy`) is the date arithmetic of a `moment`:
- a moment is a record of its fields, with the month 0-indexed;
- its instant is a count of minutes, computed the way ECMAScript's MakeDay
  and MakeTime do, with no normalisation of the fields;
- its weekday follows from that instant.

`Strings` (`strings.dfy`) supplies the JavaScript string operations the code
relies on: `indexOf`, `replace` with a string pattern (which replaces only the
first occurrence), the `\d` character class and the `match(/^\d+/)` prefix.
The regular-expression tests themselves (`/^\d{3,4}$/`, `/^\d+h$/` and the
other unit patterns) are the predicates `Shorthand.IsClockDigits` and
`Shorthand.DigitsThen`.

## Model

| member | source | states |
|---|---|---|
| Strings.IndexOf | app/src/date-utils.ts:174 | `indexOf`: -1 exactly when the pattern does not occur, otherwise the first position where it occurs |
| Strings.ReplaceFirst | app/src/date-utils.ts:175 | `s.replace(p, rep)` with a string pattern: the first occurrence of `p` replaced by `rep`, the string unchanged when `p` does not occur. Definition; it is checked through `RemoveFirstCutsFirst`, `RemoveFirstWithout` and `TomPrefixRewritten` |
| Strings.RemoveFirst | app/src/date-utils.ts:310 | `s.replace(p, '')`. Definition; it is checked through `RemoveFirstCutsFirst`, `RemoveFirstWithout` and `RemoveFirstShrinks` |
| Strings.RemoveFirstCutsFirst | app/src/date-utils.ts:310 | `replace(p, '')` cuts out exactly the first occurrence of `p` |
| Strings.RemoveFirstWithout | app/src/date-utils.ts:323 | `replace(p, '')` returns the string unchanged when `p` does not occur in it |
| Strings.RemoveFirstShrinks | app/src/date-utils.ts:323 | removing an occurring non-empty text shortens the string by exactly its length |
| Strings.LeadingDigits | app/src/date-utils.ts:142 | `match(/^\d+/)`: the longest run of ASCII digits that starts the string |
| Strings.LeadingDigitsOf | app/src/date-utils.ts:148 | digits followed by a non-digit: the leading digits are exactly those digits |
| Calendar.Instant | app/src/date-utils.ts:44 | `moment(fields)`: the instant, in minutes, that unnormalised year, 0-indexed month, date, hour and minute denote. Definition; it is checked through `DayOfInstant`, `LaterTodayWithinThreeHours`, `TonightIsLaterToday` and `TomorrowIsNextDay` |
| Calendar.DayOfWeekOfDay | app/src/date-utils.ts:256-264 | a moment with a normal clock on day number `d` has weekday `(d + 4) % 7` |
| Calendar.EpochIsThursday | app/src/date-utils.ts:256 | 1 January 1970 is day 0 and weekday 4 (Thursday), which with `DayOfWeekOfDay` fixes 0 as Sunday, as `day()` counts |
| Calendar.NewYear2024IsMonday | app/src/date-utils.ts:256 | 1 January 2024 is day 19723 and weekday 1 (Monday) |
| Calendar.DayOfWeek | app/src/date-utils.ts:256 | `day()` is a weekday from 0 (Sunday) to 6 |
| Calendar.DayOfInstant | app/src/date-utils.ts:256-264 | for a normal clock, the day of the instant is the day the date fields name, and the weekday follows from it |
| Chrono.Truthy | app/src/date-utils.ts:299 | JavaScript truthiness of a destructured known component: present and not 0. Definition; it is checked through `ZeroMentionIgnored` |
| Chrono.ImplyValue | app/src/date-utils.ts:74 | chrono's `imply`: the implied map gains the value only when the component is not known. Definition; it is checked through `ParsedComponents.Imply` and `RefinedShifts` |
| Chrono.Layers.Merged | app/src/date-utils.ts:70 | `Object.assign({}, known, implied)` holds every component of both layers; known values survive when the layers are disjoint |
| Chrono.ParsedComponents.Imply | app/src/date-utils.ts:74 | `imply` sets an implied value only when the component is not known |
| Chrono.ParsedComponents.AssignImplied | app/src/date-utils.ts:295-298 | `Object.assign(knownValues, impliedValues)` copies the implied values into the known object in place and returns it |
| DirectionRefiner.MomentOf | app/src/date-utils.ts:44 | the spread of the component object into `moment(...)` with `month - 1`. Definition; it is checked through `WeekdayMentionMovesOneWeek` |
| DirectionRefiner.WrongSide | app/src/date-utils.ts:73-85 | the `isPastDate` guard of each shift: past for the future refiner, not past for the past refiner. Definition; it is checked through `RefinedShifts` and `WeekdayMentionMovesOneWeek` |
| DirectionRefiner.Step | app/src/date-utils.ts:109-121 | the sign of each shift: `+` in the future refiner, `-` in the past one. Definition; it is checked through `RefinedShifts` |
| DirectionRefiner.IsPastDate | app/src/date-utils.ts:43-48 | `isPastDate`: the snapshot, its month turned 0-indexed, denotes an instant before the reference. Definition; it is checked through `WeekdayMentionMovesOneWeek` |
| DirectionRefiner.Shifted | app/src/date-utils.ts:72-86 | the three independent checks of a refiner, each shifting one implied component once the side test has been made. Definition; it is checked through `RefinedKeepsKnown` and `RefinedShifts` |
| DirectionRefiner.Refined | app/src/date-utils.ts:69-87 | one start refined: the side test made once, on the snapshot of line 70, then `Shifted`. Definition; it is checked through `RefinedKeepsKnown`, `RefinedShifts`, `WeekdayMentionMovesOneWeek`, `RefineResult` and `Refine` |
| DirectionRefiner.RefinedKeepsKnown | app/src/date-utils.ts:67-90 | a refiner changes no known value and no set of implied keys, so the start stays a valid chrono start |
| DirectionRefiner.RefinedShifts | app/src/date-utils.ts:103-126 | implied day ±7 only when the weekday is known and the day is not; month ±1 only when the day is known and the month is not; year ±1 only when the month is known and the year is not; each only on the wrong side of the reference; nothing else moves |
| DirectionRefiner.WeekdayMentionMovesOneWeek | app/src/date-utils.ts:72-76 | a weekday-only mention on the wrong side moves exactly one week forward (future) or back (past), and otherwise stays |
| DirectionRefiner.RefineResult | app/src/date-utils.ts:69-88 | one closure body: the start object ends up as `Refined` of its old value, with the side tested once on the line-70 snapshot |
| DirectionRefiner.Refine | app/src/date-utils.ts:104-126 | every start refined in place, every end that is not some start left as it was, the same list returned |
| Shorthand.IsClockDigits | app/src/date-utils.ts:135 | `/^\d{3,4}$/`: three or four ASCII digits. Definition; it is checked through `ClockDigitsGetColon` and `ExpandedIsPlain` |
| Shorthand.DigitsThen | app/src/date-utils.ts:141-159 | `/^\d+h$/` and the other unit patterns: one or more digits, then exactly the unit. Definition; it is checked through `UnitGetsSpelledOut` and `ExpandedIsPlain` |
| Shorthand.UnitWord | app/src/date-utils.ts:143-161 | the unit word each suffix is spelled out to. Definition; it is checked through `UnitGetsSpelledOut` |
| Shorthand.InsertColon | app/src/date-utils.ts:134-138 | the first rule: a colon inserted before the last two digits of a 3- or 4-digit string, which then goes on to the later rules. Definition; it is checked through `ClockDigitsGetColon` and `ExpandedIsPlain` |
| Shorthand.Rewrite | app/src/date-utils.ts:140-178 | the later rules, the first that matches returning. Definition; it is checked through `RewriteLeavesPlain`, `UnitGetsSpelledOut`, `AliasesExpand` and `TomPrefixRewritten` |
| Shorthand.Expand | app/src/date-utils.ts:133-179 | `expandDateLikeString`: `InsertColon`, then `Rewrite`. Definition; it is checked through `ExpandedIsPlain`, `UnchangedIffPlain` and `ExpandIdempotent` |
| Shorthand.IndexOfZero | app/src/date-utils.ts:174 | `indexOf('tom ') === 0` is a prefix test |
| Shorthand.RewriteLeavesPlain | app/src/date-utils.ts:178 | a string no rule applies to is returned unchanged |
| Shorthand.ClockDigitsGetColon | app/src/date-utils.ts:134-138 | "123" gives "1:23" and "1234" gives "12:34"; no later rule then matches, so that is the final result |
| Shorthand.UnitGetsSpelledOut | app/src/date-utils.ts:140-162 | digits followed by h, d, w, m or mo give the same digits followed by " hours", " days", " weeks" or " months" |
| Shorthand.TomPrefixRewritten | app/src/date-utils.ts:174-176 | "tom " followed by a non-empty rest gives "tomorrow " followed by the unchanged rest |
| Shorthand.AliasesExpand | app/src/date-utils.ts:164-172 | t, to, tom and "tom " give "tomorrow morning"; nw and "next week" give "next Monday" |
| Shorthand.ExpandedIsPlain | app/src/date-utils.ts:133-179 | no output of the expander is itself a shorthand form |
| Shorthand.UnchangedIffPlain | app/src/date-utils.ts:133-179 | the expander returns its input unchanged if and only if the input is not a shorthand form |
| Shorthand.ExpandIdempotent | app/src/date-utils.ts:133-179 | expanding twice is expanding once |
| SpanResolver.TimeRule | app/src/date-utils.ts:299-311 | the time rule of one side, including the copy of the date while the day flag is unset. Definition; it is checked through `TimeRuleStep`, `MergeItemTakesTime`, `MergeItemTimeSetsDate` and `FirstTimeWins` |
| SpanResolver.DateRule | app/src/date-utils.ts:312-324 | the date rule of one side, including the copy of the time while the time flag is unset. Definition; it is checked through `DateRuleStep`, `MergeItemTakesDay`, `MergeItemDaySetsTime` and `FirstDayWins` |
| SpanResolver.Init | app/src/date-utils.ts:285-288 | both flags false and start and end at `now`, the leftover text the whole input. Definition; it is checked through `UnmentionedStartIsNow` and `NoMentionDefaults` |
| SpanResolver.MergeSides | app/src/date-utils.ts:290-293 | the inner loop over the first `k` sides, a side the result lacks skipped. Definition; it is checked through `MergeSidesOther`, `MergeSidesGrowsFlags`, `MergeSidesQuiet` and `MergeResult` |
| SpanResolver.MergeItem | app/src/date-utils.ts:290-293 | both sides of one result, start then end. Definition; it is checked through `MergeItemTakesTime`, `MergeItemTakesDay` and `MergeResult` |
| SpanResolver.MergeSide | app/src/date-utils.ts:294-324 | one side of one result: the time rule, then the date rule on the flags it left. Definition; it is checked through `OtherSideUntouched`, `MergeSideFlagsAndLeftover`, `ZeroMentionIgnored` and `MergeComponents` |
| SpanResolver.MergeAll | app/src/date-utils.ts:289-325 | the outer loop as a left fold over the mentions in chrono's order. Definition; it is checked through `MergeAllAppend`, `FlagsOnlyGrow`, `FixedStaysFixed`, `FirstTimeWins`, `FirstDayWins` and `MergeResults` |
| SpanResolver.WithDefaultEnd | app/src/date-utils.ts:328-333 | an end still at `now`, or not after the start, becomes the start plus one hour; any other end is kept; in both cases the end is after the start |
| SpanResolver.Resolve | app/src/date-utils.ts:277-336 | the merged span always ends after it starts |
| SpanResolver.OtherSideUntouched | app/src/date-utils.ts:290-324 | merging one side of a mention changes neither the other side's moment nor its flags |
| SpanResolver.TimeRuleStep | app/src/date-utils.ts:299-311 | the time rule sets at most its own side's time flag, and removes one occurrence of the mention's text exactly when it fires |
| SpanResolver.DateRuleStep | app/src/date-utils.ts:312-324 | the date rule sets at most its own side's day flag, and removes one occurrence of the mention's text exactly when it fires |
| SpanResolver.MergeSideFlagsAndLeftover | app/src/date-utils.ts:299-324 | the two separate rules on one side: flags only grow, and the leftover text loses one occurrence of the mention's text per flag set |
| SpanResolver.ZeroMentionIgnored | app/src/date-utils.ts:294 | a side whose known hour, day and weekday are all absent or 0 (midnight, Sunday) changes nothing |
| SpanResolver.MergeItemTakesTime | app/src/date-utils.ts:299-302 | the first mention stating an hour for a side sets that side's hour and minute and its time flag |
| SpanResolver.MergeItemTakesDay | app/src/date-utils.ts:312-316 | the first mention stating a day or weekday for a side sets that side's year, month and date and its day flag |
| SpanResolver.MergeAllAppend | app/src/date-utils.ts:289 | merging a list in two parts is merging it in one |
| SpanResolver.FlagsOnlyGrow | app/src/date-utils.ts:300 | `gotTime` and `gotDay` only go from false to true |
| SpanResolver.FixedStaysFixed | app/src/date-utils.ts:299-324 | once a side's time flag is set, no later mention changes its hour or minute; once its day flag is set, none changes its year, month or date |
| SpanResolver.NoSupplyNoFlag | app/src/date-utils.ts:299-324 | mentions that state no hour (no day) for a side leave its time (day) flag unset |
| SpanResolver.FirstTimeWins | app/src/date-utils.ts:285-311 | a side's hour and minute are those of the first mention stating an hour for it |
| SpanResolver.FirstDayWins | app/src/date-utils.ts:286-324 | a side's year, month and date are those of the first mention stating a day or weekday for it |
| SpanResolver.QuietSideUnchanged | app/src/date-utils.ts:288-324 | mentions from which neither rule can take anything for a side (each states no hour or finds the time flag set, and states no day or finds the day flag set) leave that side's moment as it was |
| SpanResolver.MergeItemTimeSetsDate | app/src/date-utils.ts:299-308 | a mention stating an hour but no day, on a side with neither flag set, also sets that side's year, month and date from its own values |
| SpanResolver.MergeItemDaySetsTime | app/src/date-utils.ts:312-321 | a mention stating a day but no hour, on a side with neither flag set, also sets that side's hour and minute from its own values |
| SpanResolver.DateFromFirstTimeWithoutDay | app/src/date-utils.ts:289-324 | when no mention states a day for a side, its year, month and date are those of the first mention stating an hour for it |
| SpanResolver.TimeFromFirstDayWithoutTime | app/src/date-utils.ts:289-324 | when no mention states an hour for a side, its hour and minute are those of the first mention stating a day or weekday for it |
| SpanResolver.UnmentionedStartIsNow | app/src/date-utils.ts:287-288 | a start that no mention gives a time or day is `now` |
| SpanResolver.ResolvedStartFromFirstMentions | app/src/date-utils.ts:277-336 | the returned start has the time of the first mention with an hour and the date of the first mention with a day or weekday |
| SpanResolver.ResolvedStartFromTimeOnly | app/src/date-utils.ts:277-336 | a start stated only by times ("meet at 3pm") takes its time and its date from the first of them |
| SpanResolver.ResolvedStartFromDayOnly | app/src/date-utils.ts:277-336 | a start stated only by days or weekdays ("Monday") takes its date and its time from the first of them |
| SpanResolver.NoMentionDefaults | app/src/date-utils.ts:284-333 | text with no date mention gives start `now`, end one hour later, and the whole text as leftover |
| SpanResolver.MergeComponents | app/src/date-utils.ts:294-324 | one side of one result: the state becomes `MergeSide` of the old state, and the known values of the components object become its old known and implied values merged |
| SpanResolver.MergeResult | app/src/date-utils.ts:290-325 | the inner loop: both sides of one result in order, a missing end skipped; afterwards the known values of the start, and of the end if there is one, are the old known and implied values merged |
| SpanResolver.MergeResults | app/src/date-utils.ts:284-326 | the outer loop: the state is the fold of every result's old value in chrono's order |
| SpanResolver.ParseDateString | app/src/date-utils.ts:277-336 | the returned span is `Resolve` of the results' old values |
| RelativeDates.OClock | app/src/date-utils.ts:27-29 | `oclock`: minutes (and seconds) cleared. Definition; it is checked through `LaterTodayWithinThreeHours` |
| RelativeDates.AtHour | app/src/date-utils.ts:31-41 | `morning`, `evening` and `midnight`: the hour set, then `oclock`. Definition; it is checked through `TonightIsLaterToday`, `TomorrowIsNextDay` and `MorningOfWeekday` |
| RelativeDates.NextMonday | app/src/date-utils.ts:23 | `Days.NextMonday`. Definition; it is checked through `NextMondayOffset` and `NextWeekIsMonday` |
| RelativeDates.ThisWeekend | app/src/date-utils.ts:24 | `Days.ThisWeekend`. Definition; it is checked through `ThisWeekendOffset` and `ThisWeekendIsSaturday` |
| RelativeDates.SetDay | app/src/date-utils.ts:264 | moment's `day(n)` setter: weekday `n` of the current week, counted from Sunday. Definition; it is checked through `SetDayShift` and `MorningOfWeekday` |
| RelativeDates.LaterToday | app/src/date-utils.ts:236-238 | `laterToday`. Definition; it is checked through `LaterTodayWithinThreeHours` |
| RelativeDates.Tonight | app/src/date-utils.ts:240-245 | `tonight`. Definition; it is checked through `TonightIsLaterToday` |
| RelativeDates.Tomorrow | app/src/date-utils.ts:247-249 | `tomorrow`. Definition; it is checked through `TomorrowIsNextDay` |
| RelativeDates.TomorrowEvening | app/src/date-utils.ts:251-253 | `tomorrowEvening`. Definition; it is checked through `TomorrowIsNextDay` |
| RelativeDates.ThisWeekendMorning | app/src/date-utils.ts:255-257 | `thisWeekend`. Definition; it is checked through `ThisWeekendIsSaturday` |
| RelativeDates.NextWeekMorning | app/src/date-utils.ts:263-265 | `nextWeek`. Definition; it is checked through `NextWeekIsMonday` |
| RelativeDates.NextMondayOffset | app/src/date-utils.ts:20-24 | from every weekday 0..6, `NextMonday(d) - d` lies in 1..7 and lands on weekday 1 |
| RelativeDates.ThisWeekendOffset | app/src/date-utils.ts:20-25 | from every weekday 0..6, `ThisWeekend(d) - d` lies in 1..7 and lands on weekday 6 |
| RelativeDates.SetDayShift | app/src/date-utils.ts:264 | `day(n)` moves the moment by `n - day()` whole days |
| RelativeDates.MorningOfWeekday | app/src/date-utils.ts:255-265 | `morning(now.day(n))` is 9:00 on weekday `n % 7`, `n - day()` days from now |
| RelativeDates.NextWeekIsMonday | app/src/date-utils.ts:263-265 | `nextWeek` is 9:00 on a Monday one to seven days ahead |
| RelativeDates.ThisWeekendIsSaturday | app/src/date-utils.ts:255-257 | `thisWeekend` is 9:00 on a Saturday one to seven days ahead |
| RelativeDates.LaterTodayWithinThreeHours | app/src/date-utils.ts:236-238 | `laterToday` is on the hour, more than two and at most three hours ahead |
| RelativeDates.TonightIsLaterToday | app/src/date-utils.ts:240-245 | `tonight` is after now, at 20:00 or (from 20:00 on) at the midnight that ends the day |
| RelativeDates.TomorrowIsNextDay | app/src/date-utils.ts:247-253 | `tomorrow` is 9:00 and `tomorrowEvening` 20:00 on the next calendar day |
| TimeFormat.ClockPart | app/src/date-utils.ts:368 | "HH:mm" under the 24-hour clock, "h:mm" otherwise. Definition; it is checked through `GetTimeFormat` and `SecondsIffAsked` |
| TimeFormat.MeridiemPart | app/src/date-utils.ts:375-381 | " A" or " a" on a 12-hour clock, nothing on a 24-hour clock. Definition; it is checked through `MeridiemOnlyTwelveHour` |
| TimeFormat.GetTimeFormat | app/src/date-utils.ts:367-368 | the format starts with "HH:mm" under the 24-hour clock and with "h:mm" otherwise |
| TimeFormat.SecondsIffAsked | app/src/date-utils.ts:370-372 | ":ss" occurs in the format if and only if `opts.seconds` |
| TimeFormat.MeridiemOnlyTwelveHour | app/src/date-utils.ts:374-381 | " A" (when `upperCase`) or " a" ends the format, before any zone, exactly when the 24-hour clock is off |
| TimeFormat.ZoneIffAsked | app/src/date-utils.ts:383-385 | the format ends with " z" if and only if `opts.timeZone` |
| FutureDate.FutureDateFromString | app/src/date-utils.ts:344-355 | nothing when the parser finds nothing or a date strictly before now, otherwise the parsed date, which is never before now |
| FutureDate.NowIsAccepted | app/src/date-utils.ts:350-353 | a date equal to now is accepted |
| FutureDate.ShorthandOrPhraseAgree | app/src/date-utils.ts:345 | a shorthand and its expansion give the same date |

## Left out

- **Module start-up:** `moment.locale`, `moment.tz.guess` and the `console.error` at lines 1-10 are environment and I/O.
- **chrono itself:** the lazy singletons, `require('chrono-node')` and chrono's grammar are not modelled. Its results are given:
  - as a list of `ParsedResult` objects to `Refine` and `ParseDateString`;
  - as a `parseDate` function parameter to `FutureDateFromString`.

  Only the components the code reads are modelled (year, month, day, weekday, hour, minute). Seconds, meridiem and time-zone offsets are not.
- IsPastDate: compares whole minutes. The source compares chrono's date, whose implied seconds are 0, with `ref` including its seconds. So "May 15 at 2pm" typed at 14:00:30 on May 15 is past in the source and moves a year on, while the model counts it as not past.
- **Clocks:** `moment()` and `Date.now()` become parameters (`now`). Seconds and milliseconds are not modelled. All moments in `parseDateString` carry the same seconds as `now`, so comparing them in minutes agrees with comparing them in milliseconds.
- **Calendar normalisation:** moment normalises a field set out of range, so a date of 35 rolls over into the next month. The model keeps the fields as assigned and normalises only through `Instant`. moment's setters are also not modelled:
  - the `month()` setter clamps the date to the month's length, so the order of setter calls matters (lines 305-307, 314-316);
  - `isPastDate` on an out-of-range field gives an invalid moment;
  - daylight-saving transitions are not modelled.
- **Mutation of the caller's moment:** the helpers (`tonight`, `tomorrow`, `nextWeek`, …) mutate and return the moment they are given. The model returns a new value, so this aliasing is not captured.
- **Unmodelled members of `DateUtils`:**
  - `DATE_FORMAT_*` constants: they come from locale data the model cannot see.
  - `format`, `utc`, `minutesFromNow`, `hoursFromNow`, `in1Hour`, `in2Hours`, `weeksFromNow`: thin `moment` wrappers.
  - `monthsFromNow` and `nextMonth`: they rest on moment's month arithmetic with clamping.
  - `shortTimeString`, `mediumTimeString`, `fullTimeString`: they use fractional day differences, `Intl` formatting and application configuration.
- **The refiners' `text` argument:** it is unused by the source, so the model omits it.
- **Past dates:** the file has no past-date counterpart of `futureDateFromString`; for past dates it exports only `getChronoPast` (line 275).
- **Results without an end:** the code tests `'end' in item`; a result without an end is modelled as a `null` end, on the assumption that chrono then leaves the property out.
- ParseDateString: its contract states the span it returns. The in-place `Object.assign` on each result's `knownValues` is stated per result by `MergeResult` and `MergeComponents`, not for the whole list.
- **Distinct components objects:** `ParseDateString` and `Refine` require every start and end components object to be distinct, which chrono's results are.
- **Two refiners, one function:** the future and past refiners are one function with a direction parameter; the source has two copies of the closure.
