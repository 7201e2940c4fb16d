/** `getTimeFormat`: the moment.js format string used to display a time of
    day. The user's 24-hour-clock setting is passed in. */
module TimeFormat {
  import opened Wrappers
  import opened Strings

  /** The options object; an absent property reads as false. */
  datatype TimeFormatOptions = TimeFormatOptions(seconds: bool, upperCase: bool, timeZone: bool)

  function Seconds(opts: Option<TimeFormatOptions>): bool {
    opts.Some? && opts.value.seconds
  }

  function UpperCase(opts: Option<TimeFormatOptions>): bool {
    opts.Some? && opts.value.upperCase
  }

  function TimeZone(opts: Option<TimeFormatOptions>): bool {
    opts.Some? && opts.value.timeZone
  }

  /** The clock part a format starts with. */
  function ClockPart(use24HourClock: bool): string {
    if use24HourClock then "HH:mm" else "h:mm"
  }

  /** The meridiem part of a format. */
  function MeridiemPart(use24HourClock: bool, upperCase: bool): string {
    if use24HourClock then "" else if upperCase then " A" else " a"
  }

  /** The format string, built piece by piece. */
  function GetTimeFormat(use24HourClock: bool, opts: Option<TimeFormatOptions>): (r: string)
    ensures StartsWith(r, ClockPart(use24HourClock))
  {
    var timeFormat := ClockPart(use24HourClock);
    var timeFormat := if Seconds(opts) then timeFormat + ":ss" else timeFormat;
    var timeFormat := timeFormat + MeridiemPart(use24HourClock, UpperCase(opts));
    var timeFormat := if TimeZone(opts) then timeFormat + " z" else timeFormat;
    assert timeFormat[..|ClockPart(use24HourClock)|] == ClockPart(use24HourClock);
    timeFormat
  }

  /** The format is exactly the clock, the optional seconds, the meridiem of a
      12-hour clock and the optional zone, in that order. */
  lemma {:induction false} Shape(use24HourClock: bool, opts: Option<TimeFormatOptions>)
    ensures GetTimeFormat(use24HourClock, opts)
              == ClockPart(use24HourClock) + (if Seconds(opts) then ":ss" else "")
                 + MeridiemPart(use24HourClock, UpperCase(opts)) + (if TimeZone(opts) then " z" else "")
  {
  }

  /** ":ss" appears exactly when seconds are asked for. */
  lemma {:induction false} SecondsIffAsked(use24HourClock: bool, opts: Option<TimeFormatOptions>)
    ensures IndexOf(GetTimeFormat(use24HourClock, opts), ":ss") >= 0 <==> Seconds(opts)
  {
    var r := GetTimeFormat(use24HourClock, opts);
    var c := ClockPart(use24HourClock);
    Shape(use24HourClock, opts);
    if Seconds(opts) {
      assert OccursAt(r, ":ss", |c|) by {
        assert r[|c|..|c| + 3] == ":ss";
      }
    } else {
      forall j | 0 <= j ensures !OccursAt(r, ":ss", j) {
        if j + 3 <= |r| {
          NoSecondsAt(r, j, c, opts, use24HourClock);
        }
      }
    }
  }

  /** The one ':' of the clock part is followed by 'm'. */
  lemma ClockColon(use24HourClock: bool, k: int)
    requires 0 <= k < |ClockPart(use24HourClock)|
    ensures var c := ClockPart(use24HourClock);
            c[k] == ':' ==> k + 1 < |c| && c[k + 1] == 'm'
  {
  }

  /** Neither the meridiem nor the zone part holds a ':'. */
  lemma NoColonAfterClock(use24HourClock: bool, opts: Option<TimeFormatOptions>)
    ensures ':' !in MeridiemPart(use24HourClock, UpperCase(opts)) + (if TimeZone(opts) then " z" else "")
  {
    var m := MeridiemPart(use24HourClock, UpperCase(opts));
    var z := if TimeZone(opts) then " z" else "";
    assert ':' !in m && ':' !in z;
  }

  /** Without seconds, the only ':' in the format is the one in the clock
      part, which is followed by 'm'. */
  lemma NoSecondsAt(r: string, j: int, c: string, opts: Option<TimeFormatOptions>, use24HourClock: bool)
    requires c == ClockPart(use24HourClock) && !Seconds(opts)
    requires r == c + MeridiemPart(use24HourClock, UpperCase(opts)) + (if TimeZone(opts) then " z" else "")
    requires 0 <= j && j + 3 <= |r|
    ensures r[j..j + 3] != ":ss"
  {
    var tail := MeridiemPart(use24HourClock, UpperCase(opts)) + (if TimeZone(opts) then " z" else "");
    assert r == c + tail;
    if j >= |c| {
      NoColonAfterClock(use24HourClock, opts);
      assert r[j] == tail[j - |c|] && tail[j - |c|] in tail;
    } else {
      ClockColon(use24HourClock, j);
      assert r[j] == c[j];
      assert r[j] == ':' ==> r[j + 1] == c[j + 1];
    }
  }

  /** A meridiem is appended only to a 12-hour format, upper-case exactly when
      asked, and it ends the format unless a zone follows. */
  lemma {:induction false} MeridiemOnlyTwelveHour(use24HourClock: bool, opts: Option<TimeFormatOptions>)
    ensures var r := GetTimeFormat(use24HourClock, opts);
            var body := if TimeZone(opts) then r[..|r| - 2] else r;
            && |r| >= 2 + (if TimeZone(opts) then 2 else 0)
            && (use24HourClock ==> body[|body| - 2..] !in [" A", " a"])
            && (!use24HourClock ==> body[|body| - 2..] == (if UpperCase(opts) then " A" else " a"))
  {
    Shape(use24HourClock, opts);
    var r := GetTimeFormat(use24HourClock, opts);
    var body := if TimeZone(opts) then r[..|r| - 2] else r;
    var c := ClockPart(use24HourClock);
    var sec := if Seconds(opts) then ":ss" else "";
    assert body == c + sec + MeridiemPart(use24HourClock, UpperCase(opts));
    if use24HourClock {
      assert body[|body| - 1] in "ms";
    }
  }

  /** The format ends with " z" exactly when the zone is asked for. */
  lemma {:induction false} ZoneIffAsked(use24HourClock: bool, opts: Option<TimeFormatOptions>)
    ensures var r := GetTimeFormat(use24HourClock, opts);
            |r| >= 2 && (r[|r| - 2..] == " z" <==> TimeZone(opts))
  {
    Shape(use24HourClock, opts);
    var r := GetTimeFormat(use24HourClock, opts);
    if !TimeZone(opts) {
      assert r[|r| - 1] in "msAa";
    }
  }
}
