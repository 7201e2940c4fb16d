/** `parseDateString`: merges every mention chrono finds in one string into
    a single start/end pair. Per side and per dimension (time of day, calendar
    date) the first mention that supplies it wins; the end defaults to one hour
    after the start. */
module SpanResolver {
  import opened Wrappers
  import opened Strings
  import opened Calendar
  import opened Chrono

  datatype Side = Start | End

  /** The order in which the inner loop visits the sides. */
  const Sides: seq<Side> := [Start, End]

  /** What the merge reads of one chrono result. */
  datatype Mention = Mention(text: string, start: Layers, end: Option<Layers>) {

    function SideOf(side: Side): Option<Layers> {
      if side == Start then Some(start) else end
    }

    predicate Valid() {
      start.Valid() && (end.Some? ==> end.value.Valid())
    }
  }

  predicate AllValid(mentions: seq<Mention>) {
    forall i :: 0 <= i < |mentions| ==> mentions[i].Valid()
  }

  /** The `results` record: the two moments being built and the text no rule
      has consumed yet. */
  datatype DateRange = DateRange(start: Moment, end: Moment, leftoverText: string) {

    function At(side: Side): Moment {
      if side == Start then start else end
    }

    function With(side: Side, m: Moment): DateRange {
      if side == Start then this.(start := m) else this.(end := m)
    }
  }

  /** `results` together with the `gotTime` and `gotDay` flags, each held as
      the set of sides whose flag is true. */
  datatype MergeState = MergeState(results: DateRange, gotTime: set<Side>, gotDay: set<Side>)

  /** Two moments agree on the time of day. */
  predicate SameTime(a: Moment, b: Moment) {
    a.hour == b.hour && a.minute == b.minute
  }

  /** Two moments agree on the calendar date. */
  predicate SameDate(a: Moment, b: Moment) {
    a.year == b.year && a.month == b.month && a.date == b.date
  }

  function Init(text: string, now: Moment): MergeState {
    MergeState(DateRange(now, now, text), {}, {})
  }

  /** The mention side states an hour (a stated hour of 0 is not counted). */
  predicate SuppliesTime(c: Mention, side: Side) {
    c.SideOf(side).Some? && Truthy(c.SideOf(side).value.known, Hour)
  }

  /** The mention side states a day of the month or a weekday (a stated
      weekday of 0, Sunday, is not counted). */
  predicate SuppliesDay(c: Mention, side: Side) {
    c.SideOf(side).Some? && (Truthy(c.SideOf(side).value.known, Day) || Truthy(c.SideOf(side).value.known, Weekday))
  }

  /** The time rule: the first mention stating an hour sets the hour and the
      minute, and the date too while no mention has fixed the date. */
  function TimeRule(st: MergeState, side: Side, l: Layers, text: string): MergeState
    requires l.Valid()
  {
    if side !in st.gotTime && Truthy(l.known, Hour) then
      var v := l.Merged();
      var m := st.results.At(side).(minute := v[Minute], hour := v[Hour]);
      var m' := if side !in st.gotDay then m.(date := v[Day], month := v[Month] - 1, year := v[Year]) else m;
      var results := st.results.With(side, m');
      MergeState(results.(leftoverText := RemoveFirst(results.leftoverText, text)), st.gotTime + {side}, st.gotDay)
    else
      st
  }

  /** The date rule: the first mention stating a day or a weekday sets the
      date, and the time too while no mention has fixed the time. */
  function DateRule(st: MergeState, side: Side, l: Layers, text: string): MergeState
    requires l.Valid()
  {
    if side !in st.gotDay && (Truthy(l.known, Day) || Truthy(l.known, Weekday)) then
      var v := l.Merged();
      var m := st.results.At(side).(year := v[Year], month := v[Month] - 1, date := v[Day]);
      var m' := if side !in st.gotTime then m.(hour := v[Hour], minute := v[Minute]) else m;
      var results := st.results.With(side, m');
      MergeState(results.(leftoverText := RemoveFirst(results.leftoverText, text)), st.gotTime, st.gotDay + {side})
    else
      st
  }

  /** One side of one mention: the two rules are separate tests, so both may
      fire, the date rule seeing the flags the time rule left. */
  function MergeSide(st: MergeState, side: Side, l: Layers, text: string): MergeState
    requires l.Valid()
  {
    DateRule(TimeRule(st, side, l, text), side, l, text)
  }

  /** The first `k` sides of one mention, sides it does not have skipped. */
  function MergeSides(st: MergeState, c: Mention, k: nat): MergeState
    requires c.Valid() && k <= |Sides|
  {
    if k == 0 then
      st
    else
      var st' := MergeSides(st, c, k - 1);
      match c.SideOf(Sides[k - 1])
      case None => st'
      case Some(l) => MergeSide(st', Sides[k - 1], l, c.text)
  }

  function MergeItem(st: MergeState, c: Mention): MergeState
    requires c.Valid()
  {
    MergeSides(st, c, |Sides|)
  }

  /** The mentions merged in the order chrono emitted them. */
  function MergeAll(st: MergeState, mentions: seq<Mention>): MergeState
    requires AllValid(mentions)
    decreases |mentions|
  {
    if mentions == [] then st
    else MergeItem(MergeAll(st, mentions[..|mentions| - 1]), mentions[|mentions| - 1])
  }

  /** The default-end rule: an end still at `now`, or not after the start,
      becomes the start plus one hour. */
  function WithDefaultEnd(r: DateRange, now: Moment): (r': DateRange)
    ensures Instant(r'.end) > Instant(r'.start)
    ensures r'.start == r.start && r'.leftoverText == r.leftoverText
    ensures Instant(r.end) != Instant(now) && Instant(r.end) > Instant(r.start) ==> r'.end == r.end
    ensures Instant(r.end) == Instant(now) || Instant(r.end) <= Instant(r.start) ==>
              Instant(r'.end) == Instant(r.start) + MinutesPerHour
  {
    if Instant(r.end) == Instant(now) || Instant(r.end) <= Instant(r.start) then
      r.(end := r.start.(hour := r.start.hour + 1))
    else
      r
  }

  /** What `parseDateString` returns for the mentions chrono found in `text`
      when the clock reads `now`. */
  function Resolve(text: string, now: Moment, mentions: seq<Mention>): (r: DateRange)
    requires AllValid(mentions)
    ensures Instant(r.end) > Instant(r.start)
  {
    WithDefaultEnd(MergeAll(Init(text, now), mentions).results, now)
  }

  /** Applying `s.replace(p, '')` `n` times. */
  function RemoveTimes(s: string, p: string, n: nat): string {
    if n == 0 then s else RemoveFirst(RemoveTimes(s, p, n - 1), p)
  }

  // ---------------------------------------------------------------------
  // One side of one mention

  /** Merging one side touches neither the other side's moment nor its flags. */
  lemma OtherSideUntouched(st: MergeState, side: Side, l: Layers, text: string, other: Side)
    requires l.Valid() && other != side
    ensures var r := MergeSide(st, side, l, text);
            && r.results.At(other) == st.results.At(other)
            && (other in r.gotTime <==> other in st.gotTime)
            && (other in r.gotDay <==> other in st.gotDay)
  {
  }

  /** Repeated removal composes. */
  lemma {:induction false} RemoveTimesAdd(s: string, p: string, a: nat, b: nat)
    ensures RemoveTimes(RemoveTimes(s, p, a), p, b) == RemoveTimes(s, p, a + b)
  {
    if b > 0 {
      RemoveTimesAdd(s, p, a, b - 1);
      var inner := RemoveTimes(s, p, a + b - 1);
      assert RemoveTimes(RemoveTimes(s, p, a), p, b) == RemoveFirst(inner, p);
      assert RemoveTimes(s, p, a + b) == RemoveFirst(inner, p);
    }
  }

  /** The time rule sets at most the time flag of its own side, and removes
      one occurrence of the mention's text exactly when it sets it. */
  lemma TimeRuleStep(st: MergeState, side: Side, l: Layers, text: string)
    requires l.Valid()
    ensures var t := TimeRule(st, side, l, text);
            && t.gotDay == st.gotDay && st.gotTime <= t.gotTime && t.gotTime - st.gotTime <= {side}
            && t.results.leftoverText == RemoveTimes(st.results.leftoverText, text, |t.gotTime - st.gotTime|)
  {
    var t := TimeRule(st, side, l, text);
    if side !in st.gotTime && Truthy(l.known, Hour) {
      assert t.gotTime - st.gotTime == {side};
    } else {
      assert t.gotTime - st.gotTime == {};
    }
  }

  /** The date rule sets at most the date flag of its own side, and removes
      one occurrence of the mention's text exactly when it sets it. */
  lemma DateRuleStep(st: MergeState, side: Side, l: Layers, text: string)
    requires l.Valid()
    ensures var t := DateRule(st, side, l, text);
            && t.gotTime == st.gotTime && st.gotDay <= t.gotDay && t.gotDay - st.gotDay <= {side}
            && t.results.leftoverText == RemoveTimes(st.results.leftoverText, text, |t.gotDay - st.gotDay|)
  {
    var t := DateRule(st, side, l, text);
    if side !in st.gotDay && (Truthy(l.known, Day) || Truthy(l.known, Weekday)) {
      assert t.gotDay - st.gotDay == {side};
    } else {
      assert t.gotDay - st.gotDay == {};
    }
  }

  /** Flags are only ever set, and each rule that fires sets its own flag and
      removes one occurrence of the mention's text from the leftover text, so
      the leftover loses exactly as many occurrences as flags were set. */
  lemma {:induction false} MergeSideFlagsAndLeftover(st: MergeState, side: Side, l: Layers, text: string)
    requires l.Valid()
    ensures var r := MergeSide(st, side, l, text);
            && st.gotTime <= r.gotTime && st.gotDay <= r.gotDay
            && r.gotTime - st.gotTime <= {side} && r.gotDay - st.gotDay <= {side}
            && r.results.leftoverText
                 == RemoveTimes(st.results.leftoverText, text, |r.gotTime - st.gotTime| + |r.gotDay - st.gotDay|)
  {
    var t := TimeRule(st, side, l, text);
    TimeRuleStep(st, side, l, text);
    DateRuleStep(t, side, l, text);
    RemoveTimesAdd(st.results.leftoverText, text, |t.gotTime - st.gotTime|, |DateRule(t, side, l, text).gotDay - t.gotDay|);
  }

  /** A mention side that states neither a non-zero hour nor a non-zero day or
      weekday changes nothing: "Sunday" alone or "at 0:30" alone is ignored. */
  lemma ZeroMentionIgnored(st: MergeState, side: Side, l: Layers, text: string)
    requires l.Valid()
    requires !Truthy(l.known, Hour) && !Truthy(l.known, Day) && !Truthy(l.known, Weekday)
    ensures MergeSide(st, side, l, text) == st
  {
  }

  // ---------------------------------------------------------------------
  // Whole mentions

  lemma {:induction false} MergeSidesOther(st: MergeState, c: Mention, k: nat, side: Side)
    requires c.Valid() && k <= |Sides|
    requires forall i :: 0 <= i < k ==> Sides[i] != side
    ensures var r := MergeSides(st, c, k);
            && r.results.At(side) == st.results.At(side)
            && (side in r.gotTime <==> side in st.gotTime)
            && (side in r.gotDay <==> side in st.gotDay)
  {
    if k > 0 {
      MergeSidesOther(st, c, k - 1, side);
      var st' := MergeSides(st, c, k - 1);
      match c.SideOf(Sides[k - 1])
      case None =>
      case Some(l) => OtherSideUntouched(st', Sides[k - 1], l, c.text, side);
    }
  }

  /** A mention only ever sets flags. */
  lemma {:induction false} MergeSidesGrowsFlags(st: MergeState, c: Mention, k: nat)
    requires c.Valid() && k <= |Sides|
    ensures st.gotTime <= MergeSides(st, c, k).gotTime && st.gotDay <= MergeSides(st, c, k).gotDay
  {
    if k > 0 {
      MergeSidesGrowsFlags(st, c, k - 1);
      var st' := MergeSides(st, c, k - 1);
      match c.SideOf(Sides[k - 1])
      case None =>
      case Some(l) => MergeSideFlagsAndLeftover(st', Sides[k - 1], l, c.text);
    }
  }

  /** Once a side's time is fixed, a mention leaves its hour and minute alone;
      once its date is fixed, its year, month and date. */
  lemma {:induction false} MergeSidesKeepsFixed(st: MergeState, c: Mention, k: nat, side: Side)
    requires c.Valid() && k <= |Sides|
    ensures side in st.gotTime ==> SameTime(MergeSides(st, c, k).results.At(side), st.results.At(side))
    ensures side in st.gotDay ==> SameDate(MergeSides(st, c, k).results.At(side), st.results.At(side))
  {
    if k > 0 {
      MergeSidesKeepsFixed(st, c, k - 1, side);
      MergeSidesGrowsFlags(st, c, k - 1);
    }
  }

  /** A mention supplying no time for a side leaves that side's time flag
      unset; one supplying no day leaves its date flag unset. */
  lemma {:induction false} MergeSidesNoNewFlag(st: MergeState, c: Mention, k: nat, side: Side)
    requires c.Valid() && k <= |Sides|
    ensures !SuppliesTime(c, side) && side !in st.gotTime ==> side !in MergeSides(st, c, k).gotTime
    ensures !SuppliesDay(c, side) && side !in st.gotDay ==> side !in MergeSides(st, c, k).gotDay
  {
    if k > 0 {
      MergeSidesNoNewFlag(st, c, k - 1, side);
      var st' := MergeSides(st, c, k - 1);
      match c.SideOf(Sides[k - 1])
      case None =>
      case Some(l) =>
        if Sides[k - 1] != side {
          OtherSideUntouched(st', Sides[k - 1], l, c.text, side);
        }
    }
  }

  /** The mention that first supplies a time for a side fixes that side's
      hour and minute to its own. */
  lemma {:induction false} MergeItemTakesTime(st: MergeState, c: Mention, side: Side)
    requires c.Valid() && side !in st.gotTime && SuppliesTime(c, side)
    ensures var r := MergeItem(st, c);
            var v := c.SideOf(side).value.Merged();
            && side in r.gotTime
            && r.results.At(side).hour == v[Hour] && r.results.At(side).minute == v[Minute]
  {
    var l := c.SideOf(side).value;
    var i := if side == Start then 0 else 1;
    assert Sides[i] == side;
    MergeSidesOther(st, c, i, side);
    var before := MergeSides(st, c, i);
    var after := MergeSides(st, c, i + 1);
    assert after == MergeSide(before, side, l, c.text);
    MergeSidesGrowsFlags(after, c, 0);
    if i == 0 {
      assert MergeItem(st, c) == MergeSides(after, c, 2) by {
        match c.end
        case None =>
        case Some(e) =>
      }
      MergeSidesOther(after, Mention(c.text, c.start, c.end), 0, side);
      MergeSidesKeepsFixed(st, c, 2, side);
      if c.end.Some? {
        OtherSideUntouched(after, End, c.end.value, c.text, side);
      }
    }
  }

  /** The mention that first supplies a day for a side fixes that side's
      year, month and date to its own. */
  lemma {:induction false} MergeItemTakesDay(st: MergeState, c: Mention, side: Side)
    requires c.Valid() && side !in st.gotDay && SuppliesDay(c, side)
    ensures var r := MergeItem(st, c);
            var v := c.SideOf(side).value.Merged();
            && side in r.gotDay
            && r.results.At(side).year == v[Year] && r.results.At(side).month == v[Month] - 1
            && r.results.At(side).date == v[Day]
  {
    var l := c.SideOf(side).value;
    var i := if side == Start then 0 else 1;
    assert Sides[i] == side;
    MergeSidesOther(st, c, i, side);
    var before := MergeSides(st, c, i);
    var after := MergeSides(st, c, i + 1);
    assert after == MergeSide(before, side, l, c.text);
    if i == 0 && c.end.Some? {
      OtherSideUntouched(after, End, c.end.value, c.text, side);
    }
  }

  // ---------------------------------------------------------------------
  // The whole list

  /** Merging a list in two parts is merging it in one. */
  lemma {:induction false} MergeAllAppend(st: MergeState, a: seq<Mention>, b: seq<Mention>)
    requires AllValid(a) && AllValid(b)
    ensures AllValid(a + b)
    ensures MergeAll(st, a + b) == MergeAll(MergeAll(st, a), b)
    decreases |b|
  {
    if b == [] {
      assert a + b == a;
    } else {
      var b' := b[..|b| - 1];
      assert (a + b)[..|a + b| - 1] == a + b';
      MergeAllAppend(st, a, b');
    }
  }

  /** Flags only go from false to true. */
  lemma {:induction false} FlagsOnlyGrow(st: MergeState, mentions: seq<Mention>)
    requires AllValid(mentions)
    ensures st.gotTime <= MergeAll(st, mentions).gotTime
    ensures st.gotDay <= MergeAll(st, mentions).gotDay
    decreases |mentions|
  {
    if mentions != [] {
      var init := mentions[..|mentions| - 1];
      FlagsOnlyGrow(st, init);
      MergeSidesGrowsFlags(MergeAll(st, init), mentions[|mentions| - 1], |Sides|);
    }
  }

  /** Once `gotTime` is set for a side, no later mention changes its hour or
      minute; once `gotDay` is set, none changes its year, month or date. */
  lemma {:induction false} FixedStaysFixed(st: MergeState, mentions: seq<Mention>, side: Side)
    requires AllValid(mentions)
    ensures side in st.gotTime ==> SameTime(MergeAll(st, mentions).results.At(side), st.results.At(side))
    ensures side in st.gotDay ==> SameDate(MergeAll(st, mentions).results.At(side), st.results.At(side))
    decreases |mentions|
  {
    if mentions != [] {
      var init := mentions[..|mentions| - 1];
      FixedStaysFixed(st, init, side);
      FlagsOnlyGrow(st, init);
      MergeSidesKeepsFixed(MergeAll(st, init), mentions[|mentions| - 1], |Sides|, side);
    }
  }

  /** Mentions that supply no time (or no day) for a side leave its flag unset. */
  lemma {:induction false} NoSupplyNoFlag(st: MergeState, mentions: seq<Mention>, side: Side)
    requires AllValid(mentions)
    ensures side !in st.gotTime && (forall j :: 0 <= j < |mentions| ==> !SuppliesTime(mentions[j], side)) ==>
              side !in MergeAll(st, mentions).gotTime
    ensures side !in st.gotDay && (forall j :: 0 <= j < |mentions| ==> !SuppliesDay(mentions[j], side)) ==>
              side !in MergeAll(st, mentions).gotDay
    decreases |mentions|
  {
    if mentions != [] {
      var init := mentions[..|mentions| - 1];
      NoSupplyNoFlag(st, init, side);
      MergeSidesNoNewFlag(MergeAll(st, init), mentions[|mentions| - 1], |Sides|, side);
    }
  }

  /** First match wins for the time of day: the hour and minute of a side are
      those of the first mention, in chrono's order, that states an hour for it. */
  lemma {:induction false} FirstTimeWins(st: MergeState, mentions: seq<Mention>, side: Side, k: nat)
    requires AllValid(mentions) && side !in st.gotTime
    requires k < |mentions| && SuppliesTime(mentions[k], side)
    requires forall j :: 0 <= j < k ==> !SuppliesTime(mentions[j], side)
    ensures var r := MergeAll(st, mentions).results.At(side);
            var v := mentions[k].SideOf(side).value.Merged();
            r.hour == v[Hour] && r.minute == v[Minute]
  {
    var before, rest := mentions[..k], mentions[k + 1..];
    assert mentions == before + [mentions[k]] + rest;
    MergeAllAppend(st, before + [mentions[k]], rest);
    assert (before + [mentions[k]])[..k] == before;
    NoSupplyNoFlag(st, before, side);
    var sk := MergeAll(st, before + [mentions[k]]);
    MergeItemTakesTime(MergeAll(st, before), mentions[k], side);
    FixedStaysFixed(sk, rest, side);
  }

  /** First match wins for the date: the year, month and date of a side are
      those of the first mention that states a day or a weekday for it. */
  lemma {:induction false} FirstDayWins(st: MergeState, mentions: seq<Mention>, side: Side, k: nat)
    requires AllValid(mentions) && side !in st.gotDay
    requires k < |mentions| && SuppliesDay(mentions[k], side)
    requires forall j :: 0 <= j < k ==> !SuppliesDay(mentions[j], side)
    ensures var r := MergeAll(st, mentions).results.At(side);
            var v := mentions[k].SideOf(side).value.Merged();
            r.year == v[Year] && r.month == v[Month] - 1 && r.date == v[Day]
  {
    var before, rest := mentions[..k], mentions[k + 1..];
    assert mentions == before + [mentions[k]] + rest;
    MergeAllAppend(st, before + [mentions[k]], rest);
    assert (before + [mentions[k]])[..k] == before;
    NoSupplyNoFlag(st, before, side);
    var sk := MergeAll(st, before + [mentions[k]]);
    MergeItemTakesDay(MergeAll(st, before), mentions[k], side);
    FixedStaysFixed(sk, rest, side);
  }

  /** A side is settled against a mention when each rule either has nothing
      to take from it or finds its flag already set. */
  predicate Settled(st: MergeState, c: Mention, side: Side) {
    && (side in st.gotTime || !SuppliesTime(c, side))
    && (side in st.gotDay || !SuppliesDay(c, side))
  }

  /** A mention against which a side is settled leaves that side's moment
      alone. */
  lemma {:induction false} MergeSidesQuiet(st: MergeState, c: Mention, k: nat, side: Side)
    requires c.Valid() && k <= |Sides|
    requires Settled(st, c, side)
    ensures MergeSides(st, c, k).results.At(side) == st.results.At(side)
  {
    if k > 0 {
      MergeSidesQuiet(st, c, k - 1, side);
      MergeSidesGrowsFlags(st, c, k - 1);
      var st' := MergeSides(st, c, k - 1);
      match c.SideOf(Sides[k - 1])
      case None =>
      case Some(l) =>
        if Sides[k - 1] != side {
          OtherSideUntouched(st', Sides[k - 1], l, c.text, side);
        } else {
          assert MergeSide(st', side, l, c.text) == st';
        }
    }
  }

  /** Mentions against which a side is settled (each supplies no time, or the
      time is already fixed, and likewise for the day) leave its moment alone. */
  lemma {:induction false} QuietSideUnchanged(st: MergeState, mentions: seq<Mention>, side: Side)
    requires AllValid(mentions)
    requires forall j :: 0 <= j < |mentions| ==> Settled(st, mentions[j], side)
    ensures MergeAll(st, mentions).results.At(side) == st.results.At(side)
    decreases |mentions|
  {
    if mentions != [] {
      var init := mentions[..|mentions| - 1];
      QuietSideUnchanged(st, init, side);
      FlagsOnlyGrow(st, init);
      MergeSidesQuiet(MergeAll(st, init), mentions[|mentions| - 1], |Sides|, side);
    }
  }

  /** The first mention stating an hour for a side whose date is not fixed,
      itself stating no day, also sets the side's date (the copy inside the
      time rule). */
  lemma {:induction false} MergeItemTimeSetsDate(st: MergeState, c: Mention, side: Side)
    requires c.Valid() && side !in st.gotTime && side !in st.gotDay
    requires SuppliesTime(c, side) && !SuppliesDay(c, side)
    ensures var r := MergeItem(st, c);
            var v := c.SideOf(side).value.Merged();
            && side in r.gotTime
            && r.results.At(side).year == v[Year] && r.results.At(side).month == v[Month] - 1
            && r.results.At(side).date == v[Day]
  {
    var l := c.SideOf(side).value;
    var i := if side == Start then 0 else 1;
    assert Sides[i] == side;
    MergeSidesOther(st, c, i, side);
    var before := MergeSides(st, c, i);
    var after := MergeSides(st, c, i + 1);
    assert after == MergeSide(before, side, l, c.text);
    if i == 0 && c.end.Some? {
      OtherSideUntouched(after, End, c.end.value, c.text, side);
    }
  }

  /** The first mention stating a day for a side whose time is not fixed,
      itself stating no hour, also sets the side's hour and minute (the copy
      inside the date rule). */
  lemma {:induction false} MergeItemDaySetsTime(st: MergeState, c: Mention, side: Side)
    requires c.Valid() && side !in st.gotTime && side !in st.gotDay
    requires SuppliesDay(c, side) && !SuppliesTime(c, side)
    ensures var r := MergeItem(st, c);
            var v := c.SideOf(side).value.Merged();
            && side in r.gotDay
            && r.results.At(side).hour == v[Hour] && r.results.At(side).minute == v[Minute]
  {
    var l := c.SideOf(side).value;
    var i := if side == Start then 0 else 1;
    assert Sides[i] == side;
    MergeSidesOther(st, c, i, side);
    var before := MergeSides(st, c, i);
    var after := MergeSides(st, c, i + 1);
    assert after == MergeSide(before, side, l, c.text);
    if i == 0 && c.end.Some? {
      OtherSideUntouched(after, End, c.end.value, c.text, side);
    }
  }

  /** With no mention stating a day for a side, its year, month and date come
      from the first mention stating an hour: "meet at 3pm" takes the date
      chrono implied for 3pm. */
  lemma {:induction false} DateFromFirstTimeWithoutDay(st: MergeState, mentions: seq<Mention>, side: Side, k: nat)
    requires AllValid(mentions) && side !in st.gotTime && side !in st.gotDay
    requires forall j :: 0 <= j < |mentions| ==> !SuppliesDay(mentions[j], side)
    requires k < |mentions| && SuppliesTime(mentions[k], side)
    requires forall j :: 0 <= j < k ==> !SuppliesTime(mentions[j], side)
    ensures var r := MergeAll(st, mentions).results.At(side);
            var v := mentions[k].SideOf(side).value.Merged();
            r.year == v[Year] && r.month == v[Month] - 1 && r.date == v[Day]
  {
    var before, rest := mentions[..k], mentions[k + 1..];
    assert mentions == before + [mentions[k]] + rest;
    MergeAllAppend(st, before + [mentions[k]], rest);
    assert (before + [mentions[k]])[..k] == before;
    NoSupplyNoFlag(st, before, side);
    var sk := MergeAll(st, before + [mentions[k]]);
    MergeItemTimeSetsDate(MergeAll(st, before), mentions[k], side);
    assert forall j :: 0 <= j < |rest| ==> rest[j] == mentions[k + 1 + j];
    QuietSideUnchanged(sk, rest, side);
  }

  /** With no mention stating an hour for a side, its hour and minute come
      from the first mention stating a day or weekday: "Monday" takes the
      time chrono implied for Monday. */
  lemma {:induction false} TimeFromFirstDayWithoutTime(st: MergeState, mentions: seq<Mention>, side: Side, k: nat)
    requires AllValid(mentions) && side !in st.gotTime && side !in st.gotDay
    requires forall j :: 0 <= j < |mentions| ==> !SuppliesTime(mentions[j], side)
    requires k < |mentions| && SuppliesDay(mentions[k], side)
    requires forall j :: 0 <= j < k ==> !SuppliesDay(mentions[j], side)
    ensures var r := MergeAll(st, mentions).results.At(side);
            var v := mentions[k].SideOf(side).value.Merged();
            r.hour == v[Hour] && r.minute == v[Minute]
  {
    var before, rest := mentions[..k], mentions[k + 1..];
    assert mentions == before + [mentions[k]] + rest;
    MergeAllAppend(st, before + [mentions[k]], rest);
    assert (before + [mentions[k]])[..k] == before;
    NoSupplyNoFlag(st, before, side);
    var sk := MergeAll(st, before + [mentions[k]]);
    MergeItemDaySetsTime(MergeAll(st, before), mentions[k], side);
    assert forall j :: 0 <= j < |rest| ==> rest[j] == mentions[k + 1 + j];
    QuietSideUnchanged(sk, rest, side);
  }

  /** A start no mention states a time or a day for is `now`. */
  lemma {:induction false} UnmentionedStartIsNow(text: string, now: Moment, mentions: seq<Mention>)
    requires AllValid(mentions)
    requires forall j :: 0 <= j < |mentions| ==> !SuppliesTime(mentions[j], Start) && !SuppliesDay(mentions[j], Start)
    ensures Resolve(text, now, mentions).start == now
  {
    QuietSideUnchanged(Init(text, now), mentions, Start);
  }

  /** The resolved start takes its time of day from the first mention stating
      an hour for it, and its date from the first stating a day or weekday. */
  lemma {:induction false} ResolvedStartFromFirstMentions(text: string, now: Moment, mentions: seq<Mention>, kt: nat, kd: nat)
    requires AllValid(mentions)
    requires kt < |mentions| && SuppliesTime(mentions[kt], Start)
    requires forall j :: 0 <= j < kt ==> !SuppliesTime(mentions[j], Start)
    requires kd < |mentions| && SuppliesDay(mentions[kd], Start)
    requires forall j :: 0 <= j < kd ==> !SuppliesDay(mentions[j], Start)
    ensures var r := Resolve(text, now, mentions).start;
            var vt := mentions[kt].start.Merged();
            var vd := mentions[kd].start.Merged();
            && r.hour == vt[Hour] && r.minute == vt[Minute]
            && r.year == vd[Year] && r.month == vd[Month] - 1 && r.date == vd[Day]
  {
    FirstTimeWins(Init(text, now), mentions, Start, kt);
    FirstDayWins(Init(text, now), mentions, Start, kd);
  }

  /** A start stated only by times ("meet at 3pm") takes both its time of
      day and its date from the first of them. */
  lemma {:induction false} ResolvedStartFromTimeOnly(text: string, now: Moment, mentions: seq<Mention>, kt: nat)
    requires AllValid(mentions)
    requires forall j :: 0 <= j < |mentions| ==> !SuppliesDay(mentions[j], Start)
    requires kt < |mentions| && SuppliesTime(mentions[kt], Start)
    requires forall j :: 0 <= j < kt ==> !SuppliesTime(mentions[j], Start)
    ensures var r := Resolve(text, now, mentions).start;
            var v := mentions[kt].start.Merged();
            && r.hour == v[Hour] && r.minute == v[Minute]
            && r.year == v[Year] && r.month == v[Month] - 1 && r.date == v[Day]
  {
    FirstTimeWins(Init(text, now), mentions, Start, kt);
    DateFromFirstTimeWithoutDay(Init(text, now), mentions, Start, kt);
  }

  /** A start stated only by days or weekdays ("Monday") takes both its date
      and its time of day from the first of them. */
  lemma {:induction false} ResolvedStartFromDayOnly(text: string, now: Moment, mentions: seq<Mention>, kd: nat)
    requires AllValid(mentions)
    requires forall j :: 0 <= j < |mentions| ==> !SuppliesTime(mentions[j], Start)
    requires kd < |mentions| && SuppliesDay(mentions[kd], Start)
    requires forall j :: 0 <= j < kd ==> !SuppliesDay(mentions[j], Start)
    ensures var r := Resolve(text, now, mentions).start;
            var v := mentions[kd].start.Merged();
            && r.hour == v[Hour] && r.minute == v[Minute]
            && r.year == v[Year] && r.month == v[Month] - 1 && r.date == v[Day]
  {
    FirstDayWins(Init(text, now), mentions, Start, kd);
    TimeFromFirstDayWithoutTime(Init(text, now), mentions, Start, kd);
  }

  /** Text without a date mention resolves to `now` and one hour later. */
  lemma NoMentionDefaults(text: string, now: Moment)
    ensures Resolve(text, now, []).start == now
    ensures Instant(Resolve(text, now, []).end) == Instant(now) + MinutesPerHour
    ensures Resolve(text, now, []).leftoverText == text
  {
  }

  // ---------------------------------------------------------------------
  // The method over chrono's result objects

  /** The mention a result object currently describes. */
  function MentionOf(r: ParsedResult): Mention
    reads r.start, r.end
  {
    Mention(r.text, r.start.View(), if r.end == null then None else Some(r.end.View()))
  }

  /** One side of one result: reads the stated day, weekday and hour, merges
      the implied values into the known ones in place, then runs the two rules. */
  method MergeComponents(pc: ParsedComponents, side: Side, text: string,
                         results: DateRange, gotTime: set<Side>, gotDay: set<Side>)
    returns (results': DateRange, gotTime': set<Side>, gotDay': set<Side>)
    requires pc.View().Valid()
    modifies pc
    ensures MergeState(results', gotTime', gotDay')
              == MergeSide(MergeState(results, gotTime, gotDay), side, old(pc.View()), text)
    ensures pc.known == old(pc.View().Merged()) && pc.implied == old(pc.implied)
  {
    ghost var l := pc.View();
    var knownDay := Truthy(pc.known, Day);
    var knownWeekday := Truthy(pc.known, Weekday);
    var knownHour := Truthy(pc.known, Hour);
    var v := pc.AssignImplied();
    assert v == l.Merged();
    results', gotTime', gotDay' := results, gotTime, gotDay;
    if side !in gotTime' && knownHour {
      gotTime' := gotTime' + {side};
      var m := results'.At(side);
      m := m.(minute := v[Minute]);
      m := m.(hour := v[Hour]);
      if side !in gotDay' {
        m := m.(date := v[Day]);
        m := m.(month := v[Month] - 1);
        m := m.(year := v[Year]);
      }
      results' := results'.With(side, m);
      results' := results'.(leftoverText := RemoveFirst(results'.leftoverText, text));
    }
    assert MergeState(results', gotTime', gotDay') == TimeRule(MergeState(results, gotTime, gotDay), side, l, text);
    if side !in gotDay' && (knownDay || knownWeekday) {
      gotDay' := gotDay' + {side};
      var m := results'.At(side);
      m := m.(year := v[Year]);
      m := m.(month := v[Month] - 1);
      m := m.(date := v[Day]);
      if side !in gotTime' {
        m := m.(hour := v[Hour]);
        m := m.(minute := v[Minute]);
      }
      results' := results'.With(side, m);
      results' := results'.(leftoverText := RemoveFirst(results'.leftoverText, text));
    }
  }

  /** The body of the outer loop: both sides of one result, in order, a
      missing end skipped. */
  method MergeResult(item: ParsedResult, results: DateRange, gotTime: set<Side>, gotDay: set<Side>)
    returns (results': DateRange, gotTime': set<Side>, gotDay': set<Side>)
    requires item.end != item.start && MentionOf(item).Valid()
    modifies item.start, item.end
    ensures old(MentionOf(item)).Valid()
    ensures MergeState(results', gotTime', gotDay') == MergeItem(MergeState(results, gotTime, gotDay), old(MentionOf(item)))
    ensures item.start.known == old(item.start.View().Merged())
    ensures item.end != null ==> item.end.known == old(item.end.View().Merged())
  {
    ghost var c := MentionOf(item);
    ghost var st0 := MergeState(results, gotTime, gotDay);
    results', gotTime', gotDay' := results, gotTime, gotDay;
    for s := 0 to |Sides|
      invariant MergeState(results', gotTime', gotDay') == MergeSides(st0, c, s)
      invariant s == 0 ==> item.start.View() == c.start
      invariant s >= 1 ==> item.start.known == c.start.Merged()
      invariant s <= 1 && item.end != null ==> item.end.View() == c.end.value
      invariant s == 2 && item.end != null ==> item.end.known == c.end.value.Merged()
    {
      var side := Sides[s];
      var pc := if side == Start then item.start else item.end;
      if pc == null {
        continue;
      }
      results', gotTime', gotDay' := MergeComponents(pc, side, item.text, results', gotTime', gotDay');
    }
  }

  /** The mentions a list of result objects currently describes. */
  ghost function Mentions(parsed: seq<ParsedResult>): seq<Mention>
    reads Starts(parsed), Ends(parsed)
  {
    seq(|parsed|, j requires 0 <= j < |parsed| reads Starts(parsed), Ends(parsed) => MentionOf(parsed[j]))
  }

  /** The components objects of a result that come after result `i` are
      not those of result `i`. */
  lemma SeparateFrom(parsed: seq<ParsedResult>, i: int)
    requires Separate(parsed) && 0 <= i < |parsed|
    ensures forall j :: i < j < |parsed| ==>
              && parsed[j].start != parsed[i].start && parsed[j].start != parsed[i].end
              && (parsed[j].end != null ==> parsed[j].end != parsed[i].start && parsed[j].end != parsed[i].end)
  {
  }

  /** One more mention merged onto a prefix. */
  lemma MergeAllStep(st: MergeState, mentions: seq<Mention>, i: int)
    requires AllValid(mentions) && 0 <= i < |mentions|
    ensures AllValid(mentions[..i]) && AllValid(mentions[..i + 1])
    ensures MergeAll(st, mentions[..i + 1]) == MergeItem(MergeAll(st, mentions[..i]), mentions[i])
  {
    assert mentions[..i + 1][..i] == mentions[..i];
  }

  /** The two nested loops: every result merged in chrono's order. */
  method MergeResults(text: string, now: Moment, parsed: seq<ParsedResult>) returns (st: MergeState)
    requires Separate(parsed)
    requires AllValid(Mentions(parsed))
    modifies Starts(parsed), Ends(parsed)
    ensures st == MergeAll(Init(text, now), old(Mentions(parsed)))
  {
    ghost var before := Mentions(parsed);
    assert |before| == |parsed| && forall j :: 0 <= j < |parsed| ==> before[j] == MentionOf(parsed[j]);
    var gotTime: set<Side> := {};
    var gotDay: set<Side> := {};
    var results := DateRange(now, now, text);
    for i := 0 to |parsed|
      invariant MergeState(results, gotTime, gotDay) == MergeAll(Init(text, now), before[..i])
      invariant forall j :: i <= j < |parsed| ==>
                  parsed[j].start.known == before[j].start.known && parsed[j].start.implied == before[j].start.implied
      invariant forall j :: i <= j < |parsed| && parsed[j].end != null ==>
                  parsed[j].end.known == before[j].end.value.known && parsed[j].end.implied == before[j].end.value.implied
    {
      MergeAllStep(Init(text, now), before, i);
      assert MentionOf(parsed[i]) == before[i];
      SeparateFrom(parsed, i);
      results, gotTime, gotDay := MergeResult(parsed[i], results, gotTime, gotDay);
    }
    assert before[..|parsed|] == before;
    st := MergeState(results, gotTime, gotDay);
  }

  /** `parseDateString(text)` given chrono's results for `text` and the clock
      reading `now`: the span is the one the merge specification defines. */
  method ParseDateString(text: string, now: Moment, parsed: seq<ParsedResult>) returns (results: DateRange)
    requires Separate(parsed)
    requires forall r :: r in parsed ==> MentionOf(r).Valid()
    modifies Starts(parsed), Ends(parsed)
    ensures AllValid(old(Mentions(parsed)))
    ensures results == Resolve(text, now, old(Mentions(parsed)))
  {
    var st := MergeResults(text, now, parsed);
    // Make the event a default one hour long.
    results := WithDefaultEnd(st.results, now);
  }
}
