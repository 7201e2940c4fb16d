/** The EnforceFutureDate and EnforcePastDate refiners: after chrono has
    parsed a string, each result's start is pushed to the requested side of
    its reference instant by shifting implied components only. */
module DirectionRefiner {
  import opened Calendar
  import opened Chrono

  datatype Direction = Future | Past

  /** The moment a complete component mapping denotes, the 1-indexed month
      turned into moment's 0-indexed one. The weekday plays no part. */
  function MomentOf(current: map<Component, int>): Moment
    requires DateTimeKeys <= current.Keys
  {
    Moment(current[Year], current[Month] - 1, current[Day], current[Hour], current[Minute])
  }

  /** `isPastDate(current, ref)` */
  predicate IsPastDate(current: map<Component, int>, ref: int)
    requires DateTimeKeys <= current.Keys
  {
    Instant(MomentOf(current)) < ref
  }

  /** The snapshot is on the side the direction forbids: before the reference
      for the future refiner, not before it for the past refiner. */
  predicate WrongSide(dir: Direction, current: map<Component, int>, ref: int)
    requires DateTimeKeys <= current.Keys
  {
    if dir == Future then IsPastDate(current, ref) else !IsPastDate(current, ref)
  }

  /** +1 for the future refiner, -1 for the past refiner. */
  function Step(dir: Direction): int {
    if dir == Future then 1 else -1
  }

  /** The three independent checks of a refiner, given the outcome of its
      one side test: each may shift one implied component. */
  function Shifted(dir: Direction, l: Layers, wrong: bool): (r: Layers)
    requires l.Valid()
  {
    var i1 := if Weekday in l.known && Day !in l.known && wrong
              then ImplyValue(l.known, l.implied, Day, l.implied[Day] + 7 * Step(dir))
              else l.implied;
    var i2 := if Day in l.known && Month !in l.known && wrong
              then ImplyValue(l.known, i1, Month, i1[Month] + Step(dir))
              else i1;
    var i3 := if Month in l.known && Year !in l.known && wrong
              then ImplyValue(l.known, i2, Year, i2[Year] + Step(dir))
              else i2;
    Layers(l.known, i3)
  }

  /** What a refiner makes of one start: the side test is made once, on a
      snapshot of all components taken before any shift. */
  function Refined(dir: Direction, l: Layers, ref: int): (r: Layers)
    requires l.Valid()
  {
    Shifted(dir, l, WrongSide(dir, l.Merged(), ref))
  }

  /** A refiner leaves the stated components and the set of implied ones alone,
      so the result is still a valid chrono start. */
  lemma RefinedKeepsKnown(dir: Direction, l: Layers, ref: int)
    requires l.Valid()
    ensures Refined(dir, l, ref).known == l.known
    ensures Refined(dir, l, ref).implied.Keys == l.implied.Keys
    ensures Refined(dir, l, ref).Valid()
    ensures forall c :: c in l.known ==> Refined(dir, l, ref).Merged()[c] == l.known[c]
  {
  }

  /** Exactly which implied values move, and by how much. */
  lemma RefinedShifts(dir: Direction, l: Layers, ref: int)
    requires l.Valid()
    ensures var r := Refined(dir, l, ref).implied;
            var wrong := WrongSide(dir, l.Merged(), ref);
            && (Day in l.implied ==>
                  r[Day] == l.implied[Day] + (if Weekday in l.known && wrong then 7 * Step(dir) else 0))
            && (Month in l.implied ==>
                  r[Month] == l.implied[Month] + (if Day in l.known && wrong then Step(dir) else 0))
            && (Year in l.implied ==>
                  r[Year] == l.implied[Year] + (if Month in l.known && wrong then Step(dir) else 0))
            && (forall c :: c in l.implied && c !in {Day, Month, Year} ==> r[c] == l.implied[c])
  {
  }

  /** A weekday-only mention ("Monday", "next Friday at 3pm") on the wrong side
      moves by exactly one week in the refiner's direction, and otherwise does
      not move at all. */
  lemma {:induction false} WeekdayMentionMovesOneWeek(dir: Direction, l: Layers, ref: int)
    requires l.Valid()
    requires Weekday in l.known && Day !in l.known && Month !in l.known
    ensures var before := Instant(MomentOf(l.Merged()));
            var after := Instant(MomentOf(Refined(dir, l, ref).Merged()));
            after == before + (if WrongSide(dir, l.Merged(), ref) then Step(dir) * 7 * MinutesPerDay else 0)
  {
    RefinedShifts(dir, l, ref);
    RefinedKeepsKnown(dir, l, ref);
    var m := MomentOf(l.Merged());
    var m' := MomentOf(Refined(dir, l, ref).Merged());
    assert m'.year == m.year && m'.month == m.month && m'.hour == m.hour && m'.minute == m.minute;
  }

  /** The body of one refiner closure, applied to one result: only its start
      is read through one snapshot and written through `imply`. */
  method RefineResult(dir: Direction, result: ParsedResult)
    requires result.start.View().Valid()
    modifies result.start
    ensures result.start.View() == Refined(dir, old(result.start.View()), result.ref)
  {
    var start := result.start;
    ghost var l := start.View();
    var current := start.known + start.implied;
    assert current == l.Merged();
    // The three checks all test the same snapshot against the same reference.
    var wrong := WrongSide(dir, current, result.ref);

    if start.IsCertain(Weekday) && !start.IsCertain(Day) {
      if wrong {
        start.Imply(Day, start.implied[Day] + 7 * Step(dir));
      }
    }
    if start.IsCertain(Day) && !start.IsCertain(Month) {
      if wrong {
        start.Imply(Month, start.implied[Month] + Step(dir));
      }
    }
    if start.IsCertain(Month) && !start.IsCertain(Year) {
      if wrong {
        start.Imply(Year, start.implied[Year] + Step(dir));
      }
    }
    assert start.View() == Shifted(dir, l, wrong);
  }

  /** `refine(text, results)`: every result's start refined, every other
      components object (the ends in particular) left as it was; the same list
      is returned. */
  method Refine(dir: Direction, results: seq<ParsedResult>) returns (refined: seq<ParsedResult>)
    requires DistinctStarts(results)
    requires forall r :: r in results ==> r.start.View().Valid()
    modifies Starts(results)
    ensures refined == results
    ensures forall r :: r in results ==>
              r.start.View() == Refined(dir, old(r.start.View()), r.ref)
    ensures forall r :: r in results && r.end != null && r.end !in Starts(results) ==>
              r.end.View() == old(r.end.View())
  {
    for i := 0 to |results|
      invariant forall j :: 0 <= j < i ==> results[j].start.View() == Refined(dir, old(results[j].start.View()), results[j].ref)
      invariant forall j :: i <= j < |results| ==> results[j].start.View() == old(results[j].start.View())
    {
      RefineResult(dir, results[i]);
    }
    refined := results;
  }
}
