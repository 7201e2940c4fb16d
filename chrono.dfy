/** The parts of the chrono-node parser's result objects that the date
    utilities read and write. The parser itself is not part of this model: its
    results are given. */
module Chrono {

  /** The components a parsed mention can carry. */
  datatype Component = Year | Month | Day | Weekday | Hour | Minute

  /** The components chrono always fills in, from the text or by implication. */
  const DateTimeKeys: set<Component> := {Year, Month, Day, Hour, Minute}

  /** The value of a mention side: the components stated in the text
      (`knownValues`) and the ones chrono defaulted (`impliedValues`).
      Months are 1-indexed, weekdays run from 0 (Sunday) to 6. */
  datatype Layers = Layers(known: map<Component, int>, implied: map<Component, int>) {

    /** chrono never implies a component that is known, and always supplies
        the date and the time of day in one layer or the other. */
    predicate Valid() {
      known.Keys !! implied.Keys && DateTimeKeys <= known.Keys + implied.Keys
    }

    /** Every component of both layers, implied values written last, as
        `Object.assign` copies them. */
    function Merged(): (m: map<Component, int>)
      ensures m.Keys == known.Keys + implied.Keys
      ensures Valid() ==> forall c :: c in known ==> m[c] == known[c]
      ensures forall c :: c in implied ==> m[c] == implied[c]
    {
      known + implied
    }
  }

  /** chrono's `imply`: sets an implied value unless the component is known. */
  function ImplyValue(known: map<Component, int>, implied: map<Component, int>,
                      c: Component, v: int): map<Component, int>
  {
    if c in known then implied else implied[c := v]
  }

  /** A JavaScript truthiness test on a component: present and not 0. */
  predicate Truthy(m: map<Component, int>, c: Component) {
    c in m && m[c] != 0
  }

  /** One side (`start` or `end`) of a chrono result, updated in place. */
  class ParsedComponents {
    var known: map<Component, int>
    var implied: map<Component, int>

    constructor (known: map<Component, int>, implied: map<Component, int>)
      ensures this.known == known && this.implied == implied
    {
      this.known := known;
      this.implied := implied;
    }

    function View(): Layers
      reads this
    {
      Layers(known, implied)
    }

    /** `isCertain(c)` */
    predicate IsCertain(c: Component)
      reads this
    {
      c in known
    }

    /** `imply(c, v)` */
    method Imply(c: Component, v: int)
      modifies this
      ensures known == old(known)
      ensures implied == ImplyValue(old(known), old(implied), c, v)
    {
      if c !in known {
        implied := implied[c := v];
      }
    }

    /** `Object.assign(knownValues, impliedValues)`: the implied values are
        copied into the known ones, which the call also returns. */
    method AssignImplied() returns (merged: map<Component, int>)
      modifies this
      ensures known == old(known) + old(implied) && implied == old(implied)
      ensures merged == known
    {
      known := known + implied;
      merged := known;
    }
  }

  /** One mention chrono found: the text it matched, the reference instant
      (in minutes) it was resolved against, its start and its optional end. */
  class ParsedResult {
    const text: string
    const ref: int
    const start: ParsedComponents
    const end: ParsedComponents?

    constructor (text: string, ref: int, start: ParsedComponents, end: ParsedComponents?)
      ensures this.text == text && this.ref == ref && this.start == start && this.end == end
    {
      this.text := text;
      this.ref := ref;
      this.start := start;
      this.end := end;
    }
  }

  /** The start objects of a list of results. */
  ghost function Starts(results: seq<ParsedResult>): set<ParsedComponents> {
    set r | r in results :: r.start
  }

  /** The end objects of a list of results. */
  ghost function Ends(results: seq<ParsedResult>): set<ParsedComponents> {
    set r | r in results && r.end != null :: r.end
  }

  /** Every result has start components of its own. */
  ghost predicate DistinctStarts(results: seq<ParsedResult>) {
    forall i, j :: 0 <= i < j < |results| ==> results[i].start != results[j].start
  }

  /** No two sides of the results share a components object. */
  ghost predicate Separate(results: seq<ParsedResult>) {
    && DistinctStarts(results)
    && (forall i, j :: 0 <= i < |results| && 0 <= j < |results| && results[i].end != null ==>
          results[i].end != results[j].start)
    && (forall i, j :: 0 <= i < j < |results| && results[i].end != null ==>
          results[i].end != results[j].end)
  }
}
