/** `futureDateFromString`: a date typed into a quick-compose field, read
    through the shorthand expander and the future-leaning parser, and refused
    when it lies in the past. The parser and the clock are parameters: the
    parser yields an instant (here in minutes) or nothing. */
module FutureDate {
  import opened Wrappers
  import opened Shorthand

  /** `futureDateFromString(text)` when the parser is `parseDate` and the clock
      reads `now`. */
  function FutureDateFromString(text: string, parseDate: string -> Option<int>, now: int): (r: Option<int>)
    ensures r.Some? ==> r.value >= now && r == parseDate(Expand(text))
    ensures r.None? <==> parseDate(Expand(text)).None? || parseDate(Expand(text)).value < now
  {
    var date := parseDate(Expand(text));
    if date.None? then None
    else if date.value < now then None
    else date
  }

  /** An instant equal to the clock is accepted; only a strictly earlier one
      is refused. */
  lemma NowIsAccepted(text: string, parseDate: string -> Option<int>, now: int)
    requires parseDate(Expand(text)) == Some(now)
    ensures FutureDateFromString(text, parseDate, now) == Some(now)
  {
  }

  /** Typing a shorthand or the phrase it stands for gives the same date. */
  lemma {:induction false} ShorthandOrPhraseAgree(text: string, parseDate: string -> Option<int>, now: int)
    ensures FutureDateFromString(Expand(text), parseDate, now) == FutureDateFromString(text, parseDate, now)
  {
    ExpandIdempotent(text);
  }
}
