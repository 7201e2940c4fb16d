/** `expandDateLikeString`: rewrites the compact tokens people type into a
    quick-compose date field ("2h", "tom 3pm", "1230") into phrases the
    natural-language date parser understands. */
module Shorthand {
  import opened Strings

  /** `^\d+<unit>$`: one or more digits followed by exactly `unit`. */
  predicate DigitsThen(s: string, unit: string) {
    |s| > |unit| && AllDigits(s[..|s| - |unit|]) && s[|s| - |unit|..] == unit
  }

  /** `^\d{3,4}$`: a bare clock time such as 123 or 1234. */
  predicate IsClockDigits(s: string) {
    3 <= |s| <= 4 && AllDigits(s)
  }

  const TomorrowAliases: seq<string> := ["t", "to", "tom", "tom "]
  const NextWeekAliases: seq<string> := ["nw", "next week"]

  /** The forms rules 2 to 5 rewrite (digits with a unit, the aliases, the
      "tom " prefix), stated without reference to the rewriting itself. */
  predicate IsRewritable(w: string) {
    || DigitsThen(w, "h") || DigitsThen(w, "d") || DigitsThen(w, "w")
    || DigitsThen(w, "m") || DigitsThen(w, "mo")
    || w in TomorrowAliases || w in NextWeekAliases
    || StartsWith(w, "tom ")
  }

  /** Every form some rule of the expander applies to. */
  predicate IsShorthand(s: string) {
    IsClockDigits(s) || IsRewritable(s)
  }

  /** The unit word each suffix stands for. */
  function UnitWord(unit: string): string {
    match unit
    case "h" => " hours"
    case "d" => " days"
    case "w" => " weeks"
    case _ => " months"
  }

  /** The first rule: the working string with a colon inserted before the last
      two digits of a bare clock time. It does not return; the later rules are
      tried on its result. */
  function InsertColon(s: string): string {
    if IsClockDigits(s) then s[..|s| - 2] + ":" + s[|s| - 2..] else s
  }

  /** The remaining rules, the first that matches returning. */
  function Rewrite(w: string): string {
    if DigitsThen(w, "h") then LeadingDigits(w) + " hours"
    else if DigitsThen(w, "d") then LeadingDigits(w) + " days"
    else if DigitsThen(w, "w") then LeadingDigits(w) + " weeks"
    else if DigitsThen(w, "m") || DigitsThen(w, "mo") then LeadingDigits(w) + " months"
    else if w in TomorrowAliases then "tomorrow morning"
    else if w in NextWeekAliases then "next Monday"
    else if IndexOf(w, "tom ") == 0 then ReplaceFirst(w, "tom ", "tomorrow ")
    else w
  }

  /** `expandDateLikeString` */
  function Expand(s: string): string {
    Rewrite(InsertColon(s))
  }

  /** `indexOf(p) === 0` is a prefix test. */
  lemma IndexOfZero(s: string, p: string)
    ensures IndexOf(s, p) == 0 <==> StartsWith(s, p)
  {
    assert StartsWith(s, p) <==> OccursAt(s, p, 0);
  }

  /** A string that does not start with a digit is no number, with or without
      a unit. */
  lemma NoDigitFirst(s: string)
    requires s != [] && !IsDigit(s[0])
    ensures !IsClockDigits(s)
    ensures !DigitsThen(s, "h") && !DigitsThen(s, "d") && !DigitsThen(s, "w")
    ensures !DigitsThen(s, "m") && !DigitsThen(s, "mo")
  {
    forall k | 0 < k <= |s| ensures !AllDigits(s[..k]) {
      assert s[..k][0] == s[0];
    }
  }

  /** A string that starts with a digit is neither an alias nor "tom ...". */
  lemma DigitFirst(s: string)
    requires s != [] && IsDigit(s[0])
    ensures s !in TomorrowAliases && s !in NextWeekAliases && !StartsWith(s, "tom ")
  {
    assert |s| < 4 || s[..4][0] == s[0];
  }

  /** A string whose last character is not a unit letter has no unit. */
  lemma NoUnitLast(s: string)
    requires s != [] && s[|s| - 1] !in "hdwmo"
    ensures !DigitsThen(s, "h") && !DigitsThen(s, "d") && !DigitsThen(s, "w")
    ensures !DigitsThen(s, "m") && !DigitsThen(s, "mo")
  {
    forall u | u in ["h", "d", "w", "m", "mo"] ensures !DigitsThen(s, u) {
      if |s| > |u| {
        assert s[|s| - |u|..][|u| - 1] == s[|s| - 1];
      }
    }
  }

  /** Strings no rule applies to pass through. */
  lemma RewriteLeavesPlain(w: string)
    requires !IsRewritable(w)
    ensures Rewrite(w) == w
  {
    IndexOfZero(w, "tom ");
  }

  /** "123" becomes "1:23", "1234" becomes "12:34", and nothing else
      happens to them. */
  lemma {:induction false} ClockDigitsGetColon(s: string)
    requires IsClockDigits(s)
    ensures Expand(s) == s[..|s| - 2] + ":" + s[|s| - 2..]
    ensures !IsShorthand(Expand(s))
  {
    var w := s[..|s| - 2] + ":" + s[|s| - 2..];
    assert w == InsertColon(s);
    assert w[|w| - 1] == s[|s| - 1] && w[0] == s[0];
    assert !AllDigits(w) by { assert w[|w| - 3] == ':'; }
    NoUnitLast(w);
    DigitFirst(w);
    RewriteLeavesPlain(w);
  }

  /** A unit form ends with the unit's last letter. */
  lemma DigitsThenLast(s: string, unit: string)
    requires DigitsThen(s, unit) && unit != []
    ensures s[|s| - 1] == unit[|unit| - 1]
  {
    assert s[|s| - |unit|..][|unit| - 1] == s[|s| - 1];
  }

  /** A unit form is no form of a unit ending in another letter. */
  lemma OtherUnitExcluded(s: string, unit: string, other: string)
    requires DigitsThen(s, unit) && unit != [] && other != []
    requires other[|other| - 1] != unit[|unit| - 1]
    ensures !DigitsThen(s, other)
  {
    if DigitsThen(s, other) {
      DigitsThenLast(s, other);
      DigitsThenLast(s, unit);
    }
  }

  /** A number with a unit is no bare clock time, and its leading digits are
      the number. */
  lemma UnitForm(digits: string, unit: string)
    requires digits != [] && AllDigits(digits)
    requires unit in ["h", "d", "w", "m", "mo"]
    ensures InsertColon(digits + unit) == digits + unit
    ensures DigitsThen(digits + unit, unit)
    ensures LeadingDigits(digits + unit) == digits
  {
    var s := digits + unit;
    assert !IsDigit(s[|digits|]);
    assert s[..|s| - |unit|] == digits && s[|s| - |unit|..] == unit;
    LeadingDigitsOf(digits, unit);
  }

  /** "<digits>h|d|w|m|mo" becomes "<the same digits> hours|days|weeks|months". */
  lemma {:induction false} UnitGetsSpelledOut(digits: string, unit: string)
    requires digits != [] && AllDigits(digits)
    requires unit in ["h", "d", "w", "m", "mo"]
    ensures Expand(digits + unit) == digits + UnitWord(unit)
  {
    var s := digits + unit;
    UnitForm(digits, unit);
    if unit == "h" {
      assert Rewrite(s) == digits + " hours";
    } else if unit == "d" {
      OtherUnitExcluded(s, unit, "h");
      assert Rewrite(s) == digits + " days";
    } else if unit == "w" {
      OtherUnitExcluded(s, unit, "h");
      OtherUnitExcluded(s, unit, "d");
      assert Rewrite(s) == digits + " weeks";
    } else {
      OtherUnitExcluded(s, unit, "h");
      OtherUnitExcluded(s, unit, "d");
      OtherUnitExcluded(s, unit, "w");
      assert Rewrite(s) == digits + " months";
    }
  }

  /** What the unit rule produces is plain. */
  lemma UnitFormIsPlain(digits: string, word: string)
    requires digits != [] && AllDigits(digits)
    requires word in [" hours", " days", " weeks", " months"]
    ensures !IsShorthand(digits + word)
  {
    var r := digits + word;
    assert r[|r| - 1] == 's' && r[0] == digits[0];
    assert !AllDigits(r) by { assert r[|digits|] == ' '; }
    NoUnitLast(r);
    DigitFirst(r);
  }

  /** "tom <rest>" becomes "tomorrow <rest>", the rest kept verbatim
      (except "tom " alone, which is an alias of "tomorrow morning"). */
  lemma {:induction false} TomPrefixRewritten(rest: string)
    requires rest != []
    ensures Expand("tom " + rest) == "tomorrow " + rest
  {
    var s := "tom " + rest;
    assert s[..4] == "tom ";
    NoDigitFirst(s);
    assert InsertColon(s) == s;
    assert s !in TomorrowAliases && s !in NextWeekAliases by {
      assert |s| > 4 && s[0] == 't';
    }
    IndexOfZero(s, "tom ");
    assert s[4..] == rest;
  }

  /** What the "tom " rule produces is plain. */
  lemma TomorrowFormIsPlain(rest: string)
    ensures !IsShorthand("tomorrow " + rest)
  {
    var r := "tomorrow " + rest;
    NoDigitFirst(r);
    assert r[..4][3] == 'o';
    assert r !in TomorrowAliases && r !in NextWeekAliases by {
      assert |r| >= 9 && r[0] == 't' && r[3] == 'o';
    }
  }

  /** The unit rule's outputs are plain. */
  lemma UnitBranchIsPlain(w: string)
    requires DigitsThen(w, "h") || DigitsThen(w, "d") || DigitsThen(w, "w")
          || DigitsThen(w, "m") || DigitsThen(w, "mo")
    ensures !IsShorthand(Rewrite(w))
  {
    var d := LeadingDigits(w);
    assert d != [] by { assert IsDigit(w[..|w| - 1][0]); }
    var r := Rewrite(w);
    UnitFormIsPlain(d, r[|d|..]);
  }

  /** The two alias phrases are plain. */
  lemma AliasPhrasesArePlain()
    ensures !IsShorthand("tomorrow morning") && !IsShorthand("next Monday")
  {
    TomorrowFormIsPlain("morning");
    assert "tomorrow morning" == "tomorrow " + "morning";
    var n := "next Monday";
    NoDigitFirst(n);
    assert n[..4][0] == 'n';
  }

  /** Past the unit rules, the alias and prefix rules in order. */
  lemma {:induction false} WordRules(w: string)
    requires !(DigitsThen(w, "h") || DigitsThen(w, "d") || DigitsThen(w, "w")
          || DigitsThen(w, "m") || DigitsThen(w, "mo"))
    ensures w in TomorrowAliases ==> Rewrite(w) == "tomorrow morning"
    ensures w !in TomorrowAliases && w in NextWeekAliases ==> Rewrite(w) == "next Monday"
    ensures w !in TomorrowAliases && w !in NextWeekAliases && StartsWith(w, "tom ") ==>
              Rewrite(w) == "tomorrow " + w[4..]
    ensures w !in TomorrowAliases && w !in NextWeekAliases && !StartsWith(w, "tom ") ==> Rewrite(w) == w
  {
    IndexOfZero(w, "tom ");
    if w !in TomorrowAliases && w !in NextWeekAliases && StartsWith(w, "tom ") {
      assert w == "tom " + w[4..];
      assert ReplaceFirst(w, "tom ", "tomorrow ") == "tomorrow " + w[4..];
    }
  }

  /** The alias and prefix rules' outputs, and the untouched strings, are plain. */
  lemma {:induction false} WordBranchIsPlain(w: string)
    requires !(DigitsThen(w, "h") || DigitsThen(w, "d") || DigitsThen(w, "w")
          || DigitsThen(w, "m") || DigitsThen(w, "mo"))
    requires !IsClockDigits(w)
    ensures !IsShorthand(Rewrite(w))
  {
    WordRules(w);
    if w in TomorrowAliases || w in NextWeekAliases {
      AliasPhrasesArePlain();
    } else if StartsWith(w, "tom ") {
      TomorrowFormIsPlain(w[4..]);
    }
  }

  /** No output of the expander is itself a shorthand form: the phrases it
      produces are final. */
  lemma {:induction false} ExpandedIsPlain(s: string)
    ensures !IsShorthand(Expand(s))
  {
    var w := InsertColon(s);
    if IsClockDigits(s) {
      ClockDigitsGetColon(s);
    } else if DigitsThen(w, "h") || DigitsThen(w, "d") || DigitsThen(w, "w")
           || DigitsThen(w, "m") || DigitsThen(w, "mo") {
      UnitBranchIsPlain(w);
    } else {
      WordBranchIsPlain(w);
    }
  }

  /** The expander leaves exactly the non-shorthand strings unchanged. */
  lemma {:induction false} UnchangedIffPlain(s: string)
    ensures Expand(s) == s <==> !IsShorthand(s)
  {
    ExpandedIsPlain(s);
    if !IsShorthand(s) {
      RewriteLeavesPlain(s);
    }
  }

  /** Expanding twice is expanding once. */
  lemma {:induction false} ExpandIdempotent(s: string)
    ensures Expand(Expand(s)) == Expand(s)
  {
    ExpandedIsPlain(s);
    UnchangedIffPlain(Expand(s));
  }

  /** The fixed aliases. */
  lemma {:induction false} AliasesExpand()
    ensures forall a :: a in TomorrowAliases ==> Expand(a) == "tomorrow morning"
    ensures forall a :: a in NextWeekAliases ==> Expand(a) == "next Monday"
  {
    forall a | a in TomorrowAliases + NextWeekAliases
      ensures InsertColon(a) == a && !DigitsThen(a, "h") && !DigitsThen(a, "d")
        && !DigitsThen(a, "w") && !DigitsThen(a, "m") && !DigitsThen(a, "mo")
      ensures a in TomorrowAliases ==> Rewrite(a) == "tomorrow morning"
      ensures a in NextWeekAliases ==> Rewrite(a) == "next Monday"
    {
      NoDigitFirst(a);
      WordRules(a);
    }
  }
}
