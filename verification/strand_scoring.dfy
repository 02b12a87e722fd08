/** The strand classifier: three count totals, from quantifications run
    without strand flag (`un`), with `--rf-stranded` (`rf`) and with
    `--fr-stranded` (`fr`), are turned into one of three labels by a
    first-match-wins rule over their ratios. */
module StrandScoring {
  import opened Results

  /** The three labels the classifier can produce. */
  datatype Label = Stranded | Reverse | Unstranded

  /** Threshold below which `rf / fr` counts as "rf reads are rare". */
  const Low: real := 0.3
  /** Threshold above which a ratio counts as "clearly larger". */
  const High: real := 3.0

  /** The string the scripts store in the `strand` column. */
  function Name(l: Label): (s: string)
    ensures s in {"stranded", "reverse", "unstranded"}
  {
    match l
    case Stranded => "stranded"
    case Reverse => "reverse"
    case Unstranded => "unstranded"
  }

  /** Reads a `strand` column entry back into a label. */
  function Parse(s: string): (r: Option<Label>)
    ensures r.Some? <==> s in {"stranded", "reverse", "unstranded"}
  {
    if s == "stranded" then Some(Stranded)
    else if s == "reverse" then Some(Reverse)
    else if s == "unstranded" then Some(Unstranded)
    else None
  }

  /** The label names are a faithful encoding: each parses back to its label. */
  lemma NameRoundTrip(l: Label)
    ensures Parse(Name(l)) == Some(l)
  {
  }

  /** Every division the classifier performs has a non-zero divisor: `fr`
      always, and `rf` only when the first comparison of the first rule
      holds, because `and` does not evaluate its right side otherwise. */
  predicate Defined(un: real, rf: real, fr: real) {
    fr != 0.0 && (rf / fr < Low ==> rf != 0.0)
  }

  /** The classifier: rule 1 ("stranded"), else rule 2 ("reverse"), else
      "unstranded". Used by both scripts. */
  function Score(un: real, rf: real, fr: real): (r: Label)
    requires Defined(un, rf, fr)
    ensures r == Stranded <==> rf / fr < Low && un / rf > High
    ensures r == Reverse <==> rf / fr > High && un / fr > High
    ensures r == Unstranded <==>
              !(rf / fr < Low && un / rf > High) && !(rf / fr > High && un / fr > High)
  {
    if rf / fr < Low && un / rf > High then Stranded
    else if rf / fr > High && un / fr > High then Reverse
    else Unstranded
  }

  /** An independent reference: the rules tried in the opposite order. */
  function ScoreReverseFirst(un: real, rf: real, fr: real): Label
    requires Defined(un, rf, fr)
  {
    if rf / fr > High && un / fr > High then Reverse
    else if rf / fr < Low && un / rf > High then Stranded
    else Unstranded
  }

  /** The two rules never both hold, so the order they are tried in does
      not change the label. */
  lemma BranchOrderIrrelevant(un: real, rf: real, fr: real)
    requires Defined(un, rf, fr)
    ensures ScoreReverseFirst(un, rf, fr) == Score(un, rf, fr)
    ensures !(rf / fr < Low && rf / fr > High)
  {
  }

  /** The short-circuit precondition is, in the end, just "both `rf` and
      `fr` are non-zero": a zero `rf` makes `rf / fr` zero, which is below
      the low threshold, so the second division is then reached. */
  lemma DefinedIffNonZero(un: real, rf: real, fr: real)
    ensures Defined(un, rf, fr) <==> fr != 0.0 && rf != 0.0
  {
  }

  /** The classifier with the script's failure mode: Python evaluates the
      divisions left to right and raises on a zero divisor. */
  function ScoreChecked(un: real, rf: real, fr: real): (r: Result<Label>)
    ensures r.Err? <==> fr == 0.0 || rf == 0.0
    ensures r.Err? ==> r.error == ZeroDivision
    ensures r.Ok? ==> Defined(un, rf, fr) && r.value == Score(un, rf, fr)
  {
    if fr == 0.0 then Err(ZeroDivision)           // `rfcts / frcts`
    else if rf / fr < Low && rf == 0.0 then Err(ZeroDivision)  // `uncts / rfcts`
    else Ok(Score(un, rf, fr))
  }

  /** The comparisons are strict: a ratio exactly at a threshold does not
      fire the rule it guards. */
  lemma StrictBoundaries(un: real, rf: real, fr: real)
    requires fr != 0.0
    ensures rf == Low * fr ==> Defined(un, rf, fr) && Score(un, rf, fr) != Stranded
    ensures rf == High * fr ==> Defined(un, rf, fr) && Score(un, rf, fr) != Reverse
    ensures un == High * fr && rf != 0.0 ==> Score(un, rf, fr) != Reverse
  {
  }

  /** For positive totals the rules can be read without division. */
  lemma ScoreCrossMultiplied(un: real, rf: real, fr: real)
    requires rf > 0.0 && fr > 0.0
    ensures Defined(un, rf, fr)
    ensures Score(un, rf, fr) == Stranded <==> 10.0 * rf < 3.0 * fr && un > 3.0 * rf
    ensures Score(un, rf, fr) == Reverse <==> rf > 3.0 * fr && un > 3.0 * fr
  {
    RatioBelow(rf, fr, Low);
    RatioAbove(rf, fr, High);
    RatioAbove(un, rf, High);
    RatioAbove(un, fr, High);
  }

  /** `a / b < t` is `a < t * b` when `b` is positive. */
  lemma RatioBelow(a: real, b: real, t: real)
    requires b > 0.0
    ensures a / b < t <==> a < t * b
  {
  }

  /** `a / b > t` is `a > t * b` when `b` is positive. */
  lemma RatioAbove(a: real, b: real, t: real)
    requires b > 0.0
    ensures a / b > t <==> a > t * b
  {
  }

  /** The three worked examples: (un, rf, fr) = (100, 10, 50), (100, 60, 10)
      and (10, 10, 10). */
  lemma WorkedExamples()
    ensures ScoreChecked(100.0, 10.0, 50.0) == Ok(Stranded)
    ensures ScoreChecked(100.0, 60.0, 10.0) == Ok(Reverse)
    ensures ScoreChecked(10.0, 10.0, 10.0) == Ok(Unstranded)
    ensures ScoreChecked(10.0, 0.0, 10.0) == Err(ZeroDivision)
  {
  }
}
