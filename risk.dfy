/** The risk banding of app.py: the model's output probability is compared
    with two fixed cut points, giving one of three levels, each shown with a
    CSS class and a label. */
module Risk {

  /** The three levels the script can report. */
  datatype Level = NoRisk | LowRisk | HighRisk

  /** Probabilities below this are no risk. */
  const LowCut: real := 0.20
  /** Probabilities from this up are high risk. */
  const HighCut: real := 0.50

  /** The CSS class the result box is styled with. */
  function RiskClass(l: Level): (c: string)
    ensures c in StyledClasses
  {
    match l
    case NoRisk => "green"
    case LowRisk => "yellow"
    case HighRisk => "red"
  }

  /** The text shown in the result box. */
  function Label(l: Level): (text: string)
    ensures |text| > 5 && text[|text| - 5..] == " RISK"
  {
    match l
    case NoRisk => "NO RISK"
    case LowRisk => "LOW RISK"
    case HighRisk => "HIGH RISK"
  }

  /** The classes the page's stylesheet defines for the result box. */
  const StyledClasses: set<string> := {"green", "yellow", "red"}

  /** How serious a level is: 0, 1, 2 from no risk to high risk. */
  function Severity(l: Level): (s: nat)
    ensures s <= 2
    ensures s == 0 <==> l == NoRisk
    ensures s == 2 <==> l == HighRisk
  {
    match l
    case NoRisk => 0
    case LowRisk => 1
    case HighRisk => 2
  }

  /** The if/elif/else chain: below 0.20 no risk, below 0.50 low risk,
      otherwise high risk. Each lower bound is inclusive. */
  function Categorize(prob: real): (l: Level)
    ensures l == NoRisk <==> prob < LowCut
    ensures l == LowRisk <==> LowCut <= prob < HighCut
    ensures l == HighRisk <==> HighCut <= prob
  {
    if prob < LowCut then NoRisk
    else if prob < HighCut then LowRisk
    else HighRisk
  }

  /** The pair `(risk_class, label)` the chain assigns. */
  function Outcome(prob: real): (r: (string, string))
    ensures r.0 in StyledClasses
    ensures r.0 == "green" <==> prob < LowCut
    ensures r.0 == "red" <==> HighCut <= prob
  {
    LevelTexts();
    var l := Categorize(prob);
    (RiskClass(l), Label(l))
  }

  // ---------------------------------------------------------------------------
  // Properties
  // ---------------------------------------------------------------------------

  /** A higher probability never gives a lower level. */
  lemma CategorizeMonotone(p: real, q: real)
    requires p <= q
    ensures Severity(Categorize(p)) <= Severity(Categorize(q))
  {
  }

  /** A strictly higher level is only reached by a strictly higher probability. */
  lemma HigherLevelHigherProb(p: real, q: real)
    requires Severity(Categorize(p)) < Severity(Categorize(q))
    ensures p < q
  {
    if q <= p {
      CategorizeMonotone(q, p);
    }
  }

  /** Every probability, including ones outside [0, 1], gets exactly one of the
      three outcomes, and each outcome comes from one band only. */
  lemma OutcomeBands(prob: real)
    ensures Outcome(prob) == ("green", "NO RISK") <==> prob < LowCut
    ensures Outcome(prob) == ("yellow", "LOW RISK") <==> LowCut <= prob < HighCut
    ensures Outcome(prob) == ("red", "HIGH RISK") <==> HighCut <= prob
  {
    LevelTexts();
  }

  /** The cut points themselves fall in the upper band. */
  lemma CutsAreInclusiveBelow()
    ensures Categorize(LowCut) == LowRisk
    ensures Categorize(HighCut) == HighRisk
    ensures forall p :: p < LowCut ==> Categorize(p) == NoRisk
    ensures forall p :: LowCut <= p < HighCut ==> Categorize(p) == LowRisk
  {
  }

  /** Class and label each determine the level, and every class is one the
      stylesheet defines. */
  lemma LevelTexts()
    ensures forall l1, l2 :: RiskClass(l1) == RiskClass(l2) ==> l1 == l2
    ensures forall l1, l2 :: Label(l1) == Label(l2) ==> l1 == l2
    ensures forall l :: RiskClass(l) in StyledClasses
  {
    assert RiskClass(NoRisk) != RiskClass(LowRisk) by { assert "green"[0] != "yellow"[0]; }
    assert RiskClass(NoRisk) != RiskClass(HighRisk) by { assert "green"[0] != "red"[0]; }
    assert RiskClass(LowRisk) != RiskClass(HighRisk) by { assert "yellow"[0] != "red"[0]; }
    assert Label(NoRisk) != Label(LowRisk) by { assert "NO RISK"[0] != "LOW RISK"[0]; }
    assert Label(NoRisk) != Label(HighRisk) by { assert "NO RISK"[0] != "HIGH RISK"[0]; }
    assert Label(LowRisk) != Label(HighRisk) by { assert "LOW RISK"[0] != "HIGH RISK"[0]; }
  }

  /** Sample probabilities: 0.15 is no risk, 0.35 low, 0.80 high; just below a
      cut point stays in the lower band. */
  lemma CategorizeExamples()
    ensures Outcome(0.15) == ("green", "NO RISK")
    ensures Outcome(0.35) == ("yellow", "LOW RISK")
    ensures Outcome(0.80) == ("red", "HIGH RISK")
    ensures Categorize(0.19999) == NoRisk && Categorize(0.49999) == LowRisk
  {
  }
}
