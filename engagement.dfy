/**
 * Engagement scoring. The sentiment analyser is external; its compound
 * polarity arrives as a real.
 */
module Engagement {
  import opened TextOps
  import opened Rubric

  /** The compound polarity mapped from [-1, 1] onto [0, 1]. */
  function Probability(compound: real): (r: real)
    ensures -1.0 <= compound <= 1.0 ==> 0.0 <= r <= 1.0
  {
    (compound + 1.0) / 2.0
  }

  /** Some high-energy keyword occurs in the lower-cased transcript. */
  predicate HasEnthusiasm(text: string) {
    exists k :: 0 <= k < |HighEnergyKeywords| && Contains(Lower(text), HighEnergyKeywords[k])
  }

  const EnthusiasmCap: real := 0.88

  /** The probability, capped to 0.88 when it is at least 0.9 without enthusiastic words. */
  function CappedProbability(text: string, compound: real): (p: real)
    ensures p <= Probability(compound)
    ensures !HasEnthusiasm(text) ==> p < 0.9
  {
    var p := Probability(compound);
    if p >= 0.9 && !HasEnthusiasm(text) then EnthusiasmCap else p
  }

  /** Bands closed below at 0.9, 0.7, 0.5 and 0.3. */
  function EngagementBand(p: real): (r: Scored)
    ensures r.score in {3, 6, 9, 12, 15}
    ensures r.score == 15 <==> p >= 0.9
    ensures r.score == 12 <==> 0.7 <= p < 0.9
    ensures r.score == 9 <==> 0.5 <= p < 0.7
    ensures r.score == 6 <==> 0.3 <= p < 0.5
    ensures r.score == 3 <==> p < 0.3
  {
    if p >= 0.9 then Scored(15, "Very Engaging")
    else if p >= 0.7 then Scored(12, "Positive")
    else if p >= 0.5 then Scored(9, "Neutral")
    else if p >= 0.3 then Scored(6, "Slightly Negative")
    else Scored(3, "Negative")
  }

  /** The engagement scorer's verdict. */
  function EngagementOf(text: string, compound: real): (r: Scored)
    ensures r.score in {3, 6, 9, 12, 15}
    ensures r.score == 15 ==> HasEnthusiasm(text)
    ensures !HasEnthusiasm(text) && Probability(compound) >= 0.9 ==> r == Scored(12, "Positive")
  {
    EngagementBand(CappedProbability(text, compound))
  }

  /**
   * The bands on the compound polarity itself: 15 exactly when it is at
   * least 0.8 and an enthusiastic word occurs; 12 for [0.4, 0.8), or for 0.8
   * and above without one; 9 for [0, 0.4); 6 for [-0.4, 0); 3 below -0.4.
   */
  lemma EngagementByCompound(text: string, c: real)
    ensures var s := EngagementOf(text, c).score;
      && (s == 15 <==> c >= 0.8 && HasEnthusiasm(text))
      && (s == 12 <==> (0.4 <= c < 0.8 || (c >= 0.8 && !HasEnthusiasm(text))))
      && (s == 9 <==> 0.0 <= c < 0.4)
      && (s == 6 <==> -0.4 <= c < 0.0)
      && (s == 3 <==> c < -0.4)
  {
  }
}
