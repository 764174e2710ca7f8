/**
 * Salutation scoring: a case-insensitive substring search of the transcript
 * for the rubric's excellent, good and normal greeting phrases, in that
 * priority order.
 */
module Salutation {
  import opened TextOps
  import opened Rubric

  /** Some phrase of `phrases` occurs in `t`. */
  predicate AnyMatch(t: string, phrases: seq<string>) {
    exists j :: 0 <= j < |phrases| && Contains(t, phrases[j])
  }

  /** The index of the first phrase of `phrases` (in list order) that occurs in `t`. */
  function FirstMatch(t: string, phrases: seq<string>): (r: Option<nat>)
    ensures r.None? <==> !AnyMatch(t, phrases)
    ensures r.Some? ==> r.value < |phrases| && Contains(t, phrases[r.value])
    ensures r.Some? ==> forall j :: 0 <= j < r.value ==> !Contains(t, phrases[j])
  {
    if |phrases| == 0 then None
    else if Contains(t, phrases[0]) then Some(0)
    else
      match FirstMatch(t, phrases[1..])
      case None =>
        assert forall j :: 1 <= j < |phrases| ==> phrases[j] == phrases[1..][j - 1];
        None
      case Some(k) => Some(k + 1)
  }

  const BasicFeedback := "Basic salutation used (Hi/Hello). Try to be more formal."
  const NoneFeedback := "No salutation found."

  /**
   * The score and feedback of the salutation scorer. The highest tier with a
   * phrase in the lower-cased transcript decides the score, and the first
   * phrase of that tier in list order is named in the feedback.
   */
  function SalutationOf(text: string): (r: Scored)
    ensures r.score in {0, 2, 4, 5}
    ensures r.score == 5 <==> AnyMatch(Lower(text), ExcellentSalutations)
    ensures r.score == 4 <==>
      !AnyMatch(Lower(text), ExcellentSalutations) && AnyMatch(Lower(text), GoodSalutations)
    ensures r.score == 2 <==>
      !AnyMatch(Lower(text), ExcellentSalutations) && !AnyMatch(Lower(text), GoodSalutations)
      && AnyMatch(Lower(text), NormalSalutations)
    ensures r.score == 5 ==> (exists k :: 0 <= k < |ExcellentSalutations|
                               && Contains(Lower(text), ExcellentSalutations[k])
                               && (forall j :: 0 <= j < k ==> !Contains(Lower(text), ExcellentSalutations[j]))
                               && r.feedback == "Excellent salutation used: '" + ExcellentSalutations[k] + "'")
    ensures r.score == 4 ==> (exists k :: 0 <= k < |GoodSalutations|
                               && Contains(Lower(text), GoodSalutations[k])
                               && (forall j :: 0 <= j < k ==> !Contains(Lower(text), GoodSalutations[j]))
                               && r.feedback == "Good salutation used: '" + GoodSalutations[k] + "'")
    ensures r.score == 2 ==> r.feedback == BasicFeedback
    ensures r.score == 0 ==> r.feedback == NoneFeedback
  {
    var t := Lower(text);
    match FirstMatch(t, ExcellentSalutations)
    case Some(k) => Scored(5, "Excellent salutation used: '" + ExcellentSalutations[k] + "'")
    case None =>
      match FirstMatch(t, GoodSalutations)
      case Some(k) => Scored(4, "Good salutation used: '" + GoodSalutations[k] + "'")
      case None =>
        if FirstMatch(t, NormalSalutations).Some? then Scored(2, BasicFeedback)
        else Scored(0, NoneFeedback)
  }

  /**
   * The normal tier is a plain substring test, so "hi" fires inside any word
   * containing it: a transcript with "this" and no higher-tier phrase scores 2.
   */
  lemma ThisCountsAsBasicSalutation(text: string)
    requires Contains(Lower(text), "this")
    requires !AnyMatch(Lower(text), ExcellentSalutations)
    requires !AnyMatch(Lower(text), GoodSalutations)
    ensures SalutationOf(text).score == 2
  {
    var t := Lower(text);
    ContainsIff(t, "this");
    var i :| OccursAt(t, "this", i);
    var w := t[i..i + 4];
    assert w == "this";
    assert w[1] == 'h' && w[2] == 'i';
    assert t[i + 1..i + 3] == [w[1], w[2]] == "hi";
    assert OccursAt(t, "hi", i + 1);
    ContainsIff(t, "hi");
    assert Contains(t, NormalSalutations[0]);
  }
}
