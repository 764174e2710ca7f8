/**
 * Flow scoring. The sentence-embedding search is external: for each role
 * (salutation, introduction, closing) it yields the index of the best
 * matching sentence and whether that best similarity clears the role's
 * threshold; for the body it yields the best similarity between the
 * sentences strictly between introduction and closing and the body anchors.
 */
module Flow {
  import opened TextOps
  import opened Rubric

  datatype Role = Role(index: nat, present: bool)

  datatype FlowEvidence = FlowEvidence(
    salutation: Role, intro: Role, closing: Role, bodySimilarity: real)

  /** A body segment needs a best similarity strictly above this. */
  const BodyThreshold: real := 0.25

  /** The length of Python's `sentences[i + 1 : c]` for a list of `n` sentences. */
  function MidWindowLength(n: nat, i: nat, c: nat): (r: nat)
    ensures r > 0 <==> i + 1 < c && i + 1 < n
  {
    var hi := if c < n then c else n;
    if hi > i + 1 then hi - i - 1 else 0
  }

  /**
   * Whether there is "meat" between introduction and closing: both present,
   * closing after introduction, a non-empty window between them, and that
   * window similar enough to the body anchors.
   */
  function HasBody(n: nat, ev: FlowEvidence): (r: bool)
    ensures r ==> ev.intro.present && ev.closing.present
    ensures r ==> ev.intro.index + 1 < ev.closing.index
    ensures r <==> (ev.intro.present && ev.closing.present
                    && ev.intro.index + 1 < ev.closing.index && ev.intro.index + 1 < n
                    && ev.bodySimilarity > BodyThreshold)
  {
    if ev.intro.present && ev.closing.present && ev.closing.index > ev.intro.index then
      if ev.closing.index - ev.intro.index >= 1 then
        MidWindowLength(n, ev.intro.index, ev.closing.index) > 0
        && ev.bodySimilarity > BodyThreshold
      else false
    else false
  }

  function IndexOrX(r: Role): string {
    if r.present then NatToString(r.index) else "X"
  }

  function DebugInfo(ev: FlowEvidence): string {
    "(Indices: Sal=" + IndexOrX(ev.salutation) + ", Intro=" + IndexOrX(ev.intro)
    + ", End=" + IndexOrX(ev.closing) + ")"
  }

  const SameSentencePrefix := "Disordered: Introduction and Closing are detected in same sentence. "

  /**
   * The flow score of a transcript with `n` sentences. The score is 5 for a
   * salutation and closing in order (with the introduction, when present,
   * between them, strictly before the closing) and 0 otherwise.
   */
  function FlowOf(n: nat, ev: FlowEvidence): (r: Scored)
    ensures r.score == 0 || r.score == 5
    ensures n == 0 ==> r == Scored(0, "No text")
    ensures !ev.salutation.present || !ev.closing.present ==> r.score == 0
    ensures n > 0 && ev.salutation.present && ev.closing.present && ev.intro.present ==>
      (r.score == 5 <==> ev.salutation.index <= ev.intro.index < ev.closing.index)
    ensures n > 0 && ev.salutation.present && ev.closing.present && ev.intro.present
            && ev.intro.index == ev.closing.index ==>
      r == Scored(0, SameSentencePrefix + DebugInfo(ev))
    ensures n > 0 && ev.salutation.present && ev.closing.present && !ev.intro.present ==>
      (r.score == 5 <==> ev.salutation.index < ev.closing.index)
    ensures r.score == 5 && !ev.intro.present ==> r.feedback == "Acceptable Flow"
    ensures r.feedback != "Good Flow"
    ensures r.feedback == "Perfect Flow" ==> r.score == 5 && HasBody(n, ev)
    ensures r.score == 5 && ev.intro.present ==> (r.feedback == "Perfect Flow" <==> HasBody(n, ev))
    ensures r.score == 5 && ev.intro.present && !HasBody(n, ev) ==> r.feedback == "Good Flow (Short body)"
  {
    if n == 0 then Scored(0, "No text")
    else
      var hasBody := HasBody(n, ev);
      var s, i, c := ev.salutation, ev.intro, ev.closing;
      var disordered := Scored(0, "Flow disordered. " + DebugInfo(ev));
      if s.present && c.present then
        if i.present then
          if s.index <= i.index < c.index then
            if hasBody then Scored(5, "Perfect Flow") else Scored(5, "Good Flow (Short body)")
          else if i.index == c.index then Scored(0, SameSentencePrefix + DebugInfo(ev))
          else disordered
        else if s.index < c.index then
          if hasBody then Scored(5, "Good Flow") else Scored(5, "Acceptable Flow")
        else disordered
      else disordered
  }
}
