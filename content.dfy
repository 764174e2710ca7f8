/**
 * Content & structure scoring. The regular-expression and sentence-embedding
 * checks are external; each topic arrives as evidence: whether its regular
 * expression matched the transcript, and the best cosine similarity between
 * the transcript's sentences and the topic's anchor phrases.
 */
module Content {
  import opened Rubric

  datatype TopicEvidence = TopicEvidence(regexHit: bool, bestSimilarity: real)

  /** Evidence for the five must-have topics and the five bonus topics. */
  datatype ContentEvidence = ContentEvidence(
    nameHit: bool, ageHit: bool, schoolHit: bool,
    family: TopicEvidence, hobbies: TopicEvidence,
    ambition: TopicEvidence, strength: TopicEvidence, unique: TopicEvidence,
    origin: TopicEvidence, achievements: TopicEvidence)

  /** A semantic match needs a best similarity strictly above this. */
  const SemanticThreshold: real := 0.35

  const MustHaveNames: seq<string> := ["Name", "Age", "School", "Family", "Hobbies"]
  /** Bonus topics in the order the source's dictionary lists them. */
  const BonusNames: seq<string> := ["Ambition", "Strength", "Unique", "Origin", "Achievements"]
  /** Whether each bonus topic may fall back to the semantic check (Origin may not). */
  const BonusUsesSemantic: seq<bool> := [true, true, true, false, true]

  /**
   * The regex-first topic check: a regex hit decides; otherwise, if the topic
   * allows it and there are sentences, the semantic similarity decides.
   */
  function CheckTopicRobust(ev: TopicEvidence, useAi: bool, hasSentences: bool): (r: bool)
    ensures ev.regexHit ==> r
    ensures !useAi ==> r == ev.regexHit
    ensures !hasSentences ==> r == ev.regexHit
    ensures r && !ev.regexHit ==> ev.bestSimilarity > SemanticThreshold
    ensures useAi && hasSentences && ev.bestSimilarity > SemanticThreshold ==> r
  {
    ev.regexHit || (useAi && hasSentences && ev.bestSimilarity > SemanticThreshold)
  }

  function BonusEvidence(e: ContentEvidence): seq<TopicEvidence> {
    [e.ambition, e.strength, e.unique, e.origin, e.achievements]
  }

  /** Which must-have topics matched, in the order Name, Age, School, Family, Hobbies. */
  function MustHaveHits(e: ContentEvidence, hasSentences: bool): (r: seq<bool>)
    ensures |r| == 5
    ensures r[0] == e.nameHit && r[1] == e.ageHit && r[2] == e.schoolHit
    ensures r[3] <==> e.family.regexHit || (hasSentences && e.family.bestSimilarity > SemanticThreshold)
    ensures r[4] <==> e.hobbies.regexHit || (hasSentences && e.hobbies.bestSimilarity > SemanticThreshold)
  {
    [e.nameHit, e.ageHit, e.schoolHit,
     CheckTopicRobust(e.family, true, hasSentences),
     CheckTopicRobust(e.hobbies, true, hasSentences)]
  }

  /** Which bonus topics matched, in dictionary order; Origin is regex-only. */
  function BonusHits(e: ContentEvidence, hasSentences: bool): (r: seq<bool>)
    ensures |r| == 5
    ensures r[3] == e.origin.regexHit
    ensures forall i :: 0 <= i < 5 ==>
      (r[i] <==> BonusEvidence(e)[i].regexHit
                 || (i != 3 && hasSentences && BonusEvidence(e)[i].bestSimilarity > SemanticThreshold))
  {
    seq(5, i requires 0 <= i < 5 =>
      CheckTopicRobust(BonusEvidence(e)[i], BonusUsesSemantic[i], hasSentences))
  }

  /** The number of `true` entries. */
  function CountTrue(bs: seq<bool>): nat {
    if |bs| == 0 then 0
    else CountTrue(bs[..|bs| - 1]) + (if bs[|bs| - 1] then 1 else 0)
  }

  lemma {:induction false} CountTrueAtMostLength(bs: seq<bool>)
    ensures CountTrue(bs) <= |bs|
  {
    if |bs| > 0 {
      CountTrueAtMostLength(bs[..|bs| - 1]);
    }
  }

  function OneIf(b: bool): nat { if b then 1 else 0 }

  /** `CountTrue` of a five-element sequence, written out. */
  lemma CountTrueOfFive(bs: seq<bool>)
    requires |bs| == 5
    ensures CountTrue(bs) == OneIf(bs[0]) + OneIf(bs[1]) + OneIf(bs[2]) + OneIf(bs[3]) + OneIf(bs[4])
  {
    assert bs[..4][..3] == bs[..3] && bs[..3][..2] == bs[..2] && bs[..2][..1] == bs[..1];
    assert CountTrue(bs[..1]) == OneIf(bs[0]);
    assert CountTrue(bs[..2]) == CountTrue(bs[..1]) + OneIf(bs[1]);
    assert CountTrue(bs[..3]) == CountTrue(bs[..2]) + OneIf(bs[2]);
    assert CountTrue(bs[..4]) == CountTrue(bs[..3]) + OneIf(bs[3]);
  }

  function Marker(hit: bool, name: string): string {
    (if hit then "[+] " else "[-] ") + name
  }

  /** One marker per must-have topic, matched or not. */
  function MustHaveMarkers(hits: seq<bool>): (r: seq<string>)
    requires |hits| <= |MustHaveNames|
    ensures |r| == |hits|
  {
    seq(|hits|, i requires 0 <= i < |hits| => Marker(hits[i], MustHaveNames[i]))
  }

  /** The must-have markers of five hits, written out. */
  lemma MustHaveMarkersOfFive(hits: seq<bool>)
    requires |hits| == 5
    ensures MustHaveMarkers(hits) == [Marker(hits[0], "Name"), Marker(hits[1], "Age"),
      Marker(hits[2], "School"), Marker(hits[3], "Family"), Marker(hits[4], "Hobbies")]
  {
  }

  /** A "[+] topic" marker for each matched bonus, in order; unmatched bonuses are silent. */
  function BonusMarkers(hits: seq<bool>, names: seq<string>): (r: seq<string>)
    requires |hits| == |names|
    ensures |r| == CountTrue(hits)
    ensures forall m :: m in r ==> exists i :: 0 <= i < |hits| && hits[i] && m == "[+] " + names[i]
  {
    if |hits| == 0 then []
    else
      var n := |hits| - 1;
      var prefix := BonusMarkers(hits[..n], names[..n]);
      if hits[n] then prefix + ["[+] " + names[n]] else prefix
  }

  /**
   * Each matched bonus has its marker, and the markers keep the bonuses'
   * order: the marker of bonus `i` sits after the markers of the matched
   * bonuses before it.
   */
  lemma {:induction false} BonusMarkersInOrder(hits: seq<bool>, names: seq<string>)
    requires |hits| == |names|
    ensures forall i :: 0 <= i < |hits| && hits[i] ==>
      CountTrue(hits[..i]) < |BonusMarkers(hits, names)|
      && BonusMarkers(hits, names)[CountTrue(hits[..i])] == "[+] " + names[i]
  {
    if |hits| > 0 {
      var n := |hits| - 1;
      BonusMarkersInOrder(hits[..n], names[..n]);
      var r := BonusMarkers(hits, names);
      var prefix := BonusMarkers(hits[..n], names[..n]);
      forall i | 0 <= i < |hits| && hits[i]
        ensures CountTrue(hits[..i]) < |r| && r[CountTrue(hits[..i])] == "[+] " + names[i]
      {
        if i < n {
          assert hits[..n][..i] == hits[..i];
          assert hits[..n][i] == hits[i] && names[..n][i] == names[i];
          assert r[..|prefix|] == prefix;
        } else {
          assert hits[..i] == hits[..n];
        }
      }
    }
  }

  /**
   * The raw points before the clamp: 4 per must-have and 2 per bonus, so at
   * most 5 * 4 + 5 * 2 = 30, and always even.
   */
  function RawContentPoints(e: ContentEvidence, hasSentences: bool): (r: int)
    ensures 0 <= r <= ContentCap
    ensures r % 2 == 0
  {
    CountTrueAtMostLength(MustHaveHits(e, hasSentences));
    CountTrueAtMostLength(BonusHits(e, hasSentences));
    MustHavePoints * CountTrue(MustHaveHits(e, hasSentences))
    + BonusPoints * CountTrue(BonusHits(e, hasSentences))
  }

  /** `min(30, raw)`: the clamp never binds, so the score is the raw points. */
  function ContentScore(e: ContentEvidence, hasSentences: bool): (r: int)
    ensures r == RawContentPoints(e, hasSentences)
    ensures 0 <= r <= ContentCap
  {
    var raw := RawContentPoints(e, hasSentences);
    if raw < ContentCap then raw else ContentCap
  }

  function ContentMarkers(e: ContentEvidence, hasSentences: bool): seq<string> {
    MustHaveMarkers(MustHaveHits(e, hasSentences))
    + BonusMarkers(BonusHits(e, hasSentences), BonusNames)
  }

  /** `m` is the marker of a bonus topic that matched. */
  predicate IsMatchedBonusMarker(e: ContentEvidence, hasSentences: bool, m: string) {
    exists j :: 0 <= j < 5 && BonusHits(e, hasSentences)[j] && m == "[+] " + BonusNames[j]
  }

  /** The feedback holds one marker per must-have topic in order, then only matched bonuses. */
  lemma ContentMarkersShape(e: ContentEvidence, hasSentences: bool)
    ensures |ContentMarkers(e, hasSentences)| == 5 + CountTrue(BonusHits(e, hasSentences))
    ensures forall i :: 0 <= i < 5 ==>
      ContentMarkers(e, hasSentences)[i] == Marker(MustHaveHits(e, hasSentences)[i], MustHaveNames[i])
    ensures forall i :: 5 <= i < |ContentMarkers(e, hasSentences)| ==>
      IsMatchedBonusMarker(e, hasSentences, ContentMarkers(e, hasSentences)[i])
    ensures forall j :: 0 <= j < 5 && BonusHits(e, hasSentences)[j] ==>
      5 + CountTrue(BonusHits(e, hasSentences)[..j]) < |ContentMarkers(e, hasSentences)|
      && ContentMarkers(e, hasSentences)[5 + CountTrue(BonusHits(e, hasSentences)[..j])] == "[+] " + BonusNames[j]
  {
    var ms := ContentMarkers(e, hasSentences);
    var bonus := BonusMarkers(BonusHits(e, hasSentences), BonusNames);
    BonusMarkersInOrder(BonusHits(e, hasSentences), BonusNames);
    forall i | 5 <= i < |ms|
      ensures IsMatchedBonusMarker(e, hasSentences, ms[i])
    {
      assert ms[i] == bonus[i - 5];
      assert bonus[i - 5] in bonus;
    }
  }

  /**
   * Adding a matching age phrase to a transcript without one, all other
   * evidence fixed, raises the content score by exactly 4.
   */
  lemma AgeAddsFour(e: ContentEvidence, hasSentences: bool)
    requires !e.ageHit
    ensures ContentScore(e.(ageHit := true), hasSentences) == ContentScore(e, hasSentences) + 4
  {
    var e' := e.(ageHit := true);
    assert BonusHits(e', hasSentences) == BonusHits(e, hasSentences);
    CountTrueOfFive(MustHaveHits(e, hasSentences));
    CountTrueOfFive(MustHaveHits(e', hasSentences));
  }
}
