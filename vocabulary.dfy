/**
 * Vocabulary scoring: the type-token ratio (distinct words over all words)
 * against fixed bands.
 */
module Vocabulary {
  import opened Rubric
  import opened Ratios

  /** `len(set(words))`. */
  function DistinctCount(words: seq<string>): nat {
    |set w | w in words|
  }

  /** The distinct words are never more than the words. */
  lemma {:induction false} DistinctAtMostTotal(words: seq<string>)
    ensures DistinctCount(words) <= |words|
    ensures |words| > 0 ==> DistinctCount(words) >= 1
  {
    if |words| > 0 {
      DistinctAtMostTotal(words[1..]);
      assert (set w | w in words) == (set w | w in words[1..]) + {words[0]};
    }
  }

  /** `distinct / total if total > 0 else 0`. */
  function TypeTokenRatio(words: seq<string>): (r: real)
    ensures 0.0 <= r <= 1.0
  {
    if |words| > 0 then
      DistinctAtMostTotal(words);
      QuotientTimesDenominator(DistinctCount(words), |words|);
      ScaleComparisons(DistinctCount(words) as real / |words| as real, 1.0, |words| as real);
      DistinctCount(words) as real / |words| as real
    else 0.0
  }

  /** Bands closed below at 0.9, 0.7, 0.5 and 0.3. */
  function VocabularyBand(ttr: real): (r: Scored)
    ensures r.score in {2, 4, 6, 8, 10}
    ensures r.score == 10 <==> ttr >= 0.9
    ensures r.score == 8 <==> 0.7 <= ttr < 0.9
    ensures r.score == 6 <==> 0.5 <= ttr < 0.7
    ensures r.score == 4 <==> 0.3 <= ttr < 0.5
    ensures r.score == 2 <==> ttr < 0.3
  {
    if ttr >= 0.9 then Scored(10, "Excellent variety")
    else if ttr >= 0.7 then Scored(8, "Good variety")
    else if ttr >= 0.5 then Scored(6, "Average variety")
    else if ttr >= 0.3 then Scored(4, "Repetitive")
    else Scored(2, "Very repetitive")
  }

  /** The vocabulary scorer's verdict on the word list. */
  function VocabularyOf(words: seq<string>): (r: Scored)
    ensures r.score in {2, 4, 6, 8, 10}
    ensures |words| == 0 ==> r == Scored(2, "Very repetitive")
  {
    VocabularyBand(TypeTokenRatio(words))
  }

  /**
   * The bands without division: with `d` distinct words among `w`, 10 exactly
   * when `10 d >= 9 w`, 8 when `7 w <= 10 d < 9 w`, 6 when `5 w <= 10 d < 7 w`,
   * 4 when `3 w <= 10 d < 5 w`, and 2 for an empty list or `10 d < 3 w`.
   */
  lemma VocabularyByCounts(words: seq<string>)
    ensures var d, w, s := DistinctCount(words), |words|, VocabularyOf(words).score;
      && (s == 10 <==> w > 0 && 10 * d >= 9 * w)
      && (s == 8 <==> w > 0 && 7 * w <= 10 * d < 9 * w)
      && (s == 6 <==> w > 0 && 5 * w <= 10 * d < 7 * w)
      && (s == 4 <==> w > 0 && 3 * w <= 10 * d < 5 * w)
      && (s == 2 <==> w == 0 || 10 * d < 3 * w)
  {
    var d, w := DistinctCount(words), |words|;
    if w > 0 {
      var t := TypeTokenRatio(words);
      QuotientTimesDenominator(d, w);
      EdgeByCounts(t, 1.0, d as real, w as real, 0.9);
      EdgeByCounts(t, 1.0, d as real, w as real, 0.7);
      EdgeByCounts(t, 1.0, d as real, w as real, 0.5);
      EdgeByCounts(t, 1.0, d as real, w as real, 0.3);
      assert (10 * d) as real == 10.0 * d as real;
      assert (9 * w) as real == 9.0 * w as real && (7 * w) as real == 7.0 * w as real;
      assert (5 * w) as real == 5.0 * w as real && (3 * w) as real == 3.0 * w as real;
    }
  }
}
