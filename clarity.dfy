/**
 * Clarity scoring: the share of filler words among all words against fixed
 * bands.
 */
module Clarity {
  import opened TextOps
  import opened Rubric
  import opened Ratios

  /** The number of words that are, as a whole, one of the rubric's fillers. */
  function CountFillers(words: seq<string>): (r: nat)
    ensures r <= |words|
  {
    if |words| == 0 then 0
    else CountFillers(words[..|words| - 1]) + (if words[|words| - 1] in Fillers then 1 else 0)
  }

  function WithCount(verdict: string, fillers: nat): string {
    verdict + " (" + NatToString(fillers) + " fillers)"
  }

  /** The band of `fillers` fillers among `total` words. */
  function ClarityBand(fillers: nat, total: nat): (r: Scored)
    ensures r.score in {3, 6, 9, 12, 15}
    ensures total == 0 ==> r == Scored(15, WithCount("Clear speech", fillers))
  {
    var rate := PerHundred(fillers, total);
    if rate <= 3.0 then Scored(15, WithCount("Clear speech", fillers))
    else if rate <= 6.0 then Scored(12, WithCount("Mostly clear", fillers))
    else if rate <= 9.0 then Scored(9, WithCount("Some hesitation", fillers))
    else if rate <= 12.0 then Scored(6, WithCount("Hesitant", fillers))
    else Scored(3, WithCount("Distracted by fillers", fillers))
  }

  /**
   * The bands without division: 15 exactly when there are no words or
   * `100 f <= 3 w`, then 12, 9 and 6 while `100 f` stays within `6 w`, `9 w`
   * and `12 w`, and 3 beyond that.
   */
  lemma ClarityByCounts(f: nat, w: nat)
    ensures var s := ClarityBand(f, w).score;
      && (s == 15 <==> w == 0 || 100 * f <= 3 * w)
      && (s == 12 <==> w > 0 && 3 * w < 100 * f <= 6 * w)
      && (s == 9 <==> w > 0 && 6 * w < 100 * f <= 9 * w)
      && (s == 6 <==> w > 0 && 9 * w < 100 * f <= 12 * w)
      && (s == 3 <==> w > 0 && 12 * w < 100 * f)
  {
    if w > 0 {
      var t := PerHundred(f, w);
      QuotientTimesDenominator(f, w);
      assert t * w as real == 100.0 * f as real;
      RateToCounts(t, f as real, w as real);
      assert (100 * f) as real == 100.0 * f as real;
      assert (3 * w) as real == 3.0 * w as real && (6 * w) as real == 6.0 * w as real;
      assert (9 * w) as real == 9.0 * w as real && (12 * w) as real == 12.0 * w as real;
    }
  }

  /** Comparisons of the filler rate `t` against the band edges, when `t * w == 100 f`. */
  lemma RateToCounts(t: real, fr: real, wr: real)
    requires wr > 0.0 && t * wr == 100.0 * fr
    ensures t <= 3.0 <==> 100.0 * fr <= 3.0 * wr
    ensures t <= 6.0 <==> 100.0 * fr <= 6.0 * wr
    ensures t <= 9.0 <==> 100.0 * fr <= 9.0 * wr
    ensures t <= 12.0 <==> 100.0 * fr <= 12.0 * wr
  {
    EdgeByCounts(t, 100.0, fr, wr, 3.0);
    EdgeByCounts(t, 100.0, fr, wr, 6.0);
    EdgeByCounts(t, 100.0, fr, wr, 9.0);
    EdgeByCounts(t, 100.0, fr, wr, 12.0);
  }

  /** More fillers among the same words never raise the clarity score. */
  lemma ClarityNonIncreasing(f1: nat, f2: nat, w: nat)
    requires f1 <= f2
    ensures ClarityBand(f2, w).score <= ClarityBand(f1, w).score
  {
    ClarityByCounts(f1, w);
    ClarityByCounts(f2, w);
  }

  /** The clarity scorer's verdict on the word list. */
  function ClarityOf(words: seq<string>): (r: Scored)
    ensures r.score in {3, 6, 9, 12, 15}
    ensures |words| == 0 ==> r == Scored(15, "Clear speech (0 fillers)")
    ensures r.score == ClarityBand(CountFillers(words), |words|).score
  {
    ClarityBand(CountFillers(words), |words|)
  }
}
