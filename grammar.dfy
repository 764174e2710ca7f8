/**
 * Grammar scoring. The grammar checker is external; its answer arrives as a
 * `CheckResult`: either the ordered list of matches it reported, or the
 * message of the exception it raised.
 */
module Grammar {
  import opened TextOps
  import opened Rubric
  import opened Ratios

  /** One match of the grammar checker; `errorLength` is absent when the match has none. */
  datatype Match = Match(
    ruleId: string, message: string, replacements: seq<string>,
    offset: nat, errorLength: Option<nat>)

  datatype CheckResult = Success(matches: seq<Match>) | Failure(reason: string)

  /** The flagged span's length, 5 when the match does not carry one. */
  function SpanLength(m: Match): nat {
    match m.errorLength
    case Some(n) => n
    case None => 5
  }

  /** The flagged text `text[offset : offset + length]`. */
  function FlaggedText(text: string, m: Match): string {
    Slice(text, m.offset, SpanLength(m))
  }

  /**
   * A pure hyphenation suggestion: the top replacement contains a hyphen and,
   * with its hyphens removed, equals the flagged text with its spaces removed.
   */
  predicate IsHyphenationOnly(text: string, m: Match) {
    |m.replacements| > 0
    && Contains(m.replacements[0], "-")
    && RemoveChar(m.replacements[0], '-') == RemoveChar(FlaggedText(text, m), ' ')
  }

  /** The lower-cased message or rule id contains a stylistic keyword. */
  predicate HasIgnoreKeyword(m: Match) {
    exists k :: 0 <= k < |IgnoreKeywords| &&
      (Contains(Lower(m.message), IgnoreKeywords[k])
       || Contains(Lower(Upper(m.ruleId)), IgnoreKeywords[k]))
  }

  predicate IsIgnored(text: string, m: Match) {
    IsHyphenationOnly(text, m) || HasIgnoreKeyword(m)
  }

  /**
   * The hyphenation test in terms of characters: a top replacement exists,
   * holds a hyphen, and without its hyphens spells the flagged text without
   * its spaces.
   */
  lemma HyphenationOnlyIff(text: string, m: Match)
    ensures IsHyphenationOnly(text, m) <==>
      (|m.replacements| > 0 && '-' in m.replacements[0]
       && RemoveChar(m.replacements[0], '-') == RemoveChar(FlaggedText(text, m), ' '))
  {
    if |m.replacements| > 0 {
      ContainsChar(m.replacements[0], '-');
      assert "-" == ['-'];
    }
  }

  /**
   * The keyword test in terms of positions: some keyword occurs somewhere in
   * the lower-cased message or in the lower-cased rule id.
   */
  lemma IgnoreKeywordIff(m: Match)
    ensures HasIgnoreKeyword(m) <==>
      exists k, i :: 0 <= k < |IgnoreKeywords| &&
        (OccursAt(Lower(m.message), IgnoreKeywords[k], i)
         || OccursAt(Lower(Upper(m.ruleId)), IgnoreKeywords[k], i))
  {
    var msg, rid := Lower(m.message), Lower(Upper(m.ruleId));
    forall k | 0 <= k < |IgnoreKeywords|
      ensures Contains(msg, IgnoreKeywords[k]) <==> exists i :: OccursAt(msg, IgnoreKeywords[k], i)
      ensures Contains(rid, IgnoreKeywords[k]) <==> exists i :: OccursAt(rid, IgnoreKeywords[k], i)
    {
      ContainsIff(msg, IgnoreKeywords[k]);
      ContainsIff(rid, IgnoreKeywords[k]);
    }
  }

  /** The matches that count, in the checker's order. */
  function ScoringErrors(text: string, ms: seq<Match>): (r: seq<Match>)
    ensures |r| <= |ms|
  {
    if |ms| == 0 then []
    else
      var n := |ms| - 1;
      var prefix := ScoringErrors(text, ms[..n]);
      if IsIgnored(text, ms[n]) then prefix else prefix + [ms[n]]
  }

  /** The matches excluded as stylistic, in the checker's order. */
  function IgnoredIssues(text: string, ms: seq<Match>): (r: seq<Match>)
    ensures |r| <= |ms|
  {
    if |ms| == 0 then []
    else
      var n := |ms| - 1;
      var prefix := IgnoredIssues(text, ms[..n]);
      if IsIgnored(text, ms[n]) then prefix + [ms[n]] else prefix
  }

  /**
   * A match is a scoring error exactly when it was reported and is neither a
   * hyphenation suggestion nor carries a stylistic keyword, and an ignored
   * issue exactly when it was reported and is one of those.
   */
  lemma {:induction false} FilterMembership(text: string, ms: seq<Match>)
    ensures forall m :: m in ScoringErrors(text, ms) <==>
      m in ms && !(IsHyphenationOnly(text, m) || HasIgnoreKeyword(m))
    ensures forall m :: m in IgnoredIssues(text, ms) <==>
      m in ms && (IsHyphenationOnly(text, m) || HasIgnoreKeyword(m))
  {
    if |ms| > 0 {
      var n := |ms| - 1;
      FilterMembership(text, ms[..n]);
      assert ms == ms[..n] + [ms[n]];
      forall m ensures m in ms <==> m in ms[..n] || m == ms[n] {
      }
    }
  }

  /** Every match lands in exactly one of the two lists. */
  lemma {:induction false} FilterPartition(text: string, ms: seq<Match>)
    ensures multiset(ScoringErrors(text, ms)) + multiset(IgnoredIssues(text, ms)) == multiset(ms)
    ensures |ScoringErrors(text, ms)| + |IgnoredIssues(text, ms)| == |ms|
  {
    if |ms| > 0 {
      var n := |ms| - 1;
      FilterPartition(text, ms[..n]);
      assert ms == ms[..n] + [ms[n]];
      if IsIgnored(text, ms[n]) {
        assert IgnoredIssues(text, ms) == IgnoredIssues(text, ms[..n]) + [ms[n]];
      } else {
        assert ScoringErrors(text, ms) == ScoringErrors(text, ms[..n]) + [ms[n]];
      }
    }
  }

  /** Appending one match extends the list by that match when it is not ignored. */
  lemma ScoringErrorsSnoc(text: string, ms: seq<Match>, x: Match)
    ensures ScoringErrors(text, ms + [x]) == ScoringErrors(text, ms) + (if IsIgnored(text, x) then [] else [x])
  {
    assert (ms + [x])[..|ms|] == ms;
  }

  /**
   * The scoring errors keep the checker's order: filtering a concatenation
   * is the concatenation of the filtered parts.
   */
  lemma {:induction false} ScoringErrorsKeepOrder(text: string, a: seq<Match>, b: seq<Match>)
    ensures ScoringErrors(text, a + b) == ScoringErrors(text, a) + ScoringErrors(text, b)
  {
    if |b| == 0 {
      assert a + b == a;
    } else {
      var n := |b| - 1;
      ScoringErrorsKeepOrder(text, a, b[..n]);
      assert b == b[..n] + [b[n]];
      assert a + b == (a + b[..n]) + [b[n]];
      ScoringErrorsSnoc(text, a + b[..n], b[n]);
      ScoringErrorsSnoc(text, b[..n], b[n]);
    }
  }

  /** Appending one match extends the list by that match when it is ignored. */
  lemma IgnoredIssuesSnoc(text: string, ms: seq<Match>, x: Match)
    ensures IgnoredIssues(text, ms + [x]) == IgnoredIssues(text, ms) + (if IsIgnored(text, x) then [x] else [])
  {
    assert (ms + [x])[..|ms|] == ms;
  }

  /** The ignored issues keep the checker's order in the same way. */
  lemma {:induction false} IgnoredIssuesKeepOrder(text: string, a: seq<Match>, b: seq<Match>)
    ensures IgnoredIssues(text, a + b) == IgnoredIssues(text, a) + IgnoredIssues(text, b)
  {
    if |b| == 0 {
      assert a + b == a;
    } else {
      var n := |b| - 1;
      IgnoredIssuesKeepOrder(text, a, b[..n]);
      assert b == b[..n] + [b[n]];
      assert a + b == (a + b[..n]) + [b[n]];
      IgnoredIssuesSnoc(text, a + b[..n], b[n]);
      IgnoredIssuesSnoc(text, b[..n], b[n]);
    }
  }

  function MinReal(x: real, y: real): real {
    if x < y then x else y
  }

  /** The linear penalty `1 - min(errors_per_100 / 5, 1)`. */
  function GrammarMetric(errors: nat, words: nat): (r: real)
    ensures 0.0 <= r <= 1.0
    ensures errors == 0 || words == 0 ==> r == 1.0
    ensures words > 0 && 20 * errors >= words ==> r == 0.0
  {
    1.0 - MinReal(PerHundred(errors, words) / 5.0, 1.0)
  }

  /** The band (score and label) of a metric value. */
  function GrammarBand(metric: real): (r: Scored)
    ensures r.score in {2, 4, 6, 8, 10}
    ensures r.score == 10 <==> metric > 0.9
    ensures r.score == 8 <==> 0.7 <= metric <= 0.9
    ensures r.score == 6 <==> 0.5 <= metric < 0.7
    ensures r.score == 4 <==> 0.3 <= metric < 0.5
    ensures r.score == 2 <==> metric < 0.3
  {
    if metric > 0.9 then Scored(10, "Flawless")
    else if metric >= 0.7 then Scored(8, "Good")
    else if metric >= 0.5 then Scored(6, "Average")
    else if metric >= 0.3 then Scored(4, "Needs Improvement")
    else Scored(2, "Poor")
  }

  /** The bands in terms of `t = errors_per_100 / 5`. */
  lemma BandByRatio(t: real)
    requires t >= 0.0
    ensures var s := GrammarBand(1.0 - MinReal(t, 1.0)).score;
      && (s == 10 <==> t < 0.1)
      && (s == 8 <==> 0.1 <= t <= 0.3)
      && (s == 6 <==> 0.3 < t <= 0.5)
      && (s == 4 <==> 0.5 < t <= 0.7)
      && (s == 2 <==> 0.7 < t)
  {
  }

  /**
   * The grammar bands without division: with `e` scoring errors among `w`
   * words, 10 exactly when there are no words or `200 e < w`, then 8, 6 and 4
   * while `200 e` stays within `3 w`, `5 w` and `7 w`, and 2 beyond that.
   */
  lemma GrammarBandByCounts(e: nat, w: nat)
    ensures var s := GrammarBand(GrammarMetric(e, w)).score;
      && (s == 10 <==> w == 0 || 200 * e < w)
      && (s == 8 <==> w > 0 && w <= 200 * e <= 3 * w)
      && (s == 6 <==> w > 0 && 3 * w < 200 * e <= 5 * w)
      && (s == 4 <==> w > 0 && 5 * w < 200 * e <= 7 * w)
      && (s == 2 <==> w > 0 && 7 * w < 200 * e)
  {
    if w > 0 {
      var t := PerHundred(e, w) / 5.0;
      RatioTimesWords(e, w);
      BandByRatio(t);
      RatioToCounts(t, e as real, w as real);
      assert (200 * e) as real == 200.0 * e as real;
      assert (3 * w) as real == 3.0 * w as real;
      assert (5 * w) as real == 5.0 * w as real;
      assert (7 * w) as real == 7.0 * w as real;
    }
  }

  /** `errors_per_100 / 5` times the word count is twenty times the error count. */
  lemma RatioTimesWords(e: nat, w: nat)
    requires w > 0
    ensures PerHundred(e, w) / 5.0 >= 0.0
    ensures (PerHundred(e, w) / 5.0) * (w as real) == 20.0 * e as real
  {
    var q := e as real / w as real;
    QuotientTimesDenominator(e, w);
    assert PerHundred(e, w) / 5.0 == 20.0 * q;
  }

  /** Comparisons of `t` against the band edges, when `t * w == 20 e`. */
  lemma RatioToCounts(t: real, er: real, wr: real)
    requires wr > 0.0 && t * wr == 20.0 * er
    ensures t < 0.1 <==> 200.0 * er < wr
    ensures t <= 0.3 <==> 200.0 * er <= 3.0 * wr
    ensures t <= 0.5 <==> 200.0 * er <= 5.0 * wr
    ensures t <= 0.7 <==> 200.0 * er <= 7.0 * wr
  {
    EdgeByCounts(t, 20.0, er, wr, 0.1);
    EdgeByCounts(t, 20.0, er, wr, 0.3);
    EdgeByCounts(t, 20.0, er, wr, 0.5);
    EdgeByCounts(t, 20.0, er, wr, 0.7);
  }

  /** More scoring errors over the same words never raise the grammar score. */
  lemma GrammarNonIncreasing(e1: nat, e2: nat, w: nat)
    requires e1 <= e2
    ensures GrammarBand(GrammarMetric(e2, w)).score <= GrammarBand(GrammarMetric(e1, w)).score
  {
    GrammarBandByCounts(e1, w);
    GrammarBandByCounts(e2, w);
  }

  const ExclusionNote := "NOTE: Spelling, hyphens, punctuation, and style ignored."

  /** `text[offset : offset + length + 10]` with newlines turned into spaces. */
  function Context(text: string, m: Match): string {
    ReplaceChar(Slice(text, m.offset, SpanLength(m) + 10), '\n', ' ')
  }

  function IssueLine(text: string, m: Match): string {
    "   - " + m.message + " (Context: '..." + Context(text, m) + "...')"
  }

  function IssueLines(text: string, ms: seq<Match>): (r: seq<string>)
    ensures |r| == |ms|
  {
    seq(|ms|, i requires 0 <= i < |ms| => IssueLine(text, ms[i]))
  }

  /** Python's `ms[:3]`. */
  function FirstThree(ms: seq<Match>): (r: seq<Match>)
    ensures |r| <= 3
    ensures |r| == if |ms| < 3 then |ms| else 3
    ensures r <= ms
    ensures |ms| <= 3 ==> r == ms
  {
    if |ms| <= 3 then ms else ms[..3]
  }

  function ErrorsHeading(scoring: seq<Match>): string {
    if |scoring| > 0 then "\n[CRITICAL GRAMMAR ERRORS] (" + NatToString(|scoring|) + " found):"
    else "\n[CRITICAL GRAMMAR ERRORS]: None."
  }

  /** The feedback lines: verdict, exclusion note, then up to three of each list. */
  function GrammarLines(text: string, scoring: seq<Match>, ignored: seq<Match>, band: Scored): (r: seq<string>)
    ensures 3 + |FirstThree(scoring)| <= |r| <= 10
    ensures r[1] == ExclusionNote
    ensures r[3..3 + |FirstThree(scoring)|] == IssueLines(text, FirstThree(scoring))
    ensures |ignored| == 0 ==> |r| == 3 + |FirstThree(scoring)|
    ensures |ignored| > 0 ==>
      |r| == 4 + |FirstThree(scoring)| + |FirstThree(ignored)|
      && r[4 + |FirstThree(scoring)|..] == IssueLines(text, FirstThree(ignored))
  {
    var head := [band.feedback + " (Score: " + IntToString(band.score) + "/10)", ExclusionNote, ErrorsHeading(scoring)];
    var errors := if |scoring| > 0 then IssueLines(text, FirstThree(scoring)) else [];
    var ignoredBlock :=
      if |ignored| > 0
      then ["\n[IGNORED ISSUES] (" + NatToString(|ignored|) + " found):"] + IssueLines(text, FirstThree(ignored))
      else [];
    assert errors == IssueLines(text, FirstThree(scoring));
    assert (head + errors + ignoredBlock)[3..3 + |errors|] == errors;
    head + errors + ignoredBlock
  }

  const ErrorPrefix := "Error during grammar check: "

  /** The score and feedback for the matches the checker reported on `text`. */
  function Graded(text: string, totalWords: nat, ms: seq<Match>): (r: Scored)
    ensures r.score in {2, 4, 6, 8, 10}
    ensures totalWords == 0 || ScoringErrors(text, ms) == [] ==> r.score == 10
    ensures r.score == GrammarBand(GrammarMetric(|ScoringErrors(text, ms)|, totalWords)).score
  {
    var scoring := ScoringErrors(text, ms);
    var ignored := IgnoredIssues(text, ms);
    var band := GrammarBand(GrammarMetric(|scoring|, totalWords));
    Scored(band.score, Join(GrammarLines(text, scoring, ignored, band), "\n"))
  }

  /** The grammar scorer's result for the checker's answer on `text`. */
  function GrammarOf(text: string, totalWords: nat, check: CheckResult): (r: Scored)
    ensures check.Failure? ==> r == Scored(5, ErrorPrefix + check.reason)
    ensures check.Success? ==> r.score in {2, 4, 6, 8, 10}
    ensures check.Success? && (totalWords == 0 || ScoringErrors(text, check.matches) == []) ==>
      r.score == 10
  {
    match check
    case Failure(reason) => Scored(5, ErrorPrefix + reason)
    case Success(ms) => Graded(text, totalWords, ms)
  }
}
