/**
 * The introduction scorer: one object per transcript and duration, holding
 * the preprocessed transcript, with eight independent sub-scorers and the
 * aggregate report. The tokenizer's sentences and tokens are inputs to the
 * constructor; the outputs of the embedding model, grammar checker and
 * sentiment analyser are inputs to the scorers that use them.
 */
module Scorer {
  import opened TextOps
  import opened Rubric
  import Salutation
  import Content
  import Flow
  import SpeechRate
  import Grammar
  import Vocabulary
  import Clarity
  import Engagement

  /** A token of the tokenizer: its text and whether it is punctuation. */
  datatype Token = Token(text: string, isPunct: bool)

  predicate IsSpace(c: char) {
    c == ' ' || c == '\t' || c == '\n' || c == '\r' || c == '\U{000B}' || c == '\U{000C}'
  }

  function StripLeft(s: string): string {
    if |s| > 0 && IsSpace(s[0]) then StripLeft(s[1..]) else s
  }

  function StripRight(s: string): string {
    if |s| > 0 && IsSpace(s[|s| - 1]) then StripRight(s[..|s| - 1]) else s
  }

  /**
   * Python's `s.strip()` restricted to the six ASCII whitespace characters;
   * the separators U+001C to U+001F and non-ASCII whitespace are kept.
   */
  function Strip(s: string): string {
    StripRight(StripLeft(s))
  }

  /** The lower-cased text of every non-punctuation token, in order. */
  function WordsOf(tokens: seq<Token>): (r: seq<string>)
    ensures |r| <= |tokens|
    ensures forall w :: w in r ==> exists t :: t in tokens && !t.isPunct && w == Lower(t.text)
    ensures forall i :: 0 <= i < |tokens| && !tokens[i].isPunct ==> Lower(tokens[i].text) in r
  {
    if |tokens| == 0 then []
    else
      var n := |tokens| - 1;
      var prefix := WordsOf(tokens[..n]);
      assert forall i :: 0 <= i < n ==> tokens[..n][i] == tokens[i];
      if tokens[n].isPunct then prefix else prefix + [Lower(tokens[n].text)]
  }

  /** One more token adds its lower-cased text unless it is punctuation. */
  lemma WordsOfSnoc(tokens: seq<Token>, t: Token)
    ensures WordsOf(tokens + [t]) == WordsOf(tokens) + (if t.isPunct then [] else [Lower(t.text)])
  {
    assert (tokens + [t])[..|tokens|] == tokens;
  }

  /**
   * The words keep the token order: the words of a concatenation are the
   * words of the first part followed by those of the second.
   */
  lemma {:induction false} WordsOfConcat(a: seq<Token>, b: seq<Token>)
    ensures WordsOf(a + b) == WordsOf(a) + WordsOf(b)
  {
    if |b| == 0 {
      assert a + b == a;
    } else {
      var n := |b| - 1;
      WordsOfConcat(a, b[..n]);
      assert b == b[..n] + [b[n]];
      assert a + b == (a + b[..n]) + [b[n]];
      WordsOfSnoc(a + b[..n], b[n]);
      WordsOfSnoc(b[..n], b[n]);
    }
  }

  /** What the external models say about the transcript. */
  datatype Evidence = Evidence(
    content: Content.ContentEvidence,
    flow: Flow.FlowEvidence,
    grammar: Grammar.CheckResult,
    compound: real)

  datatype ScoreEntry = ScoreEntry(score: int, max: int, feedback: string)

  /** The total and the breakdown, whose keys keep the report's fixed order. */
  datatype ScoreReport = ScoreReport(totalScore: int, breakdown: seq<(string, ScoreEntry)>)

  function SumScores(entries: seq<(string, ScoreEntry)>): int {
    if |entries| == 0 then 0
    else SumScores(entries[..|entries| - 1]) + entries[|entries| - 1].1.score
  }

  class IntroductionScorer {
    const text: string
    const providedDuration: real
    const durationMin: real := SpeechRate.DurationMinutes(providedDuration)
    const sentences: seq<string>
    const words: seq<string>
    const totalWords: nat := |words|

    /**
     * Preprocessing: keeps the transcript, the duration (0 when absent or
     * zero), the stripped sentences and the lower-cased non-punctuation
     * tokens.
     */
    constructor (transcript: string, durationSec: Option<real>,
                 sentenceSpans: seq<string>, tokens: seq<Token>)
      ensures text == transcript
      ensures providedDuration == SpeechRate.ProvidedDuration(durationSec)
      ensures durationMin == SpeechRate.DurationMinutes(providedDuration)
      ensures |sentences| == |sentenceSpans|
      ensures forall i :: 0 <= i < |sentences| ==> sentences[i] == Strip(sentenceSpans[i])
      ensures words == WordsOf(tokens) && totalWords == |words|
    {
      text := transcript;
      providedDuration := SpeechRate.ProvidedDuration(durationSec);
      sentences := seq(|sentenceSpans|, i requires 0 <= i < |sentenceSpans| => Strip(sentenceSpans[i]));
      words := WordsOf(tokens);
    }

    /** Scans the excellent, good and normal phrase lists in turn, returning at the first hit. */
    method ScoreSalutation() returns (r: Scored)
      ensures r == Salutation.SalutationOf(text)
      ensures r.score in {0, 2, 4, 5}
    {
      var t := Lower(text);
      for k := 0 to |ExcellentSalutations|
        invariant forall j :: 0 <= j < k ==> !Contains(t, ExcellentSalutations[j])
      {
        if Contains(t, ExcellentSalutations[k]) {
          return Scored(5, "Excellent salutation used: '" + ExcellentSalutations[k] + "'");
        }
      }
      for k := 0 to |GoodSalutations|
        invariant forall j :: 0 <= j < k ==> !Contains(t, GoodSalutations[j])
      {
        if Contains(t, GoodSalutations[k]) {
          return Scored(4, "Good salutation used: '" + GoodSalutations[k] + "'");
        }
      }
      for k := 0 to |NormalSalutations|
        invariant forall j :: 0 <= j < k ==> !Contains(t, NormalSalutations[j])
      {
        if Contains(t, NormalSalutations[k]) {
          return Scored(2, Salutation.BasicFeedback);
        }
      }
      return Scored(0, Salutation.NoneFeedback);
    }

    /** Accumulates the topic points and the feedback markers, then clamps to 30. */
    method ScoreContent(e: Content.ContentEvidence) returns (r: Scored)
      ensures r.score == Content.ContentScore(e, |sentences| > 0)
      ensures r.feedback == Join(Content.ContentMarkers(e, |sentences| > 0), ", ")
      ensures 0 <= r.score <= ContentCap
    {
      var hasSentences := |sentences| > 0;
      var scores, feedback := MustHaveTopics(e, hasSentences);
      scores, feedback := BonusTopics(e, hasSentences, scores, feedback);
      r := Scored(if scores < ContentCap then scores else ContentCap, Join(feedback, ", "));
    }

    /** Name, age, school, family and hobbies: 4 points and a "[+]" marker each, else a "[-]" marker. */
    method MustHaveTopics(e: Content.ContentEvidence, hasSentences: bool)
      returns (scores: int, feedback: seq<string>)
      ensures scores == MustHavePoints * Content.CountTrue(Content.MustHaveHits(e, hasSentences))
      ensures feedback == Content.MustHaveMarkers(Content.MustHaveHits(e, hasSentences))
    {
      scores := 0;
      feedback := [];
      ghost var must := Content.MustHaveHits(e, hasSentences);
      MarkerSpelling();
      if e.nameHit {
        scores := scores + MustHavePoints; feedback := feedback + ["[+] Name"];
      } else {
        feedback := feedback + ["[-] Name"];
      }
      if e.ageHit {
        scores := scores + MustHavePoints; feedback := feedback + ["[+] Age"];
      } else {
        feedback := feedback + ["[-] Age"];
      }
      if e.schoolHit {
        scores := scores + MustHavePoints; feedback := feedback + ["[+] School"];
      } else {
        feedback := feedback + ["[-] School"];
      }
      if Content.CheckTopicRobust(e.family, true, hasSentences) {
        scores := scores + MustHavePoints; feedback := feedback + ["[+] Family"];
      } else {
        feedback := feedback + ["[-] Family"];
      }
      if Content.CheckTopicRobust(e.hobbies, true, hasSentences) {
        scores := scores + MustHavePoints; feedback := feedback + ["[+] Hobbies"];
      } else {
        feedback := feedback + ["[-] Hobbies"];
      }
      assert feedback == [Content.Marker(e.nameHit, "Name"), Content.Marker(e.ageHit, "Age"), Content.Marker(e.schoolHit, "School"), Content.Marker(must[3], "Family"), Content.Marker(must[4], "Hobbies")];
      Content.MustHaveMarkersOfFive(must);
      Content.CountTrueOfFive(must);
    }

    /** The bonus topics in dictionary order: 2 points and a "[+]" marker for each that matches. */
    method BonusTopics(e: Content.ContentEvidence, hasSentences: bool, scores0: int, feedback0: seq<string>)
      returns (scores: int, feedback: seq<string>)
      ensures scores == scores0 + BonusPoints * Content.CountTrue(Content.BonusHits(e, hasSentences))
      ensures feedback == feedback0 + Content.BonusMarkers(Content.BonusHits(e, hasSentences), Content.BonusNames)
    {
      scores, feedback := scores0, feedback0;
      var bonuses := Content.BonusEvidence(e);
      ghost var hits := Content.BonusHits(e, hasSentences);
      for k := 0 to 5
        invariant scores == scores0 + BonusPoints * Content.CountTrue(hits[..k])
        invariant feedback == feedback0 + Content.BonusMarkers(hits[..k], Content.BonusNames[..k])
      {
        assert hits[..k + 1][..k] == hits[..k];
        assert Content.BonusNames[..k + 1][..k] == Content.BonusNames[..k];
        if Content.CheckTopicRobust(bonuses[k], Content.BonusUsesSemantic[k], hasSentences) {
          scores := scores + BonusPoints;
          feedback := feedback + ["[+] " + Content.BonusNames[k]];
        }
      }
      assert hits[..5] == hits && Content.BonusNames[..5] == Content.BonusNames;
    }

    /**
     * Splits the checker's matches into scoring errors and ignored issues,
     * bands the error rate and lists the first three of each; a failed check
     * scores 5.
     */
    method ScoreGrammar(check: Grammar.CheckResult) returns (r: Scored)
      ensures r == Grammar.GrammarOf(text, totalWords, check)
      ensures check.Failure? ==> r.score == 5
      ensures check.Success? ==> r.score in {2, 4, 6, 8, 10}
    {
      match check {
        case Failure(reason) =>
          return Scored(5, Grammar.ErrorPrefix + reason);
        case Success(matches) =>
          r := GradeMatches(matches);
      }
    }

    /** Partitions the matches, bands the error rate and writes the feedback lines. */
    method GradeMatches(matches: seq<Grammar.Match>) returns (r: Scored)
      ensures r == Grammar.Graded(text, totalWords, matches)
    {
      var scoringErrors, ignoredIssues := PartitionMatches(matches);
      var band := Grammar.GrammarBand(Grammar.GrammarMetric(|scoringErrors|, totalWords));
      var fbLines := FeedbackLines(scoringErrors, ignoredIssues, band);
      r := Scored(band.score, Join(fbLines, "\n"));
    }

    /** The verdict, the exclusion note, then up to three scoring errors and three ignored issues. */
    method FeedbackLines(scoringErrors: seq<Grammar.Match>, ignoredIssues: seq<Grammar.Match>, band: Scored)
      returns (fbLines: seq<string>)
      ensures fbLines == Grammar.GrammarLines(text, scoringErrors, ignoredIssues, band)
    {
      fbLines := [band.feedback + " (Score: " + IntToString(band.score) + "/10)",
                  Grammar.ExclusionNote, Grammar.ErrorsHeading(scoringErrors)];
      if |scoringErrors| > 0 {
        fbLines := AppendIssueLines(fbLines, Grammar.FirstThree(scoringErrors));
      }
      if |ignoredIssues| > 0 {
        fbLines := fbLines + ["\n[IGNORED ISSUES] (" + NatToString(|ignoredIssues|) + " found):"];
        fbLines := AppendIssueLines(fbLines, Grammar.FirstThree(ignoredIssues));
      }
    }

    /**
     * Sorts the matches, in the checker's order, into scoring errors and
     * issues ignored as stylistic.
     */
    method PartitionMatches(matches: seq<Grammar.Match>)
      returns (scoringErrors: seq<Grammar.Match>, ignoredIssues: seq<Grammar.Match>)
      ensures scoringErrors == Grammar.ScoringErrors(text, matches)
      ensures ignoredIssues == Grammar.IgnoredIssues(text, matches)
    {
      scoringErrors, ignoredIssues := [], [];
      for k := 0 to |matches|
        invariant scoringErrors == Grammar.ScoringErrors(text, matches[..k])
        invariant ignoredIssues == Grammar.IgnoredIssues(text, matches[..k])
      {
        var isIgnored := IsIgnoredMatch(matches[k]);
        assert matches[..k + 1][..k] == matches[..k];
        if isIgnored {
          ignoredIssues := ignoredIssues + [matches[k]];
        } else {
          scoringErrors := scoringErrors + [matches[k]];
        }
      }
      assert matches[..|matches|] == matches;
    }

    /**
     * A match is ignored when its top replacement only adds hyphens to the
     * flagged text, or when its message or rule id names a stylistic keyword.
     */
    method IsIgnoredMatch(m: Grammar.Match) returns (isIgnored: bool)
      ensures isIgnored <==> Grammar.IsHyphenationOnly(text, m) || Grammar.HasIgnoreKeyword(m)
    {
      var errorText := Slice(text, m.offset, Grammar.SpanLength(m));
      isIgnored := false;
      if |m.replacements| > 0 {
        var topRep := m.replacements[0];
        if Contains(topRep, "-") && RemoveChar(topRep, '-') == RemoveChar(errorText, ' ') {
          isIgnored := true;
        }
      }
      if Grammar.HasIgnoreKeyword(m) {
        isIgnored := true;
      }
    }

    /** Appends one feedback line per match, in order. */
    method AppendIssueLines(lines: seq<string>, ms: seq<Grammar.Match>) returns (out: seq<string>)
      ensures out == lines + Grammar.IssueLines(text, ms)
    {
      out := lines;
      for j := 0 to |ms|
        invariant out == lines + Grammar.IssueLines(text, ms[..j])
      {
        assert Grammar.IssueLines(text, ms[..j + 1])
            == Grammar.IssueLines(text, ms[..j]) + [Grammar.IssueLine(text, ms[j])];
        out := out + [Grammar.IssueLine(text, ms[j])];
      }
      assert ms[..|ms|] == ms;
    }

    /** Counts the filler words one by one, then bands the filler rate. */
    method ScoreClarity() returns (r: Scored)
      ensures r == Clarity.ClarityOf(words)
      ensures r.score in {3, 6, 9, 12, 15}
    {
      var fillerCount := 0;
      for k := 0 to |words|
        invariant fillerCount == Clarity.CountFillers(words[..k])
      {
        assert words[..k + 1][..k] == words[..k];
        if words[k] in Fillers {
          fillerCount := fillerCount + 1;
        }
      }
      assert words[..|words|] == words;
      r := Clarity.ClarityBand(fillerCount, totalWords);
    }

    /** The eight sub-scorers' results, in report order, each within its category's maximum. */
    function SubScores(ev: Evidence): (r: seq<Scored>)
      ensures |r| == 8
      ensures WithinMaxima(r)
    {
      [Salutation.SalutationOf(text),
       Scored(Content.ContentScore(ev.content, |sentences| > 0),
              Join(Content.ContentMarkers(ev.content, |sentences| > 0), ", ")),
       Flow.FlowOf(|sentences|, ev.flow),
       SpeechRate.SpeechRateOf(providedDuration, durationMin, totalWords),
       Grammar.GrammarOf(text, totalWords, ev.grammar),
       Vocabulary.VocabularyOf(words),
       Clarity.ClarityOf(words),
       Engagement.EngagementOf(text, ev.compound)]
    }

    /**
     * Runs every sub-scorer once and assembles the report: the eight fixed
     * categories with their maxima, each score within its maximum, and the
     * total their sum, hence within [0, 100].
     */
    method CalculateOverallScore(ev: Evidence) returns (report: ScoreReport)
      ensures report == Assemble(SubScores(ev))
      ensures forall i :: 0 <= i < 8 ==>
        0 <= report.breakdown[i].1.score <= report.breakdown[i].1.max
      ensures 0 <= report.totalScore <= 100
    {
      var sal := ScoreSalutation();
      var content := ScoreContent(ev.content);
      var flow := Flow.FlowOf(|sentences|, ev.flow);
      var rate := SpeechRate.SpeechRateOf(providedDuration, durationMin, totalWords);
      var grammar := ScoreGrammar(ev.grammar);
      var vocab := Vocabulary.VocabularyOf(words);
      var clarity := ScoreClarity();
      var engage := Engagement.EngagementOf(text, ev.compound);
      var subs := [sal, content, flow, rate, grammar, vocab, clarity, engage];
      assert subs == SubScores(ev);
      report := Assemble(subs);
      ReportWithinBounds(subs);
    }
  }

  /** Each result lies between 0 and its category's maximum. */
  predicate WithinMaxima(subs: seq<Scored>) {
    && |subs| == 8
    && 0 <= subs[0].score <= 5 && 0 <= subs[1].score <= 30
    && 0 <= subs[2].score <= 5 && 0 <= subs[3].score <= 10
    && 0 <= subs[4].score <= 10 && 0 <= subs[5].score <= 10
    && 0 <= subs[6].score <= 15 && 0 <= subs[7].score <= 15
  }

  /**
   * The report of eight results: the fixed category names in order, each
   * entry with its result and its maximum, and the total the sum of the
   * entries' scores.
   */
  function Assemble(subs: seq<Scored>): (r: ScoreReport)
    requires |subs| == 8
    ensures |r.breakdown| == 8
    ensures forall i :: 0 <= i < 8 ==>
      && r.breakdown[i].0 == CategoryNames[i]
      && r.breakdown[i].1 == ScoreEntry(subs[i].score, CategoryMaxima[i], subs[i].feedback)
    ensures r.totalScore == SumScores(r.breakdown)
  {
    var b := seq(8, i requires 0 <= i < 8 =>
      (CategoryNames[i], ScoreEntry(subs[i].score, CategoryMaxima[i], subs[i].feedback)));
    SumOfEight(b);
    ScoreReport(subs[0].score + subs[1].score + subs[2].score + subs[3].score
                + subs[4].score + subs[5].score + subs[6].score + subs[7].score, b)
  }

  /** The maxima add up to 100, so results within them give a report within bounds. */
  lemma ReportWithinBounds(subs: seq<Scored>)
    requires WithinMaxima(subs)
    ensures forall i :: 0 <= i < 8 ==>
      0 <= Assemble(subs).breakdown[i].1.score <= Assemble(subs).breakdown[i].1.max
    ensures 0 <= Assemble(subs).totalScore <= 100
  {
    var r := Assemble(subs);
    SumOfEight(r.breakdown);
    assert forall i :: 0 <= i < 8 ==> r.breakdown[i].1.score == subs[i].score;
  }

  /** The must-have markers, spelled out. */
  lemma MarkerSpelling()
    ensures Content.Marker(true, "Name") == "[+] Name" && Content.Marker(false, "Name") == "[-] Name"
    ensures Content.Marker(true, "Age") == "[+] Age" && Content.Marker(false, "Age") == "[-] Age"
    ensures Content.Marker(true, "School") == "[+] School" && Content.Marker(false, "School") == "[-] School"
    ensures Content.Marker(true, "Family") == "[+] Family" && Content.Marker(false, "Family") == "[-] Family"
    ensures Content.Marker(true, "Hobbies") == "[+] Hobbies" && Content.Marker(false, "Hobbies") == "[-] Hobbies"
  {
  }

  /** The sum of an eight-entry breakdown, written out. */
  lemma SumOfEight(b: seq<(string, ScoreEntry)>)
    requires |b| == 8
    ensures SumScores(b) == b[0].1.score + b[1].1.score + b[2].1.score + b[3].1.score
                            + b[4].1.score + b[5].1.score + b[6].1.score + b[7].1.score
  {
    assert b[..7][..6] == b[..6] && b[..6][..5] == b[..5] && b[..5][..4] == b[..4];
    assert b[..4][..3] == b[..3] && b[..3][..2] == b[..2] && b[..2][..1] == b[..1];
    assert SumScores(b[..1]) == b[0].1.score;
    assert SumScores(b[..2]) == SumScores(b[..1]) + b[1].1.score;
    assert SumScores(b[..3]) == SumScores(b[..2]) + b[2].1.score;
    assert SumScores(b[..4]) == SumScores(b[..3]) + b[3].1.score;
    assert SumScores(b[..5]) == SumScores(b[..4]) + b[4].1.score;
    assert SumScores(b[..6]) == SumScores(b[..5]) + b[5].1.score;
    assert SumScores(b[..7]) == SumScores(b[..6]) + b[6].1.score;
  }
}
