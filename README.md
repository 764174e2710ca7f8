# Introduction scorer — a Dafny model

This project models the rubric-scoring engine `IntroductionScorer` of a
self-introduction grader. The engine receives a spoken-introduction
transcript and, optionally, the audio duration. It runs eight independent
sub-scorers and adds their scores into a report out of 100:

| category | max |
|---|---|
| salutation | 5 |
| content & structure | 30 |
| flow | 5 |
| speech rate | 10 |
| grammar | 10 |
| vocabulary | 10 |
| clarity (fillers) | 15 |
| engagement | 15 |

The language models the engine calls are not modelled. What they return
becomes a plain input to the scorer that uses it:

- The tokenizer gives the sentence list and the token list, which are constructor arguments.
- The regular-expression and embedding checks give each content topic a `TopicEvidence`: whether the topic's regex matched, and the best cosine similarity.
- The embedding search of the flow scorer gives each role (salutation, introduction, closing) an index and a presence flag. It also gives the best similarity of the body window.
- The grammar checker gives `Success(matches)` or `Failure(message)`.
- The sentiment analyser gives the compound polarity, a real.

Everything downstream of those inputs is modelled as the source does it:

- thresholds, priority lists and filters;
- clamps and feedback texts;
- the order of the feedback lines.

Rates and ratios are exact reals. Lemmas restate each band as an integer
cross-multiplication, for example `111 d <= 60 w <= 140 d` for an ideal pace.

Modules:

- `TextOps`: the Python string operations the engine uses. These are `lower`, `in` on strings, `replace`, clamped slicing, `join` and integer rendering.
- `Rubric`: the phrase lists, keyword lists, points and category maxima.
- `Salutation`, `Content`, `Flow`, `SpeechRate`, `Grammar`, `Vocabulary`, `Clarity`, `Engagement`: one module per sub-scorer. Each holds the function that specifies the scorer and the lemmas about it.
- `Ratios`: cross-multiplication facts that the banding lemmas share.
- `Scorer`: the class `IntroductionScorer`.
  - Its constant fields are the preprocessed transcript, computed once by the constructor.
  - The scorers that work step by step in the source are methods with loops. These are salutation, content, grammar and clarity. Each is proved equal to its specification function.
  - `CalculateOverallScore` assembles the report.

## Model

| member | source | states |
|---|---|---|
| Scorer.IntroductionScorer.constructor | scorer.py:72-80 | The text is kept. An absent or zero duration becomes 0. Sentences are the stripped sentence texts. Words are the lower-cased non-punctuation tokens. `totalWords` is always `\|words\|`. |
| Scorer.WordsOf | scorer.py:79 | At most one word per token. Every word is the lower-cased text of some non-punctuation token. Every non-punctuation token contributes its lower-cased text. |
| Scorer.WordsOfConcat | scorer.py:79 | The words of a concatenation of token lists are the words of the first followed by those of the second. So the words keep the token order. |
| Salutation.FirstMatch | scorer.py:85-91 | None exactly when no phrase of the list occurs. Otherwise it gives the index of a phrase that occurs, with no earlier phrase occurring. This is the scan order of the priority lists. |
| Salutation.SalutationOf | scorer.py:82-97 | The score is one of 0, 2, 4, 5. It is 5 iff an excellent phrase occurs. It is 4 iff a good phrase occurs and no excellent one does. It is 2 iff only a normal phrase occurs. The 5 and 4 feedback quotes the first matching phrase of the list. |
| Salutation.ThisCountsAsBasicSalutation | scorer.py:93-95 | The normal tier is a substring test. So a transcript containing "this", with no higher-tier phrase, scores 2, because "hi" occurs inside "this". |
| Scorer.IntroductionScorer.ScoreSalutation | scorer.py:82-97 | The three scans with early return compute exactly `SalutationOf(text)`. |
| TextOps.ContainsIff | scorer.py:86 | Python's `p in s` holds exactly when `p` occurs at some index of `s`. |
| Content.CheckTopicRobust | scorer.py:121-132 | A regex hit always succeeds. Without the semantic fallback, or without sentences, the result is the regex hit. With the fallback on and sentences present, a similarity above 0.35 succeeds. A success without a regex hit needs a similarity above 0.35. |
| Content.MustHaveHits | scorer.py:108-142 | Name, Age and School are their regex verdicts. Family and Hobbies succeed iff their regex matches or, with sentences, their similarity exceeds 0.35. |
| Content.BonusHits | scorer.py:146-155 | Five bonus verdicts in dictionary order: Ambition, Strength, Unique, Origin, Achievements. Each holds iff its regex matches or, for every bonus but Origin and with sentences present, its similarity exceeds 0.35. Origin's verdict is its regex hit alone. |
| Content.BonusMarkers | scorer.py:153-155 | One "[+] topic" marker per matched bonus, and no others. |
| Content.BonusMarkersInOrder | scorer.py:153-155 | Each matched bonus has its marker, placed after the markers of the matched bonuses before it. So the markers follow the dictionary order. |
| Content.RawContentPoints | scorer.py:108-155 | The raw points `4 × must-haves + 2 × bonuses` lie in [0, 30] and are even. |
| Content.ContentScore | scorer.py:157 | `min(30, raw)` always equals the raw points, so it lies in [0, 30]. |
| Content.ContentMarkersShape | scorer.py:108-155 | The feedback holds one marker each for Name, Age, School, Family, Hobbies, in that order, followed only by markers of matched bonuses. The marker of matched bonus `j` sits at position 5 plus the number of matched bonuses before `j`. |
| Content.AgeAddsFour | scorer.py:112-114 | With all other evidence fixed, an age match raises the content score by exactly 4. |
| Scorer.IntroductionScorer.MustHaveTopics | scorer.py:108-142 | The five sequential checks give 4 points per matched must-have topic. They write the five markers in order. |
| Scorer.IntroductionScorer.BonusTopics | scorer.py:145-155 | The bonus loop adds 2 points and one marker per matched bonus, in dictionary order. |
| Scorer.IntroductionScorer.ScoreContent | scorer.py:99-157 | The score is `ContentScore`, within [0, 30]. The feedback is the markers joined by ", ". |
| Flow.MidWindowLength | scorer.py:186-187 | Over `n` sentences, the window `sentences[i+1 : c]` is non-empty iff `i + 1 < c` and `i + 1 < n`. |
| Flow.HasBody | scorer.py:183-190 | A body is found iff introduction and closing are both present, the window between them is non-empty (`i + 1 < c` and `i + 1 < n`), and its similarity exceeds 0.25. |
| Flow.FlowOf | scorer.py:167-204 | See the list under the table. |
| SpeechRate.ProvidedDuration | scorer.py:75 | An absent duration becomes 0. A given duration is kept as it is, so 0 stays 0. |
| SpeechRate.DurationMinutes | scorer.py:77 | The minutes times 60 give the duration back. The minutes are positive iff the duration is. |
| SpeechRate.WordsPerMinute | scorer.py:210 | The rate is never negative. It is 0 when the minutes are not positive. Otherwise the rate times the minutes is the word count. |
| SpeechRate.RateBand | scorer.py:212-217 | The score is one of 2, 6, 10. It is 10 iff 111 ≤ wpm ≤ 140. It is 6 iff 81 ≤ wpm < 111 or 140 < wpm ≤ 160. The "Poor Pacing" fallback is never returned. |
| SpeechRate.SpeechRateOf | scorer.py:206-217 | The score is one of 2, 6, 10. |
| SpeechRate.SpeechRateByDuration | scorer.py:206-215 | With a positive duration of `d` seconds and `w` words, the score is 10 iff `111 d ≤ 60 w ≤ 140 d`. It is 6 iff `81 d ≤ 60 w ≤ 160 d` outside that range. It is 2 otherwise. |
| SpeechRate.MissingDurationIsIdeal | scorer.py:207-208 | An absent or zero duration scores 10 with "Duration not provided". |
| SpeechRate.NegativeDurationIsTooSlow | scorer.py:75-77 | A negative duration skips the "not provided" branch. Its minutes are not positive, so the rate is 0, which scores 2 with "Too Slow (0 WPM)". |
| Grammar.ScoringErrors | scorer.py:226-255 | Never more entries than matches. |
| Grammar.IgnoredIssues | scorer.py:226-255 | Never more entries than matches. |
| Grammar.HyphenationOnlyIff | scorer.py:237-241 | The hyphenation test holds iff there is a top replacement, it contains the character '-', and with its hyphens removed it equals the flagged slice with its spaces removed. |
| TextOps.ContainsChar | scorer.py:240 | `"-" in s` holds iff the character '-' occurs in `s`. |
| TextOps.RemoveChar | scorer.py:240 | `s.replace(c, "")` contains no `c`, and only characters of `s`. |
| TextOps.RemoveCharMultiset | scorer.py:240 | `s.replace(c, "")` keeps every other character with its multiplicity and drops every `c`. |
| TextOps.RemoveCharConcat | scorer.py:240 | Removing `c` from a concatenation removes it from each part, keeping the order. |
| TextOps.Slice | scorer.py:233 | `s[off : off + len]` is the exact slice when it fits, the rest of `s` from `off` when it runs past the end, and empty when `off` is past the end. |
| Grammar.IgnoreKeywordIff | scorer.py:244-252 | The keyword test holds iff some ignore keyword occurs at some position of the lower-cased message or of the lower-cased rule id. |
| Grammar.FilterMembership | scorer.py:226-255 | A match is a scoring error iff it was reported and is neither a hyphenation suggestion nor carries an ignore keyword. It is an ignored issue iff it was reported and is one of those. |
| Grammar.FilterPartition | scorer.py:254-255 | Every match lands in exactly one of the two lists. Their multisets add up to the matches. |
| Grammar.ScoringErrorsKeepOrder | scorer.py:254-255 | Filtering a concatenation concatenates the filtered parts. So the scoring errors keep the checker's order. |
| Grammar.IgnoredIssuesKeepOrder | scorer.py:254 | The same holds for the ignored issues. |
| Scorer.IntroductionScorer.IsIgnoredMatch | scorer.py:227-252 | A match is ignored iff (a) its top replacement contains "-" and, with hyphens removed, equals the flagged slice with spaces removed, or (b) the lower-cased message or rule id contains an ignore keyword. |
| Scorer.IntroductionScorer.PartitionMatches | scorer.py:226-255 | The loop builds exactly `ScoringErrors` and `IgnoredIssues`. |
| Ratios.PerHundred | scorer.py:259-315 | The grammar error rate (line 259) and the filler rate (line 315), both per 100 words: never negative, and 0 with no words. Otherwise the rate times the word count is 100 times the count. |
| Grammar.GrammarMetric | scorer.py:262 | The metric lies in [0, 1]. It is 1 with no errors or no words. It is 0 once errors reach 5 per 100 words (`20 e ≥ w`). |
| Grammar.GrammarBand | scorer.py:264-268 | The score is 10 iff the metric is above 0.9. It is 8, 6 and 4 for a metric in [0.7, 0.9], [0.5, 0.7) and [0.3, 0.5). It is 2 below 0.3. |
| Grammar.GrammarBandByCounts | scorer.py:258-268 | With `e` scoring errors in `w` words, the score is 10 iff `w = 0` or `200 e < w`. It is 8 iff `w ≤ 200 e ≤ 3 w`. It is 6 iff `3 w < 200 e ≤ 5 w`. It is 4 iff `5 w < 200 e ≤ 7 w`. It is 2 iff `7 w < 200 e`. |
| Grammar.GrammarNonIncreasing | scorer.py:258-268 | More scoring errors over the same word count never raise the score. |
| Grammar.FirstThree | scorer.py:277 | A prefix of the list, of length three, or the whole list when it is shorter. |
| Grammar.GrammarLines | scorer.py:271-292 | The feedback has at most 10 lines. The second line is the exclusion note. Lines 4 onwards list the first (at most three) scoring errors. With no ignored issues nothing follows them. Otherwise one heading follows, then the first (at most three) ignored issues, up to the end. |
| Grammar.Graded | scorer.py:257-294 | The score is one of 2, 4, 6, 8, 10. It is 10 when there are no words or no scoring errors. It is the band of the metric for the number of scoring errors, so `GrammarBandByCounts` and `GrammarNonIncreasing` apply to it. |
| Grammar.GrammarOf | scorer.py:219-297 | A failed check scores exactly 5 with "Error during grammar check: …". A successful one scores one of 2, 4, 6, 8, 10, and 10 with no words or no scoring errors. |
| Scorer.IntroductionScorer.FeedbackLines | scorer.py:271-292 | The verdict line, the note, the heading and up to three lines per list, exactly as `GrammarLines`. |
| Scorer.IntroductionScorer.AppendIssueLines | scorer.py:277-281 | One context line per match, appended in order. |
| Scorer.IntroductionScorer.GradeMatches | scorer.py:257-294 | The partition, band and feedback compute exactly `Graded`. |
| Scorer.IntroductionScorer.ScoreGrammar | scorer.py:219-297 | Computes exactly `GrammarOf`. A failure scores 5. A success scores one of 2, 4, 6, 8, 10. |
| Vocabulary.DistinctAtMostTotal | scorer.py:300 | There are never more distinct words than words, and at least one distinct word in a non-empty list. |
| Vocabulary.TypeTokenRatio | scorer.py:301 | The type-token ratio lies in [0, 1]. |
| Vocabulary.VocabularyBand | scorer.py:303-307 | The score is 10 iff the ratio is at least 0.9. It is 8, 6 and 4 for a ratio in [0.7, 0.9), [0.5, 0.7) and [0.3, 0.5). It is 2 below 0.3. |
| Vocabulary.VocabularyOf | scorer.py:299-307 | The score is one of 2, 4, 6, 8, 10. An empty word list scores 2. |
| Vocabulary.VocabularyByCounts | scorer.py:303-307 | With `d` distinct among `w` words, the score is 10 iff `10 d ≥ 9 w`. It is 8, 6 and 4 for `10 d` in `[7w, 9w)`, `[5w, 7w)` and `[3w, 5w)`. It is 2 for an empty list or `10 d < 3 w`. |
| Clarity.CountFillers | scorer.py:310-313 | The filler count never exceeds the word count. |
| Clarity.ClarityBand | scorer.py:315-321 | The score is one of 3, 6, 9, 12, 15. With no words it is 15. |
| Clarity.ClarityByCounts | scorer.py:315-321 | With `f` fillers among `w` words, the score is 15 iff `w = 0` or `100 f ≤ 3 w`. It is 12, 9 and 6 for `100 f` in `(3w, 6w]`, `(6w, 9w]` and `(9w, 12w]`. It is 3 beyond `12 w`. |
| Clarity.ClarityNonIncreasing | scorer.py:315-321 | More fillers among the same words never raise the score. |
| Clarity.ClarityOf | scorer.py:309-321 | The score is one of 3, 6, 9, 12, 15. An empty word list gives "Clear speech (0 fillers)". The score is the band of the filler count, so `ClarityByCounts` and `ClarityNonIncreasing` apply to it. |
| Scorer.IntroductionScorer.ScoreClarity | scorer.py:309-321 | The counting loop computes exactly `ClarityOf(words)`. |
| Engagement.Probability | scorer.py:327 | `(c + 1) / 2` lies in [0, 1] for c in [-1, 1]. |
| Engagement.CappedProbability | scorer.py:335-339 | The cap never raises the probability. Without an enthusiastic keyword the probability stays below 0.9. |
| Engagement.EngagementBand | scorer.py:341-350 | The score is 15 iff the probability is at least 0.9. It is 12, 9 and 6 for a probability in [0.7, 0.9), [0.5, 0.7) and [0.3, 0.5). It is 3 below 0.3. |
| Engagement.EngagementOf | scorer.py:323-350 | The score is one of 3, 6, 9, 12, 15. 15 needs a high-energy keyword. Without one, a probability ≥ 0.9 scores 12, "Positive". |
| Engagement.EngagementByCompound | scorer.py:338-350 | Bands on the compound polarity: 15 iff c ≥ 0.8 with an enthusiastic word. 12 iff 0.4 ≤ c < 0.8, or c ≥ 0.8 without one. 9, 6 and 3 for [0, 0.4), [-0.4, 0) and below -0.4. |
| Scorer.IntroductionScorer.SubScores | scorer.py:353-360 | The eight sub-scorers' results in report order, each between 0 and its category's maximum. |
| Scorer.Assemble | scorer.py:357-378 | The breakdown has the eight fixed categories in order, each with its maximum and its sub-score. The total is the sum of the entries' scores. |
| Scorer.ReportWithinBounds | scorer.py:357-378 | When each sub-score is within its category's maximum, every entry is within bounds and the total lies in [0, 100]. |
| Scorer.IntroductionScorer.CalculateOverallScore | scorer.py:352-378 | The report is `Assemble` of the eight sub-scorers' results. Each entry lies in [0, max]. The total lies in [0, 100]. |

`Flow.FlowOf` states:

- The score is 0 or 5.
- No sentences gives "No text".
- A missing salutation or closing gives 0.
- With the introduction present, the score is 5 iff salutation ≤ introduction < closing.
- An introduction and closing in the same sentence give the "same sentence" verdict.
- Without an introduction, the score is 5 iff salutation < closing, and the label is then "Acceptable Flow".
- "Good Flow" is never returned.
- With the score 5 and the introduction present, the label is "Perfect Flow" iff a body is found, and "Good Flow (Short body)" otherwise.

## Left out

- Model loading and environment setup (Java path, downloads) are process configuration. The unused cross-encoder and `textstat` imports are left out too.
- Tokenization: the tokenizer's sentence and token segmentation is a foreign library. The sentence texts and tokens (text, punctuation flag) are constructor inputs.
- Regex evaluation: the topic regular expressions are Python regex evaluation, which is not modelled. Each topic's regex verdict is an input.
- Embeddings: sentence embeddings, cosine similarity, `argmax` and `max` are floating-point model numerics. Their results are inputs: per-topic best similarity, per-role index and presence, and the body window's best similarity.
- The grammar checker service and the sentiment analyser are foreign services. Their results are inputs.
- Duration: a duration is an exact real, so `float(...)` conversion and floating-point rounding at band edges are not modelled. This affects the rate, type-token ratio, filler rate, error rate and sentiment.
- Casing: `lower`/`upper` are modelled for ASCII letters only. Unicode case mapping is not modelled.
- Scorer.Strip: strips only the six ASCII whitespace characters. Python's `strip()` also removes U+001C to U+001F and non-ASCII whitespace. In this model no score reads the sentence texts, only how many sentences there are, so this changes no result.
- Vocabulary.VocabularyBand: the feedback carries the band label only. The `TTR: x.xx` suffix is two-decimal float rendering.
- Engagement.EngagementBand: the feedback carries the band label only. The `Sentiment: x.xx` suffix is two-decimal float rendering.
- Grammar.Match: a match carries one optional span length. This stands for the source's lookup of `errorLength`, then `length`, then 5.
  - Offsets and lengths are non-negative.
  - A match always has a rule id, a message and a replacement list.
  - An exception raised while formatting a match (a missing `message`) is not modelled. Only the checker's own failure (`Failure`) takes the exception path.
- Fillers: the multi-word fillers ("you know", "i mean", "sort of") can never equal a single token. The model keeps that behaviour.
- The rubric's unused `speech_rate` thresholds (`slow_threshold` 80) are left out. The code's literal bands (81/111/140/160) are the ones modelled.
- The content cap: the most a transcript can earn is 30 (five must-haves at 4 and five bonuses at 2), so `min(30, ·)` never binds. The model keeps the clamp and proves it has no effect.
- The HTTP API and the form front end only call the scorer, so they are not part of this model.
