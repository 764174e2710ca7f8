/**
 * The fixed scoring rubric of the introduction scorer: phrase lists, keyword
 * lists, category names and their point ceilings.
 */
module Rubric {

  /** Salutation tiers, checked in the order excellent, good, normal. */
  const NormalSalutations: seq<string> := ["hi", "hello"]
  const GoodSalutations: seq<string> :=
    ["good morning", "good afternoon", "good evening", "good day", "hello everyone"]
  const ExcellentSalutations: seq<string> :=
    ["excited to introduce", "feeling great", "pleasure to introduce", "greetings"]

  /** Points per matched must-have topic and per matched bonus topic. */
  const MustHavePoints := 4
  const BonusPoints := 2
  const ContentCap := 30

  /** Words counted as fillers by the clarity scorer (compared token by token). */
  const Fillers: seq<string> :=
    ["um", "uh", "like", "you know", "actually", "basically", "right", "i mean",
     "well", "kinda", "sort of", "hmm"]

  /** Keywords that make a grammar match stylistic, so that it does not count. */
  const IgnoreKeywords: seq<string> :=
    ["hyphen", "compound", "joined", "whitespace", "comma", "punctuation",
     "spelling", "typo", "morfologik", "uppercase", "capitalization",
     "repetition", "consecutive", "successive", "same word",
     "style", "wordiness", "sentence start", "rewording", "thesaurus"]

  /** Keywords whose presence lets a very positive sentiment reach the top band. */
  const HighEnergyKeywords: seq<string> :=
    ["excited", "thrilled", "passionate", "delighted", "honor",
     "love", "amazing", "wonderful", "fantastic", "energetic",
     "grateful", "confident", "pleasure"]

  /** The eight report categories, in report order, with their maxima. */
  const CategoryNames: seq<string> :=
    ["Salutation", "Content & Structure", "Flow", "Speech Rate",
     "Grammar", "Vocabulary", "Clarity (Fillers)", "Engagement"]
  const CategoryMaxima: seq<int> := [5, 30, 5, 10, 10, 10, 15, 15]

  /** A sub-scorer's result: the `(score, feedback)` pair each scorer returns. */
  datatype Scored = Scored(score: int, feedback: string)
}
