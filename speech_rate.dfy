/**
 * Speech-rate scoring: words per minute against fixed bands. Durations and
 * rates are exact reals.
 */
module SpeechRate {
  import opened TextOps
  import opened Rubric

  /** `float(d) if d else 0`: an absent or zero duration becomes 0. */
  function ProvidedDuration(durationSec: Option<real>): (r: real)
    ensures durationSec.None? ==> r == 0.0
    ensures durationSec.Some? ==> r == durationSec.value
  {
    match durationSec
    case None => 0.0
    case Some(d) => if d != 0.0 then d else 0.0
  }

  /** `provided / 60 if provided else 0`. */
  function DurationMinutes(provided: real): (r: real)
    ensures r * 60.0 == provided
    ensures r > 0.0 <==> provided > 0.0
  {
    if provided != 0.0 then provided / 60.0 else 0.0
  }

  /** `total / minutes if minutes > 0 else 0`. */
  function WordsPerMinute(totalWords: nat, minutes: real): (r: real)
    ensures r >= 0.0
    ensures minutes <= 0.0 ==> r == 0.0
    ensures minutes > 0.0 ==> r * minutes == totalWords as real
  {
    if minutes > 0.0 then totalWords as real / minutes else 0.0
  }

  /** Python's `int(x)`: truncation toward zero. */
  function Trunc(x: real): int {
    if x >= 0.0 then x.Floor else -((-x).Floor)
  }

  function WithRate(verdict: string, wpm: real): string {
    verdict + " (" + IntToString(Trunc(wpm)) + " WPM)"
  }

  /** The bands, checked in source order; the last branch is the "Poor Pacing" fallback. */
  function RateBand(wpm: real): (r: Scored)
    ensures r.score in {2, 6, 10}
    ensures r.score == 10 <==> 111.0 <= wpm <= 140.0
    ensures r.score == 6 <==> (81.0 <= wpm < 111.0 || 140.0 < wpm <= 160.0)
    ensures r.feedback != WithRate("Poor Pacing", wpm)
  {
    if 111.0 <= wpm <= 140.0 then Scored(10, WithRate("Ideal", wpm))
    else if 81.0 <= wpm <= 160.0 then Scored(6, WithRate("Acceptable", wpm))
    else if wpm > 140.0 then Scored(2, WithRate("Too Fast", wpm))
    else if wpm < 81.0 then Scored(2, WithRate("Too Slow", wpm))
    else Scored(2, WithRate("Poor Pacing", wpm))
  }

  const NotProvided := "Duration not provided (Assumed Ideal)"

  /** The speech-rate scorer, given the scorer's provided duration and minutes. */
  function SpeechRateOf(provided: real, minutes: real, totalWords: nat): (r: Scored)
    ensures r.score in {2, 6, 10}
  {
    if provided == 0.0 then Scored(10, NotProvided)
    else RateBand(WordsPerMinute(totalWords, minutes))
  }

  /** For positive `d`: `a / d` lies in `[lo, hi]` exactly when `lo * d <= a <= hi * d`. */
  lemma DivBetween(a: real, d: real, lo: real, hi: real)
    requires d > 0.0
    ensures (lo <= a / d) <==> (lo * d <= a)
    ensures (a / d <= hi) <==> (a <= hi * d)
  {
    var q := a / d;
    assert q * d == a;
    if lo <= q { assert lo * d <= q * d; }
    if lo * d <= a { assert (lo - q) * d <= 0.0; }
    if q <= hi { assert q * d <= hi * d; }
    if a <= hi * d { assert (q - hi) * d <= 0.0; }
  }

  /**
   * With a positive duration of `d` seconds the rate is `60 * w / d`, so the
   * bands become division-free cross-multiplications: 10 exactly when
   * `111 d <= 60 w <= 140 d`, 6 exactly when `81 d <= 60 w <= 160 d` outside
   * that, and 2 otherwise.
   */
  lemma SpeechRateByDuration(d: real, w: nat)
    requires d > 0.0
    ensures var r := SpeechRateOf(d, DurationMinutes(d), w).score;
      && (r == 10 <==> 111.0 * d <= 60.0 * w as real <= 140.0 * d)
      && (r == 6 <==> (!(111.0 * d <= 60.0 * w as real <= 140.0 * d)
                       && 81.0 * d <= 60.0 * w as real <= 160.0 * d))
      && (r == 2 <==> !(81.0 * d <= 60.0 * w as real <= 160.0 * d))
  {
    var m := DurationMinutes(d);
    var wpm := WordsPerMinute(w, m);
    assert m == d / 60.0 && m > 0.0;
    assert wpm == w as real / m;
    DivBetween(w as real, m, 111.0, 140.0);
    DivBetween(w as real, m, 81.0, 160.0);
    assert 111.0 * m == 111.0 * d / 60.0 && 140.0 * m == 140.0 * d / 60.0;
    assert 81.0 * m == 81.0 * d / 60.0 && 160.0 * m == 160.0 * d / 60.0;
  }

  /** An absent or zero duration is charitably scored as ideal. */
  lemma MissingDurationIsIdeal(durationSec: Option<real>, w: nat)
    requires durationSec.None? || durationSec.value == 0.0
    ensures var p := ProvidedDuration(durationSec);
      SpeechRateOf(p, DurationMinutes(p), w) == Scored(10, NotProvided)
  {
  }

  /**
   * A negative duration is truthy, so it skips the "not provided" branch,
   * but its minutes are not positive, so the rate is 0 and the verdict is
   * "Too Slow".
   */
  lemma NegativeDurationIsTooSlow(d: real, w: nat)
    requires d < 0.0
    ensures var p := ProvidedDuration(Some(d));
      SpeechRateOf(p, DurationMinutes(p), w) == Scored(2, "Too Slow (0 WPM)")
  {
    assert Trunc(0.0) == 0;
  }
}
