/**
  `calculate_summary_words` of app.py: the number of words to ask for, from
  the video's duration in minutes and the summary type picked by the user.
*/
module Planner {

  /** The floor applied to every request (`if words < 50`). */
  const MinimumWords: nat := 50

  const ShortSummary: string := "Short Summary"
  const MediumSummary: string := "Medium Summary"
  const LongSummary: string := "Long Summary"

  /** Words per minute of video for each summary type; anything unrecognised counts as long. */
  function Factor(summaryType: string): (f: nat)
    ensures f == 3 <==> summaryType == ShortSummary
    ensures f == 6 <==> summaryType == MediumSummary
    ensures f == 12 <==> summaryType != ShortSummary && summaryType != MediumSummary
  {
    if summaryType == ShortSummary then 3
    else if summaryType == MediumSummary then 6
    else 12
  }

  /**
    The requested word count: the least number that is at least 50 and at
    least duration times the factor.
  */
  function SummaryWords(duration: nat, summaryType: string): (words: nat)
    ensures words >= MinimumWords
    ensures words >= duration * Factor(summaryType)
    ensures words == MinimumWords || words == duration * Factor(summaryType)
  {
    var words := duration * Factor(summaryType);
    if words < MinimumWords then MinimumWords else words
  }

  /** Above the floor the request grows linearly with the duration. */
  lemma SummaryWordsAboveFloor(duration: nat, summaryType: string)
    requires duration * Factor(summaryType) >= MinimumWords
    ensures SummaryWords(duration, summaryType) == duration * Factor(summaryType)
  {
  }

  /** A longer video never gets a shorter request. */
  lemma SummaryWordsMonotoneInDuration(d1: nat, d2: nat, summaryType: string)
    requires d1 <= d2
    ensures SummaryWords(d1, summaryType) <= SummaryWords(d2, summaryType)
  {
    var f := Factor(summaryType);
    assert d1 * f <= d2 * f;
  }

  /** For the same video, short asks for no more than medium, and medium for no more than long. */
  lemma SummaryWordsOrderedByType(duration: nat)
    ensures SummaryWords(duration, ShortSummary) <= SummaryWords(duration, MediumSummary)
    ensures SummaryWords(duration, MediumSummary) <= SummaryWords(duration, LongSummary)
  {
    assert duration * 3 <= duration * 6 <= duration * 12;
  }

  /** An unrecognised summary type is planned exactly like "Long Summary". */
  lemma UnrecognisedTypeIsLong(duration: nat, summaryType: string)
    requires summaryType != ShortSummary && summaryType != MediumSummary
    ensures SummaryWords(duration, summaryType) == SummaryWords(duration, LongSummary)
  {
  }

  /** Examples: ten minutes long gives 120 words; one minute short is raised to 50. */
  lemma SummaryWordsExamples()
    ensures SummaryWords(10, LongSummary) == 120
    ensures SummaryWords(1, ShortSummary) == 50
  {
  }
}
