/**
  What happens when "Get Detailed Notes" is pressed (app.py:94-130): the
  link gives a video id, the id a transcript and a duration, the duration a
  word count, the generator a summary, and the summary is translated only
  when a language other than English is asked for.

  The three services are parameters: `fetch` is the transcript service, and
  `generate` the summarization model, given the word count that the fixed
  prompt embeds and the transcript text; `translate` the translation
  service.  Each answers None when it raises.
*/
module Pipeline {
  import opened Wrappers
  import VideoId
  import Transcript
  import Planner
  import Translate

  /** Why no notes were shown. */
  datatype Failure =
    | MissingLink                                    // "Please enter a valid YouTube video link." (app.py:129-130)
    | TranscriptFailed(reason: Transcript.TranscriptError)
    | GenerationFailed                               // `generate_gemini_content` raised (app.py:67-68)
    | TranslationFailed                              // `translate_summary` raised (app.py:118)

  /** What the page ends up showing. */
  datatype Outcome =
    | Shown(notes: string)     // "Detailed Notes:" and the summary
    | NothingShown             // `if transcript_text:` was false
    | Failed(reason: Failure)  // an error message

  /** The condition of app.py:115-116: a language code was given and it is not "en". */
  predicate ShouldTranslate(targetLanguage: string) {
    targetLanguage != "" && targetLanguage != "en"
  }

  /** The branch of app.py:114-122 once the summary is generated. */
  function Deliver(targetLanguage: string, summary: string,
                   translate: (string, string) -> Option<string>): Option<string>
  {
    if ShouldTranslate(targetLanguage) then Translate.TranslateSummary(summary, targetLanguage, translate)
    else Some(summary)
  }

  /** A translation service that always fails. */
  function Refusing(text: string, targetLanguage: string): Option<string> {
    None
  }

  /** The translation service is consulted exactly when a non-empty code other than "en" is given. */
  lemma TranslatorConsultedIff(targetLanguage: string, summary: string)
    ensures ShouldTranslate(targetLanguage) <==> Deliver(targetLanguage, summary, Refusing) == None
  {
  }

  /** Without translation the summary is passed on untouched, "**" included, whatever the translator would do. */
  lemma UntranslatedUntouched(targetLanguage: string, summary: string,
                              translate1: (string, string) -> Option<string>,
                              translate2: (string, string) -> Option<string>)
    requires !ShouldTranslate(targetLanguage)
    ensures Deliver(targetLanguage, summary, translate1) == Deliver(targetLanguage, summary, translate2) == Some(summary)
  {
  }

  /** A translated summary has lost every "**" but kept its other characters in order. */
  lemma TranslatedIsStripped(targetLanguage: string, summary: string,
                             translate: (string, string) -> Option<string>)
    requires ShouldTranslate(targetLanguage)
    requires translate(summary, targetLanguage).Some?
    ensures Deliver(targetLanguage, summary, translate)
         == Some(Translate.StripBold(translate(summary, targetLanguage).value))
    ensures Translate.NoBold(Deliver(targetLanguage, summary, translate).value)
  {
  }

  /** The button handler: everything from the link to the text on the page. */
  function DetailedNotes(link: string, targetLanguage: string, summaryType: string,
                         fetch: string -> Option<seq<Transcript.Segment>>,
                         generate: (nat, string) -> Option<string>,
                         translate: (string, string) -> Option<string>): (r: Outcome)
    ensures link == "" <==> r == Failed(MissingLink)
    ensures r != NothingShown
    ensures r.Shown? ==> VideoId.ExtractVideoId(link).Some?
    ensures r.Shown? && ShouldTranslate(targetLanguage) ==> Translate.NoBold(r.notes)
  {
    if link == "" then Failed(MissingLink)
    else
      var videoId := VideoId.ExtractVideoId(link);
      match Transcript.TranscriptDetails(videoId, fetch)
      case Err(e) => Failed(TranscriptFailed(e))
      case Ok(details) =>
        var words := Planner.SummaryWords(details.minutes, summaryType);
        if details.text == "" then NothingShown
        else match generate(words, details.text)
          case None => Failed(GenerationFailed)
          case Some(summary) =>
            match Deliver(targetLanguage, summary, translate)
            case None => Failed(TranslationFailed)
            case Some(notes) => Shown(notes)
  }

  /** A link without a video id fails before the transcript service is asked anything. */
  lemma NoVideoIdSkipsFetch(link: string, targetLanguage: string, summaryType: string,
                            fetch1: string -> Option<seq<Transcript.Segment>>,
                            fetch2: string -> Option<seq<Transcript.Segment>>,
                            generate: (nat, string) -> Option<string>,
                            translate: (string, string) -> Option<string>)
    requires link != "" && VideoId.ExtractVideoId(link).None?
    ensures DetailedNotes(link, targetLanguage, summaryType, fetch1, generate, translate)
         == DetailedNotes(link, targetLanguage, summaryType, fetch2, generate, translate)
         == Failed(TranscriptFailed(Transcript.MissingVideoId))
  {
  }

  /**
    The successful run: with a video id, a non-empty transcript and an
    answer from the generator (asked for the planned number of words, at
    least 50), the generated summary is shown as it is when no translation
    is asked for, and stripped of "**" after translation otherwise.
  */
  lemma SuccessfulRun(link: string, targetLanguage: string, summaryType: string,
                      fetch: string -> Option<seq<Transcript.Segment>>,
                      generate: (nat, string) -> Option<string>,
                      translate: (string, string) -> Option<string>,
                      id: string, segments: seq<Transcript.Segment>, summary: string)
    requires VideoId.ExtractVideoId(link) == Some(id)
    requires fetch(id) == Some(segments) && segments != []
    requires var minutes := Transcript.EndOf(segments[|segments| - 1]) / 60;
      generate(Planner.SummaryWords(minutes, summaryType), Transcript.SpacedTexts(segments)) == Some(summary)
    requires ShouldTranslate(targetLanguage) ==> translate(summary, targetLanguage).Some?
    ensures !ShouldTranslate(targetLanguage)
      ==> DetailedNotes(link, targetLanguage, summaryType, fetch, generate, translate) == Shown(summary)
    ensures ShouldTranslate(targetLanguage)
      ==> DetailedNotes(link, targetLanguage, summaryType, fetch, generate, translate)
          == Shown(Translate.StripBold(translate(summary, targetLanguage).value))
  {
  }

  /**
    A failing generator or translator ends the run: no fallback to the
    untranslated summary is ever shown.
  */
  lemma ServiceFailureIsFatal(link: string, targetLanguage: string, summaryType: string,
                              fetch: string -> Option<seq<Transcript.Segment>>,
                              generate: (nat, string) -> Option<string>,
                              translate: (string, string) -> Option<string>,
                              id: string, segments: seq<Transcript.Segment>)
    requires VideoId.ExtractVideoId(link) == Some(id)
    requires fetch(id) == Some(segments) && segments != []
    ensures var minutes := Transcript.EndOf(segments[|segments| - 1]) / 60;
      var answer := generate(Planner.SummaryWords(minutes, summaryType), Transcript.SpacedTexts(segments));
      && (answer.None?
          ==> DetailedNotes(link, targetLanguage, summaryType, fetch, generate, translate) == Failed(GenerationFailed))
      && (answer.Some? && ShouldTranslate(targetLanguage) && translate(answer.value, targetLanguage).None?
          ==> DetailedNotes(link, targetLanguage, summaryType, fetch, generate, translate) == Failed(TranslationFailed))
  {
  }

  /**
    Notes are shown only when the id was found, the transcript service gave a
    non-empty list, the generator answered for the planned word count, and
    (when translation applies) the translator answered; the notes are then the
    generated summary, or its translation stripped of "**".
  */
  lemma ShownOnlyIf(link: string, targetLanguage: string, summaryType: string,
                    fetch: string -> Option<seq<Transcript.Segment>>,
                    generate: (nat, string) -> Option<string>,
                    translate: (string, string) -> Option<string>)
    requires DetailedNotes(link, targetLanguage, summaryType, fetch, generate, translate).Shown?
    ensures VideoId.ExtractVideoId(link).Some?
    ensures var id := VideoId.ExtractVideoId(link).value;
      && fetch(id).Some? && fetch(id).value != []
      && var segments := fetch(id).value;
         var minutes := Transcript.EndOf(segments[|segments| - 1]) / 60;
         var answer := generate(Planner.SummaryWords(minutes, summaryType), Transcript.SpacedTexts(segments));
         && answer.Some?
         && (ShouldTranslate(targetLanguage) ==> translate(answer.value, targetLanguage).Some?)
         && DetailedNotes(link, targetLanguage, summaryType, fetch, generate, translate).notes
            == if ShouldTranslate(targetLanguage)
               then Translate.StripBold(translate(answer.value, targetLanguage).value)
               else answer.value
  {
  }

  /**
    Example: a watch-page URL such as
    "https://www.youtube.com/watch?v=abc12345678" with no language code shows
    the generated English summary unchanged.
  */
  lemma WatchUrlWithoutLanguage(id: string, summaryType: string,
                                fetch: string -> Option<seq<Transcript.Segment>>,
                                generate: (nat, string) -> Option<string>,
                                translate: (string, string) -> Option<string>,
                                segments: seq<Transcript.Segment>, summary: string)
    requires VideoId.IsIdToken(id)
    requires fetch(id) == Some(segments) && segments != []
    requires var minutes := Transcript.EndOf(segments[|segments| - 1]) / 60;
      generate(Planner.SummaryWords(minutes, summaryType), Transcript.SpacedTexts(segments)) == Some(summary)
    ensures DetailedNotes("https://www.youtube.com/watch?v=" + id, "", summaryType, fetch, generate, translate)
         == Shown(summary)
  {
    var link := "https://www.youtube.com/watch?v=" + id;
    VideoId.ExtractFromWatchUrl(id, "");
    assert link + "" == link;
    SuccessfulRun(link, "", summaryType, fetch, generate, translate, id, segments, summary);
  }
}
