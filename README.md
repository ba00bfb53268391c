# YouTube summarizer: a verified model of its request pipeline

The summarizer is a Streamlit page (`app.py`). You paste a YouTube link, pick a
summary type and optionally give a language code. The page then:

- extracts the video id from the link;
- fetches the transcript;
- computes a target word count from the video's duration;
- asks a generative model for a summary;
- translates the summary when the language code is neither empty nor `en`.

This project models the deterministic parts of that pipeline in Dafny and
proves their properties. The three external services are parameters of the
model: the transcript service, the summarization model and the translation
service.

Modules, one per component:

- `Wrappers` (`wrappers.dfy`): `Option` and `Result`.
- `VideoId` (`video_id.dfy`): `extract_video_id`, a leftmost scan for the
  pattern `(?:v=|/)([0-9A-Za-z_-]{11}).*`. At each index the alternative `v=`
  is tried before `/`, and eleven id characters must follow. The trailing `.*`
  always matches, so it adds nothing.
- `Transcript` (`transcript.dfy`): the segment record, the duration taken from
  the last segment, the text-building loop (a `method` with a loop invariant,
  proved equal to a reference concatenation), and `extract_transcript_details`
  with its failure paths.
- `Planner` (`planner.dfy`): `calculate_summary_words`.
- `Translate` (`translate.dfy`): `str.replace("**", "")` as a left-to-right,
  non-overlapping removal, and `translate_summary` around it.
- `Pipeline` (`pipeline.dfy`): the "Get Detailed Notes" handler. It covers the
  translate / no-translate branch and every way the handler can fail.

Seconds and minutes are natural numbers. A service that raises is modelled as
returning `None`. The summarization model is given the word count and the
transcript text, because the prompt is a fixed template in which only the word
count varies.

Three behaviours of app.py worth knowing:

- A translation failure is not recovered. The exception from
  `translate_summary` reaches the outer handler (app.py:125), so no notes are
  shown and the untranslated summary is never used as a fallback
  (`ServiceFailureIsFatal`).
- A URL that contains `v=` followed by an id does not always yield that id. An
  earlier `/` followed by eleven id characters wins, as `ExtractAfterSlash`
  shows. The watch-page form `https://www.youtube.com/watch?v=<id>` does yield
  `<id>` (`ExtractFromWatchUrl`).
- The handler's `if transcript_text:` test (app.py:114) can never fail. A
  non-empty segment list always gives text that starts with a space, and an
  empty one makes `transcript[-1]` raise first. `DetailedNotes` proves that
  `NothingShown` never happens.

## Model

| member | source | states |
|---|---|---|
| `VideoId.GroupAt` | app.py:16-20 | the captured group of any match is eleven characters, all from `[0-9A-Za-z_-]` |
| `VideoId.LeftmostMatch` | app.py:16-17 | the index found matches the pattern, and no earlier index does; searching gives nothing exactly when no index from the start point matches |
| `VideoId.ExtractVideoId` | app.py:14-22 | the result is an eleven-character id; it is `None` exactly when no index starts a match; otherwise it is the group of the leftmost match |
| `VideoId.LeftmostMatchDecides` | app.py:17-20 | a leftmost match determines the result: the extractor returns its group |
| `VideoId.ExtractedFollowsPrefix` | app.py:16-20 | the returned id occurs in the URL immediately after `v=` or `/` |
| `VideoId.ExtractIgnoresSuffix` | app.py:16 | appending any text to a URL never changes an extracted id, so longer id runs are cut at eleven and `.*` constrains nothing |
| `VideoId.ExtractAfterVeeEquals` | app.py:16-20 | a URL starting with `v=` and an id yields that id, whatever follows |
| `VideoId.ExtractAfterSlash` | app.py:16-20 | a URL starting with `/` and an id yields that id, whatever follows (even a later `v=`) |
| `VideoId.ExtractFromWatchUrl` | app.py:14-22 | `https://www.youtube.com/watch?v=` followed by an id and anything yields that id |
| `Transcript.JoinedIsSpaced` | app.py:51-53 | the loop's left fold equals the in-order concatenation of `" " + text` over all segments |
| `Transcript.JoinedTextLength` | app.py:51-53 | the folded text's length is the sum of the segment text lengths plus the number of segments |
| `Transcript.JoinedTextStartsWithSpace` | app.py:51-53 | with at least one segment the folded text is non-empty and starts with a space |
| `Transcript.FoldTranscript` | app.py:51-53 | the `+=` loop returns the in-order concatenation of `" " + text` over all segments |
| `Transcript.DurationMinutes` | app.py:48-49 | no duration exactly when there is no segment; otherwise the whole minutes m with 60m <= end of last segment < 60m + 60 |
| `Transcript.DurationOnlyLast` | app.py:48-49 | the duration depends only on the last segment |
| `Transcript.DurationExample` | app.py:48-49 | a last segment at 590 s lasting 15 s gives 10 minutes |
| `Transcript.TranscriptDetails` | app.py:31-59 | a missing or empty id fails as missing; success exactly when the id is present, the fetch succeeds and returns a segment; then the text is the concatenation and the minutes the duration |
| `Transcript.ExtractTranscriptDetails` | app.py:31-59 | the imperative version (duration, then the loop) returns exactly what `TranscriptDetails` specifies |
| `Transcript.DetailsTextNonEmpty` | app.py:51-55 | a successfully produced transcript text is never empty |
| `Planner.Factor` | app.py:71-76 | the factor is 3 exactly for "Short Summary", 6 exactly for "Medium Summary", 12 exactly for every other string |
| `Planner.SummaryWords` | app.py:70-81 | the word count is at least 50 and at least duration times factor, and equals one of the two: it is `max(50, duration * factor)` |
| `Planner.SummaryWordsAboveFloor` | app.py:77-79 | once duration times factor reaches 50, the word count is exactly that product |
| `Planner.SummaryWordsMonotoneInDuration` | app.py:77-79 | a longer video never gets a smaller word count |
| `Planner.SummaryWordsOrderedByType` | app.py:71-77 | short <= medium <= long for the same duration |
| `Planner.UnrecognisedTypeIsLong` | app.py:75-76 | any unrecognised summary type is planned like "Long Summary" |
| `Planner.SummaryWordsExamples` | app.py:70-81 | 10 minutes long gives 120 words; 1 minute short gives 50 |
| `Translate.StripLeavesNoBold` | app.py:28 | after the strip no `**` remains |
| `Translate.StripKeepsNonStars` | app.py:28 | the sequence of characters other than `*` is unchanged by the strip |
| `Translate.StripWithoutBold` | app.py:28 | a string with no `**` is returned unchanged |
| `Translate.StripUnchangedIff` | app.py:28 | the strip leaves a string unchanged if and only if it holds no `**` |
| `Translate.StripIdempotent` | app.py:28 | stripping twice equals stripping once |
| `Translate.StripRemovesPairs` | app.py:28 | the strip never lengthens a string, and removes an even number of characters |
| `Translate.StripExamples` | app.py:28 | `**Hi**` becomes `Hi`; `***` becomes `*` (non-overlapping, from the left) |
| `Translate.TranslateSummary` | app.py:25-28 | fails exactly when the translator fails; otherwise the result holds no `**` and keeps the translator's non-`*` characters in order |
| `Pipeline.TranslatorConsultedIff` | app.py:114-122 | a translator that always fails makes delivery fail if and only if the language code is non-empty and not `en` |
| `Pipeline.UntranslatedUntouched` | app.py:119-122 | with an empty code or `en`, the generated summary is passed on unchanged (markers included), whatever the translator |
| `Pipeline.TranslatedIsStripped` | app.py:115-118 | when translation applies and succeeds, the result is the translator's answer with `**` stripped, and holds no `**` |
| `Pipeline.DetailedNotes` | app.py:94-130 | an empty link fails as missing link and only then; nothing-shown never happens; shown notes imply an extracted id; translated notes hold no `**` |
| `Pipeline.ServiceFailureIsFatal` | app.py:114-125 | once the transcript is in, a failing generator ends the run as `GenerationFailed`, and a failing translator (when translation applies) as `TranslationFailed`, never with the untranslated summary |
| `Pipeline.ShownOnlyIf` | app.py:94-124 | notes are shown only if the id was extracted, the fetch gave a non-empty list and the generator answered for the planned word count (and the translator, when translation applies); the notes are then the summary, or its translation stripped of `**` |
| `Pipeline.NoVideoIdSkipsFetch` | app.py:31-33 | a link with no video id fails as missing video id, whatever the transcript service would answer |
| `Pipeline.SuccessfulRun` | app.py:94-124 | id, non-empty transcript and generator answer (asked for the planned word count) give the summary shown as is, or translated and stripped when translation applies |
| `Pipeline.WatchUrlWithoutLanguage` | app.py:94-124 | a watch-page URL with no language code shows the generated summary unchanged |

## Left out

- Streamlit rendering and input: `st.markdown`, `st.text_input`, `st.selectbox`, `st.button`, `st.image`, `st.write`, `st.error` (app.py:84-130, app.py:50, app.py:80). They only display text. The thumbnail URL (app.py:92) is display only.
- The `print` of the transcript (app.py:54) is console output.
- The Gemini client `generate_gemini_content` (app.py:62-68) and the key setup (app.py:10-11) are a network client and environment configuration. The model is the parameter `generate`.
- `YouTubeTranscriptApi.get_transcript` and its language-priority list (app.py:34-47) are an external fetch and static data. The model is the parameter `fetch`.
- `Translator().translate` (app.py:26-27) is a foreign network call. The model is the parameter `translate`; only the strip after it is modelled.
- Floating-point `start`, `duration`, `//` on floats and `int()` (app.py:49, app.py:81) are left out. Seconds and minutes are natural numbers, and `//` is natural division.
- The literal prompt text (app.py:99-113) is a fixed template. Only the word count it embeds reaches `generate`.
- The exception cascade (for example `"transcript"+e` at app.py:59 and `"gemini"+e` at app.py:68 raising TypeError) is collapsed. Each failing path ends in one `Failed` outcome with a reason; the exact messages are not modelled.
- General regular-expression semantics are left out. Only the one fixed pattern is modelled, as a direct scan over the characters of a Python `str`.
