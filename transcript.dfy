/**
  What `extract_transcript_details` in app.py does with the segment list the
  transcript service returns: the duration in minutes, read off the last
  segment, and the transcript text, built by appending " " and each
  segment's text in turn.  The service itself is a parameter `fetch`.
*/
module Transcript {
  import opened Wrappers

  /** One caption unit: its text, its start offset and its length, in whole seconds. */
  datatype Segment = Segment(text: string, start: nat, duration: nat)

  /** Why no transcript came back. */
  datatype TranscriptError =
    | MissingVideoId         // `if video_id:` failed (app.py:33, app.py:56-57)
    | TranscriptUnavailable  // the service raised, or returned no segment (app.py:58-59)

  /** The pair `(transcript_text, duration)` returned on success. */
  datatype Details = Details(text: string, minutes: nat)

  /** The second at which a segment ends. */
  function EndOf(s: Segment): nat {
    s.start + s.duration
  }

  /** The text after the loop has appended the segments in order: a left fold. */
  function JoinedText(segments: seq<Segment>): string
    decreases |segments|
  {
    if segments == [] then ""
    else JoinedText(segments[..|segments| - 1]) + " " + segments[|segments| - 1].text
  }

  /** Reference reading of the same text: each segment contributes " " and its text, first segment first. */
  function SpacedTexts(segments: seq<Segment>): string
    decreases |segments|
  {
    if segments == [] then "" else " " + segments[0].text + SpacedTexts(segments[1..])
  }

  /** Total number of characters in the segments' texts. */
  function TextLength(segments: seq<Segment>): nat
    decreases |segments|
  {
    if segments == [] then 0 else |segments[0].text| + TextLength(segments[1..])
  }

  /** The reference reading distributes over concatenation of segment lists. */
  lemma {:induction false} SpacedTextsAppend(a: seq<Segment>, b: seq<Segment>)
    ensures SpacedTexts(a + b) == SpacedTexts(a) + SpacedTexts(b)
    decreases |a|
  {
    if a == [] {
      assert a + b == b;
    } else {
      assert (a + b)[1..] == a[1..] + b;
      SpacedTextsAppend(a[1..], b);
    }
  }

  /** The loop's left fold is the in-order concatenation of " " + text over all segments. */
  lemma {:induction false} JoinedIsSpaced(segments: seq<Segment>)
    ensures JoinedText(segments) == SpacedTexts(segments)
    decreases |segments|
  {
    if segments != [] {
      var init, last := segments[..|segments| - 1], segments[|segments| - 1];
      JoinedIsSpaced(init);
      assert segments == init + [last];
      SpacedTextsAppend(init, [last]);
      assert SpacedTexts([last]) == " " + last.text;
    }
  }

  /** Length of the reference text: one space per segment plus the segments' texts. */
  lemma {:induction false} SpacedTextsLength(segments: seq<Segment>)
    ensures |SpacedTexts(segments)| == TextLength(segments) + |segments|
    decreases |segments|
  {
    if segments != [] {
      SpacedTextsLength(segments[1..]);
    }
  }

  /** The folded text is as long as all segment texts together plus one space per segment. */
  lemma JoinedTextLength(segments: seq<Segment>)
    ensures |JoinedText(segments)| == TextLength(segments) + |segments|
  {
    JoinedIsSpaced(segments);
    SpacedTextsLength(segments);
  }

  /** Once there is a segment, the folded text starts with a space and so is never empty. */
  lemma JoinedTextStartsWithSpace(segments: seq<Segment>)
    requires segments != []
    ensures JoinedText(segments) != "" && JoinedText(segments)[0] == ' '
  {
  }

  /** The loop of app.py:51-53: `transcript_text += " " + i["text"]` for every segment in order. */
  method FoldTranscript(segments: seq<Segment>) returns (text: string)
    ensures text == SpacedTexts(segments)
  {
    text := "";
    var i := 0;
    while i < |segments|
      invariant 0 <= i <= |segments|
      invariant text == JoinedText(segments[..i])
    {
      assert segments[..i + 1][..i] == segments[..i];
      text := text + " " + segments[i].text;
      i := i + 1;
    }
    assert segments[..i] == segments;
    JoinedIsSpaced(segments);
  }

  /**
    `(last_entry["start"] + last_entry["duration"]) // 60`: whole minutes up to
    the end of the last segment.  With no segment, `transcript[-1]` raises
    and there is no duration.
  */
  function DurationMinutes(segments: seq<Segment>): (r: Option<nat>)
    ensures r.None? <==> segments == []
    ensures r.Some? ==> r.value * 60 <= EndOf(segments[|segments| - 1]) < r.value * 60 + 60
  {
    if segments == [] then None else Some(EndOf(segments[|segments| - 1]) / 60)
  }

  /** The duration depends on the last segment only: earlier segments are never looked at. */
  lemma DurationOnlyLast(earlier: seq<Segment>, last: Segment)
    ensures DurationMinutes(earlier + [last]) == DurationMinutes([last])
  {
  }

  /**
    Specification of `extract_transcript_details` after the fetch: a missing
    (or empty) id fails before the service is asked, a failed fetch or an
    empty segment list fails, and otherwise the text and the duration come
    back.
  */
  function TranscriptDetails(videoId: Option<string>, fetch: string -> Option<seq<Segment>>): (r: Result<Details, TranscriptError>)
    ensures (videoId.None? || videoId.value == "") <==> r == Err(MissingVideoId)
    ensures r.Ok? <==> videoId.Some? && videoId.value != "" && fetch(videoId.value).Some? && fetch(videoId.value).value != []
    ensures r.Ok? ==> var segments := fetch(videoId.value).value;
      && r.value.text == SpacedTexts(segments)
      && Some(r.value.minutes) == DurationMinutes(segments)
  {
    if videoId.None? || videoId.value == "" then Err(MissingVideoId)
    else match fetch(videoId.value)
      case None => Err(TranscriptUnavailable)
      case Some(segments) =>
        match DurationMinutes(segments)
        case None => Err(TranscriptUnavailable)
        case Some(minutes) =>
          JoinedIsSpaced(segments);
          Ok(Details(JoinedText(segments), minutes))
  }

  /** `extract_transcript_details`: the duration first, then the text by the loop. */
  method ExtractTranscriptDetails(videoId: Option<string>, fetch: string -> Option<seq<Segment>>)
    returns (r: Result<Details, TranscriptError>)
    ensures r == TranscriptDetails(videoId, fetch)
  {
    if videoId.None? || videoId.value == "" {
      return Err(MissingVideoId);
    }
    var fetched := fetch(videoId.value);
    if fetched.None? {
      return Err(TranscriptUnavailable);
    }
    var segments := fetched.value;
    if segments == [] {
      return Err(TranscriptUnavailable);
    }
    var last := segments[|segments| - 1];
    var minutes := EndOf(last) / 60;
    var text := FoldTranscript(segments);
    r := Ok(Details(text, minutes));
  }

  /** A transcript that was produced always has a non-empty text. */
  lemma DetailsTextNonEmpty(videoId: Option<string>, fetch: string -> Option<seq<Segment>>)
    requires TranscriptDetails(videoId, fetch).Ok?
    ensures TranscriptDetails(videoId, fetch).value.text != ""
  {
  }

  /** Example: a last segment at 590 s lasting 15 s gives 10 minutes. */
  lemma DurationExample(earlier: seq<Segment>, text: string)
    ensures DurationMinutes(earlier + [Segment(text, 590, 15)]) == Some(10)
  {
  }
}
