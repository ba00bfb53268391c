/**
  The video-id extractor of app.py: a leftmost search for the fixed pattern
  `(?:v=|/)([0-9A-Za-z_-]{11}).*`, written as a direct scan over the URL.

  At every index the search tries the alternative "v=" first and then "/";
  a match needs eleven id characters right after the alternative that
  matched.  The trailing `.*` can always match the empty string, so it adds
  no constraint.  The first index that starts a match wins, and the result
  is the eleven characters of group 1.
*/
module VideoId {
  import opened Wrappers

  /** Length of a video id, the `{11}` of the pattern. */
  const IdLength: nat := 11

  /** The character class `[0-9A-Za-z_-]`. */
  predicate IsIdChar(c: char) {
    ('0' <= c <= '9') || ('A' <= c <= 'Z') || ('a' <= c <= 'z') || c == '_' || c == '-'
  }

  /** An eleven-character string drawn from the id alphabet. */
  predicate IsIdToken(s: string) {
    |s| == IdLength && forall k :: 0 <= k < |s| ==> IsIdChar(s[k])
  }

  /** The literal "v=" starts at index i. */
  predicate VeeEqualsAt(url: string, i: nat) {
    i + 2 <= |url| && url[i] == 'v' && url[i + 1] == '='
  }

  /** The literal "/" stands at index i. */
  predicate SlashAt(url: string, i: nat) {
    i < |url| && url[i] == '/'
  }

  /** Eleven id characters start at index j. */
  predicate TokenAt(url: string, j: nat) {
    j + IdLength <= |url| && forall k :: j <= k < j + IdLength ==> IsIdChar(url[k])
  }

  /** The first alternative, "v=" followed by a token, matches at i. */
  predicate VeeMatchAt(url: string, i: nat) {
    VeeEqualsAt(url, i) && TokenAt(url, i + 2)
  }

  /** The second alternative, "/" followed by a token, matches at i. */
  predicate SlashMatchAt(url: string, i: nat) {
    SlashAt(url, i) && TokenAt(url, i + 1)
  }

  /** The whole pattern matches when the search is anchored at index i. */
  predicate MatchesAt(url: string, i: nat) {
    VeeMatchAt(url, i) || SlashMatchAt(url, i)
  }

  /** Where group 1 begins for a match anchored at i (the "v=" alternative is tried first). */
  function GroupStart(url: string, i: nat): (j: nat)
    requires MatchesAt(url, i)
    ensures TokenAt(url, j)
    ensures (j == i + 2 && VeeEqualsAt(url, i)) || (j == i + 1 && SlashAt(url, i))
  {
    if VeeMatchAt(url, i) then i + 2 else i + 1
  }

  /** Group 1 of a match anchored at i. */
  function GroupAt(url: string, i: nat): (id: string)
    requires MatchesAt(url, i)
    ensures IsIdToken(id)
  {
    var j := GroupStart(url, i);
    url[j..j + IdLength]
  }

  /** Index i is the leftmost index at which the pattern matches. */
  ghost predicate IsLeftmostMatch(url: string, i: nat) {
    i < |url| && MatchesAt(url, i) && forall k: nat :: k < i ==> !MatchesAt(url, k)
  }

  /** The search of `re.search`: try every index from `from` on, left to right. */
  function LeftmostMatch(url: string, from: nat): (r: Option<nat>)
    ensures r.Some? ==> from <= r.value < |url| && MatchesAt(url, r.value)
    ensures r.Some? ==> forall k: nat :: from <= k < r.value ==> !MatchesAt(url, k)
    ensures r.None? <==> forall k: nat :: from <= k < |url| ==> !MatchesAt(url, k)
    decreases |url| - from
  {
    if from >= |url| then None
    else if MatchesAt(url, from) then Some(from)
    else LeftmostMatch(url, from + 1)
  }

  /** `extract_video_id`: group 1 of the leftmost match, or None. */
  function ExtractVideoId(url: string): (r: Option<string>)
    ensures r.Some? ==> IsIdToken(r.value)
    ensures r.None? <==> forall k: nat :: k < |url| ==> !MatchesAt(url, k)
    ensures r.Some? ==> exists i: nat :: IsLeftmostMatch(url, i) && r.value == GroupAt(url, i)
  {
    match LeftmostMatch(url, 0)
    case None => None
    case Some(i) => Some(GroupAt(url, i))
  }

  /** A leftmost match determines the result: the extractor returns its group. */
  lemma LeftmostMatchDecides(url: string, i: nat)
    requires IsLeftmostMatch(url, i)
    ensures ExtractVideoId(url) == Some(GroupAt(url, i))
  {
  }

  /** The characters of url from index j on are id, and "v=" or "/" comes right before them. */
  predicate IdFollowsPrefixAt(url: string, j: nat, id: string) {
    && j + |id| <= |url|
    && url[j..j + |id|] == id
    && ((2 <= j && url[j - 2..j] == "v=") || (1 <= j && url[j - 1] == '/'))
  }

  /**
    The id sits in the URL right after an occurrence of "v=" or "/".
  */
  lemma ExtractedFollowsPrefix(url: string)
    requires ExtractVideoId(url).Some?
    ensures exists j: nat :: IdFollowsPrefixAt(url, j, ExtractVideoId(url).value)
  {
    var i: nat :| IsLeftmostMatch(url, i) && ExtractVideoId(url).value == GroupAt(url, i);
    var j := GroupStart(url, i);
    var id := url[j..j + IdLength];
    assert id == ExtractVideoId(url).value;
    if j == i + 2 && VeeEqualsAt(url, i) {
      assert url[j - 2..j] == [url[i], url[i + 1]];
    }
    assert IdFollowsPrefixAt(url, j, id);
  }

  /** Matching at an index only looks at the thirteen characters from there on. */
  lemma MatchesAtExtend(url: string, rest: string, k: nat)
    requires k + IdLength + 2 <= |url|
    ensures MatchesAt(url + rest, k) <==> MatchesAt(url, k)
  {
    var u := url + rest;
    assert forall m :: 0 <= m < |url| ==> u[m] == url[m];
  }

  /**
    Anything may follow the id: appending text to a URL never changes what is
    extracted from it.  In particular a longer run of id characters is cut
    at eleven, and `.*` constrains nothing.
  */
  lemma {:induction false} ExtractIgnoresSuffix(url: string, rest: string)
    requires ExtractVideoId(url).Some?
    ensures ExtractVideoId(url + rest) == ExtractVideoId(url)
  {
    var i: nat :| IsLeftmostMatch(url, i) && ExtractVideoId(url).value == GroupAt(url, i);
    var u := url + rest;
    var j := GroupStart(url, i);
    assert i + IdLength + 1 <= |url|;
    forall k: nat | k < i
      ensures !MatchesAt(u, k)
    {
      MatchesAtExtend(url, rest, k);
    }
    assert forall m :: 0 <= m < |url| ==> u[m] == url[m];
    assert VeeMatchAt(u, i) <==> VeeMatchAt(url, i);
    assert SlashMatchAt(u, i) <==> SlashMatchAt(url, i);
    assert IsLeftmostMatch(u, i);
    assert GroupAt(u, i) == GroupAt(url, i);
    LeftmostMatchDecides(u, i);
  }

  /** A URL that starts with "v=" and an id yields that id. */
  lemma ExtractAfterVeeEquals(id: string, rest: string)
    requires IsIdToken(id)
    ensures ExtractVideoId("v=" + id + rest) == Some(id)
  {
  }

  /** A URL that starts with "/" and an id yields that id. */
  lemma ExtractAfterSlash(id: string, rest: string)
    requires IsIdToken(id)
    ensures ExtractVideoId("/" + id + rest) == Some(id)
  {
  }

  /** A watch-page URL yields the id given after "v=", whatever follows it. */
  lemma ExtractFromWatchUrl(id: string, rest: string)
    requires IsIdToken(id)
    ensures ExtractVideoId("https://www.youtube.com/watch?v=" + id + rest) == Some(id)
  {
    var p := "https://www.youtube.com/watch?v=";
    var url := p + id + rest;
    assert forall m :: 0 <= m < |p| ==> url[m] == p[m];
    forall k: nat | k < 30
      ensures !MatchesAt(url, k)
    {
      if k == 6 {
        assert !IsIdChar(url[7]);
      } else if k == 7 {
        assert !IsIdChar(url[11]);
      } else if k == 23 {
        assert !IsIdChar(url[29]);
      } else {
        assert url[k] != 'v' && url[k] != '/';
      }
    }
    assert url[32..32 + IdLength] == id;
    assert VeeMatchAt(url, 30);
    LeftmostMatchDecides(url, 30);
  }
}
