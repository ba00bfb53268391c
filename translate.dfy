/**
  `translate_summary` of app.py: the translation service is a parameter, and
  its answer is cleaned with `replace("**", "")`, which removes markdown bold
  markers.  Python's `str.replace` scans left to right and removes
  non-overlapping occurrences, so "***" becomes "*".
*/
module Translate {
  import opened Wrappers

  /** "**" occurs at index i of s. */
  predicate BoldAt(s: string, i: nat) {
    i + 1 < |s| && s[i] == '*' && s[i + 1] == '*'
  }

  /** s holds no "**" anywhere. */
  predicate NoBold(s: string) {
    forall i: nat :: i < |s| ==> !BoldAt(s, i)
  }

  /** The characters of s other than '*', in their order. */
  function NonStars(s: string): string
    decreases |s|
  {
    if s == [] then "" else (if s[0] == '*' then "" else [s[0]]) + NonStars(s[1..])
  }

  /** `s.replace("**", "")`. */
  function StripBold(s: string): string
    decreases |s|
  {
    if |s| >= 2 && s[0] == '*' && s[1] == '*' then StripBold(s[2..])
    else if s == [] then ""
    else [s[0]] + StripBold(s[1..])
  }

  /** A string that does not start with '*' keeps its first character in front. */
  lemma StripKeepsHead(s: string)
    requires s != [] && s[0] != '*'
    ensures StripBold(s) != "" && StripBold(s)[0] == s[0]
  {
  }

  /** Putting a character in front of a string free of "**" keeps it free, unless both are '*'. */
  lemma ConsNoBold(c: char, r: string)
    requires NoBold(r)
    requires c == '*' ==> r == "" || r[0] != '*'
    ensures NoBold([c] + r)
  {
    var s := [c] + r;
    forall i: nat
      ensures !BoldAt(s, i)
    {
      if i > 0 && BoldAt(s, i) {
        assert BoldAt(r, i - 1);
      }
    }
  }

  /** No "**" is left after the strip. */
  lemma {:induction false} StripLeavesNoBold(s: string)
    ensures NoBold(StripBold(s))
    decreases |s|
  {
    if |s| >= 2 && s[0] == '*' && s[1] == '*' {
      StripLeavesNoBold(s[2..]);
    } else if s != [] {
      var t := s[1..];
      StripLeavesNoBold(t);
      if s[0] == '*' && t != [] {
        StripKeepsHead(t);
      }
      ConsNoBold(s[0], StripBold(t));
    }
  }

  /** Every character other than '*' survives, in order, and no other appears. */
  lemma {:induction false} StripKeepsNonStars(s: string)
    ensures NonStars(StripBold(s)) == NonStars(s)
    decreases |s|
  {
    if |s| >= 2 && s[0] == '*' && s[1] == '*' {
      StripKeepsNonStars(s[2..]);
      assert s[1..][1..] == s[2..];
    } else if s != [] {
      StripKeepsNonStars(s[1..]);
      assert ([s[0]] + StripBold(s[1..]))[1..] == StripBold(s[1..]);
    }
  }

  /** A string without "**" comes back unchanged. */
  lemma {:induction false} StripWithoutBold(s: string)
    requires NoBold(s)
    ensures StripBold(s) == s
    decreases |s|
  {
    if s != [] {
      assert !BoldAt(s, 0);
      var t := s[1..];
      forall i: nat
        ensures !BoldAt(t, i)
      {
        assert !BoldAt(s, i + 1);
      }
      StripWithoutBold(t);
    }
  }

  /** The strip changes nothing exactly when there is no "**" to remove. */
  lemma StripUnchangedIff(s: string)
    ensures StripBold(s) == s <==> NoBold(s)
  {
    StripLeavesNoBold(s);
    if NoBold(s) {
      StripWithoutBold(s);
    }
  }

  /** Stripping twice is the same as stripping once. */
  lemma {:induction false} StripIdempotent(s: string)
    ensures StripBold(StripBold(s)) == StripBold(s)
  {
    StripLeavesNoBold(s);
    StripWithoutBold(StripBold(s));
  }

  /** The strip only removes characters, and always an even number of them. */
  lemma {:induction false} StripRemovesPairs(s: string)
    ensures |StripBold(s)| <= |s|
    ensures (|s| - |StripBold(s)|) % 2 == 0
    decreases |s|
  {
    if |s| >= 2 && s[0] == '*' && s[1] == '*' {
      StripRemovesPairs(s[2..]);
    } else if s != [] {
      StripRemovesPairs(s[1..]);
    }
  }

  /** Examples: markers go in pairs from the left, so an odd run of '*' keeps one. */
  lemma StripExamples()
    ensures StripBold("**Hi**") == "Hi"
    ensures StripBold("***") == "*"
  {
    assert "**Hi**"[2..] == "Hi**";
    assert "Hi**"[1..] == "i**";
    assert "i**"[1..] == "**";
    assert "**"[2..] == "";
    assert "***"[2..] == "*";
  }

  /**
    `translate_summary`: ask the translation service, then strip "**" from
    its answer.  A failing service (None) makes the whole call fail.
  */
  function TranslateSummary(summary: string, targetLanguage: string,
                            translate: (string, string) -> Option<string>): (r: Option<string>)
    ensures r.None? <==> translate(summary, targetLanguage).None?
    ensures r.Some? ==> NoBold(r.value)
    ensures r.Some? ==> NonStars(r.value) == NonStars(translate(summary, targetLanguage).value)
  {
    match translate(summary, targetLanguage)
    case None => None
    case Some(text) =>
      StripLeavesNoBold(text);
      StripKeepsNonStars(text);
      Some(StripBold(text))
  }
}
