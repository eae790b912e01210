/** `SkySplitter.detectLinks`: every match of `/(https?:\/\/[^\s]+)/g` in the
    text, left to right, or `[]` when there is none. */
module LinkDetection {
  import opened JsText

  /** `p` occurs in `text` at position q. */
  predicate HasAt(text: string, q: nat, p: string)
  {
    q + |p| <= |text| && text[q..q + |p|] == p
  }

  /** The length of what `https?://` matches at q when a character that is not
      `\s` follows it (so that `[^\s]+` can match too), or 0 when no match
      starts at q. The optional `s` is tried first; without it `://` would have
      to follow `http`, which a following `s` rules out. */
  function SchemeLength(text: string, q: nat): nat
  {
    if HasAt(text, q, "https://") && q + 8 < |text| && !IsWhitespace(text[q + 8]) then 8
    else if HasAt(text, q, "http://") && q + 7 < |text| && !IsWhitespace(text[q + 7]) then 7
    else 0
  }

  /** Where the greedy `[^\s]+` started at j stops. */
  function RunEnd(text: string, j: nat): (e: nat)
    requires j <= |text|
    ensures j <= e <= |text|
    ensures forall i :: j <= i < e ==> !IsWhitespace(text[i])
    ensures e == |text| || IsWhitespace(text[e])
    decreases |text| - j
  {
    if j < |text| && !IsWhitespace(text[j]) then RunEnd(text, j + 1) else j
  }

  /** The `[start, end)` spans of the successive matches from position `from`:
      each search resumes where the previous match ended. */
  function LinkSpans(text: string, from: nat): (spans: seq<(nat, nat)>)
    requires from <= |text|
    ensures forall k :: 0 <= k < |spans| ==> from <= spans[k].0 < spans[k].1 <= |text|
    ensures forall k :: 0 <= k < |spans| - 1 ==> spans[k].1 <= spans[k + 1].0
    decreases |text| - from
  {
    if from == |text| then []
    else if SchemeLength(text, from) > 0 then
      var e := RunEnd(text, from + SchemeLength(text, from));
      [(from, e)] + LinkSpans(text, e)
    else
      LinkSpans(text, from + 1)
  }

  /** `detectLinks(text)`: the matched strings, one per match, each a URL. */
  function DetectLinks(text: string): (links: seq<string>)
    ensures |links| == |LinkSpans(text, 0)|
    ensures forall i :: 0 <= i < |links| ==> IsUrl(links[i])
  {
    var spans := LinkSpans(text, 0);
    LinkSpansSound(text, 0);
    seq(|spans|, k requires 0 <= k < |spans| => text[spans[k].0..spans[k].1])
  }

  /** A URL as the pattern describes it: an `http://` or `https://` scheme, at
      least one more character, and no whitespace. */
  predicate IsUrl(s: string)
  {
    && ((|s| > 8 && s[..8] == "https://") || (|s| > 7 && s[..7] == "http://"))
    && forall i :: 0 <= i < |s| ==> !IsWhitespace(s[i])
  }

  /** A URL can start only where the pattern matches. */
  lemma UrlStartsMatch(text: string, q: nat, e: nat)
    requires q < e <= |text| && IsUrl(text[q..e])
    ensures SchemeLength(text, q) > 0
  {
    var s := text[q..e];
    if |s| > 8 && s[..8] == "https://" {
      assert text[q..q + 8] == s[..8];
      assert text[q + 8] == s[8];
    } else {
      assert text[q..q + 7] == s[..7];
      assert text[q + 7] == s[7];
    }
  }

  /** The match found at `from` is a URL, and its run of non-whitespace
      characters goes past the scheme. */
  lemma MatchIsUrl(text: string, from: nat)
    requires from < |text| && SchemeLength(text, from) > 0
    ensures var e := RunEnd(text, from + SchemeLength(text, from));
      && from + SchemeLength(text, from) < e
      && IsUrl(text[from..e])
  {
    var n := SchemeLength(text, from);
    var e := RunEnd(text, from + n);
    var s := text[from..e];
    assert e > from + n;
    if n == 8 {
      assert s[..8] == text[from..from + 8] == "https://";
    } else {
      assert s[..7] == text[from..from + 7] == "http://";
    }
    forall i | 0 <= i < |s| ensures !IsWhitespace(s[i]) {
      assert s[i] == text[from + i];
      if i < n {
        assert s[i] in "https://";
      }
    }
  }

  /** Every match is a URL, taken as far as the next whitespace or the end of
      the text; the matches are in text order and do not overlap. */
  lemma {:induction false} LinkSpansSound(text: string, from: nat)
    requires from <= |text|
    ensures forall k :: 0 <= k < |LinkSpans(text, from)| ==>
      && IsUrl(text[LinkSpans(text, from)[k].0..LinkSpans(text, from)[k].1])
      && (LinkSpans(text, from)[k].1 == |text| || IsWhitespace(text[LinkSpans(text, from)[k].1]))
    decreases |text| - from
  {
    var spans := LinkSpans(text, from);
    if from < |text| {
      if SchemeLength(text, from) > 0 {
        var end := RunEnd(text, from + SchemeLength(text, from));
        MatchIsUrl(text, from);
        LinkSpansSound(text, end);
        var rest := LinkSpans(text, end);
        assert spans == [(from, end)] + rest;
        forall k | 0 <= k < |spans|
          ensures IsUrl(text[spans[k].0..spans[k].1])
          ensures spans[k].1 == |text| || IsWhitespace(text[spans[k].1])
        {
          if k > 0 {
            assert spans[k] == rest[k - 1];
          }
        }
      } else {
        LinkSpansSound(text, from + 1);
      }
    }
  }

  /** Position q lies inside one of the spans. */
  predicate Covered(spans: seq<(nat, nat)>, q: nat)
  {
    exists k :: 0 <= k < |spans| && spans[k].0 <= q < spans[k].1
  }

  /** A URL starting at q lies, from its first character, inside a match. */
  lemma {:induction false} UrlCovered(text: string, from: nat, q: nat, e: nat)
    requires from <= q < e <= |text| && IsUrl(text[q..e])
    ensures Covered(LinkSpans(text, from), q)
    decreases |text| - from
  {
    var spans := LinkSpans(text, from);
    if SchemeLength(text, from) > 0 {
      var end := RunEnd(text, from + SchemeLength(text, from));
      var rest := LinkSpans(text, end);
      assert spans == [(from, end)] + rest;
      if q < end {
        assert spans[0].0 <= q < spans[0].1;
      } else {
        UrlCovered(text, end, q, e);
        assert Covered(rest, q);
        var k :| 0 <= k < |rest| && rest[k].0 <= q < rest[k].1;
        assert spans[k + 1] == rest[k];
        assert spans[k + 1].0 <= q < spans[k + 1].1;
      }
    } else {
      if q == from {
        UrlStartsMatch(text, q, e);
      }
      UrlCovered(text, from + 1, q, e);
    }
  }

  /** No URL is missed: every URL in the text starts inside some match. */
  lemma LinkSpansComplete(text: string, from: nat)
    requires from <= |text|
    ensures forall q, e :: from <= q < e <= |text| && IsUrl(text[q..e]) ==>
      Covered(LinkSpans(text, from), q)
  {
    forall q, e | from <= q < e <= |text| && IsUrl(text[q..e])
      ensures Covered(LinkSpans(text, from), q)
    {
      UrlCovered(text, from, q, e);
    }
  }

  /** `detectLinks` returns `[]` exactly when the text contains no URL. */
  lemma DetectLinksSpec(text: string)
    ensures DetectLinks(text) == [] <==>
      forall q, e :: 0 <= q < e <= |text| ==> !IsUrl(text[q..e])
  {
    var spans := LinkSpans(text, 0);
    LinkSpansSound(text, 0);
    LinkSpansComplete(text, 0);
    if spans != [] {
      assert IsUrl(text[spans[0].0..spans[0].1]);
    }
  }
}
