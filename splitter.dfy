/** `SkySplitter.splitText`: a greedy word wrap that aims at posts of at most
    300 characters, reserving room for a `" (k/?)"` counter while a post is
    being filled, and numbering the posts `" (i/N)"` once N is known. */
module Splitter {
  import opened Wrappers
  import opened JsText

  /** The per-post character limit of the network. */
  const MAX_POST_LENGTH: nat := 300

  /** The placeholder `" (k/?)"` whose length is kept free while post k is built. */
  function Reserve(k: nat): string
  {
    " (" + Decimal(k) + "/?)"
  }

  /** The counter `" (i/n)"` appended to post i of n. */
  function Suffix(i: nat, n: nat): string
  {
    " (" + Decimal(i) + "/" + Decimal(n) + ")"
  }

  /** The loop state of `splitText`: the finished posts and the post in progress. */
  datatype Wrap = Wrap(posts: seq<string>, current: string)

  /** The test for appending `word` to the post in progress, whose number is k.
      It counts a separating space even when the post is still empty. */
  predicate Fits(current: string, word: string, k: nat)
  {
    |current| + 1 + |word| + |Reserve(k)| <= MAX_POST_LENGTH
  }

  /** Where an over-long first word is cut when post k is built. */
  function Available(k: nat): int
  {
    MAX_POST_LENGTH - |Reserve(k)|
  }

  /** One iteration of the word loop. Finished posts are never changed and at
      most one is added. A post finished by a full append is the old post in
      progress, and the word starts the next one; a post finished by a hard
      split is a prefix of the word, and the rest of the word is the next post
      in progress. */
  function Step(w: Wrap, word: string): (r: Wrap)
    ensures w.posts <= r.posts && |r.posts| <= |w.posts| + 1
    ensures |r.posts| > |w.posts| && w.current != "" ==>
      r.posts[|w.posts|] == w.current && r.current == word
    ensures |r.posts| > |w.posts| && w.current == "" ==>
      r.posts[|w.posts|] + r.current == word
  {
    var k := |w.posts| + 1;
    SubstringSplit(word, Available(k));
    if Fits(w.current, word, k) then
      Wrap(w.posts, w.current + (if w.current != "" then " " else "") + word)
    else if w.current != "" then
      Wrap(w.posts + [w.current], word)
    else
      Wrap(w.posts + [Substring(word, 0, Available(k))], SubstringFrom(word, Available(k)))
  }

  /** The word loop over `words`, from state `w`: it only adds finished posts,
      at most one per word. */
  function Walk(words: seq<string>, w: Wrap): (r: Wrap)
    ensures w.posts <= r.posts && |r.posts| <= |w.posts| + |words|
    decreases |words|
  {
    if words == [] then w else Walk(words[1..], Step(w, words[0]))
  }

  /** The final `if (currentPost) posts.push(currentPost)`: the finished posts
      are kept, and a non-empty post in progress becomes the last post. */
  function Flush(w: Wrap): (r: seq<string>)
    ensures w.posts <= r && |r| <= |w.posts| + 1
    ensures w.current != "" <==> |r| > |w.posts|
    ensures w.current != "" ==> r[|r| - 1] == w.current
  {
    if w.current != "" then w.posts + [w.current] else w.posts
  }

  /** The posts of `text` before numbering. */
  function RawSegments(text: string): seq<string>
  {
    Flush(Walk(Split(text), Wrap([], "")))
  }

  /** The final `map`: post i of n gets `" (i/n)"`, but only when n > 1. */
  function Numbered(raw: seq<string>): (r: seq<string>)
    ensures |r| == |raw|
  {
    if |raw| > 1 then seq(|raw|, i requires 0 <= i < |raw| => raw[i] + Suffix(i + 1, |raw|))
    else raw
  }

  /** The result of `splitText(text)`: one numbered post per raw post, none for
      the empty text, and never more than two beyond the text's length. */
  function SplitResult(text: string): (r: seq<string>)
    ensures |r| == |RawSegments(text)|
    ensures text == "" ==> r == []
    ensures |r| <= |text| + 2
  {
    Numbered(RawSegments(text))
  }

  /** `splitText`: the word loop pushes onto `posts` and rebuilds `currentPost`. */
  method SplitText(text: string) returns (segments: seq<string>)
    ensures segments == SplitResult(text)
    ensures text == "" ==> segments == []
  {
    var words := Split(text);
    var posts: seq<string> := [];
    var currentPost := "";
    for i := 0 to |words|
      invariant Walk(words[i..], Wrap(posts, currentPost)) == Walk(words, Wrap([], ""))
    {
      var word := words[i];
      var potentialPostNumber := |posts| + 1;
      var maxContinuationLength := |" (" + Decimal(potentialPostNumber) + "/?)"|;
      assert words[i..][1..] == words[i + 1..];
      if |currentPost| + 1 + |word| + maxContinuationLength <= MAX_POST_LENGTH {
        currentPost := currentPost + (if currentPost != "" then " " else "") + word;
      } else if currentPost != "" {
        posts := posts + [currentPost];
        currentPost := word;
      } else {
        var availableLength := MAX_POST_LENGTH - maxContinuationLength;
        posts := posts + [Substring(word, 0, availableLength)];
        currentPost := SubstringFrom(word, availableLength);
      }
    }
    assert words[|words|..] == [];
    if currentPost != "" {
      posts := posts + [currentPost];
    }
    segments := Numbered(posts);
  }

  // ---------------------------------------------------------------------------
  // Reading a counter back
  // ---------------------------------------------------------------------------

  /** A numbered post taken apart: its text, its number and the thread length. */
  datatype Numbering = Numbering(raw: string, index: nat, total: nat)

  /** The number of digits at the end of `s`. */
  function TrailingDigits(s: string): (n: nat)
    ensures n <= |s|
    ensures forall i :: |s| - n <= i < |s| ==> IsDigit(s[i])
  {
    if s != [] && IsDigit(s[|s| - 1]) then 1 + TrailingDigits(s[..|s| - 1]) else 0
  }

  /** `s` cut before its trailing digits: the text in front and the numeral. */
  function SplitNumeral(s: string): (r: (string, string))
    ensures r.0 + r.1 == s
    ensures forall i :: 0 <= i < |r.1| ==> IsDigit(r.1[i])
  {
    var k := |s| - TrailingDigits(s);
    assert s[..k] + s[k..] == s;
    assert forall i :: 0 <= i < |s| - k ==> s[k..][i] == s[k + i];
    (s[..k], s[k..])
  }

  /** Strips a trailing `" (i/n)"` counter, reading i and n back. */
  function Unnumber(s: string): Option<Numbering>
  {
    if s == [] || s[|s| - 1] != ')' then None
    else
      var (u, total) := SplitNumeral(s[..|s| - 1]);
      if total == [] || u == [] || u[|u| - 1] != '/' then None
      else UnnumberIndex(u[..|u| - 1], ParseDecimal(total))
  }

  /** Strips the `" (i"` part of a counter whose total has been read. */
  function UnnumberIndex(s: string, total: nat): Option<Numbering>
  {
    var (x, index) := SplitNumeral(s);
    if index == [] || |x| < 2 || x[|x| - 2..] != " (" then None
    else Some(Numbering(x[..|x| - 2], ParseDecimal(index), total))
  }

  lemma {:induction false} TrailingDigitsAfter(front: string, digits: string)
    requires front != [] && !IsDigit(front[|front| - 1])
    requires forall i :: 0 <= i < |digits| ==> IsDigit(digits[i])
    ensures TrailingDigits(front + digits) == |digits|
    decreases |digits|
  {
    var s := front + digits;
    if digits != [] {
      assert s[..|s| - 1] == front + digits[..|digits| - 1];
      TrailingDigitsAfter(front, digits[..|digits| - 1]);
    } else {
      assert s == front;
    }
  }

  /** A numeral after a non-digit is split off whole. */
  lemma SplitNumeralAfter(front: string, digits: string)
    requires front != [] && !IsDigit(front[|front| - 1])
    requires forall i :: 0 <= i < |digits| ==> IsDigit(digits[i])
    ensures SplitNumeral(front + digits) == (front, digits)
  {
    TrailingDigitsAfter(front, digits);
    var s := front + digits;
    assert s[..|s| - |digits|] == front;
    assert s[|s| - |digits|..] == digits;
  }

  /** Removing the counter from `raw + " (i/n)"` gives back raw, i and n. */
  lemma UnnumberSuffix(raw: string, i: nat, n: nat)
    ensures Unnumber(raw + Suffix(i, n)) == Some(Numbering(raw, i, n))
  {
    var dn := Decimal(n);
    var front := raw + " (" + Decimal(i);
    var u := front + "/";
    var s := u + dn + ")";
    assert s == raw + Suffix(i, n);
    assert s[..|s| - 1] == u + dn;
    SplitNumeralAfter(u, dn);
    assert u[..|u| - 1] == front;
    ParseDecimalOfDecimal(n);
    UnnumberIndexSuffix(raw, i, n);
  }

  /** Removing `" (i"` from `raw + " (i"` gives back raw and i. */
  lemma UnnumberIndexSuffix(raw: string, i: nat, total: nat)
    ensures UnnumberIndex(raw + " (" + Decimal(i), total) == Some(Numbering(raw, i, total))
  {
    var x := raw + " (";
    SplitNumeralAfter(x, Decimal(i));
    assert x[|x| - 2..] == " (" && x[..|x| - 2] == raw;
    ParseDecimalOfDecimal(i);
  }

  /** Post i of a thread of several posts carries the counter `" (i+1/n)"`. */
  lemma NumberedAt(raw: seq<string>, i: nat)
    requires |raw| > 1 && i < |raw|
    ensures Numbered(raw)[i] == raw[i] + Suffix(i + 1, |raw|)
  {
  }

  /** Numbering is undone by `Unnumber`: each post of a thread of n > 1 posts
      reads back as its raw text, its 1-based number and n; a lone post is
      left unchanged. */
  lemma NumberedRoundTrip(raw: seq<string>)
    ensures |raw| <= 1 ==> Numbered(raw) == raw
    ensures |raw| > 1 ==> forall i :: 0 <= i < |raw| ==>
      Unnumber(Numbered(raw)[i]) == Some(Numbering(raw[i], i + 1, |raw|))
  {
    if |raw| > 1 {
      forall i | 0 <= i < |raw|
        ensures Unnumber(Numbered(raw)[i]) == Some(Numbering(raw[i], i + 1, |raw|))
      {
        NumberedReadsBack(raw, i);
      }
    }
  }

  /** Post i of a thread of several posts reads back as raw post i. */
  lemma NumberedReadsBack(raw: seq<string>, i: nat)
    requires |raw| > 1 && i < |raw|
    ensures Unnumber(Numbered(raw)[i]) == Some(Numbering(raw[i], i + 1, |raw|))
  {
    NumberedAt(raw, i);
    UnnumberSuffix(raw[i], i + 1, |raw|);
  }
}
