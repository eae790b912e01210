/** What `splitText` guarantees, and where it does not keep the 300 limit. */
module SplitterProps {
  import opened JsText
  import opened Splitter

  /** The counter reserved for posts 1 to 9 is six characters long. */
  lemma ReserveSingleDigit(k: nat)
    requires 1 <= k <= 9
    ensures |Reserve(k)| == 6 && Available(k) == 294
  {
    assert Decimal(k) == [DigitChar(k)];
  }

  // ---------------------------------------------------------------------------
  // No segments exactly for blank text
  // ---------------------------------------------------------------------------

  /** Some post is finished or in progress. */
  predicate Started(w: Wrap)
  {
    w.posts != [] || w.current != ""
  }

  lemma StepStarted(w: Wrap, word: string)
    requires Started(w) || word != ""
    ensures Started(Step(w, word))
  {
  }

  lemma {:induction false} WalkStarted(words: seq<string>, w: Wrap)
    requires Started(w) || exists i :: 0 <= i < |words| && words[i] != ""
    ensures Started(Walk(words, w))
    decreases |words|
  {
    if words != [] {
      var next := Step(w, words[0]);
      if Started(w) || words[0] != "" {
        StepStarted(w, words[0]);
      } else {
        var i :| 0 <= i < |words| && words[i] != "";
        assert words[1..][i - 1] == words[i];
      }
      WalkStarted(words[1..], next);
    }
  }

  lemma {:induction false} WalkEmptyWords(words: seq<string>)
    requires forall i :: 0 <= i < |words| ==> words[i] == ""
    ensures Walk(words, Wrap([], "")) == Wrap([], "")
    decreases |words|
  {
    if words != [] {
      ReserveSingleDigit(1);
      assert Step(Wrap([], ""), words[0]) == Wrap([], "");
      WalkEmptyWords(words[1..]);
    }
  }

  /** `splitText` returns no segments exactly when the text is blank (empty or
      made of spaces only); in particular the empty text gives none. */
  lemma OnlySpacesIff(text: string)
    ensures RawSegments(text) == [] <==> forall k :: 0 <= k < |text| ==> text[k] == ' '
    ensures SplitResult(text) == [] <==> RawSegments(text) == []
    ensures text == "" ==> SplitResult(text) == []
  {
    var words := Split(text);
    if forall k :: 0 <= k < |text| ==> text[k] == ' ' {
      forall i | 0 <= i < |words| ensures words[i] == "" {
        if words[i] != "" {
          WordCharInJoin(words, i, words[i][0]);
          assert false;
        }
      }
      WalkEmptyWords(words);
    } else {
      var k :| 0 <= k < |text| && text[k] != ' ';
      JoinCharInWord(words, k);
      WalkStarted(words, Wrap([], ""));
    }
  }

  // ---------------------------------------------------------------------------
  // Every segment is non-empty
  // ---------------------------------------------------------------------------

  /** While fewer than 2^53 posts exist, a post number has at most 16 digits,
      so an over-long first word is cut at no less than 279 characters. */
  lemma AvailableBound(k: nat)
    requires 1 <= k <= MAX_STRING_LENGTH + 1
    ensures Available(k) >= 279
  {
    assert Pow10(4) == 10000;
    assert Pow10(8) == 100000000;
    assert Pow10(12) == 1000000000000;
    assert Pow10(16) == 10000000000000000;
    DecimalLength(k, 16);
  }

  lemma {:induction false} WalkNonEmpty(words: seq<string>, w: Wrap)
    requires |w.posts| + |words| <= MAX_STRING_LENGTH + 1
    requires forall j :: 0 <= j < |w.posts| ==> w.posts[j] != ""
    ensures forall j :: 0 <= j < |Walk(words, w).posts| ==> Walk(words, w).posts[j] != ""
    decreases |words|
  {
    if words != [] {
      var k := |w.posts| + 1;
      AvailableBound(k);
      var next := Step(w, words[0]);
      assert forall j :: 0 <= j < |next.posts| ==> next.posts[j] != "";
      WalkNonEmpty(words[1..], next);
    }
  }

  /** Every segment pushed by `splitText` is non-empty (for any text a
      JavaScript engine can hold). */
  lemma SegmentsNonEmpty(text: string)
    requires |text| <= MAX_STRING_LENGTH
    ensures forall j :: 0 <= j < |RawSegments(text)| ==> RawSegments(text)[j] != ""
  {
    WalkNonEmpty(Split(text), Wrap([], ""));
  }

  // ---------------------------------------------------------------------------
  // Short text stays whole
  // ---------------------------------------------------------------------------

  lemma {:induction false} WalkGrowing(words: seq<string>, current: string)
    requires current != "" && |current| + |Spaced(words)| <= 294
    ensures Walk(words, Wrap([], current)) == Wrap([], current + Spaced(words))
    decreases |words|
  {
    if words != [] {
      ReserveSingleDigit(1);
      var next := current + " " + words[0];
      assert Spaced(words) == " " + words[0] + Spaced(words[1..]);
      assert Step(Wrap([], current), words[0]) == Wrap([], next);
      WalkGrowing(words[1..], next);
      assert next + Spaced(words[1..]) == current + Spaced(words);
    }
  }

  /** A non-empty text of at most 300 - |" (1/?)"| = 294 characters that does
      not start with a space becomes one post equal to the text, with no counter. */
  lemma ShortTextSingleSegment(text: string)
    requires text != [] && text[0] != ' ' && |text| <= 294
    ensures RawSegments(text) == [text]
    ensures SplitResult(text) == [text]
  {
    var words := Split(text);
    var first, rest := words[0], words[1..];
    assert text == first + Spaced(rest);
    if first == "" {
      assert false;
    }
    ReserveSingleDigit(1);
    assert Walk(words, Wrap([], "")) == Walk(rest, Step(Wrap([], ""), first));
    if |first| <= 293 {
      assert Step(Wrap([], ""), first) == Wrap([], first);
      WalkGrowing(rest, first);
    } else {
      assert |Spaced(rest)| == 0;
      assert rest == [];
      assert |first| == 294 && !Fits("", first, 1);
      assert Substring(first, 0, 294) == first[0..294] == first;
      assert SubstringFrom(first, 294) == first[294..294] == "";
      assert Step(Wrap([], ""), first) == Wrap([first], "");
      assert first == text;
    }
  }

  // ---------------------------------------------------------------------------
  // Re-joining the posts gives the text back
  // ---------------------------------------------------------------------------

  lemma StepJoin(w: Wrap, word: string)
    requires w.current != "" && word != ""
    ensures Step(w, word).current != ""
    ensures Join(Step(w, word).posts + [Step(w, word).current])
         == Join(w.posts + [w.current]) + " " + word
  {
    if Fits(w.current, word, |w.posts| + 1) {
      assert Step(w, word) == Wrap(w.posts, w.current + (" " + word));
      JoinExtendLast(w.posts, w.current, " " + word);
    } else {
      assert Step(w, word) == Wrap(w.posts + [w.current], word);
      JoinSnoc(w.posts + [w.current], word);
    }
  }

  lemma {:induction false} WalkJoin(words: seq<string>, w: Wrap)
    requires w.current != ""
    requires forall i :: 0 <= i < |words| ==> words[i] != ""
    ensures Walk(words, w).current != ""
    ensures Join(Walk(words, w).posts + [Walk(words, w).current])
         == Join(w.posts + [w.current]) + Spaced(words)
    decreases |words|
  {
    if words != [] {
      var next := Step(w, words[0]);
      StepJoin(w, words[0]);
      WalkJoin(words[1..], next);
      var fin := Walk(words[1..], next);
      assert Walk(words, w) == fin;
      var a := Join(w.posts + [w.current]);
      assert Join(fin.posts + [fin.current]) == a + " " + words[0] + Spaced(words[1..]);
      assert Spaced(words) == " " + words[0] + Spaced(words[1..]);
      assert a + " " + words[0] + Spaced(words[1..]) == a + Spaced(words);
    }
  }

  /** When no word is empty (no leading, trailing or doubled spaces) and the
      first word fits a post, joining the posts with single spaces gives back
      the text: nothing is lost or duplicated. */
  lemma JoinRoundTrip(text: string)
    requires forall i :: 0 <= i < |Split(text)| ==> Split(text)[i] != ""
    requires |Split(text)[0]| <= 293
    ensures Join(RawSegments(text)) == text
  {
    var words := Split(text);
    var start := FirstWordStep(words[0]);
    assert Walk(words, Wrap([], "")) == Walk(words[1..], start);
    WalkJoin(words[1..], start);
    var fin := Walk(words, Wrap([], ""));
    assert RawSegments(text) == fin.posts + [fin.current];
    assert start.posts + [start.current] == [words[0]];
    assert Join([words[0]]) == words[0];
    assert Join(words) == words[0] + Spaced(words[1..]);
  }

  /** A non-empty first word of at most 293 characters opens the first post. */
  lemma FirstWordStep(word: string) returns (start: Wrap)
    requires word != "" && |word| <= 293
    ensures start == Step(Wrap([], ""), word) == Wrap([], word)
  {
    ReserveSingleDigit(1);
    start := Step(Wrap([], ""), word);
    assert "" + "" + word == word;
  }

  // ---------------------------------------------------------------------------
  // Cutting an over-long word
  // ---------------------------------------------------------------------------

  /** An over-long word met with no post in progress is cut once: the piece
      pushed is its first `300 - |" (k/?)"|` characters (none if that is
      negative) and the rest becomes the post in progress, so the two pieces
      put together are the word. */
  lemma HardSplitStep(w: Wrap, word: string)
    requires w.current == "" && !Fits("", word, |w.posts| + 1)
    ensures var cut := if Available(|w.posts| + 1) < 0 then 0 else Available(|w.posts| + 1);
      && cut <= |word|
      && Step(w, word) == Wrap(w.posts + [word[..cut]], word[cut..])
      && word[..cut] + word[cut..] == word
  {
  }

  /** A single space-free word is cut at most once, however long: up to 294
      characters it is one post, beyond that it is two, the first exactly 294
      characters and the second all the rest. */
  lemma SingleWordSegments(word: string)
    requires word != "" && ' ' !in word
    ensures RawSegments(word) == if |word| <= 294 then [word] else [word[..294], word[294..]]
  {
    assert Join([word]) == word;
    SplitOfJoin([word]);
    ReserveSingleDigit(1);
    assert Split(word) == [word];
    assert [word][1..] == [];
    assert Walk([word], Wrap([], "")) == Walk([], Step(Wrap([], ""), word));
    assert RawSegments(word) == Flush(Step(Wrap([], ""), word));
    if |word| <= 293 {
      assert Step(Wrap([], ""), word) == Wrap([], word);
    } else {
      assert !Fits("", word, 1);
      assert Substring(word, 0, 294) == word[..294];
      assert SubstringFrom(word, 294) == word[294..];
      assert Step(Wrap([], ""), word) == Wrap([word[..294]], word[294..]);
      if |word| == 294 {
        assert word[..294] == word && word[294..] == "";
      }
    }
  }

  /** A text made of 700 `x` gives two posts, the second 412 characters long
      with its counter: more than the 300 the network accepts. */
  lemma OversizedSecondSegment()
    ensures var text := seq(700, _ => 'x');
      |SplitResult(text)| == 2 && |SplitResult(text)[1]| == 412
  {
    var text := seq(700, _ => 'x');
    assert forall i :: 0 <= i < |text| ==> text[i] == 'x';
    SingleWordSegments(text);
    assert Suffix(2, 2) == " (2/2)";
  }

  // ---------------------------------------------------------------------------
  // The length limit, and where it fails
  // ---------------------------------------------------------------------------

  /** A post grown by the append branch keeps room for the counter reserved
      for it. */
  lemma AppendBranchBound(w: Wrap, word: string)
    requires Fits(w.current, word, |w.posts| + 1)
    ensures |Step(w, word).current| <= Available(|w.posts| + 1)
    ensures Step(w, word).posts == w.posts
  {
  }

  /** Among the first nine posts, each is at most 294 characters long. */
  predicate FirstNineFit(w: Wrap)
  {
    && (forall j :: 0 <= j < |w.posts| && j < 9 ==> |w.posts[j]| <= 294)
    && (|w.posts| < 9 ==> |w.current| <= 294)
  }

  lemma StepFirstNineFit(w: Wrap, word: string)
    requires |word| <= 293 && FirstNineFit(w)
    ensures FirstNineFit(Step(w, word))
  {
    if |w.posts| < 9 {
      ReserveSingleDigit(|w.posts| + 1);
    }
  }

  lemma {:induction false} WalkFirstNineFit(words: seq<string>, w: Wrap)
    requires forall i :: 0 <= i < |words| ==> |words[i]| <= 293
    requires FirstNineFit(w)
    ensures FirstNineFit(Walk(words, w))
    decreases |words|
  {
    if words != [] {
      StepFirstNineFit(w, words[0]);
      WalkFirstNineFit(words[1..], Step(w, words[0]));
    }
  }

  /** The counter of a thread of at most nine posts is six characters long. */
  lemma SuffixSingleDigits(i: nat, n: nat)
    requires 1 <= i <= n <= 9
    ensures |Suffix(i, n)| == 6
  {
    assert Decimal(i) == [DigitChar(i)];
    assert Decimal(n) == [DigitChar(n)];
  }

  /** Numbering up to nine posts of at most 294 characters stays within 300. */
  lemma NumberedBound(raw: seq<string>)
    requires |raw| <= 9
    requires forall j :: 0 <= j < |raw| ==> |raw[j]| <= 294
    ensures forall i :: 0 <= i < |Numbered(raw)| ==> |Numbered(raw)[i]| <= MAX_POST_LENGTH
  {
    if |raw| > 1 {
      forall i | 0 <= i < |raw|
        ensures |Numbered(raw)[i]| <= MAX_POST_LENGTH
      {
        NumberedAt(raw, i);
        SuffixSingleDigits(i + 1, |raw|);
      }
    }
  }

  /** When every word has at most 293 characters and the thread has at most
      nine posts, every numbered post is within the 300 limit. */
  lemma LengthBound(text: string)
    requires forall i :: 0 <= i < |Split(text)| ==> |Split(text)[i]| <= 293
    requires |RawSegments(text)| <= 9
    ensures forall i :: 0 <= i < |SplitResult(text)| ==> |SplitResult(text)[i]| <= MAX_POST_LENGTH
  {
    var raw := RawSegments(text);
    WalkFirstNineFit(Split(text), Wrap([], ""));
    assert forall j :: 0 <= j < |raw| ==> |raw[j]| <= 294;
    NumberedBound(raw);
  }

  /** Words of at least 293 characters each fill a post of their own. */
  lemma {:induction false} WalkWholeWords(words: seq<string>, w: Wrap)
    requires words != [] && w.current != ""
    requires forall i :: 0 <= i < |words| ==> |words[i]| >= 293
    ensures Walk(words, w)
         == Wrap(w.posts + [w.current] + words[..|words| - 1], words[|words| - 1])
    decreases |words|
  {
    var next := Step(w, words[0]);
    assert next == Wrap(w.posts + [w.current], words[0]);
    if |words| > 1 {
      WalkWholeWords(words[1..], next);
      assert [words[0]] + words[1..][..|words| - 2] == words[..|words| - 1];
    }
  }

  /** The first of ten numbered posts carries a 7-character counter. */
  lemma TenthCounter(raw: seq<string>)
    requires |raw| == 10
    ensures |Numbered(raw)[0]| == |raw[0]| + 7
  {
    assert Decimal(10) == "10";
    assert |Suffix(1, 10)| == 7;
  }

  /** A 1- and a 292-character word open the first post together. */
  lemma FirstTwoWords(words: seq<string>)
    requires |words| >= 2 && |words[0]| == 1 && |words[1]| == 292
    ensures Walk(words, Wrap([], "")) == Walk(words[2..], Wrap([], words[0] + " " + words[1]))
  {
    ReserveSingleDigit(1);
    var w1 := Step(Wrap([], ""), words[0]);
    assert w1 == Wrap([], words[0]);
    var w2 := Step(w1, words[1]);
    assert w2 == Wrap([], words[0] + " " + words[1]);
    assert words[1..][1..] == words[2..];
  }

  /** The posts of eleven words shaped as in `OverflowFromShape`: the first two
      words share the first post and each later word has one of its own. */
  lemma WalkOverflow(words: seq<string>)
    requires |words| == 11
    requires |words[0]| == 1 && |words[1]| == 292
    requires forall i :: 2 <= i < 11 ==> |words[i]| == 293
    ensures var raw := Flush(Walk(words, Wrap([], "")));
      |raw| == 10 && raw[0] == words[0] + " " + words[1]
  {
    FirstTwoWords(words);
    var first := words[0] + " " + words[1];
    var rest := words[2..];
    WalkWholeWords(rest, Wrap([], first));
    var fin := Walk(words, Wrap([], ""));
    assert fin == Wrap([first] + rest[..8], rest[8]);
  }

  /** Eleven space-free words: a 1- and a 292-character word sharing the first
      post (294 characters, all that `" (1/?)"` leaves), then nine words of 293
      characters, one post each. */
  lemma OverflowFromShape(words: seq<string>)
    requires |words| == 11
    requires forall i :: 0 <= i < 11 ==> ' ' !in words[i]
    requires |words[0]| == 1 && |words[1]| == 292
    requires forall i :: 2 <= i < 11 ==> |words[i]| == 293
    ensures |SplitResult(Join(words))| == 10 && |SplitResult(Join(words))[0]| == 301
  {
    SplitOfJoin(words);
    WalkOverflow(words);
    TenthCounter(RawSegments(Join(words)));
  }

  /** Ten posts need a 7-character counter where 6 were reserved: the text
      "a", a 292-character word and nine 293-character words gives a first
      post of 301 characters. */
  lemma TenPostOverflow()
    ensures var words := ["a", seq(292, _ => 'x')] + seq(9, _ => seq(293, _ => 'x'));
      |SplitResult(Join(words))| == 10 && |SplitResult(Join(words))[0]| == 301
  {
    var long := seq(293, _ => 'x');
    var words := ["a", seq(292, _ => 'x')] + seq(9, _ => long);
    assert ' ' !in long;
    assert ' ' !in words[1];
    OverflowFromShape(words);
  }
}
