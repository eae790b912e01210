/** The JavaScript string built-ins the splitter relies on.
    A string is a sequence of code units of the Basic Multilingual Plane, one
    `char` per code unit, so `|s|` is JavaScript's `s.length` for such text. */
module JsText {

  /** ECMAScript bounds the length of every string by 2^53 - 1 code units. */
  const MAX_STRING_LENGTH: nat := 0x1F_FFFF_FFFF_FFFF

  // ---------------------------------------------------------------------------
  // split(' ') and join(' ')
  // ---------------------------------------------------------------------------

  /** Every word preceded by one space: `" " + w0 + " " + w1 + ...`. */
  function Spaced(words: seq<string>): string
  {
    if words == [] then "" else " " + words[0] + Spaced(words[1..])
  }

  /** `words.join(' ')`. */
  function Join(words: seq<string>): string
  {
    if words == [] then "" else words[0] + Spaced(words[1..])
  }

  /** `s.split(' ')`: the pieces between single spaces, so `""` gives `[""]`
      and a run of n spaces contributes n - 1 empty words. */
  function Split(s: string): (words: seq<string>)
    ensures 1 <= |words| <= |s| + 1
    ensures Join(words) == s
    ensures forall i :: 0 <= i < |words| ==> ' ' !in words[i]
    decreases |s|
  {
    if s == [] then [""]
    else
      var rest := Split(s[1..]);
      assert s == [s[0]] + s[1..];
      if s[0] == ' ' then
        SplitStepSpace(rest);
        [""] + rest
      else
        SplitStepChar(s[0], rest);
        [[s[0]] + rest[0]] + rest[1..]
  }

  /** A leading space adds an empty first word. */
  lemma SplitStepSpace(rest: seq<string>)
    requires rest != []
    requires forall i :: 0 <= i < |rest| ==> ' ' !in rest[i]
    ensures Join([""] + rest) == " " + Join(rest)
    ensures forall i :: 0 <= i < |rest| + 1 ==> ' ' !in ([""] + rest)[i]
  {
    assert ([""] + rest)[1..] == rest;
  }

  /** Any other leading character extends the first word. */
  lemma SplitStepChar(c: char, rest: seq<string>)
    requires c != ' ' && rest != []
    requires forall i :: 0 <= i < |rest| ==> ' ' !in rest[i]
    ensures Join([[c] + rest[0]] + rest[1..]) == [c] + Join(rest)
    ensures forall i :: 0 <= i < |rest| ==> ' ' !in ([[c] + rest[0]] + rest[1..])[i]
  {
    var ws := [[c] + rest[0]] + rest[1..];
    assert ws[1..] == rest[1..];
    forall i | 0 <= i < |rest|
      ensures ' ' !in ws[i]
    {
      if i == 0 {
        assert ' ' !in rest[0];
      } else {
        assert ws[i] == rest[i];
      }
    }
  }

  lemma {:induction false} SpacedSnoc(words: seq<string>, last: string)
    ensures Spaced(words + [last]) == Spaced(words) + " " + last
    decreases |words|
  {
    if words == [] {
      assert [last][1..] == [];
    } else {
      assert (words + [last])[1..] == words[1..] + [last];
      SpacedSnoc(words[1..], last);
    }
  }

  /** Joining one more word adds a space and the word. */
  lemma JoinSnoc(words: seq<string>, last: string)
    requires words != []
    ensures Join(words + [last]) == Join(words) + " " + last
  {
    assert (words + [last])[1..] == words[1..] + [last];
    SpacedSnoc(words[1..], last);
  }

  /** Extending the last joined word extends the joined string. */
  lemma JoinExtendLast(front: seq<string>, last: string, tail: string)
    ensures Join(front + [last + tail]) == Join(front + [last]) + tail
  {
    if front == [] {
      assert [last + tail][1..] == [] && [last][1..] == [];
    } else {
      assert (front + [last + tail])[1..] == front[1..] + [last + tail];
      assert (front + [last])[1..] == front[1..] + [last];
      SpacedSnoc(front[1..], last + tail);
      SpacedSnoc(front[1..], last);
    }
  }

  lemma JoinCons(first: string, rest: seq<string>)
    requires rest != []
    ensures Join([first] + rest) == first + " " + Join(rest)
  {
    assert ([first] + rest)[1..] == rest;
  }

  /** One step of `split(' ')`: a leading space starts a new word, any other
      character extends the first word. */
  lemma SplitCons(c: char, text: string)
    ensures Split([c] + text) ==
      if c == ' ' then [""] + Split(text)
      else [[c] + Split(text)[0]] + Split(text)[1..]
  {
    assert ([c] + text)[1..] == text;
  }

  /** Splitting a space-free word followed by more text glues the word to the
      first piece of that text. */
  lemma {:induction false} SplitPrepend(word: string, text: string)
    requires ' ' !in word
    ensures Split(word + text) == [word + Split(text)[0]] + Split(text)[1..]
    decreases |word|
  {
    var t := Split(text);
    if word == [] {
      assert word + text == text && word + t[0] == t[0];
      assert t == [t[0]] + t[1..];
    } else {
      var c, w := word[0], word[1..];
      assert ' ' !in w by {
        assert forall i :: 0 <= i < |w| ==> w[i] == word[i + 1];
      }
      var u := w + text;
      SplitPrepend(w, text);
      SplitCons(c, u);
      ConsAppend(word, text);
      ConsAppend(word, t[0]);
    }
  }

  lemma ConsAppend(word: string, x: string)
    requires word != []
    ensures [word[0]] + (word[1..] + x) == word + x
  {
    assert word == [word[0]] + word[1..];
  }

  /** `split(' ')` undoes `join(' ')` of space-free words. */
  lemma {:induction false} SplitOfJoin(words: seq<string>)
    requires words != []
    requires forall i :: 0 <= i < |words| ==> ' ' !in words[i]
    ensures Split(Join(words)) == words
    decreases |words|
  {
    if |words| == 1 {
      assert words[1..] == [];
      assert Join(words) == words[0] && words[0] + "" == words[0];
      SplitPrepend(words[0], "");
      assert Split("") == [""];
      assert [words[0]] == words;
    } else {
      var rest := words[1..];
      SplitOfJoin(rest);
      JoinCons(words[0], rest);
      assert words == [words[0]] + rest;
      var tail := " " + Join(rest);
      assert words[0] + " " + Join(rest) == words[0] + tail;
      SplitPrepend(words[0], tail);
      assert tail != [] && tail[0] == ' ' && tail[1..] == Join(rest);
      assert Split(tail) == [""] + Split(Join(rest));
      assert Split(tail)[0] == "" && Split(tail)[1..] == rest;
      assert words[0] + "" == words[0];
    }
  }

  /** A character of the joined string that is not a space lies in some word. */
  lemma {:induction false} JoinCharInWord(words: seq<string>, k: nat)
    requires k < |Join(words)| && Join(words)[k] != ' '
    ensures exists i :: 0 <= i < |words| && Join(words)[k] in words[i]
    decreases |words|
  {
    if k < |words[0]| {
      assert Join(words)[k] == words[0][k];
    } else {
      var rest := words[1..];
      assert rest != [];
      JoinCons(words[0], rest);
      assert words == [words[0]] + rest;
      assert Join(words)[k] == Join(rest)[k - |words[0]| - 1];
      JoinCharInWord(rest, k - |words[0]| - 1);
      var i :| 0 <= i < |rest| && Join(rest)[k - |words[0]| - 1] in rest[i];
      assert words[i + 1] == rest[i];
    }
  }

  /** A character of a word lies in the joined string. */
  lemma {:induction false} WordCharInJoin(words: seq<string>, i: nat, c: char)
    requires i < |words| && c in words[i]
    ensures c in Join(words)
    decreases |words|
  {
    if i > 0 {
      var rest := words[1..];
      JoinCons(words[0], rest);
      assert rest[i - 1] == words[i];
      WordCharInJoin(rest, i - 1, c);
      assert Join(words) == words[0] + " " + Join(rest);
    }
  }

  // ---------------------------------------------------------------------------
  // substring(start, end)
  // ---------------------------------------------------------------------------

  /** An index clamped into `[0, n]`, as `String.prototype.substring` does. */
  function Clamp(i: int, n: nat): nat
  {
    if i < 0 then 0 else if i > n then n else i
  }

  /** `s.substring(start, end)`: both ends clamped, then swapped when reversed.
      Within range it is the slice; it is never longer than `s`. */
  function Substring(s: string, start: int, end: int): (r: string)
    ensures |r| <= |s|
    ensures 0 <= start <= end <= |s| ==> r == s[start..end]
    ensures 0 <= end <= start <= |s| ==> r == s[end..start]
  {
    var a := Clamp(start, |s|);
    var b := Clamp(end, |s|);
    if a <= b then s[a..b] else s[b..a]
  }

  /** `s.substring(start)`: the tail from `start`, all of `s` for a negative
      start and nothing past the end. */
  function SubstringFrom(s: string, start: int): (r: string)
    ensures 0 <= start <= |s| ==> r == s[start..]
    ensures start <= 0 ==> r == s
    ensures start >= |s| ==> r == ""
  {
    Substring(s, start, |s|)
  }

  /** Cutting at any index, however out of range, loses and duplicates nothing:
      `s.substring(0, k) + s.substring(k)` is `s`. */
  lemma SubstringSplit(s: string, k: int)
    ensures Substring(s, 0, k) + SubstringFrom(s, k) == s
  {
  }

  // ---------------------------------------------------------------------------
  // Decimal rendering of a count, as in `${n}`
  // ---------------------------------------------------------------------------

  predicate IsDigit(c: char)
  {
    '0' <= c <= '9'
  }

  function DigitChar(d: nat): (c: char)
    requires d < 10
    ensures IsDigit(c)
  {
    ('0' as int + d) as char
  }

  function DigitValue(c: char): nat
    requires IsDigit(c)
  {
    c as int - '0' as int
  }

  /** The decimal numeral of `n` without leading zeros. */
  function Decimal(n: nat): (s: string)
    ensures |s| >= 1
    ensures forall i :: 0 <= i < |s| ==> IsDigit(s[i])
  {
    if n < 10 then [DigitChar(n)] else Decimal(n / 10) + [DigitChar(n % 10)]
  }

  /** The value of a numeral. */
  function ParseDecimal(s: string): nat
    requires forall i :: 0 <= i < |s| ==> IsDigit(s[i])
  {
    if s == [] then 0 else 10 * ParseDecimal(s[..|s| - 1]) + DigitValue(s[|s| - 1])
  }

  /** Reading back a rendered count gives the count. */
  lemma {:induction false} ParseDecimalOfDecimal(n: nat)
    ensures ParseDecimal(Decimal(n)) == n
  {
    var s := Decimal(n);
    if n < 10 {
      assert s[..|s| - 1] == [];
    } else {
      assert s[..|s| - 1] == Decimal(n / 10);
      ParseDecimalOfDecimal(n / 10);
    }
  }

  function Pow10(d: nat): nat
  {
    if d == 0 then 1 else 10 * Pow10(d - 1)
  }

  /** A count below 10^d has at most d digits. */
  lemma {:induction false} DecimalLength(n: nat, d: nat)
    requires 1 <= d && n < Pow10(d)
    ensures |Decimal(n)| <= d
  {
    if n >= 10 {
      DecimalLength(n / 10, d - 1);
    }
  }

  // ---------------------------------------------------------------------------
  // The regular-expression class \s
  // ---------------------------------------------------------------------------

  /** ECMAScript's `\s`: the WhiteSpace code points (tab, vertical tab, form
      feed, no-break space, byte order mark and the Space_Separator category)
      and the LineTerminator code points (LF, CR, U+2028, U+2029). */
  predicate IsWhitespace(c: char)
  {
    var u := c as int;
    u == 0x09 || u == 0x0A || u == 0x0B || u == 0x0C || u == 0x0D || u == 0x20
    || u == 0xA0 || u == 0x1680 || (0x2000 <= u <= 0x200A)
    || u == 0x2028 || u == 0x2029 || u == 0x202F || u == 0x205F
    || u == 0x3000 || u == 0xFEFF
  }
}
