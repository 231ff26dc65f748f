/** `word_generator` and `ngram_generator` (stuff/practice.py). */
module Tokenizer {
  import opened Chars
  import opened Splitting

  /** `word_generator(text)`: the matches of `\b\w+\b` in `text.lower()`, in
      text order. A match of `\w+` between word boundaries is a maximal run
      of word characters. */
  function Words(text: string): seq<string> {
    Runs(Lower(text), IsWordChar)
  }

  /** If every character of `s` satisfies `q`, so does every character of
      every run. */
  lemma {:induction false} RunsInherit(s: string, p: char -> bool, q: char -> bool)
    requires forall i :: 0 <= i < |s| ==> q(s[i])
    ensures forall w, i :: w in Runs(s, p) && 0 <= i < |w| ==> q(w[i])
    decreases |s|
  {
    if s != [] {
      if !p(s[0]) {
        RunsInherit(s[1..], p, q);
      } else {
        RunsInherit(s[RunLength(s, p)..], p, q);
      }
    }
  }

  /** Every word is non-empty, made of word characters, and lower-case. */
  lemma WordsShape(text: string)
    ensures forall w :: w in Words(text) ==> w != []
    ensures forall w, i :: w in Words(text) && 0 <= i < |w| ==> IsWordChar(w[i]) && !IsUpper(w[i])
  {
    RunsWellFormed(Lower(text), IsWordChar);
    RunsInherit(Lower(text), IsWordChar, c => !IsUpper(c));
  }

  /** A non-word character ends one word and starts the search for the next:
      the words of a text are the words of its two sides. */
  lemma WordsSeparate(a: string, c: char, b: string)
    requires !IsWordChar(c)
    ensures Words(a + [c] + b) == Words(a) + Words(b)
  {
    assert Lower(a + [c] + b) == Lower(a) + [ToLower(c)] + Lower(b);
    RunsSeparate(Lower(a), ToLower(c), Lower(b), IsWordChar);
  }

  /** A text made only of word characters is one word, lower-cased. */
  lemma WordsOfBlock(w: string)
    requires w != [] && forall i :: 0 <= i < |w| ==> IsWordChar(w[i])
    ensures Words(w) == [Lower(w)]
  {
    RunsOfBlock(Lower(w), IsWordChar);
  }

  /** `s.split()` with no separator: the maximal runs of non-whitespace. */
  function SplitWhitespace(s: string): seq<string> {
    Runs(s, NotSpace)
  }

  /** `split()` yields no empty piece and no piece holding whitespace, and
      splits at every whitespace character. */
  lemma SplitWhitespaceShape(a: string, c: char, b: string)
    requires IsSpace(c)
    ensures forall w :: w in SplitWhitespace(a) ==> w != [] && forall i :: 0 <= i < |w| ==> !IsSpace(w[i])
    ensures SplitWhitespace(a + [c] + b) == SplitWhitespace(a) + SplitWhitespace(b)
  {
    RunsWellFormed(a, NotSpace);
    RunsSeparate(a, c, b, NotSpace);
  }

  /** A Python slice bound: a negative index counts from the end, and the
      result is clamped to `[0, len]`. */
  function SliceBound(len: nat, i: int): (r: nat)
    ensures r <= len
  {
    if i < 0 then (if i + len < 0 then 0 else i + len)
    else if i > len then len
    else i
  }

  /** `s[start:stop]` with Python's normalisation of the bounds. */
  function PySlice<T>(s: seq<T>, start: int, stop: int): seq<T> {
    var lo := SliceBound(|s|, start);
    var hi := SliceBound(|s|, stop);
    if lo < hi then s[lo..hi] else []
  }

  /** `for i in range(len(words) - n + 1): yield tuple(words[i:i + n])`. */
  function NGrams(words: seq<string>, n: int): seq<seq<string>> {
    var count := if |words| - n + 1 < 0 then 0 else |words| - n + 1;
    seq(count, i requires 0 <= i < count => PySlice(words, i, i + n))
  }

  /** `ngram_generator(text, n)`. */
  function NGramGenerator(text: string, n: int := 2): seq<seq<string>> {
    NGrams(Words(text), n)
  }

  /** For n >= 1: `max(0, len(words) - n + 1)` windows, window i being
      `words[i..i+n]`, so every window has exactly n words. */
  lemma NGramsWindows(words: seq<string>, n: int)
    requires n >= 1
    ensures |NGrams(words, n)| == if |words| < n then 0 else |words| - n + 1
    ensures forall i :: 0 <= i < |NGrams(words, n)| ==>
      |NGrams(words, n)[i]| == n && NGrams(words, n)[i] == words[i..i + n]
  {
    forall i | 0 <= i < |NGrams(words, n)|
      ensures NGrams(words, n)[i] == words[i..i + n]
    {
      assert SliceBound(|words|, i) == i && SliceBound(|words|, i + n) == i + n;
    }
  }

  /** With n = 0 the range runs one step further and every tuple is empty. */
  lemma NGramsZero(words: seq<string>)
    ensures |NGrams(words, 0)| == |words| + 1
    ensures forall i :: 0 <= i < |words| + 1 ==> NGrams(words, 0)[i] == []
  {
  }

  /** Neighbouring windows overlap in n - 1 words. */
  lemma NGramsOverlap(words: seq<string>, n: int, i: int)
    requires n >= 1 && 0 <= i && i + 1 < |NGrams(words, n)|
    ensures |NGrams(words, n)[i]| == n && |NGrams(words, n)[i + 1]| == n
      && NGrams(words, n)[i][1..] == NGrams(words, n)[i + 1][..n - 1]
  {
    NGramsWindows(words, n);
    assert words[i..i + n][1..] == words[i + 1..i + n];
  }
}
