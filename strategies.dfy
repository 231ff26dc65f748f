/** The three analysis strategies of stuff/practice.py: frequency, sentiment
    and structure. Each is a pure function of the text. */
module Strategies {
  import opened Seqs
  import opened Chars
  import opened Splitting
  import opened Counter
  import opened Tokenizer

  /** The strategy objects a `TextAnalyzer` can hold. */
  datatype Strategy = FrequencyAnalysis | SentimentAnalysis | StructuralAnalysis

  // ---------------------------------------------------------------------
  // Frequency

  datatype FrequencyResult = FrequencyResult(wordCount: Tally<string>, totalWords: nat, uniqueWords: nat)

  /** `FrequencyAnalysis.analyze`: `re.findall(r'\b\w+\b', text.lower())`
      finds the same words as `word_generator`. */
  function Frequency(text: string): FrequencyResult {
    var words := Words(text);
    FrequencyResult(TallyOf(words), |words|, |Elements(words)|)
  }

  /** The counts add up to `total_words`, there is one key per distinct word,
      `unique_words` is at most `total_words`, and each word is counted as
      often as it occurs. */
  lemma FrequencyCorrect(text: string)
    ensures var f := Frequency(text);
      && Valid(f.wordCount)
      && Total(f.wordCount) == f.totalWords
      && |f.wordCount.keys| == f.uniqueWords <= f.totalWords
      && (forall w :: Get(f.wordCount, w) == multiset(Words(text))[w])
  {
    TallyOfCorrect(Words(text));
    UniqueKeys(Words(text));
  }

  // ---------------------------------------------------------------------
  // Sentiment

  const PositiveWords: set<string> := {"bueno", "excelente", "genial", "increíble", "feliz", "amor", "perfecto"}
  const NegativeWords: set<string> := {"malo", "terrible", "horrible", "triste", "odio", "error", "problema"}

  datatype SentimentResult = SentimentResult(score: real, positive: nat, negative: nat)

  /** `SentimentAnalysis.analyze`: the distinct words that are positive,
      minus those that are negative, per distinct word, as a percentage. */
  function Sentiment(text: string): SentimentResult {
    var distinct := Elements(Words(text));
    var positive := |distinct * PositiveWords|;
    var negative := |distinct * NegativeWords|;
    var denominator := if |distinct| > 1 then |distinct| else 1;
    SentimentResult((positive - negative) as real / denominator as real * 100.0, positive, negative)
  }

  lemma VocabulariesDisjoint()
    ensures PositiveWords !! NegativeWords
  {
  }

  /** No word is both positive and negative, so the two counts together never
      exceed the number of distinct words and the score stays within
      [-100, 100]; a text without words scores 0. */
  lemma SentimentBounds(text: string)
    ensures var r := Sentiment(text);
      && r.positive + r.negative <= |Elements(Words(text))|
      && -100.0 <= r.score <= 100.0
      && (Words(text) == [] ==> r.score == 0.0)
  {
    var distinct := Elements(Words(text));
    VocabulariesDisjoint();
    ScoreOf(distinct, PositiveWords, NegativeWords);
  }

  /** The score formula over any two disjoint vocabularies. */
  lemma ScoreOf<T>(distinct: set<T>, p: set<T>, n: set<T>)
    requires p !! n
    ensures |distinct * p| + |distinct * n| <= |distinct|
    ensures var d := if |distinct| > 1 then |distinct| else 1;
      -100.0 <= (|distinct * p| - |distinct * n|) as real / d as real * 100.0 <= 100.0
    ensures distinct == {} ==> |distinct * p| == 0 && |distinct * n| == 0
  {
    DisjointHits(distinct, p, n);
    var d := if |distinct| > 1 then |distinct| else 1;
    ScoreBounds(|distinct * p|, |distinct * n|, d);
  }

  /** Hits in two disjoint vocabularies are disjoint subsets of the words. */
  lemma DisjointHits<T>(words: set<T>, p: set<T>, n: set<T>)
    requires p !! n
    ensures |words * p| + |words * n| <= |words|
  {
    assert (words * p) !! (words * n);
    SubsetCard((words * p) + (words * n), words);
  }

  lemma ScoreBounds(positive: nat, negative: nat, d: nat)
    requires d >= 1 && positive + negative <= d
    ensures -100.0 <= (positive - negative) as real / d as real * 100.0 <= 100.0
  {
    var diff := (positive - negative) as real;
    DivBounds(diff, d as real, -1.0, 1.0);
  }

  lemma SubsetCard<T>(a: set<T>, b: set<T>)
    requires a <= b
    ensures |a| <= |b|
  {
    assert b == a + (b - a);
  }

  // ---------------------------------------------------------------------
  // Structure

  datatype StructuralResult = StructuralResult(sentenceCount: nat, paragraphCount: nat, avgSentenceLength: real)

  /** The characters of the class `[.!?]`. */
  predicate IsTerminator(c: char) {
    c == '.' || c == '!' || c == '?'
  }

  predicate NotTerminator(c: char) {
    !IsTerminator(c)
  }

  /** `len(s.split())`: the number of whitespace-separated words. */
  function SplitCount(s: string): nat {
    |SplitWhitespace(s)|
  }

  /** `StructuralAnalysis.analyze`: sentences are the pieces of
      `re.split(r'[.!?]+', text)`, paragraphs those of `text.split('\n\n')`;
      only non-blank pieces count, and the average sentence length is the
      mean word count of the non-blank sentences (0 when there are none). */
  function Structural(text: string): StructuralResult {
    var sentences := Filter(SplitOnRuns(text, IsTerminator), NonBlank);
    var paragraphs := Filter(SplitBlankLine(text), NonBlank);
    var lengths := seq(|sentences|, i requires 0 <= i < |sentences| => SplitCount(sentences[i]) as int);
    StructuralResult(|sentences|, |paragraphs|, Mean(lengths))
  }

  /** A sentence is no longer than the characters it is made of. */
  lemma {:induction false} SplitCountBound(s: string)
    ensures SplitCount(s) <= |s|
    decreases |s|
  {
    if s != [] {
      if !NotSpace(s[0]) {
        SplitCountBound(s[1..]);
      } else {
        SplitCountBound(s[RunLength(s, NotSpace)..]);
      }
    }
  }

  /** There are at most one more sentences than runs of terminators, and at
      most as many paragraphs as pieces between blank lines; the average
      sentence length is never negative and never exceeds the length of
      the text. */
  lemma StructuralBounds(text: string)
    ensures var r := Structural(text);
      && r.sentenceCount <= |Runs(text, IsTerminator)| + 1
      && r.paragraphCount <= |SplitBlankLine(text)|
      && 0.0 <= r.avgSentenceLength <= |text| as real
  {
    SplitOnRunsPieces(text, IsTerminator);
    var sentences := Filter(SplitOnRuns(text, IsTerminator), NonBlank);
    var lengths := seq(|sentences|, i requires 0 <= i < |sentences| => SplitCount(sentences[i]) as int);
    if lengths != [] {
      forall i | 0 <= i < |lengths|
        ensures 0 <= lengths[i] <= |text|
      {
        SplitCountBound(sentences[i]);
        assert sentences[i] in SplitOnRuns(text, IsTerminator);
        PieceBound(text, IsTerminator, sentences[i]);
      }
      MeanBounds(lengths, 0, |text|);
    }
  }

  /** The sentences counted are exactly the maximal runs of characters
      other than `.`, `!` and `?` that hold a non-whitespace character: the
      empty pieces `re.split` leaves at the ends and between adjacent
      terminators are never counted. */
  lemma StructuralSentences(text: string)
    ensures Filter(SplitOnRuns(text, IsTerminator), NonBlank) == Filter(Runs(text, NotTerminator), NonBlank)
    ensures Structural(text).sentenceCount == |Filter(Runs(text, NotTerminator), NonBlank)|
  {
    assert !NonBlank("");
    SplitOnRunsFiltered(text, IsTerminator, NotTerminator, NonBlank);
  }

  /** No piece of a split is longer than the text. */
  lemma {:induction false} PieceBound(s: string, p: char -> bool, w: string)
    requires w in SplitOnRuns(s, p)
    ensures |w| <= |s|
    decreases |s|
  {
    if s != [] {
      if p(s[0]) {
        var n := RunLength(s, p);
        if w != "" {
          PieceBound(s[n..], p, w);
        }
      } else {
        var rest := SplitOnRuns(s[1..], p);
        if w == [s[0]] + rest[0] {
          PieceBound(s[1..], p, rest[0]);
        } else {
          assert w in rest;
          PieceBound(s[1..], p, w);
        }
      }
    }
  }

  // ---------------------------------------------------------------------

  datatype AnalysisResult =
    | FrequencyOutput(frequency: FrequencyResult)
    | SentimentOutput(sentiment: SentimentResult)
    | StructuralOutput(structure: StructuralResult)

  /** `strategy.analyze(text)`, dispatched on the strategy's kind. */
  function Analyze(strategy: Strategy, text: string): (r: AnalysisResult)
    ensures strategy == FrequencyAnalysis <==> r.FrequencyOutput?
    ensures strategy == SentimentAnalysis <==> r.SentimentOutput?
    ensures r.SentimentOutput? ==> -100.0 <= r.sentiment.score <= 100.0
    ensures r.FrequencyOutput? ==> r.frequency.uniqueWords <= r.frequency.totalWords
  {
    SentimentBounds(text);
    FrequencyCorrect(text);
    match strategy
    case FrequencyAnalysis => FrequencyOutput(Frequency(text))
    case SentimentAnalysis => SentimentOutput(Sentiment(text))
    case StructuralAnalysis => StructuralOutput(Structural(text))
  }
}
