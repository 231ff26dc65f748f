/** `TextAnalyzer` (stuff/practice.py): the statistics record, the analyzer
    with its list of strategies and its memoised `analyze_text`, n-gram
    counting, and the singleton metaclass that hands out one analyzer. */
module TextAnalysis {
  import opened Wrappers
  import opened Seqs
  import opened Counter
  import opened Tokenizer
  import opened Strategies
  import opened MemoCache
  import opened Descriptors

  /** The `TextStatistics` dataclass. */
  datatype TextStatistics = TextStatistics(
    totalWords: nat,
    totalChars: nat,
    uniqueWords: nat,
    avgWordLength: real,
    mostCommon: seq<(string, nat)>,
    sentimentScore: real)

  /** The dataclass defaults. */
  const EmptyStatistics := TextStatistics(0, 0, 0, 0.0, [], 0.0)

  /** `analyze_text` without its caching: word counts, the ten most common
      words, mean word length and the sentiment score of one text. */
  function AnalyzeText(text: string): TextStatistics {
    var words := Words(text);
    TallyOfCorrect(words);
    TextStatistics(
      |words|,
      |text|,
      |Elements(words)|,
      if words != [] then Mean(Lengths(words)) else 0.0,
      MostCommon(TallyOf(words), 10),
      Sentiment(text).score)
  }

  /** The counters of the statistics: every character and every word is
      counted, there are no more distinct words than words, the sentiment
      score stays within [-100, 100], a text without words gives the
      defaults of the dataclass, and otherwise the mean word length is at
      least one. */
  lemma AnalyzeTextCounts(text: string)
    ensures var r := AnalyzeText(text);
      && r.totalChars == |text|
      && r.totalWords == |Words(text)|
      && r.uniqueWords == |Elements(Words(text))| <= r.totalWords
      && -100.0 <= r.sentimentScore <= 100.0
      && (r.totalWords == 0 <==> r == EmptyStatistics.(totalChars := |text|))
      && (r.totalWords > 0 ==> r.avgWordLength >= 1.0)
  {
    var words := Words(text);
    UniqueKeys(words);
    SentimentBounds(text);
    MeanWordLength(text);
    if words == [] {
      TallyOfCorrect(words);
      MostCommonCorrect(TallyOf(words), 10);
    }
  }

  /** The most common words: `min(10, unique_words)` distinct words in
      descending count order, each with its number of occurrences, and no
      word left out occurs more often than the last one kept. */
  lemma AnalyzeTextMostCommon(text: string)
    ensures var r := AnalyzeText(text);
      && |r.mostCommon| == (if r.uniqueWords < 10 then r.uniqueWords else 10)
      && SortedDesc(r.mostCommon)
      && (forall i :: 0 <= i < |r.mostCommon| ==>
            r.mostCommon[i].0 in Words(text) && r.mostCommon[i].1 == multiset(Words(text))[r.mostCommon[i].0])
      && (forall i, j :: 0 <= i < j < |r.mostCommon| ==> r.mostCommon[i].0 != r.mostCommon[j].0)
      && (forall w :: w in Words(text) && r.mostCommon != [] && (forall i :: 0 <= i < |r.mostCommon| ==> r.mostCommon[i].0 != w)
            ==> multiset(Words(text))[w] <= r.mostCommon[|r.mostCommon| - 1].1)
  {
    var words := Words(text);
    TallyOfCorrect(words);
    UniqueKeys(words);
    MostCommonCorrect(TallyOf(words), 10);
  }

  /** Words with equal counts are listed in the order of their first
      occurrence in the text. */
  lemma AnalyzeTextTies(text: string)
    ensures var mc := AnalyzeText(text).mostCommon;
      forall i, j :: 0 <= i < j < |mc| && mc[i].1 == mc[j].1 ==>
        mc[i].0 in Words(text) && mc[j].0 in Words(text)
        && FirstIndex(Words(text), mc[i].0) < FirstIndex(Words(text), mc[j].0)
  {
    var words := Words(text);
    var mc := AnalyzeText(text).mostCommon;
    TallyOfCorrect(words);
    MostCommonTies(TallyOf(words), 10);
    forall i, j | 0 <= i < j < |mc| && mc[i].1 == mc[j].1
      ensures mc[i].0 in words && mc[j].0 in words && FirstIndex(words, mc[i].0) < FirstIndex(words, mc[j].0)
    {
      TallyKeysPrecede(words, mc[i].0, mc[j].0);
    }
  }

  /** `[len(w) for w in words]` */
  function Lengths(words: seq<string>): (r: seq<int>)
    ensures |r| == |words|
    ensures forall i :: 0 <= i < |words| ==> r[i] == |words[i]|
  {
    seq(|words|, i requires 0 <= i < |words| => |words[i]|)
  }

  /** Words are never empty, so their mean length is at least one. */
  lemma MeanWordLength(text: string)
    ensures Words(text) != [] ==> Mean(Lengths(Words(text))) >= 1.0
  {
    var words := Words(text);
    WordsShape(text);
    if words != [] {
      var longest := MaxLength(words);
      forall i | 0 <= i < |words| ensures 1 <= Lengths(words)[i] <= longest {
        assert words[i] in words;
      }
      MeanBounds(Lengths(words), 1, longest);
    }
  }

  function MaxLength(words: seq<string>): (m: nat)
    ensures forall i :: 0 <= i < |words| ==> |words[i]| <= m
  {
    if words == [] then 0
    else var rest := MaxLength(words[1..]);
      if |words[0]| > rest then |words[0]| else rest
  }

  /** `generate_ngrams`: a `Counter` of the word n-grams of the text. */
  function GenerateNGrams(text: string, n: int := 2): Tally<seq<string>> {
    TallyOf(NGramGenerator(text, n))
  }

  /** The n-gram counts add up to the number of windows, each n-gram is
      counted as often as it occurs, and for `n >= 1` every counted n-gram
      is a run of `n` consecutive words. */
  lemma GenerateNGramsCorrect(text: string, n: int)
    ensures var t := GenerateNGrams(text, n);
      && Valid(t)
      && Total(t) == (if |Words(text)| < n then 0 else |Words(text)| - n + 1)
      && (forall g :: Get(t, g) == multiset(NGramGenerator(text, n))[g])
    ensures n >= 1 ==> forall g :: g in GenerateNGrams(text, n).keys ==>
      |g| == n && exists i :: 0 <= i <= |Words(text)| && g <= Words(text)[i..]
  {
    TallyOfCorrect(NGramGenerator(text, n));
    if n >= 1 {
      NGramKeys(text, n);
    }
  }

  /** Every n-gram counted is `n` consecutive words of the text. */
  lemma NGramKeys(text: string, n: int)
    requires n >= 1
    ensures forall g :: g in GenerateNGrams(text, n).keys ==>
      |g| == n && exists i :: 0 <= i <= |Words(text)| && g <= Words(text)[i..]
  {
    var words := Words(text);
    var grams := NGramGenerator(text, n);
    TallyOfCorrect(grams);
    NGramsWindows(words, n);
    forall g | g in GenerateNGrams(text, n).keys
      ensures |g| == n && exists i :: 0 <= i <= |words| && g <= words[i..]
    {
      assert g in grams;
      var i :| 0 <= i < |grams| && grams[i] == g;
      assert g == words[i..i + n];
      assert g <= words[i..];
    }
  }

  /** The name `TextAnalyzer()` gets when it is called without one. */
  const DefaultName := "Analizador Principal"

  /** The analyzer. `analyze_text` is decorated with `cache_results(50)`,
      whose cache belongs to the decorated function; the model keeps it
      with the analyzer, which the singleton makes the only one. */
  class TextAnalyzer {
    /** The `name` attribute, a `ValidatedString(1, 100)`. */
    const nameField: ValidatedString
    var strategies: seq<Strategy>
    const cache: Cache<string, TextStatistics>

    /** The name passed the descriptor's check, and every memoised result
        is what `analyze_text` computes for its text. */
    ghost predicate Valid()
      reads this, nameField, cache
    {
      && nameField.Valid() && nameField.minLength == 1 && nameField.maxLength == 100
      && nameField.stored.Some?
      && cache.Valid() && cache.maxSize == 50
      && forall k :: k in cache.entries ==> cache.entries[k] == AnalyzeText(k)
    }

    function Name(): (r: string)
      requires Valid()
      reads this, nameField, cache
      ensures 1 <= |r| <= 100
    {
      nameField.Get()
    }

    constructor (nameField: ValidatedString)
      requires nameField.Valid() && nameField.minLength == 1 && nameField.maxLength == 100
      requires nameField.stored.Some?
      ensures Valid() && fresh(cache)
      ensures this.nameField == nameField && strategies == []
      ensures cache.entries == map[]
    {
      this.nameField := nameField;
      strategies := [];
      cache := new Cache(50);
    }

    /** `add_strategy`: appends and returns the analyzer itself, for chaining. */
    method AddStrategy(s: Strategy) returns (self: TextAnalyzer)
      requires Valid()
      modifies this
      ensures Valid() && self == this
      ensures strategies == old(strategies) + [s]
    {
      strategies := strategies + [s];
      self := this;
    }

    /** The memoised `analyze_text`: always the statistics of `text`, whether
        they come from the cache or are computed afresh. A text seen before
        and still cached is not recomputed and the cache is left as it was;
        any other text is computed and stored as `Miss` says, evicting the
        earliest-inserted text when 50 are cached. */
    method Analyze(text: string) returns (r: TextStatistics, computed: bool)
      requires Valid()
      modifies cache
      ensures Valid()
      ensures r == AnalyzeText(text)
      ensures text in old(cache.entries) ==>
        !computed && cache.entries == old(cache.entries) && cache.order == old(cache.order)
      ensures text !in old(cache.entries) ==>
        computed && Miss(Store(old(cache.entries), old(cache.order)), 50, text, AnalyzeText(text))
                      == Ok(Store(cache.entries, cache.order))
      ensures text in cache.entries && |cache.entries| <= 50
    {
      if text !in cache.entries {
        MissFaithful(Store(cache.entries, cache.order), 50, text, AnalyzeText);
        InvSize(Store(cache.entries, cache.order), 50);
      }
      var result;
      result, computed := cache.Call(text, AnalyzeText);
      r := result.value;
      InvSize(Store(cache.entries, cache.order), cache.maxSize);
    }
  }

  /** `TextAnalyzer(name)` before the singleton: the descriptor refuses a
      name of the wrong length or type, and the constructor raises. */
  method NewTextAnalyzer(name: Assigned := Str(DefaultName)) returns (r: Result<TextAnalyzer, FieldError>)
    ensures r.Err? <==> Check(1, 100, name).Fail?
    ensures r.Err? ==> Fail(r.error) == Check(1, 100, name)
    ensures r.Ok? ==> && fresh(r.value) && fresh(r.value.cache) && fresh(r.value.nameField)
                      && r.value.Valid() && r.value.Name() == name.s
                      && r.value.strategies == [] && r.value.cache.entries == map[]
  {
    var field := new ValidatedString(1, 100);
    var o := field.Set(name);
    if o.Fail? {
      return Err(o.error);
    }
    var analyzer := new TextAnalyzer(field);
    r := Ok(analyzer);
  }

  /** `SingletonMeta._instances` for the one class that uses it. */
  class Singleton {
    var instance: TextAnalyzer?

    ghost predicate Valid()
      reads this, instance, if instance != null then {instance.nameField, instance.cache} else {}
    {
      instance != null ==> instance.Valid()
    }

    constructor ()
      ensures Valid() && instance == null
    {
      instance := null;
    }

    /** `SingletonMeta.__call__`: the first successful call creates the
        analyzer and every later call returns that same object, whatever
        name it is given; a call whose construction raises stores nothing. */
    method Call(name: Assigned := Str(DefaultName)) returns (r: Result<TextAnalyzer, FieldError>)
      requires Valid()
      modifies this
      ensures Valid()
      ensures old(instance) != null ==> r == Ok(old(instance)) && instance == old(instance)
      ensures old(instance) == null && r.Ok? ==>
        && name.Str? && instance == r.value && fresh(r.value) && r.value.Name() == name.s && r.value.strategies == []
      ensures old(instance) == null ==> (r.Err? <==> Check(1, 100, name).Fail?)
      ensures r.Err? ==> instance == null
    {
      if instance != null {
        return Ok(instance);
      }
      r := NewTextAnalyzer(name);
      if r.Ok? {
        instance := r.value;
      }
    }
  }

  /** A first call without a name creates the analyzer under the default
      name, which the descriptor accepts. */
  method DefaultInstance() returns (analyzer: TextAnalyzer)
    ensures analyzer.Valid() && analyzer.Name() == DefaultName
  {
    var registry := new Singleton();
    var r := registry.Call();
    analyzer := r.value;
  }

  /** Two calls with different names yield the same analyzer, named by the
      first call. */
  method SameInstance() returns (first: TextAnalyzer, second: TextAnalyzer)
    ensures first == second && first.Valid() && first.Name() == "Mi Analizador"
  {
    var registry := new Singleton();
    var r1 := registry.Call(Str("Mi Analizador"));
    var r2 := registry.Call(Str("Otro"));
    first, second := r1.value, r2.value;
  }
}
