# Text analysis and class exercises, modelled in Dafny

This project models the working core of a collection of Python practice
programs. Their centre is a small text-analysis engine (`stuff/practice.py`):

- three analysis strategies: word frequency, a vocabulary-based sentiment
  score, and sentence and paragraph structure;
- word and n-gram generators over the lower-cased text;
- a bounded result cache that evicts in insertion order;
- a retry wrapper;
- a length-validated string attribute;
- a singleton analyzer that ties these together.

Around it sit textbook exercises:

- a digital library with users, loan limits, materials with sequential ids,
  book ratings and catalogue searches (`clases/prt.py`);
- the classes tutorial: a class-level counter, book equality and `len`, an
  odometer, a guarded bank account, a weekday test and grade averages
  (`clases/clss.py`);
- dictionary exercises: a shop cart, word and vote counters with a winner,
  and a dict filter (`Dictionary/refo.py`);
- a lendable book (`clases/ejr.py`);
- a calculator with its unit tests (`testing/test.py`).

Objects whose methods update fields in place are Dafny classes with
`modifies` clauses. The cache, the retry loop and the counting loops are
methods with loop invariants, proved against specification functions
(`Miss`, `TallyOf`, `SaldoTras`). Comprehensions and regular-expression
tokenising are pure functions with lemmas.

Python semantics that the text code depends on are modelled explicitly:

- `\w` and `str.lower()` on ASCII and Latin-1;
- `re.finditer(r'\b\w+\b')` as maximal runs of word characters;
- `re.split(r'[.!?]+')` with its empty leading and trailing pieces;
- `str.split('\n\n')` and `str.split()`;
- slice normalisation in `words[i:i+n]`;
- `Counter` insertion order;
- the stable `most_common`.

Python integers are unbounded, and so are the model's. Python's true
division is modelled as exact `real` division.

## Model

| member | source | states |
|---|---|---|
| Seqs.FilterConcat | Books/Python/PythonCrashCourse/clases/prt.py:265 | a list comprehension over two concatenated lists is the concatenation of the two comprehensions |
| Chars.ToLower | stuff/practice.py:159 | lower-casing a character leaves no upper-case letter and keeps word characters word characters; other characters are unchanged |
| Chars.LowerIdempotent | stuff/practice.py:202 | lower-casing twice is lower-casing once |
| Splitting.RunsWellFormed | stuff/practice.py:200-203 | every match of `\w+` is non-empty and made only of word characters |
| Splitting.RunsSeparate | stuff/practice.py:200-203 | a non-word character splits the matches: those of `a + [c] + b` are those of `a` followed by those of `b` |
| Splitting.RunsOfBlock | stuff/practice.py:200-203 | a non-empty block of word characters is exactly one match |
| Splitting.SplitOnRuns | stuff/practice.py:188 | `re.split(r'[.!?]+', text)`: the pieces between maximal separator runs, at least one; its properties are stated by `SplitOnRunsPieces`, `SplitOnRunsRebuild` and `SplitOnRunsFiltered` |
| Splitting.SplitOnRunsPieces | stuff/practice.py:188 | `re.split(r'[.!?]+')` pieces contain no terminator, and there is one more piece than terminator runs |
| Splitting.SplitOnRunsRebuild | stuff/practice.py:188 | splitting loses nothing: the pieces of `re.split(r'[.!?]+')` interleaved with the terminator runs give back the text |
| Splitting.SplitOnRunsFiltered | stuff/practice.py:188-192 | for a test that rejects the empty string, the pieces of `re.split` it keeps are exactly the maximal runs of non-separators it keeps, in order |
| Splitting.SplitBlankLine | stuff/practice.py:189 | `text.split('\n\n')`, cutting left to right at each separator; its properties are stated by `SplitBlankLineRoundTrip` and `SplitBlankLineLeftmost` |
| Splitting.SplitBlankLineRoundTrip | stuff/practice.py:189 | joining the pieces of `split('\n\n')` with "\n\n" gives the text back, and no piece holds the separator |
| Splitting.SplitBlankLineLeftmost | stuff/practice.py:189 | `split('\n\n')` cuts at the leftmost separator: no piece but the last ends in a newline |
| Counter.TallyOf | stuff/practice.py:161 | `Counter(xs)`: insertion-ordered keys with their counts, built one item at a time; its properties are stated by `TallyOfCorrect`, `TallyKeysOrder`, `KeysOfBump` and `UniqueKeys` |
| Counter.BumpValid | Books/Python/PythonCrashCourse/Dictionary/refo.py:213 | `d[x] = d.get(x, 0) + 1` keeps one key per distinct item, raises the total by one, raises x's count by one and leaves every other count as it was |
| Counter.KeysOfBump | Books/Python/PythonCrashCourse/Dictionary/refo.py:211-213 | counting one more item keeps the key order when the item was seen before, and otherwise appends it as the last key |
| Counter.TallyKeysOrder | stuff/practice.py:161 | the keys of `Counter(xs)` are items of xs in the order of their first occurrence |
| Counter.TallyKeysPrecede | stuff/practice.py:161 | a key listed before another was first seen earlier in xs |
| Counter.TallyOfCorrect | stuff/practice.py:161 | `Counter(xs)` has exactly the items of xs as keys, counts each as often as it occurs, and its counts add up to `len(xs)` |
| Counter.UniqueKeys | stuff/practice.py:162-163 | the number of keys is the number of distinct items and at most the number of items |
| Counter.SortDescPerm | stuff/practice.py:261 | the sort behind `most_common` is a permutation of the items |
| Counter.SortDescSorted | stuff/practice.py:261 | the sort behind `most_common` orders by count, descending |
| Counter.SortDescStable | stuff/practice.py:261 | the sort is stable: items of equal count keep their insertion order |
| Counter.SortDescTies | stuff/practice.py:261 | of two sorted items with equal counts, the earlier one came earlier in the input |
| Counter.MostCommon | stuff/practice.py:261 | `most_common(n)`: the first n pairs of the stable descending sort by count; its properties are stated by `MostCommonCorrect` and `MostCommonTies` |
| Counter.MostCommonTies | stuff/practice.py:261 | among the pairs `most_common(n)` returns, equal counts appear in key insertion order |
| Counter.MostCommonCorrect | stuff/practice.py:261 | `most_common(n)` returns min(n, keys) distinct (key, count) pairs, descending by count; no key left out outranks the last one kept; ties keep first-insertion order |
| Tokenizer.Words | stuff/practice.py:200-203 | `word_generator`: the lower-cased maximal runs of word characters, left to right; its properties are stated by `WordsShape`, `WordsSeparate` and `WordsOfBlock` |
| Tokenizer.WordsShape | stuff/practice.py:200-203 | every word is non-empty, made of word characters, with no upper-case letter |
| Tokenizer.WordsSeparate | stuff/practice.py:200-203 | the words of a text split at any non-word character are the words of the two sides, in order |
| Tokenizer.WordsOfBlock | stuff/practice.py:200-203 | a block of word characters yields one word, its lower-cased form |
| Tokenizer.SplitWhitespace | Books/Python/PythonCrashCourse/Dictionary/refo.py:208 | `str.split()`: the maximal runs of non-whitespace characters; its properties are stated by `SplitWhitespaceShape` |
| Tokenizer.SplitWhitespaceShape | Books/Python/PythonCrashCourse/Dictionary/refo.py:208 | `str.split()` pieces are non-empty with no whitespace, and any whitespace character splits the text |
| Tokenizer.SliceBound | stuff/practice.py:209 | a Python slice bound is clamped into `[0, len]` |
| Tokenizer.NGrams | stuff/practice.py:208-210 | the windows `words[i:i+n]` for i in `range(len(words) - n + 1)`; its properties are stated by `NGramsWindows`, `NGramsZero` and `NGramsOverlap` |
| Tokenizer.NGramGenerator | stuff/practice.py:206-210 | `ngram_generator(text, n=2)`: the n-grams of the text's words; n defaults to 2 |
| Tokenizer.NGramsWindows | stuff/practice.py:206-210 | for n >= 1 there are max(0, len(words) - n + 1) n-grams, and n-gram i is `words[i..i+n]` |
| Tokenizer.NGramsZero | stuff/practice.py:206-210 | for n = 0 there are len(words) + 1 empty n-grams |
| Tokenizer.NGramsOverlap | stuff/practice.py:206-210 | consecutive n-grams overlap in n - 1 words |
| Strategies.Frequency | stuff/practice.py:155-163 | `FrequencyAnalysis.analyze`: the Counter of the words, their number and the number of distinct words; its properties are stated by `FrequencyCorrect` |
| Strategies.FrequencyCorrect | stuff/practice.py:156-164 | the word counts add up to `total_words`, there is one key per distinct word, `unique_words <= total_words`, and each word is counted as often as it occurs |
| Strategies.Sentiment | stuff/practice.py:166-182 | `SentimentAnalysis.analyze`: the distinct words found in each vocabulary and the score (positive - negative) / max(distinct words, 1) * 100; its properties are stated by `SentimentBounds` |
| Strategies.VocabulariesDisjoint | stuff/practice.py:169-170 | no word is both positive and negative |
| Strategies.SentimentBounds | stuff/practice.py:167-182 | positive + negative hits never exceed the distinct words, the score lies in [-100, 100], and a text with no words scores 0 |
| Strategies.SplitCountBound | stuff/practice.py:194 | a sentence has no more words than characters |
| Strategies.Structural | stuff/practice.py:185-195 | `StructuralAnalysis.analyze`: the non-blank sentences and paragraphs and the mean word count of the sentences, or 0; its properties are stated by `StructuralSentences` and `StructuralBounds` |
| Strategies.StructuralSentences | stuff/practice.py:188-192 | `sentence_count` is exactly the number of maximal runs of characters other than `.`, `!`, `?` that hold a non-whitespace character |
| Strategies.StructuralBounds | stuff/practice.py:185-195 | at most one more sentence than terminator runs, at most as many paragraphs as blank-line pieces, and an average sentence length between 0 and the length of the text |
| Strategies.Analyze | stuff/practice.py:149-153 | dispatching on a strategy yields that strategy's result, with the sentiment and frequency bounds |
| MemoCache.Miss | stuff/practice.py:44-51 | what a miss does after computing the value: when full, pop the head of the order list (failing when it is empty) and delete its entry; then store the value and append the key; its properties are stated by `MissKeepsInv`, `MissEvictsOldest`, `MissKeepsAll` and `MissFaithful` |
| MemoCache.InvSize | stuff/practice.py:37-51 | the order list is as long as the cache |
| MemoCache.MissKeepsInv | stuff/practice.py:44-51 | a miss fails (the `pop(0)` of an empty list) exactly when `max_size < 1`; otherwise the keys equal the order list's elements, which has no duplicates, the size stays within `max_size`, and the new value is stored |
| MemoCache.MissEvictsOldest | stuff/practice.py:46-51 | on a miss with a full cache exactly the earliest-inserted key is evicted, every other entry keeps its value, and the new key goes to the end |
| MemoCache.MissKeepsAll | stuff/practice.py:50-51 | a miss with room to spare keeps every entry and appends the key |
| MemoCache.MissFaithful | stuff/practice.py:40-52 | a cache of a pure function holds, for every key, exactly the function's value for it |
| MemoCache.Cache.constructor | stuff/practice.py:36-37 | a new cache is empty; the bound defaults to 100 as in `cache_results(max_size=100)` |
| MemoCache.Cache.Call | stuff/practice.py:40-52 | a hit returns the stored value without calling the function and changes nothing; a miss calls it and updates the cache as `Miss` says, or fails leaving it unchanged |
| MemoCache.Cache.Clear | stuff/practice.py:55 | `clear_cache` empties both the dict and the order list |
| MemoCache.Cache.Size | stuff/practice.py:54 | the cache never holds more than `max_size` entries |
| MemoCache.HitDoesNotProtect | stuff/practice.py:44-51 | with room for two and keys 1, 2 stored in that order, a hit on 1 runs nothing, a miss on 3 evicts 1, so 1 is recomputed while 2 stays cached: eviction is FIFO, not LRU |
| MemoCache.EvictionIsFifo | stuff/practice.py:44-51 | the same sequence from an empty cache: store 1 and 2, hit 1, miss on 3; 1 is then recomputed and 2 is still cached |
| MemoCache.ZeroSizeFails | stuff/practice.py:46-47 | with `max_size = 0` the first miss fails |
| Retry.Retry | stuff/practice.py:60-74 | at most `max_attempts` calls; the first success is returned with no further call; after `max_attempts` failures the last exception is re-raised unchanged; with `max_attempts <= 0` None and no call; `max_attempts` defaults to 3 |
| Retry.SucceedsOnThirdAttempt | stuff/practice.py:60-74 | a function failing twice succeeds on the third of three attempts |
| Retry.GivesUpAfterTwo | stuff/practice.py:60-74 | the same function with two attempts re-raises its second error |
| Descriptors.Check | stuff/practice.py:94-99 | an assignment passes exactly when it is a string of length within the bounds; a non-string is a TypeError and a string of the wrong length a ValueError |
| Descriptors.ValidatedString.constructor | stuff/practice.py:81-84 | a new descriptor has its bounds and nothing stored; the bounds default to 0 and 1000 |
| Descriptors.ValidatedString.Get | stuff/practice.py:89-92 | reads `''` before the first assignment, and otherwise a string within the bounds |
| Descriptors.ValidatedString.Set | stuff/practice.py:94-99 | stores a valid string; on TypeError or ValueError the old value stays |
| Descriptors.SetThenGet | stuff/practice.py:89-99 | a stored value reads back unchanged, and a refused one leaves what was read before |
| TextAnalysis.AnalyzeText | stuff/practice.py:242-263 | `analyze_text` before memoisation: zero statistics for a text without words, otherwise the totals, the mean word length, `most_common(10)` and the sentiment score; its properties are stated by `AnalyzeTextCounts`, `AnalyzeTextMostCommon` and `AnalyzeTextTies` |
| TextAnalysis.AnalyzeTextCounts | stuff/practice.py:242-263 | `total_chars = len(text)`; totals and distinct words as counted; `unique_words <= total_words`; sentiment in [-100, 100]; a text without words gives the dataclass defaults, and only such a text does; otherwise the mean word length is at least 1 |
| TextAnalysis.AnalyzeTextMostCommon | stuff/practice.py:242-263 | `most_common` has min(10, unique) pairs of distinct words, in descending count order, each a word of the text with its number of occurrences; no word left out occurs more often than the last one listed |
| TextAnalysis.AnalyzeTextTies | stuff/practice.py:261 | words listed with equal counts appear in the order of their first occurrence in the text |
| TextAnalysis.Lengths | stuff/practice.py:254 | `[len(w) for w in words]`, one length per word |
| TextAnalysis.MeanWordLength | stuff/practice.py:254 | words are non-empty, so their mean length is at least 1 |
| TextAnalysis.GenerateNGrams | stuff/practice.py:284-287 | `generate_ngrams(text, n=2)`: the Counter of the n-grams; its properties are stated by `GenerateNGramsCorrect` |
| TextAnalysis.GenerateNGramsCorrect | stuff/practice.py:284-287 | the n-gram counts add up to the number of windows, each n-gram is counted as often as it occurs, and for n >= 1 each is n consecutive words of the text |
| TextAnalysis.TextAnalyzer.constructor | stuff/practice.py:230-233 | a new analyzer has a valid name, no strategies and an empty cache |
| TextAnalysis.TextAnalyzer.Name | stuff/practice.py:227-231 | the analyzer's name has 1 to 100 characters |
| TextAnalysis.TextAnalyzer.AddStrategy | stuff/practice.py:235-238 | appends the strategy and returns the analyzer itself |
| TextAnalysis.TextAnalyzer.Analyze | stuff/practice.py:240-263 | the cached `analyze_text` always returns the statistics of the text; a text still cached is not recomputed and leaves the cache, entries and order, as it was; any other text is computed and the cache becomes exactly what `Miss` gives for the old cache (FIFO eviction of the earliest-inserted text when 50 are cached); afterwards the text is cached and at most 50 entries are |
| TextAnalysis.NewTextAnalyzer | stuff/practice.py:227-233 | constructing an analyzer fails exactly when the descriptor refuses the name, and otherwise gives a fresh analyzer with that name; the name defaults to "Analizador Principal" |
| TextAnalysis.Singleton.constructor | stuff/practice.py:217 | no instance exists at first |
| TextAnalysis.Singleton.Call | stuff/practice.py:219-222 | the first successful call creates the analyzer; every later call returns the same object, ignoring its arguments; a failing construction stores nothing |
| TextAnalysis.DefaultInstance | stuff/practice.py:230 | a first call without a name creates an analyzer named "Analizador Principal" |
| TextAnalysis.SameInstance | stuff/practice.py:219-222 | two calls with different names give one analyzer, named by the first call |
| Library.LimitFor | Books/Python/PythonCrashCourse/clases/prt.py:49-58 | the loan limit is 3, 10 or 5 for regular, premium and student accounts, and 3 for any other type |
| Library.PremiumIsLargest | Books/Python/PythonCrashCourse/clases/prt.py:49-53 | no account type allows more loans than premium |
| Library.Usuario.constructor | Books/Python/PythonCrashCourse/clases/prt.py:40-53 | a new user is active, holds nothing and keeps the given type, "regular" when none is given |
| Library.Usuario.LimiteActual | Books/Python/PythonCrashCourse/clases/prt.py:55-58 | the current limit is the limit of the stored type |
| Library.Usuario.LibrosDisponibles | Books/Python/PythonCrashCourse/clases/prt.py:60-63 | remaining loans plus loans held equal the limit |
| Library.Usuario.SetTipo | Books/Python/PythonCrashCourse/clases/prt.py:69-75 | only the three known types are accepted; any other raises and leaves the type unchanged |
| Library.Usuario.Suspender | Books/Python/PythonCrashCourse/clases/prt.py:81-83 | a suspended user cannot borrow |
| Library.Usuario.Activar | Books/Python/PythonCrashCourse/clases/prt.py:85-87 | after activation the user can borrow exactly when below the limit |
| Library.Usuario.PuedePrestar | Books/Python/PythonCrashCourse/clases/prt.py:77-79 | the user is active and holds fewer loans than the current limit; related to the remaining loans by `PuedePrestarIff` |
| Library.PuedePrestarIff | Books/Python/PythonCrashCourse/clases/prt.py:77-79 | `puede_prestar` holds exactly when the account is active and has loans left |
| Library.IdCounter.constructor | Books/Python/PythonCrashCourse/clases/prt.py:97 | the counter starts at 1000 |
| Library.IdCounter.Next | Books/Python/PythonCrashCourse/clases/prt.py:100-101 | each id is one more than the previous and was never handed out before |
| Library.Material.constructor | Books/Python/PythonCrashCourse/clases/prt.py:99-107 | a material takes the next id and is available, never lent and unrated; the `Book` kind's genre field defaults to "General" |
| Library.Material.MarcarPrestado | Books/Python/PythonCrashCourse/clases/prt.py:121-124 | the material becomes unavailable and its loan count rises by exactly 1 |
| Library.Material.MarcarDevuelto | Books/Python/PythonCrashCourse/clases/prt.py:126-128 | the material becomes available and its loan count is unchanged |
| Library.Material.AgregarCalificacion | Books/Python/PythonCrashCourse/clases/prt.py:176-181 | ratings 1 to 5 are appended; any other raises and leaves the list unchanged |
| Library.Material.CalificacionPromedio | Books/Python/PythonCrashCourse/clases/prt.py:169-174 | the average is 0 without ratings; otherwise it is the sum of the ratings over their count, and lies in [1, 5] |
| Library.Material.Equals | Books/Python/PythonCrashCourse/clases/prt.py:144-147 | two materials are equal when their ids are; a non-material is never equal; its properties are stated by `EqualsIsEquivalence` and `ConsecutiveIds` |
| Library.EqualsIsEquivalence | Books/Python/PythonCrashCourse/clases/prt.py:144-147 | equality by id is reflexive, symmetric and transitive |
| Library.ConsecutiveIds | Books/Python/PythonCrashCourse/clases/prt.py:97-101 | the first two materials get ids 1001 and 1002 and are not equal |
| Library.Contains | Books/Python/PythonCrashCourse/clases/prt.py:265 | `needle in hay` on strings; its properties are stated by `ContainsIff` and `ContainsEmpty` |
| Library.ContainsIff | Books/Python/PythonCrashCourse/clases/prt.py:265 | `query in title` holds exactly when the query starts at some position of the title |
| Library.ContainsEmpty | Books/Python/PythonCrashCourse/clases/prt.py:265 | the empty query is contained in every string |
| Library.AvailablePlusLent | Books/Python/PythonCrashCourse/clases/prt.py:284-287 | available and lent materials add up to the catalogue |
| Library.AvailableComplete | Books/Python/PythonCrashCourse/clases/prt.py:280-282 | every available catalogue member is listed |
| Library.Biblioteca.constructor | Books/Python/PythonCrashCourse/clases/prt.py:223-228 | a new library has no materials and no users |
| Library.Biblioteca.AgregarMaterial | Books/Python/PythonCrashCourse/clases/prt.py:242-245 | always appends the material; afterwards every title or genre search and the available list give their old result followed by the material exactly when it matches |
| Library.Biblioteca.RegistrarUsuario | Books/Python/PythonCrashCourse/clases/prt.py:247-253 | appends the user exactly when that object is not registered yet (identity, not identification), so the count grows by at most 1 |
| Library.Biblioteca.BuscarMaterialPorId | Books/Python/PythonCrashCourse/clases/prt.py:255-260 | returns the first material with the id, or None exactly when there is none |
| Library.Biblioteca.BuscarUsuarioPorId | Books/Python/PythonCrashCourse/clases/prt.py:273-278 | returns the first user with the identification, or None exactly when there is none |
| Library.Biblioteca.BuscarPorTitulo | Books/Python/PythonCrashCourse/clases/prt.py:262-265 | returns the catalogue members whose lower-cased title contains the lower-cased query, each as often and in the same order as in the catalogue (the list comprehension) |
| Library.Biblioteca.BuscarPorGenero | Books/Python/PythonCrashCourse/clases/prt.py:267-271 | returns the books whose lower-cased genre contains the lower-cased query, in catalogue order as the comprehension builds them; magazines never |
| Library.Biblioteca.Disponibles | Books/Python/PythonCrashCourse/clases/prt.py:280-282 | returns the available catalogue members in catalogue order, as the comprehension builds them |
| Library.Biblioteca.Reporte | Books/Python/PythonCrashCourse/clases/prt.py:284-287 | available + lent = total, and lent is the number of unavailable materials |
| Library.EmptyTitleQuery | Books/Python/PythonCrashCourse/clases/prt.py:262-265 | an empty title query finds the whole catalogue |
| ClassesGuide.GatoClass.constructor | Books/Python/PythonCrashCourse/clases/clss.py:50 | the shared counter starts at 0 |
| ClassesGuide.Gato.constructor | Books/Python/PythonCrashCourse/clases/clss.py:52-56 | each cat raises the shared counter by exactly 1 |
| ClassesGuide.TwoCats | Books/Python/PythonCrashCourse/clases/clss.py:66-71 | after two cats the counter reads 2 |
| ClassesGuide.SameBook | Books/Python/PythonCrashCourse/clases/clss.py:99-101 | `Libro.__eq__`: two books are equal when their titles are; its properties are stated by `SameBookIsEquivalence` |
| ClassesGuide.SameBookIsEquivalence | Books/Python/PythonCrashCourse/clases/clss.py:99-101 | title equality is an equivalence and ignores author and pages |
| ClassesGuide.Len | Books/Python/PythonCrashCourse/clases/clss.py:95-97 | `len` gives the pages, and raises when they are negative |
| ClassesGuide.Vehiculo.constructor | Books/Python/PythonCrashCourse/clases/clss.py:123-128 | a new vehicle has kilometraje 0 |
| ClassesGuide.Vehiculo.Avanzar | Books/Python/PythonCrashCourse/clases/clss.py:134-137 | `avanzar(km)` adds exactly km |
| ClassesGuide.Recorrido | Books/Python/PythonCrashCourse/clases/clss.py:134-137 | a series of trips adds their sum |
| ClassesGuide.CuentaBancaria.constructor | Books/Python/PythonCrashCourse/clases/clss.py:187-190 | the account opens with the initial balance, 0 when none is given |
| ClassesGuide.CuentaBancaria.Depositar | Books/Python/PythonCrashCourse/clases/clss.py:197-203 | a positive amount is added; otherwise the balance stays |
| ClassesGuide.CuentaBancaria.Retirar | Books/Python/PythonCrashCourse/clases/clss.py:205-213 | more than the balance, or a non-positive amount, is refused leaving the balance; otherwise it is subtracted; a non-negative balance stays non-negative |
| ClassesGuide.SaldoTras | Books/Python/PythonCrashCourse/clases/clss.py:197-213 | the balance after any series of deposits and withdrawals is non-negative when it started so |
| ClassesGuide.Operar | Books/Python/PythonCrashCourse/clases/clss.py:197-213 | running operations on an account leaves the balance `SaldoTras` predicts, so it is never overdrawn |
| ClassesGuide.EsDiaLaboral | Books/Python/PythonCrashCourse/clases/clss.py:250-253 | `es_dia_laboral`: the day is neither 'sábado' nor 'domingo'; its behaviour on examples is stated by `DiasLaborales` |
| ClassesGuide.DiasLaborales | Books/Python/PythonCrashCourse/clases/clss.py:250-253 | 'sábado' and 'domingo' are not working days; other spellings and weekdays are |
| ClassesGuide.Notas | Books/Python/PythonCrashCourse/clases/clss.py:340 | the notes of the grades, in order |
| ClassesGuide.Estudiante.constructor | Books/Python/PythonCrashCourse/clases/clss.py:326-329 | a new student has no grades |
| ClassesGuide.Estudiante.AgregarCalificacion | Books/Python/PythonCrashCourse/clases/clss.py:331-333 | appends exactly one entry |
| ClassesGuide.Estudiante.Promedio | Books/Python/PythonCrashCourse/clases/clss.py:335-341 | 0 without grades, otherwise the sum of notes over their count |
| ClassesGuide.PromedioBounds | Books/Python/PythonCrashCourse/clases/clss.py:335-341 | the average lies between the lowest and the highest note |
| Dictionaries.Tienda.constructor | Books/Python/PythonCrashCourse/Dictionary/refo.py:152-160 | the shop starts with an empty cart |
| Dictionaries.Tienda.AgregarAlCarrito | Books/Python/PythonCrashCourse/Dictionary/refo.py:162-171 | an unknown product or an amount above stock leaves the cart unchanged; otherwise the product's quantity rises by exactly the amount, from 0 if absent |
| Dictionaries.Quantity | Books/Python/PythonCrashCourse/Dictionary/refo.py:166 | `carrito.get(producto, 0)`: the quantity in the cart, 0 when absent; used by the contract of `Tienda.AgregarAlCarrito` |
| Dictionaries.OtherProductsUntouched | Books/Python/PythonCrashCourse/Dictionary/refo.py:166 | an accepted addition changes no other product's quantity |
| Dictionaries.CartCanExceedStock | Books/Python/PythonCrashCourse/Dictionary/refo.py:165-166 | two accepted additions of 10 laptops put 20 in the cart, above the stock of 15 |
| Dictionaries.Compra | Books/Python/PythonCrashCourse/Dictionary/refo.py:196-199 | the session leaves 1 laptop, 2 mice and 1 keyboard, and the webcam is not found |
| Dictionaries.Contar | Books/Python/PythonCrashCourse/Dictionary/refo.py:211-213 | the counting loop builds `Counter(xs)`: every item is a key, counted as often as it occurs, and the counts add up to the number of items |
| Dictionaries.ContarPalabras | Books/Python/PythonCrashCourse/Dictionary/refo.py:207-213 | the word counts add up to the number of whitespace-separated words |
| Dictionaries.Ganador | Books/Python/PythonCrashCourse/Dictionary/refo.py:277 | `max(d, key=d.get)` fails on an empty dict, and otherwise returns a key with the largest count, the first such in insertion order |
| Dictionaries.Votacion | Books/Python/PythonCrashCourse/Dictionary/refo.py:264-277 | the vote counts add up to `len(votos)`, each is that option's number of votes, the winner is an option with the most votes, and every option first voted before the winner has strictly fewer votes |
| Dictionaries.TiesGoToFirstVoted | Books/Python/PythonCrashCourse/Dictionary/refo.py:264-277 | since `max` keeps the first key of largest count and keys follow first votes, an option first voted before the winner has fewer votes |
| Dictionaries.PythonLeads | Books/Python/PythonCrashCourse/Dictionary/refo.py:260-264 | the ten votes go to four options, python with four, javascript three, java two, ruby one |
| Dictionaries.OnlyPythonWins | Books/Python/PythonCrashCourse/Dictionary/refo.py:260-264 | python is the only option with at least as many votes as every other |
| Dictionaries.VotacionEjemplo | Books/Python/PythonCrashCourse/Dictionary/refo.py:260-277 | the exercise's votes elect python |
| Dictionaries.Mayores15 | Books/Python/PythonCrashCourse/Dictionary/refo.py:289-290 | keeps exactly the entries whose value is above 15, with their values |
| Dictionaries.Mayores15Idempotent | Books/Python/PythonCrashCourse/Dictionary/refo.py:289-290 | filtering again changes nothing |
| Lending.Libro.constructor | Books/Python/PythonCrashCourse/clases/ejr.py:9-14 | a book is available unless created otherwise |
| Lending.Libro.Prestar | Books/Python/PythonCrashCourse/clases/ejr.py:16-22 | an available book becomes unavailable; an unavailable one is left as it is |
| Lending.Libro.Devolver | Books/Python/PythonCrashCourse/clases/ejr.py:24-30 | a lent book becomes available; an available one is left as it is |
| Lending.PrestarDevolver | Books/Python/PythonCrashCourse/clases/ejr.py:16-30 | lending then returning always ends available, which restores the state of a book that was available |
| Lending.UnavailableRoundTrip | Books/Python/PythonCrashCourse/clases/ejr.py:9-30 | a book created unavailable ends available after the round trip |
| Lending.LendTwice | Books/Python/PythonCrashCourse/clases/ejr.py:16-22 | a new book can be lent once; a second attempt finds it unavailable |
| Calculator.Add | Books/Python/PythonCrashCourse/testing/test.py:7-9 | `add`: a + b; its test values are stated by `TestCalculator` |
| Calculator.Subtract | Books/Python/PythonCrashCourse/testing/test.py:11-13 | `subtract`: a - b; its test values are stated by `TestCalculator` |
| Calculator.Multiply | Books/Python/PythonCrashCourse/testing/test.py:15-17 | `multiply`: a * b; with `Divide`, `Inverses` states that division undoes it |
| Calculator.Divide | Books/Python/PythonCrashCourse/testing/test.py:19-23 | division by zero raises; otherwise the quotient times the divisor is the dividend |
| Calculator.Inverses | Books/Python/PythonCrashCourse/testing/test.py:15-23 | division undoes multiplication by a non-zero factor |
| Calculator.DivideExact | Books/Python/PythonCrashCourse/testing/test.py:23 | when b divides a, `divide(a, b)` is the exact quotient |
| Calculator.TestCalculator | Books/Python/PythonCrashCourse/testing/test.py:33-60 | every assertion of the unit tests holds, including the error for `divide(10, 0)` |

## Left out

- Timing, printing and concurrency: `timing_decorator`, `TextAnalysisContext`, `analyze_async`, `parallel_analysis`, the demo functions, every `print`, and the `time.sleep(delay)` in `retry` (so its `delay=1.0` parameter is not modelled).
- `find_patterns`: it passes an arbitrary pattern to the `re` library.
- Characters above U+00FF: `\w`, `str.lower()` and `str.isspace()` are modelled on ASCII and Latin-1 only. So `IsSpace` misses U+1680, U+2000 to U+200A, U+2028, U+2029, U+202F, U+205F and U+3000, which `str.split()` and `str.strip()` treat as whitespace.
- Floating point: averages, the sentiment score and `divide` are exact `real`s, not IEEE doubles. `round` in `get_info_completa` is formatting and is left out too.
- `Empleado.aplicar_aumento` and `cambiar_aumento`: float multiplication then truncation, which is left out with floating point.
- Cart totals and vote percentages: floating point, printed only.
- Formatting: every `__str__`, `__repr__`, `get_info_basica` and `get_info_completa`, `generar_reporte`'s text (its counts are modelled), `nombre_completo`, `descripcion`, `presentarse` and `mostrar_*`.
- Timestamps: `datetime.now()`.
- MemoCache.Cache.Call: exceptions raised by the wrapped function are not modelled (the function is total).
- MemoCache.Cache.Call: the cache keys on all positional arguments, `(self, text)` for `analyze_text`. The model keys on the text, which is the same thing for the singleton analyzer.
- TextAnalysis.TextAnalyzer: `results_cache` is never read or written after construction.
- Retry.Retry: the wrapped function is given as the outcome of each numbered attempt, and its arguments are not modelled. Every failure is retried. The code retries only subclasses of `Exception`, so `KeyboardInterrupt` and `SystemExit` escape on the first attempt; the model does not capture that.
- TextAnalysis.Singleton: only the one class that uses the metaclass is modelled. Constructor arguments are a name, as `TextAnalyzer` takes.
- Library.Material.Equals: a non-material argument is represented by `null`.
- Library.Usuario: `_historial` is never used, and no code shown appends to `_libros_prestados`.
- `Auto`, `Moto`, `Motor`, `Coche`, `Perro` and `Persona` add only printing or unconditional assignments.
- Dictionaries.Tienda: the cart is a map, so its insertion order, used only for printing, is not kept. `mostrar_carrito` is printing.
- Dictionaries.Mayores15: the result's key order is not modelled.
- The agenda and the other dictionary demonstrations only print.
- Calculator: arguments are integers, as in the tests. Float arguments are not modelled.
