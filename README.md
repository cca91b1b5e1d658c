# Lucene benchmark driver, modelled in Dafny

`src/Main.java` is a benchmark harness around Lucene. Most of it calls Lucene or the file
system. It also holds a small driver, and that driver is what this project models and proves
things about. The driver has five parts:

- **Synthetic text** (`textgen.dfy`, `counting.dfy`). `generateWord` builds fixed-length
  lowercase words. `createListOfWords` keeps drawing words until it holds the requested number
  of distinct ones. `concatRandomWords` builds a field value: pool words, each followed by one
  space.
- **One configuration** (`bench.dfy`). This is the `Config` record and its printed
  `fieldSize`, plus the loop in `measure` that builds one field value per document.
- **Trial repetition and reduction** (`trials.dfy`). The trial loop repeats `measure` until
  more than five trials have run and more than 30 whole seconds have passed. `getMin` reduces
  the times to their minimum. The comparator flags a gap of more than 1.5× between the two
  analysers.
- **Commit chunks** (`commits.dfy`). `compareSegmentSizes` writes toWrite documents,
  numbered from 0. It commits after document i whenever i > 0 and i is a multiple of
  commitEvery, which gives (toWrite - 1) / commitEvery commits. It tries
  commitEvery = toWrite, toWrite / 10, … until the value reaches 0. The last value tried
  is toWrite's leading digit, which is 1 for the source's 10_000.
- **Reader visibility** (`visibility.dfy`). A near-real-time reader is frozen at the count of
  documents added when it was opened. A reader opened on the directory sees only committed
  documents, or reports -1 before the first commit.

`java.util.Random` is modelled as an oracle. The model reads a fixed stream of natural draws,
and the state of the Random object is a cursor into that stream. Each `nextInt(bound)` reads
the draw `d` under the cursor, advances the cursor and yields `d % bound`. When every draw is
already below its bound this is exactly the draw itself, and it lets every outcome happen.
`GenerateWord`, `ConcatRandomWords` and `DocumentValues` each take the cursor and return
the advanced one. Successive calls therefore share one stream, the way they share one
Random object in the source. `CreateListOfWords` takes no cursor and reads from draw 0. The
source makes that call right after `new Random(42)`, and the model treats it as the start
of a fresh stream.

The wall clock is an input too. `clock[i]` is the value of `System.currentTimeMillis()` at the
top of iteration i of the trial loop. `measures[i]` is the value the i-th `measure` call
returns. Times are naturals.

The trial loop tests `(now - start) / 1000 > 30` on truncated whole seconds. It therefore
stops only once at least 31000 ms have passed (`Trials.StopsIff`).

## Model

| member | source | states |
|---|---|---|
| TextGen.Letter | src/Main.java:166-169 | the letter picked for a draw is always one of `a`–`z` |
| TextGen.LetterInAlphabet | src/Main.java:166-169 | the letter for draw d is `alphabet[d % alphabet.length]` over the 26-letter alphabet |
| TextGen.LetterIndex | src/Main.java:166 | every lowercase letter sits at some index below 26 of the alphabet |
| TextGen.SpelledIndices | src/Main.java:165-172 | every lowercase word is spelled by some run of draws, so the generator can produce any such word |
| TextGen.IndicesSpelled | src/Main.java:165-172 | spelling keeps exactly each draw modulo 26 and always gives a lowercase word |
| TextGen.GenerateWord | src/Main.java:165-172 | the word has exactly wordSize letters, all lowercase; it uses wordSize draws, one letter per draw in order |
| TextGen.OffsetIsProduct | src/Main.java:159-160 | the first k words consume k * wordSize draws |
| TextGen.PoolSnoc | src/Main.java:159-160 | adding a generated word to the HashSet grows the pool by that word alone (a duplicate adds nothing) |
| TextGen.PoolWords | src/Main.java:157-163 | every pooled word within the stream has length wordSize and is lowercase |
| TextGen.ListOf | src/Main.java:162 | the ArrayList built from the set has the same elements, no repeats, and as many entries as the set |
| TextGen.DrawOne | src/Main.java:159-161 | one round of the while loop draws the next word, adds it to the set, and keeps the loop invariant |
| TextGen.DrawDistinct | src/Main.java:158-161 | the loop stops with exactly n words: the set of the words drawn so far, after the first draw count whose words give n distinct words (one fewer word would not) |
| TextGen.CreateListOfWords | src/Main.java:157-163 | returns exactly n pairwise-distinct lowercase words of length wordSize, exactly the distinct words drawn; duplicates do not count; stops as soon as n distinct words exist |
| Counting.Code | src/Main.java:165-172 | a word of length k read in base 26 is below 26^k |
| Counting.CodeInjective | src/Main.java:165-172 | two lowercase words of one length with the same base-26 value are equal |
| Counting.CodesSize | src/Main.java:157-163 | a set of lowercase words of one length has exactly as many base-26 values as words |
| Counting.WordSpace | src/Main.java:165-172 | at most 26^len distinct lowercase words of length len exist |
| Counting.ReachesNeedsWordSpace | src/Main.java:157-163 | createListOfWords(wordSize, n, ...) can terminate only if n <= 26^wordSize |
| TextGen.JoinedLength | src/Main.java:150-154 | joining tokens of length L, each followed by a space, gives count * (L + 1) characters |
| TextGen.TokensOfJoined | src/Main.java:150-154 | splitting the joined value at spaces gives back the tokens, when no token contains a space |
| TextGen.PickedTokens | src/Main.java:149-155 | a value built from picks splits into exactly as many tokens as draws, each a pool word |
| TextGen.ConcatRandomWords | src/Main.java:149-155 | the value is the numWords picked pool words, each followed by one space, using numWords draws; with space-free words it splits into exactly numWords tokens, each in `words` |
| Bench.Config.FieldSize | src/Main.java:698 | the printed `fieldSize`, at least one character per word and at least the letters of all words; `Bench.FieldLength` shows it is the exact length of every field value |
| Bench.FieldLength | src/Main.java:698 | a field value built from words of length wordSize has exactly numberOfWordsPerDocument * (wordSize + 1) characters, the printed `fieldSize` |
| Bench.FieldTokens | src/Main.java:123 | a field value built from the word pool splits into numberOfWordsPerDocument tokens, each a pool word |
| Bench.FieldsAt | src/Main.java:121-123 | document j's value is the one built from the draws starting at pos + j * numberOfWordsPerDocument |
| Bench.FieldsLength | src/Main.java:121-123 | every document value built from the word pool has `fieldSize` characters |
| Bench.NextFieldValue | src/Main.java:121-126 | one loop round builds the next document's value from the next draws and keeps the loop invariant |
| Bench.DocumentValues | src/Main.java:121-126 | the loop builds numberOfDocuments values, each the concatenation for its own consecutive draws, and consumes numberOfDocuments * numberOfWordsPerDocument draws; with the pool's words each value has `fieldSize` characters |
| Trials.JavaDiv | src/Main.java:82 | Java's long division truncates toward zero: the remainder has the sign of the dividend and is smaller than the divisor in size |
| Trials.Stops | src/Main.java:82-83 | the loop's stop test `i > 5 && secs > 30`; a stop needs at least 6 trials and 31000 ms, and `Trials.StopsIff` gives the converse |
| Trials.StopsIff | src/Main.java:82-83 | the stop test holds exactly when i > 5 and at least 31000 ms have passed |
| Trials.FirstStop | src/Main.java:81-85 | the first iteration at which the loop breaks: it satisfies the stop test, and no earlier iteration does |
| Trials.Min | src/Main.java:109-113 | the minimum is an element of the list and no larger than any element |
| Trials.Swapped | src/Main.java:111 | exchanging two array entries permutes the array (same multiset of entries) |
| Trials.LeastIndex | src/Main.java:111 | finds an index whose entry is no larger than any entry |
| Trials.LeastToFront | src/Main.java:111 | permutes the array so that index 0 holds a least element |
| Trials.GetMin | src/Main.java:109-113 | on a non-empty list, returns an element that is no larger than any element, i.e. Min(values) |
| Trials.RunTrials | src/Main.java:79-88 | performs at least 6 trials; stops at the first iteration where i > 5 and more than 30 whole seconds have passed; records exactly the measurements made before it; returns their minimum |
| Trials.Compare | src/Main.java:91-99 | the comparator; a flagged analyser is strictly faster than the other, and `Trials.CompareFlags` ties each flag to the exact 1.5× condition |
| Trials.CompareFlags | src/Main.java:91-99 | "standard is much faster" exactly when key > 1.5 * std; "keyword is much faster" exactly when std > 1.5 * key; no flag otherwise; the two conditions never hold together |
| Trials.CompareExamples | src/Main.java:94-98 | times 2.0, 3.5 flag the standard analyser; 2.0, 2.4 flag nothing; 3.5, 2.0 flag the keyword analyser |
| Trials.Outcome | src/Main.java:79-88 | the reported value of a finished trial loop is one of its measurements |
| Trials.ReportOne | src/Main.java:76-99 | processing one analyser appends its minimum and its flag and keeps the loop invariant |
| Trials.ReportAnalysers | src/Main.java:75-101 | allTimes holds each analyser's minimum in order; only the second analyser gets a flag, the comparison of the first two minima |
| Commits.DivStep | src/Main.java:508-514 | one more document adds one commit exactly when its index is a multiple of commitEvery |
| Commits.CountCommits | src/Main.java:507-515 | the inner loop makes (toWrite - 1) / commitEvery commits, and 0 commits when toWrite is 0 |
| Commits.Chunks | src/Main.java:503 | every commitEvery value the outer loop visits is at least 1 |
| Commits.ChunksShape | src/Main.java:503 | the outer loop starts at toWrite, divides by 10 each pass and ends at a value between 1 and 9 |
| Commits.ChunksDigits | src/Main.java:503 | the outer loop runs once per decimal digit of toWrite, so it terminates |
| Commits.CommitSchedule | src/Main.java:503-515 | visits exactly the chunk sizes toWrite, toWrite / 10, … down to toWrite's leading digit (1 for the source's 10_000), with the commit count above for each |
| Commits.TenThousandChunks | src/Main.java:499-503 | with toWrite = 10_000 the chunk sizes are 10000, 1000, 100, 10, 1 |
| Commits.CompareSegmentSizes | src/Main.java:498-515 | with toWrite = 10_000 the commit counts are 0, 9, 99, 999, 9999 |
| Visibility.Directory.Clean | src/Main.java:277 | a clean directory holds no index |
| Visibility.Reader.Snapshot | src/Main.java:297-299 | a reader (opened at lines 280, 285 and 318) holds the document count it was opened with and never changes it; `Visibility.NearRealTimeScenario` shows it frozen through later adds and a commit |
| Visibility.IndexWriter.Open | src/Main.java:278 | a new writer on a directory starts from the documents the directory holds |
| Visibility.IndexWriter.AddDocument | src/Main.java:282 | adding a document raises the writer's count by one and leaves the directory unchanged |
| Visibility.IndexWriter.Commit | src/Main.java:292 | after a commit, the directory holds an index with every added document |
| Visibility.IndexWriter.OpenNearRealTime | src/Main.java:280 | a near-real-time reader is a new reader frozen at the writer's current count, never below what the directory has committed |
| Visibility.CountDocuments | src/Main.java:315-326 | counting documents on the directory gives -1 while no commit has happened, and the committed count after one |
| Visibility.NearRealTimeScenario | src/Main.java:276-295 | the first reader reports 0 at all four checks; the second reports 1 at all three checks, through a later add and a commit |
| Visibility.CommitVisibilityScenario | src/Main.java:301-313 | the directory count is -1 before the add, still -1 after it, and 1 after the commit |

## Left out

- Lucene itself is not modelled. This covers `IndexWriter`, `DirectoryReader`, searching,
  analysers, field types, merge policies and compound files. Only the counters of the
  visibility model stand in for it. Analysers appear only as a name in `Bench.Config`.
- File-system work is not modelled: `getCleanDirectory`, `getDirectory`, `removeDirectory`
  and directory sizes. It is I/O. One `Visibility.Directory` object stands for the
  directory on disk, which repeated `getDirectory(name)` calls reopen.
- `Reader` and `Directory` closing is not modelled, because closing changes no count.
- The clocks and `System.gc` are not modelled. `System.currentTimeMillis` readings are
  inputs to `Trials.RunTrials`. `System.nanoTime` and the per-document time that `measure`
  computes from it are not modelled, so the measurements are inputs too.
- The `java.util.Random` algorithm and the seed 42 are not modelled. The draws are an input
  stream and `nextInt(bound)` is `draw % bound`.
- Floating point is not modelled. Times are naturals, not doubles, and the comparator's
  `1.5 *` is exact. This also leaves out `SizeAndTime`, the printed ratios and the
  `min * 1_000_000.0` output scaling.
- Integer widths are not modelled. Counts and clock differences are unbounded integers, so
  `int` and `long` overflow is left out.
- `Trials.LeastToFront`: models `Arrays.sort` only as far as `array[0]` depends on it. It
  moves a least element to the front and keeps a permutation, but does not sort the rest.
- `TextGen.ListOf`: leaves the order of `new ArrayList<>(hashSet)` open. Java's HashSet
  iteration order is not modelled.
- `TextGen.CreateListOfWords`, `TextGen.DrawDistinct`: require a stream on which the loop
  reaches n distinct words. On any other stream the source loops forever. Such a stream
  exists only when n <= 26^wordSize (`Counting.ReachesNeedsWordSpace`).
- `TextGen.GenerateWord`, `TextGen.ConcatRandomWords`, `Bench.DocumentValues`: require the
  draw stream to be long enough for the calls they make. The real Random never runs out.
- `Trials.RunTrials`: requires the clock readings to reach a stop, an iteration i > 5 read at
  least 31000 ms after `start`. It also requires a measurement for every iteration before
  that stop. On a clock that never gets there the source loops forever.
- `TextGen.ConcatRandomWords`, `Trials.GetMin`: the exception paths are excluded by their
  requires. `random.nextInt(0)` on an empty pool throws IllegalArgumentException, and
  `getMin` on an empty list fails at `array[0]`. Neither can happen at the source's call
  sites, which use pools of 10 or 1000 words and at least 6 trial times.
- `Trials.ReportAnalysers` takes any number of analysers. The source always passes exactly
  two: StandardAnalyzer, then KeywordAnalyzer.
- The parameter sweep in `speedOfAnalyzerDifferentWays` is not modelled. It covers the
  constant arrays of document counts, word counts, word sizes and words per document, and
  the `wordSize * numberOfWordsPerDocument < 32000` guard. One configuration is modelled
  instead.
- `Config.toString` is not modelled, apart from the `fieldSize` it prints.
- `wordsFromString` and `randomWords` are not modelled. They are alternate generators used
  only by disabled experiments.
- `checkAsserts` and the commented-out experiments in `main` are not modelled. The latter
  include `commitSpeedUsingFileSystem`, `commitSpeedWithoutAutomerge`,
  `compareIndexSizes`, `differentFieldTypes` and the searcher and collector demos. They
  are Lucene and I/O work with no verifiable logic beyond what is modelled here.
