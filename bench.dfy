/** One benchmark configuration and the documents `measure` indexes for it. */
module Bench {
  import opened TextGen

  /** The two analysers the benchmark compares; only their names reach the output. */
  datatype Analyser = StandardAnalyzer | KeywordAnalyzer

  /** The immutable `Config` record. */
  datatype Config = Config(
    numberOfDistinctWords: nat,
    wordSize: nat,
    numberOfDocuments: nat,
    numberOfWordsPerDocument: nat,
    analyser: Analyser)
  {
    /** The `fieldSize` that `toString` prints. */
    function FieldSize(): (size: nat)
      ensures size >= numberOfWordsPerDocument
      ensures size >= numberOfWordsPerDocument * wordSize
    {
      numberOfWordsPerDocument * (wordSize + 1)
    }
  }


  /** The field value that one concatRandomWords call reading the draws from `at` builds;
      "" where the stream or the pool cannot supply them (a case no caller consults). */
  function Field(words: seq<string>, numWords: nat, draws: seq<nat>, at: nat): (value: string) {
    if at + numWords <= |draws| && (numWords > 0 ==> |words| > 0)
    then Joined(Picks(words, draws[at..at + numWords]))
    else ""
  }

  lemma FieldOfConcat(words: seq<string>, numWords: nat, draws: seq<nat>, at: nat, value: string)
    requires at + numWords <= |draws| && (numWords > 0 ==> |words| > 0)
    requires value == Joined(Picks(words, draws[at..at + numWords]))
    ensures value == Field(words, numWords, draws, at)
  {
  }

  /** The field values of the first k documents, document j reading from pos + j * numWords. */
  function Fields(words: seq<string>, numWords: nat, draws: seq<nat>, pos: nat, k: nat): (fs: seq<string>)
    ensures |fs| == k
  {
    if k == 0 then []
    else Fields(words, numWords, draws, pos, k - 1)
         + [Field(words, numWords, draws, pos + Offset(k - 1, numWords))]
  }

  /** Document j gets the value built from the draws from pos + j * numWords. */
  lemma {:induction false} FieldsAt(words: seq<string>, numWords: nat, draws: seq<nat>, pos: nat, k: nat, j: nat)
    requires j < k
    ensures Fields(words, numWords, draws, pos, k)[j] == Field(words, numWords, draws, pos + Offset(j, numWords))
  {
    if j < k - 1 {
      FieldsAt(words, numWords, draws, pos, k - 1, j);
    }
  }

  lemma LowercaseHasNoSpaces(w: string)
    requires Lowercase(w)
    ensures NoSpaces(w)
  {
  }

  /** A field value built from words of one length has exactly `fieldSize` characters. */
  lemma FieldLength(config: Config, words: seq<string>, draws: seq<nat>, at: nat)
    requires forall w :: w in words ==> |w| == config.wordSize
    requires config.numberOfWordsPerDocument > 0 ==> |words| > 0
    requires at + config.numberOfWordsPerDocument <= |draws|
    ensures |Field(words, config.numberOfWordsPerDocument, draws, at)| == config.FieldSize()
  {
    var ts := Picks(words, draws[at..at + config.numberOfWordsPerDocument]);
    assert forall i :: 0 <= i < |ts| ==> ts[i] in words;
    JoinedLength(ts, config.wordSize);
  }

  /** Every document value built from fitting words has exactly `fieldSize` characters. */
  lemma {:induction false} FieldsLength(config: Config, words: seq<string>, draws: seq<nat>,
                                       pos: nat, k: nat)
    requires forall w :: w in words ==> |w| == config.wordSize
    requires k > 0 && config.numberOfWordsPerDocument > 0 ==> |words| > 0
    requires pos + Offset(k, config.numberOfWordsPerDocument) <= |draws|
    ensures forall j :: 0 <= j < k ==>
              |Fields(words, config.numberOfWordsPerDocument, draws, pos, k)[j]| == config.FieldSize()
  {
    if k > 0 {
      var per := config.numberOfWordsPerDocument;
      FieldsLength(config, words, draws, pos, k - 1);
      FieldLength(config, words, draws, pos + Offset(k - 1, per));
    }
  }

  /** A field value built from fitting words splits into numberOfWordsPerDocument tokens,
      each a pool word. */
  lemma FieldTokens(numWords: nat, words: seq<string>, wordSize: nat, draws: seq<nat>, at: nat)
    requires WordsFit(words, wordSize)
    requires numWords > 0 ==> |words| > 0
    requires at + numWords <= |draws|
    ensures |Tokens(Field(words, numWords, draws, at))| == numWords
    ensures forall t :: t in Tokens(Field(words, numWords, draws, at)) ==> t in words
  {
    forall w | w in words
      ensures NoSpaces(w)
    {
      LowercaseHasNoSpaces(w);
    }
    PickedTokens(words, draws[at..at + numWords]);
  }

  /** What the loop of `measure` has built after i documents. */
  ghost predicate Built(config: Config, words: seq<string>, draws: seq<nat>, pos: nat,
                        i: nat, values: seq<string>, next: nat)
  {
    && i <= config.numberOfDocuments
    && pos + Offset(config.numberOfDocuments, config.numberOfWordsPerDocument) <= |draws|
    && (config.numberOfDocuments > 0 && config.numberOfWordsPerDocument > 0 ==> |words| > 0)
    && next == pos + Offset(i, config.numberOfWordsPerDocument)
    && values == Fields(words, config.numberOfWordsPerDocument, draws, pos, i)
  }

  /** One round of the loop of `measure`: build the next document's value. */
  method NextFieldValue(config: Config, words: seq<string>, draws: seq<nat>, pos: nat,
                     ghost i: nat, values: seq<string>, next: nat)
    returns (values': seq<string>, next': nat)
    requires Built(config, words, draws, pos, i, values, next)
    requires i < config.numberOfDocuments
    ensures Built(config, words, draws, pos, i + 1, values', next')
  {
    var per := config.numberOfWordsPerDocument;
    OffsetGrows(i + 1, config.numberOfDocuments, per);
    var value;
    value, next' := ConcatRandomWords(words, per, draws, next);
    FieldOfConcat(words, per, draws, next, value);
    values' := values + [value];
  }

  /** The loop of `measure(config, words, random)`: one concatRandomWords value per
      document, all read from one stream. Indexing the documents and timing it are not
      part of this model. */
  method DocumentValues(config: Config, words: seq<string>, draws: seq<nat>, pos: nat)
    returns (values: seq<string>, next: nat)
    requires config.numberOfDocuments > 0 && config.numberOfWordsPerDocument > 0 ==> |words| > 0
    requires pos + Offset(config.numberOfDocuments, config.numberOfWordsPerDocument) <= |draws|
    ensures next == pos + Offset(config.numberOfDocuments, config.numberOfWordsPerDocument)
    ensures values == Fields(words, config.numberOfWordsPerDocument, draws, pos, config.numberOfDocuments)
    ensures WordsFit(words, config.wordSize) ==>
              forall j :: 0 <= j < |values| ==> |values[j]| == config.FieldSize()
  {
    values := [];
    next := pos;
    var i := 0;
    while i < config.numberOfDocuments
      invariant Built(config, words, draws, pos, i, values, next)
      decreases config.numberOfDocuments - i
    {
      values, next := NextFieldValue(config, words, draws, pos, i, values, next);
      i := i + 1;
    }
    if WordsFit(words, config.wordSize) {
      FieldsLength(config, words, draws, pos, config.numberOfDocuments);
    }
  }
}
