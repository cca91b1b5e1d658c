/** Synthetic text generation: the word pool and the field values built from it.

    java.util.Random is an oracle here: a fixed stream of natural draws, and the state of
    the Random object is a cursor into it. Every call `random.nextInt(bound)` reads the draw
    `d` under the cursor, advances the cursor by one and yields `d % bound`. GenerateWord
    and ConcatRandomWords take the cursor and return the advanced one, so that successive
    calls share one stream exactly as they share one Random object in the source.
    CreateListOfWords takes no cursor and reads from draw 0: the source calls it right
    after `new Random(42)`, so it starts a fresh stream. */
module TextGen {

  /** The alphabet `generateWord` picks from. */
  const Alphabet: string := "abcdefghijklmnopqrstuvwxyz"

  predicate IsLower(c: char) {
    'a' <= c <= 'z'
  }

  predicate Lowercase(w: string) {
    forall i :: 0 <= i < |w| ==> IsLower(w[i])
  }

  /** A word as generateWord(wordSize, ...) returns it: wordSize lowercase letters. */
  predicate WordFits(w: string, wordSize: nat) {
    |w| == wordSize && Lowercase(w)
  }

  /** Words of one length drawn from the alphabet, as createListOfWords returns them. */
  predicate WordsFit(words: seq<string>, wordSize: nat) {
    forall w :: w in words ==> WordFits(w, wordSize)
  }

  predicate NoSpaces(w: string) {
    forall i :: 0 <= i < |w| ==> w[i] != ' '
  }

  // ---------------------------------------------------------------------------
  // generateWord

  /** The letter `alphabet[random.nextInt(26)]` when the draw is `d`. */
  function Letter(d: nat): (c: char)
    ensures IsLower(c)
  {
    (('a' as int) + d % 26) as char
  }

  /** Letter is the lookup `alphabet[d % 26]` of the source. */
  lemma LetterInAlphabet(d: nat)
    ensures Letter(d) == Alphabet[d % |Alphabet|]
  {
  }

  /** Position of a lowercase letter in the alphabet: the inverse of Letter. */
  function LetterIndex(c: char): (k: nat)
    requires IsLower(c)
    ensures k < |Alphabet| && Alphabet[k] == c
  {
    (c as int) - ('a' as int)
  }

  /** The word spelled by a run of draws, one letter per draw. */
  function Spelled(ds: seq<nat>): (w: string) {
    seq(|ds|, i requires 0 <= i < |ds| => Letter(ds[i]))
  }

  /** The draws that spell a lowercase word. */
  function Indices(w: string): (ds: seq<nat>)
    requires Lowercase(w)
  {
    seq(|w|, i requires 0 <= i < |w| => LetterIndex(w[i]))
  }

  lemma LetterOfIndex(c: char)
    requires IsLower(c)
    ensures Letter(LetterIndex(c)) == c
  {
  }

  /** Every lowercase word is spelled by some draws: the generator can produce it. */
  lemma SpelledIndices(w: string)
    requires Lowercase(w)
    ensures Spelled(Indices(w)) == w
  {
    var ds := Indices(w);
    forall i | 0 <= i < |w|
      ensures Spelled(ds)[i] == w[i]
    {
      LetterOfIndex(w[i]);
    }
  }

  /** Spelling loses exactly the part of each draw above the alphabet size. */
  lemma IndicesSpelled(ds: seq<nat>)
    ensures Lowercase(Spelled(ds))
    ensures Indices(Spelled(ds)) == seq(|ds|, i requires 0 <= i < |ds| => ds[i] % 26)
  {
  }

  /** `generateWord(wordSize, random)`: appends one letter per draw, wordSize times. */
  method GenerateWord(wordSize: nat, draws: seq<nat>, pos: nat) returns (word: string, next: nat)
    requires pos + wordSize <= |draws|
    ensures |word| == wordSize && Lowercase(word)
    ensures next == pos + wordSize
    ensures word == Spelled(draws[pos..next])
  {
    word := "";
    var j := 0;
    while j < wordSize
      invariant 0 <= j <= wordSize
      invariant |word| == j
      invariant forall k :: 0 <= k < j ==> word[k] == Letter(draws[pos + k])
    {
      word := word + [Letter(draws[pos + j])];
      j := j + 1;
    }
    next := pos + wordSize;
  }

  // ---------------------------------------------------------------------------
  // createListOfWords

  /** Number of draws the first k words consume: k * wordSize, written as repeated
      addition so that the proofs about it stay linear. */
  function Offset(k: nat, wordSize: nat): (used: nat) {
    if k == 0 then 0 else Offset(k - 1, wordSize) + wordSize
  }

  lemma {:induction false} OffsetIsProduct(k: nat, wordSize: nat)
    ensures Offset(k, wordSize) == k * wordSize
  {
    if k > 0 {
      OffsetIsProduct(k - 1, wordSize);
    }
  }

  lemma {:induction false} OffsetGrows(j: nat, k: nat, wordSize: nat)
    requires j <= k
    ensures Offset(j, wordSize) <= Offset(k, wordSize)
  {
    if j < k {
      OffsetGrows(j, k - 1, wordSize);
    }
  }

  /** The k-th word (from 0) that repeated generateWord calls spell from the start of the
      stream; "" once the stream has run out (a case no caller consults). */
  function NthWord(wordSize: nat, draws: seq<nat>, k: nat): (w: string) {
    if Offset(k + 1, wordSize) <= |draws|
    then Spelled(draws[Offset(k, wordSize) .. Offset(k + 1, wordSize)])
    else ""
  }

  /** The set of the first k words spelled from the stream: duplicates collapse. */
  function Pool(wordSize: nat, draws: seq<nat>, k: nat): (pool: set<string>) {
    set i | 0 <= i < k :: NthWord(wordSize, draws, i)
  }

  /** The stream eventually yields n distinct words, so createListOfWords terminates on it. */
  ghost predicate Reaches(wordSize: nat, n: nat, draws: seq<nat>) {
    exists k: nat :: Offset(k, wordSize) <= |draws| && n <= |Pool(wordSize, draws, k)|
  }

  /** One more word adds at most that word to the pool. */
  lemma PoolSnoc(wordSize: nat, draws: seq<nat>, k: nat)
    ensures Pool(wordSize, draws, k + 1) == Pool(wordSize, draws, k) + {NthWord(wordSize, draws, k)}
  {
  }

  /** Every word of a pool read from within the stream has the word size and is lowercase. */
  lemma PoolWords(wordSize: nat, draws: seq<nat>, k: nat)
    requires Offset(k, wordSize) <= |draws|
    ensures forall w :: w in Pool(wordSize, draws, k) ==> WordFits(w, wordSize)
  {
    forall i | 0 <= i < k
      ensures WordFits(NthWord(wordSize, draws, i), wordSize)
    {
      OffsetGrows(i + 1, k, wordSize);
    }
  }

  /** The HashSet handed to `new ArrayList<>(result)`: its elements in an unspecified order. */
  method ListOf(s: set<string>) returns (xs: seq<string>)
    ensures |xs| == |s|
    ensures forall w :: w in xs <==> w in s
    ensures forall i, j :: 0 <= i < j < |xs| ==> xs[i] != xs[j]
  {
    xs := [];
    var left := s;
    while left != {}
      invariant left <= s
      invariant |xs| + |left| == |s|
      invariant forall w :: w in xs <==> w in s && w !in left
      invariant forall i, j :: 0 <= i < j < |xs| ==> xs[i] != xs[j]
      decreases |left|
    {
      var w :| w in left;
      xs := xs + [w];
      left := left - {w};
    }
  }

  /** What holds before each round of the while loop of `createListOfWords`: `used` words
      have been generated, the cursor is past them, and the set holds their pool, which
      before the last of them was still short of n. `bound` is a round by which the
      stream is known to reach n distinct words. */
  ghost predicate DrawInvariant(wordSize: nat, n: nat, draws: seq<nat>, bound: nat,
                                used: nat, next: nat, result: set<string>)
  {
    && Offset(bound, wordSize) <= |draws| && n <= |Pool(wordSize, draws, bound)|
    && used <= bound
    && next == Offset(used, wordSize) <= |draws|
    && result == Pool(wordSize, draws, used)
    && |result| <= n
    && (used == 0 || |Pool(wordSize, draws, used - 1)| < n)
  }

  /** While the pool is short of n words, the stream holds the draws of the next word. */
  lemma DrawRoom(wordSize: nat, n: nat, draws: seq<nat>, bound: nat,
                 used: nat, next: nat, result: set<string>)
    requires DrawInvariant(wordSize, n, draws, bound, used, next, result)
    requires |result| < n
    ensures used < bound && next + wordSize <= |draws|
  {
    OffsetGrows(used + 1, bound, wordSize);
  }

  /** One round of the loop: adding the next word keeps the invariant. */
  lemma DrawStep(wordSize: nat, n: nat, draws: seq<nat>, bound: nat,
                 used: nat, next: nat, result: set<string>, w: string)
    requires DrawInvariant(wordSize, n, draws, bound, used, next, result)
    requires |result| < n
    requires next + wordSize <= |draws| && w == Spelled(draws[next..next + wordSize])
    ensures DrawInvariant(wordSize, n, draws, bound, used + 1, next + wordSize, result + {w})
  {
    DrawRoom(wordSize, n, draws, bound, used, next, result);
    assert w == NthWord(wordSize, draws, used);
    PoolSnoc(wordSize, draws, used);
  }

  /** One round of the `while` loop of `createListOfWords`: draw a word and add it. */
  method DrawOne(wordSize: nat, n: nat, draws: seq<nat>, ghost bound: nat,
                 ghost used: nat, next: nat, result: set<string>)
    returns (result': set<string>, ghost used': nat, next': nat)
    requires DrawInvariant(wordSize, n, draws, bound, used, next, result)
    requires |result| < n
    ensures used < bound && used' == used + 1
    ensures DrawInvariant(wordSize, n, draws, bound, used', next', result')
  {
    DrawRoom(wordSize, n, draws, bound, used, next, result);
    var w;
    w, next' := GenerateWord(wordSize, draws, next);
    DrawStep(wordSize, n, draws, bound, used, next, result, w);
    result' := result + {w};
    used' := used + 1;
  }

  /** The while loop of `createListOfWords`: adds generated words to a set until it holds
      n of them. `used` counts the generateWord calls made. */
  method DrawDistinct(wordSize: nat, n: nat, draws: seq<nat>)
    returns (result: set<string>, ghost used: nat, next: nat)
    requires Reaches(wordSize, n, draws)
    ensures next == Offset(used, wordSize) <= |draws|
    ensures result == Pool(wordSize, draws, used)
    ensures |result| == n
    ensures used == 0 || |Pool(wordSize, draws, used - 1)| < n
  {
    ghost var bound: nat :| Offset(bound, wordSize) <= |draws| && n <= |Pool(wordSize, draws, bound)|;
    result := {};
    next := 0;
    used := 0;
    while |result| < n
      invariant DrawInvariant(wordSize, n, draws, bound, used, next, result)
      decreases bound - used
    {
      result, used, next := DrawOne(wordSize, n, draws, bound, used, next, result);
    }
  }


  /** `createListOfWords(wordSize, n, random)` on a fresh stream: n distinct generated
      words, listed in the set's iteration order. */
  method CreateListOfWords(wordSize: nat, n: nat, draws: seq<nat>)
    returns (words: seq<string>, ghost used: nat, next: nat)
    requires Reaches(wordSize, n, draws)
    ensures next == Offset(used, wordSize) <= |draws|
    ensures |words| == n
    ensures forall i, j :: 0 <= i < j < |words| ==> words[i] != words[j]
    ensures WordsFit(words, wordSize)
    ensures forall w :: w in words <==> w in Pool(wordSize, draws, used)
    ensures used == 0 || |Pool(wordSize, draws, used - 1)| < n
  {
    var result;
    result, used, next := DrawDistinct(wordSize, n, draws);
    PoolWords(wordSize, draws, used);
    words := ListOf(result);
  }

  // ---------------------------------------------------------------------------
  // concatRandomWords

  /** The pool words `words.get(random.nextInt(words.size()))` picks for the draws `ds`. */
  function Picks(words: seq<string>, ds: seq<nat>): (ts: seq<string>)
    requires |ds| > 0 ==> |words| > 0
    ensures |ts| == |ds|
    ensures forall t :: t in ts ==> t in words
  {
    seq(|ds|, i requires 0 <= i < |ds| => words[ds[i] % |words|])
  }

  /** Every token followed by one space, the trailing one included. */
  function Joined(ts: seq<string>): (s: string) {
    if ts == [] then "" else ts[0] + " " + Joined(ts[1..])
  }

  /** Index of the first space of s, or |s| when there is none. */
  function SpaceAt(s: string): (k: nat)
    ensures k <= |s|
    ensures k < |s| ==> s[k] == ' '
    ensures forall i :: 0 <= i < k ==> s[i] != ' '
  {
    if s == [] || s[0] == ' ' then 0 else 1 + SpaceAt(s[1..])
  }

  /** Splits a string into its space-terminated tokens (a final unterminated one included). */
  function Tokens(s: string): (ts: seq<string>)
    decreases |s|
  {
    if s == [] then []
    else
      var k := SpaceAt(s);
      if k == |s| then [s] else [s[..k]] + Tokens(s[k + 1..])
  }

  lemma {:induction false} JoinedSnoc(ts: seq<string>, t: string)
    ensures Joined(ts + [t]) == Joined(ts) + t + " "
  {
    if ts != [] {
      assert (ts + [t])[1..] == ts[1..] + [t];
      JoinedSnoc(ts[1..], t);
    }
  }

  /** Joining tokens of equal length L gives |ts| * (L + 1) characters. */
  lemma {:induction false} JoinedLength(ts: seq<string>, len: nat)
    requires forall i :: 0 <= i < |ts| ==> |ts[i]| == len
    ensures |Joined(ts)| == |ts| * (len + 1)
  {
    if ts != [] {
      JoinedLength(ts[1..], len);
    }
  }

  /** The first space after a space-free word is the one that ends it. */
  lemma {:induction false} SpaceAfterWord(t: string, rest: string)
    requires NoSpaces(t)
    ensures SpaceAt(t + " " + rest) == |t|
  {
    if t != [] {
      assert (t + " " + rest)[1..] == t[1..] + " " + rest;
      SpaceAfterWord(t[1..], rest);
    }
  }

  /** Splitting the joined value gives the tokens back, when no token contains a space. */
  lemma {:induction false} TokensOfJoined(ts: seq<string>)
    requires forall i :: 0 <= i < |ts| ==> NoSpaces(ts[i])
    ensures Tokens(Joined(ts)) == ts
  {
    if ts != [] {
      var t, tail := ts[0], Joined(ts[1..]);
      var s := t + " " + tail;
      SpaceAfterWord(t, tail);
      assert s[..|t|] == t;
      assert s[|t| + 1..] == tail;
      TokensOfJoined(ts[1..]);
    }
  }

  /** A value joined from picks splits back into as many tokens, each a pool word,
      when no pool word contains a space. */
  lemma PickedTokens(words: seq<string>, ds: seq<nat>)
    requires |ds| > 0 ==> |words| > 0
    ensures (forall w :: w in words ==> NoSpaces(w)) ==>
              Tokens(Joined(Picks(words, ds))) == Picks(words, ds) &&
              |Tokens(Joined(Picks(words, ds)))| == |ds| &&
              forall t :: t in Tokens(Joined(Picks(words, ds))) ==> t in words
  {
    if forall w :: w in words ==> NoSpaces(w) {
      TokensOfJoined(Picks(words, ds));
    }
  }

  /** Reading one more draw appends one more pick. */
  lemma PicksSnoc(words: seq<string>, draws: seq<nat>, pos: nat, i: nat)
    requires pos + i < |draws| && |words| > 0
    ensures Picks(words, draws[pos..pos + i + 1])
         == Picks(words, draws[pos..pos + i]) + [words[draws[pos + i] % |words|]]
  {
    assert draws[pos..pos + i + 1] == draws[pos..pos + i] + [draws[pos + i]];
  }

  /** `concatRandomWords(words, random, numWords)`: appends a picked word and a space,
      numWords times. */
  method ConcatRandomWords(words: seq<string>, numWords: nat, draws: seq<nat>, pos: nat)
    returns (value: string, next: nat)
    requires numWords > 0 ==> |words| > 0
    requires pos + numWords <= |draws|
    ensures next == pos + numWords
    ensures value == Joined(Picks(words, draws[pos..next]))
    ensures (forall w :: w in words ==> NoSpaces(w)) ==>
              |Tokens(value)| == numWords && forall t :: t in Tokens(value) ==> t in words
  {
    value := "";
    var i := 0;
    while i < numWords
      invariant 0 <= i <= numWords
      invariant value == Joined(Picks(words, draws[pos..pos + i]))
    {
      var w := words[draws[pos + i] % |words|];
      PicksSnoc(words, draws, pos, i);
      JoinedSnoc(Picks(words, draws[pos..pos + i]), w);
      value := value + w + " ";
      i := i + 1;
    }
    next := pos + numWords;
    PickedTokens(words, draws[pos..next]);
  }
}
