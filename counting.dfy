/** How many distinct words `generateWord` can produce: at most 26^wordSize. This is
    what bounds the number of distinct words a caller of `createListOfWords` may ask for:
    the while loop waits for a pool of that size and no stream of draws ever fills it
    beyond 26^wordSize. */
module Counting {
  import opened TextGen

  /** 26^k. */
  function Pow26(k: nat): (p: nat)
    ensures p >= 1
  {
    if k == 0 then 1 else 26 * Pow26(k - 1)
  }

  /** The base-26 digit of a letter; 0 for anything that is no lowercase letter. */
  function Digit(c: char): (d: nat)
    ensures d < 26
    ensures IsLower(c) ==> d == LetterIndex(c)
  {
    if IsLower(c) then LetterIndex(c) else 0
  }

  /** A word read as a base-26 numeral, the last letter least significant. */
  function Code(w: string): (c: nat)
    ensures c < Pow26(|w|)
  {
    if w == [] then 0 else 26 * Code(w[..|w| - 1]) + Digit(w[|w| - 1])
  }

  /** Base-26 digits: 26a + x determines a and x. */
  lemma DigitSplit(a: nat, x: nat, b: nat, y: nat)
    requires x < 26 && y < 26 && 26 * a + x == 26 * b + y
    ensures a == b && x == y
  {
  }

  /** Two lowercase words of one length with the same code are the same word. */
  lemma {:induction false} CodeInjective(u: string, v: string)
    requires Lowercase(u) && Lowercase(v) && |u| == |v|
    requires Code(u) == Code(v)
    ensures u == v
  {
    if u != [] {
      var k := |u| - 1;
      var a, b := Code(u[..k]), Code(v[..k]);
      var x, y := Digit(u[k]), Digit(v[k]);
      DigitSplit(a, x, b, y);
      CodeInjective(u[..k], v[..k]);
      assert u == u[..k] + [u[k]] && v == v[..k] + [v[k]];
    }
  }

  /** The naturals below n. */
  function Below(n: nat): (s: set<nat>)
    ensures forall i: nat :: i in s <==> i < n
    ensures |s| == n
  {
    if n == 0 then {} else Below(n - 1) + {n - 1}
  }

  lemma {:induction false} SubsetSize(a: set<nat>, b: set<nat>)
    requires a <= b
    ensures |a| <= |b|
  {
    if |a| > 0 {
      var x :| x in a;
      SubsetSize(a - {x}, b - {x});
    }
  }

  /** The codes of a set of words. */
  function Codes(s: set<string>): (cs: set<nat>) {
    set w | w in s :: Code(w)
  }

  lemma CodesRemove(s: set<string>, w: string)
    requires w in s
    ensures Codes(s) == Codes(s - {w}) + {Code(w)}
  {
  }

  /** A word of length len outside a set of such words has a code outside their codes. */
  lemma FreshCode(s: set<string>, w: string, len: nat)
    requires forall v :: v in s ==> Lowercase(v) && |v| == len
    requires Lowercase(w) && |w| == len && w !in s
    ensures Code(w) !in Codes(s)
  {
    if Code(w) in Codes(s) {
      var v :| v in s && Code(v) == Code(w);
      CodeInjective(v, w);
      assert false;
    }
  }

  /** Coding loses no word of one length: a set of such words has as many codes as words. */
  lemma {:induction false} CodesSize(s: set<string>, len: nat)
    requires forall w :: w in s ==> Lowercase(w) && |w| == len
    ensures |Codes(s)| == |s|
  {
    if s != {} {
      var w :| w in s;
      var rest := s - {w};
      CodesSize(rest, len);
      CodesRemove(s, w);
      FreshCode(rest, w, len);
      assert |Codes(s)| == |Codes(rest)| + 1;
    }
  }

  /** At most 26^len distinct lowercase words have length len. */
  lemma WordSpace(s: set<string>, len: nat)
    requires forall w :: w in s ==> Lowercase(w) && |w| == len
    ensures |s| <= Pow26(len)
  {
    CodesSize(s, len);
    SubsetSize(Codes(s), Below(Pow26(len)));
  }

  /** A stream on which `createListOfWords(wordSize, n, random)` terminates exists only
      if n <= 26^wordSize. */
  lemma ReachesNeedsWordSpace(wordSize: nat, n: nat, draws: seq<nat>)
    requires Reaches(wordSize, n, draws)
    ensures n <= Pow26(wordSize)
  {
    var k: nat :| Offset(k, wordSize) <= |draws| && n <= |Pool(wordSize, draws, k)|;
    PoolWords(wordSize, draws, k);
    WordSpace(Pool(wordSize, draws, k), wordSize);
  }
}
