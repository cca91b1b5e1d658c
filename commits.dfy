/** The commit loops of `compareSegmentSizes`: write toWrite empty documents and commit
    after document i whenever i > 0 and i is a multiple of commitEvery; repeat for
    commitEvery = toWrite, toWrite / 10, ... down to toWrite's leading digit (1 for
    10_000). Writing and committing themselves are not part of this model; only the
    counts are. */
module Commits {

  /** Euclidean division is determined by quotient and remainder. */
  lemma {:induction false} DivUnique(a: nat, c: nat, q: nat, r: nat)
    requires c >= 1 && r < c && a == q * c + r
    ensures a / c == q && a % c == r
  {
    var q', r' := a / c, a % c;
    assert a == q' * c + r';
    if q' < q {
      MulStep(q', q, c);
    } else if q < q' {
      MulStep(q, q', c);
    }
  }

  /** For x < y, a multiple of y exceeds one of x by at least c. */
  lemma {:induction false} MulStep(x: nat, y: nat, c: nat)
    requires x < y
    ensures x * c + c <= y * c
  {
    if y > x + 1 {
      MulStep(x, y - 1, c);
      assert (y - 1) * c + c == y * c;
    } else {
      assert (x + 1) * c == x * c + c;
    }
  }

  /** One more document adds one multiple of c exactly when its index is one. */
  lemma DivStep(m: nat, c: nat)
    requires c >= 1
    ensures (m + 1) / c == m / c + (if (m + 1) % c == 0 then 1 else 0)
  {
    var q, r := m / c, m % c;
    assert m == q * c + r;
    if r + 1 < c {
      DivUnique(m + 1, c, q, r + 1);
    } else {
      assert m + 1 == (q + 1) * c + 0;
      DivUnique(m + 1, c, q + 1, 0);
    }
  }

  /** The multiples of commitEvery in 1 .. toWrite - 1. */
  function MultiplesBelow(toWrite: nat, commitEvery: nat): (commits: nat)
    requires commitEvery >= 1
  {
    if toWrite == 0 then 0 else (toWrite - 1) / commitEvery
  }

  /** The inner loop: `if (i > 0 && i % commitEvery == 0) commits++` for i < toWrite.
      The commits are the multiples of commitEvery in 1 .. toWrite - 1. */
  method CountCommits(toWrite: nat, commitEvery: nat) returns (commits: nat)
    requires commitEvery >= 1
    ensures toWrite == 0 ==> commits == 0
    ensures toWrite > 0 ==> commits == (toWrite - 1) / commitEvery
  {
    commits := 0;
    var i := 0;
    while i < toWrite
      invariant 0 <= i <= toWrite
      invariant i > 0 ==> commits == (i - 1) / commitEvery
      invariant i == 0 ==> commits == 0
    {
      if i > 0 && i % commitEvery == 0 {
        commits := commits + 1;
      }
      if i > 0 {
        DivStep(i - 1, commitEvery);
      }
      i := i + 1;
    }
  }

  /** The values commitEvery takes in the outer loop, starting from n. */
  function Chunks(n: nat): (cs: seq<nat>)
    ensures forall i :: 0 <= i < |cs| ==> cs[i] >= 1
    decreases n
  {
    if n == 0 then [] else [n] + Chunks(n / 10)
  }

  /** The outer loop starts at toWrite, divides by 10 each pass and ends with a single digit. */
  lemma {:induction false} ChunksShape(n: nat)
    ensures n > 0 ==> |Chunks(n)| > 0 && Chunks(n)[0] == n && 1 <= Chunks(n)[|Chunks(n)| - 1] < 10
    ensures forall i :: 0 < i < |Chunks(n)| ==> Chunks(n)[i] == Chunks(n)[i - 1] / 10
    decreases n
  {
    if n > 0 {
      ChunksShape(n / 10);
    }
  }

  function Pow10(k: nat): (p: nat)
    ensures p >= 1
  {
    if k == 0 then 1 else 10 * Pow10(k - 1)
  }

  /** The outer loop runs once per decimal digit of toWrite. */
  lemma {:induction false} ChunksDigits(n: nat)
    requires n > 0
    ensures Pow10(|Chunks(n)| - 1) <= n < Pow10(|Chunks(n)|)
    decreases n
  {
    if n >= 10 {
      ChunksDigits(n / 10);
    }
  }

  lemma ChunksStep(done: seq<nat>, n: nat)
    requires n >= 1
    ensures done + Chunks(n) == done + [n] + Chunks(n / 10)
  {
  }

  /** `for (commitEvery = toWrite; commitEvery >= 1; commitEvery /= 10)` around the inner
      loop: the chunk sizes tried and the commits each one makes. */
  method CommitSchedule(toWrite: nat) returns (chunks: seq<nat>, commits: seq<nat>)
    ensures chunks == Chunks(toWrite)
    ensures |commits| == |chunks|
    ensures forall i :: 0 <= i < |chunks| ==> commits[i] == MultiplesBelow(toWrite, chunks[i])
  {
    chunks, commits := [], [];
    var commitEvery: nat := toWrite;
    while commitEvery >= 1
      invariant commitEvery <= toWrite
      invariant chunks + Chunks(commitEvery) == Chunks(toWrite)
      invariant forall i :: 0 <= i < |chunks| ==> chunks[i] >= 1
      invariant |commits| == |chunks|
      invariant forall i :: 0 <= i < |chunks| ==> commits[i] == MultiplesBelow(toWrite, chunks[i])
      decreases commitEvery
    {
      var c := CountCommits(toWrite, commitEvery);
      ChunksStep(chunks, commitEvery);
      chunks := chunks + [commitEvery];
      commits := commits + [c];
      commitEvery := commitEvery / 10;
    }
  }

  lemma TenThousandChunks()
    ensures Chunks(10000) == [10000, 1000, 100, 10, 1]
  {
    assert Chunks(0) == [];
    assert Chunks(1) == [1] + Chunks(0);
    assert Chunks(10) == [10] + Chunks(1);
    assert Chunks(100) == [100] + Chunks(10);
    assert Chunks(1000) == [1000] + Chunks(100);
    assert Chunks(10000) == [10000] + Chunks(1000);
  }

  /** `compareSegmentSizes` with its toWrite = 10_000: five chunk sizes, and 0, 9, 99, 999
      and 9999 commits. */
  method CompareSegmentSizes() returns (chunks: seq<nat>, commits: seq<nat>)
    ensures chunks == [10000, 1000, 100, 10, 1]
    ensures commits == [0, 9, 99, 999, 9999]
  {
    chunks, commits := CommitSchedule(10000);
    TenThousandChunks();
  }
}
