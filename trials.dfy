/** Repeating a measurement until enough trials and enough time have passed, reducing the
    trial times to their minimum, and flagging a large gap between the two analysers.

    The wall clock is an input: `clock[i]` is what `System.currentTimeMillis()` returns when
    iteration i of the trial loop begins, and `measures[i]` is what the i-th `measure` call
    returns. Times are naturals rather than doubles. */
module Trials {

  // ---------------------------------------------------------------------------
  // The stopping rule

  /** Java's `/` on `long`, which truncates toward zero. */
  function JavaDiv(a: int, b: int): (q: int)
    requires b > 0
    ensures a >= 0 ==> 0 <= a - q * b < b
    ensures a < 0 ==> -b < a - q * b <= 0
  {
    if a >= 0 then a / b else -((-a) / b)
  }

  /** The test at the top of iteration i when the clock reads `now`:
      `i > 5 && (now - start) / 1000 > 30`. */
  predicate Stops(i: nat, start: int, now: int): (stops: bool)
    ensures stops ==> i >= 6 && now - start >= 31000
  {
    i > 5 && JavaDiv(now - start, 1000) > 30
  }

  /** More than 30 whole seconds means at least 31000 ms; a clock that went backwards
      never stops the loop. */
  lemma StopsIff(i: nat, start: int, now: int)
    ensures Stops(i, start, now) <==> i > 5 && now - start >= 31000
  {
  }

  /** The first iteration, from j on, at which the loop stops; |clock| if it does not
      stop within the readings. */
  function FirstStop(start: int, clock: seq<int>, j: nat): (t: nat)
    requires j <= |clock|
    ensures j <= t <= |clock|
    ensures t < |clock| ==> Stops(t, start, clock[t])
    ensures forall k :: j <= k < t ==> !Stops(k, start, clock[k])
    decreases |clock| - j
  {
    if j == |clock| || Stops(j, start, clock[j]) then j else FirstStop(start, clock, j + 1)
  }

  // ---------------------------------------------------------------------------
  // getMin

  /** The least element of a non-empty sequence. */
  function Min(s: seq<nat>): (m: nat)
    requires |s| > 0
    ensures m in s
    ensures forall x :: x in s ==> m <= x
  {
    if |s| == 1 then s[0]
    else
      var r := Min(s[1..]);
      assert forall x :: x in s ==> x == s[0] || x in s[1..];
      if s[0] <= r then s[0] else r
  }

  /** The pass that finds the index of a least element. */
  method LeastIndex(a: array<nat>) returns (best: nat)
    requires a.Length > 0
    ensures best < a.Length
    ensures forall i :: 0 <= i < a.Length ==> a[best] <= a[i]
  {
    best := 0;
    var j := 1;
    while j < a.Length
      invariant 1 <= j <= a.Length
      invariant best < j
      invariant forall k :: 0 <= k < j ==> a[best] <= a[k]
    {
      if a[j] < a[best] {
        best := j;
      }
      j := j + 1;
    }
  }

  /** s with the elements at i and j exchanged. */
  function Swapped(s: seq<nat>, i: nat, j: nat): (t: seq<nat>)
    requires i < |s| && j < |s|
    ensures multiset(t) == multiset(s)
  {
    s[i := s[j]][j := s[i]]
  }

  /** Brings a least element to index 0 by one pass and one swap, permuting the array:
      the part of `Arrays.sort` that `array[0]` depends on. */
  method LeastToFront(a: array<nat>)
    requires a.Length > 0
    modifies a
    ensures multiset(a[..]) == multiset(old(a[..]))
    ensures forall i :: 0 <= i < a.Length ==> a[0] <= a[i]
  {
    var best := LeastIndex(a);
    ghost var before := a[..];
    a[0], a[best] := a[best], a[0];
    assert a[..] == Swapped(before, 0, best);
  }

  /** `getMin(values)`: copy to an array, sort, take index 0. The source fails on an empty
      list (index 0 of an empty array). */
  method GetMin(values: seq<nat>) returns (m: nat)
    requires |values| > 0
    ensures m in values
    ensures forall v :: v in values ==> m <= v
    ensures m == Min(values)
  {
    var a := new nat[|values|](i requires 0 <= i < |values| => values[i]);
    assert a[..] == values;
    LeastToFront(a);
    assert a[0] in multiset(a[..]);
    forall v | v in values
      ensures a[0] <= v
    {
      assert v in multiset(a[..]);
      var k :| 0 <= k < a.Length && a[k] == v;
    }
    m := a[0];
  }

  // ---------------------------------------------------------------------------
  // The trial loop

  /** `for (int i = 0; ; i++)`: stop at the first iteration past the fifth whose clock
      reading is more than 30 s after `start`, otherwise record one more measurement; then
      `getMin(times)`. The readings must reach such an iteration. */
  method RunTrials(start: int, clock: seq<int>, measures: seq<nat>)
    returns (times: seq<nat>, min: nat)
    requires Completes(Trial(start, clock, measures))
    ensures |times| == FirstStop(start, clock, 0)
    ensures |times| >= 6
    ensures times == measures[..|times|]
    ensures Stops(|times|, start, clock[|times|])
    ensures forall i :: 0 <= i < |times| ==> !Stops(i, start, clock[i])
    ensures min == Min(times)
  {
    ghost var stop := FirstStop(start, clock, 0);
    times := [];
    var i := 0;
    while true
      invariant i <= stop
      invariant times == measures[..i]
      decreases stop - i
    {
      var secs := JavaDiv(clock[i] - start, 1000);
      if i > 5 && secs > 30 {
        break;
      }
      times := times + [measures[i]];
      i := i + 1;
    }
    min := GetMin(times);
  }

  // ---------------------------------------------------------------------------
  // Comparing the two analysers

  datatype Verdict = NoFlag | StandardMuchFaster | KeywordMuchFaster

  /** The flag printed for the standard time `std` and the keyword time `key`. */
  function Compare(std: nat, key: nat): (flag: Verdict)
    ensures flag == StandardMuchFaster ==> std < key
    ensures flag == KeywordMuchFaster ==> key < std
  {
    if 2 * key > 3 * std then StandardMuchFaster
    else if 2 * std > 3 * key then KeywordMuchFaster
    else NoFlag
  }

  /** "standard is much faster" exactly when key > 1.5 * std, "keyword is much faster"
      exactly when std > 1.5 * key, and no flag otherwise; never both. */
  lemma CompareFlags(std: nat, key: nat)
    ensures Compare(std, key) == StandardMuchFaster <==> key as real > 1.5 * std as real
    ensures Compare(std, key) == KeywordMuchFaster <==> std as real > 1.5 * key as real
    ensures Compare(std, key) == NoFlag <==>
              key as real <= 1.5 * std as real && std as real <= 1.5 * key as real
    ensures !(key as real > 1.5 * std as real && std as real > 1.5 * key as real)
  {
  }

  /** Stable times 2.0 and 3.5 (in tenths: 20 and 35) flag the standard analyser; 2.0 and
      2.4 raise no flag; 3.5 and 2.0 flag the keyword analyser. */
  lemma CompareExamples()
    ensures Compare(20, 35) == StandardMuchFaster
    ensures Compare(20, 24) == NoFlag
    ensures Compare(35, 20) == KeywordMuchFaster
  {
  }

  /** The inputs of one analyser's trial loop. */
  datatype Trial = Trial(start: int, clock: seq<int>, measures: seq<nat>)

  /** The readings reach a stop, and there is a measurement for every trial before it. */
  predicate Completes(t: Trial) {
    FirstStop(t.start, t.clock, 0) < |t.clock| && FirstStop(t.start, t.clock, 0) <= |t.measures|
  }

  /** The minimum the trial loop reports for a completing trial. */
  function Outcome(t: Trial): (m: nat)
    requires Completes(t)
    ensures m in t.measures[..FirstStop(t.start, t.clock, 0)]
  {
    Min(t.measures[..FirstStop(t.start, t.clock, 0)])
  }

  /** What the loop over the analysers has reported after k of them. */
  ghost predicate Reported(trials: seq<Trial>, k: nat, allTimes: seq<nat>, flags: seq<Verdict>) {
    && k <= |trials|
    && (forall j :: 0 <= j < |trials| ==> Completes(trials[j]))
    && |allTimes| == k && |flags| == k
    && (forall j :: 0 <= j < k ==> allTimes[j] == Outcome(trials[j]))
    && (forall j :: 0 <= j < k ==>
          flags[j] == if j == 1 then Compare(allTimes[0], allTimes[1]) else NoFlag)
  }

  /** One analyser: run its trials, append the minimum, flag once two times exist. */
  method ReportOne(trials: seq<Trial>, k: nat, allTimes: seq<nat>, flags: seq<Verdict>)
    returns (allTimes': seq<nat>, flags': seq<Verdict>)
    requires Reported(trials, k, allTimes, flags) && k < |trials|
    ensures Reported(trials, k + 1, allTimes', flags')
  {
    var t := trials[k];
    var times, min := RunTrials(t.start, t.clock, t.measures);
    assert min == Outcome(t);
    allTimes' := allTimes + [min];
    var flag := NoFlag;
    if |allTimes'| == 2 {
      flag := Compare(allTimes'[0], allTimes'[1]);
    }
    flags' := flags + [flag];
    forall j | 0 <= j < k + 1
      ensures allTimes'[j] == Outcome(trials[j])
    {
      if j < k {
        assert allTimes'[j] == allTimes[j];
      }
    }
    forall j | 0 <= j < k + 1
      ensures flags'[j] == if j == 1 then Compare(allTimes'[0], allTimes'[1]) else NoFlag
    {
      if j < k {
        assert flags'[j] == flags[j];
        assert j == 1 ==> allTimes'[0] == allTimes[0] && allTimes'[1] == allTimes[1];
      }
    }
  }

  /** The loop over the analysers of one configuration: each one's minimum is appended to
      `allTimes`, and once it holds two the second is compared against the first. */
  method ReportAnalysers(trials: seq<Trial>) returns (allTimes: seq<nat>, flags: seq<Verdict>)
    requires forall k :: 0 <= k < |trials| ==> Completes(trials[k])
    ensures |allTimes| == |trials| && |flags| == |trials|
    ensures forall k :: 0 <= k < |trials| ==> allTimes[k] == Outcome(trials[k])
    ensures forall k :: 0 <= k < |flags| ==>
              flags[k] == if k == 1 then Compare(allTimes[0], allTimes[1]) else NoFlag
  {
    allTimes, flags := [], [];
    var k := 0;
    while k < |trials|
      invariant Reported(trials, k, allTimes, flags)
      decreases |trials| - k
    {
      allTimes, flags := ReportOne(trials, k, allTimes, flags);
      k := k + 1;
    }
  }
}
