/**
  * The bookkeeping of `processAllChunks` in parallel-scraper.js, stated as
  * functions of the number of chunks, the concurrency limit and the order in
  * which running chunks settle. A chunk's promise is identified with the
  * chunk's index; `activePromises` is `active`, the list of values collected
  * so far is `results`.
  *
  * `Promise.race` is an oracle: the `k`-th race is won by the entry at
  * position `winners[k] % |active|` of the window (by the first entry once
  * the oracle runs out).
  */
module Scheduler {

  datatype Window = Window(active: seq<nat>, results: seq<nat>, races: nat)

  function Min(a: int, b: int): int {
    if a <= b then a else b
  }

  /** The chunk indices `0, 1, ..., n - 1`. */
  function Range(n: nat): (r: seq<nat>)
    ensures |r| == n && forall k :: 0 <= k < n ==> r[k] == k
  {
    seq(n, k requires 0 <= k < n => k)
  }

  predicate StrictlyAscending(s: seq<nat>) {
    forall j, k :: 0 <= j < k < |s| ==> s[j] < s[k]
  }

  /**
    * `array.splice(start, 1)`: a negative `start` counts from the end (and is
    * clamped at 0), a `start` past the end removes nothing.
    */
  function SpliceOne(s: seq<nat>, start: int): seq<nat> {
    var k := if start < 0 then (if |s| + start < 0 then 0 else |s| + start) else start;
    if k < |s| then s[..k] + s[k + 1..] else s
  }

  /** `splice(-1, 1)` drops the last entry. */
  lemma SpliceMinusOneDropsLast(s: seq<nat>)
    requires |s| > 0
    ensures SpliceOne(s, -1) == s[..|s| - 1]
  {
  }

  /** `splice(j, 1)` at a position of the list removes that entry and keeps the order of the rest. */
  lemma SpliceAtPosition(s: seq<nat>, j: nat)
    requires j < |s|
    ensures SpliceOne(s, j) == s[..j] + s[j + 1..]
    ensures multiset(SpliceOne(s, j)) + multiset{s[j]} == multiset(s)
  {
    assert s == s[..j] + [s[j]] + s[j + 1..];
  }

  /** The position in a window of `size` entries of the entry that wins race number `races`. */
  function WinnerPosition(size: nat, winners: seq<nat>, races: nat): (j: nat)
    requires size > 0
    ensures j < size
  {
    if races < |winners| then winners[races] % size else 0
  }

  /**
    * One turn of the `for` loop, as written: when the window is full, the
    * race winner's value is recorded, but the entry removed is found with
    * `findIndex(p => p === result)`, which compares promises with a settled
    * value and so is -1; `splice(-1, 1)` then drops the LAST entry. Chunk `i`
    * is pushed afterwards.
    */
  function AdmitAsWritten(win: Window, i: nat, maxConcurrent: nat, winners: seq<nat>): Window
    requires maxConcurrent >= 1
  {
    if |win.active| >= maxConcurrent then
      var winner := win.active[WinnerPosition(|win.active|, winners, win.races)];
      Window(SpliceOne(win.active, -1) + [i], win.results + [winner], win.races + 1)
    else
      Window(win.active + [i], win.results, win.races)
  }

  /** The window after the first `i` turns of the loop, as written. */
  function WindowAsWritten(i: nat, maxConcurrent: nat, winners: seq<nat>): Window
    requires maxConcurrent >= 1
  {
    if i == 0 then Window([], [], 0)
    else AdmitAsWritten(WindowAsWritten(i - 1, maxConcurrent, winners), i - 1, maxConcurrent, winners)
  }

  /** `processAllChunks`'s return value as written: the race winners, then `Promise.all` of what is left. */
  function ScheduleAsWritten(n: nat, maxConcurrent: nat, winners: seq<nat>): seq<nat>
    requires maxConcurrent >= 1
  {
    var win := WindowAsWritten(n, maxConcurrent, winners);
    win.results + win.active
  }

  /**
    * The shape of the window as written after `i` turns: it holds
    * `min(i, maxConcurrent)` entries, the chunks `0 .. maxConcurrent - 2`
    * that were admitted first stay in it forever, the last entry is the chunk
    * admitted last, and one value was recorded per race.
    */
  lemma {:induction false} WindowAsWrittenShape(i: nat, maxConcurrent: nat, winners: seq<nat>)
    requires maxConcurrent >= 1
    ensures var win := WindowAsWritten(i, maxConcurrent, winners);
            && |win.active| == Min(i, maxConcurrent)
            && (forall k :: 0 <= k < |win.active| - 1 ==> win.active[k] == k)
            && (i > 0 ==> win.active[|win.active| - 1] == i - 1)
            && StrictlyAscending(win.active)
            && |win.results| == win.races == i - |win.active|
            && (forall k :: 0 <= k < |win.results| ==> win.results[k] < i)
  {
    if i > 0 {
      WindowAsWrittenShape(i - 1, maxConcurrent, winners);
      var prev := WindowAsWritten(i - 1, maxConcurrent, winners);
      if |prev.active| >= maxConcurrent {
        SpliceMinusOneDropsLast(prev.active);
      }
    }
  }

  /** As written, the list returned holds one value per chunk. */
  lemma ScheduleAsWrittenLength(n: nat, maxConcurrent: nat, winners: seq<nat>)
    requires maxConcurrent >= 1
    ensures |ScheduleAsWritten(n, maxConcurrent, winners)| == n
  {
    WindowAsWrittenShape(n, maxConcurrent, winners);
  }

  /** As written, every value returned is the value of some chunk. */
  lemma ScheduleAsWrittenIndices(n: nat, maxConcurrent: nat, winners: seq<nat>)
    requires maxConcurrent >= 1
    ensures forall k :: 0 <= k < |ScheduleAsWritten(n, maxConcurrent, winners)| ==>
              ScheduleAsWritten(n, maxConcurrent, winners)[k] < n
  {
    WindowAsWrittenShape(n, maxConcurrent, winners);
  }

  /**
    * Three chunks, at most two at a time, the first chunk settling first:
    * chunk 0's value is recorded twice and chunk 1's never, because the
    * splice removed chunk 1's promise instead of chunk 0's.
    */
  lemma ScheduleAsWrittenLosesChunk()
    ensures ScheduleAsWritten(3, 2, []) == [0, 0, 2]
    ensures 1 !in ScheduleAsWritten(3, 2, [])
  {
    var w1 := AdmitAsWritten(Window([], [], 0), 0, 2, []);
    assert w1 == Window([0], [], 0);
    var w2 := AdmitAsWritten(w1, 1, 2, []);
    assert w2 == Window([0, 1], [], 0);
    SpliceMinusOneDropsLast([0, 1]);
    var w3 := AdmitAsWritten(w2, 2, 2, []);
    assert w3 == Window([0, 2], [0], 1);
    assert WindowAsWritten(3, 2, []) == w3;
  }

  /**
    * One turn of the loop as evidently intended: the entry removed is the
    * race winner's own.
    */
  function AdmitFixed(win: Window, i: nat, maxConcurrent: nat, winners: seq<nat>): Window
    requires maxConcurrent >= 1
  {
    if |win.active| >= maxConcurrent then
      var j := WinnerPosition(|win.active|, winners, win.races);
      Window(SpliceOne(win.active, j) + [i], win.results + [win.active[j]], win.races + 1)
    else
      Window(win.active + [i], win.results, win.races)
  }

  /** The window after the first `i` turns of the corrected loop. */
  function WindowFixed(i: nat, maxConcurrent: nat, winners: seq<nat>): Window
    requires maxConcurrent >= 1
  {
    if i == 0 then Window([], [], 0)
    else AdmitFixed(WindowFixed(i - 1, maxConcurrent, winners), i - 1, maxConcurrent, winners)
  }

  /**
    * With the winner's own entry removed, the window still holds
    * `min(i, maxConcurrent)` entries, and every chunk admitted so far is
    * either still running or recorded, exactly once.
    */
  lemma {:induction false} WindowFixedShape(i: nat, maxConcurrent: nat, winners: seq<nat>)
    requires maxConcurrent >= 1
    ensures Shaped(WindowFixed(i, maxConcurrent, winners), i, maxConcurrent)
  {
    if i == 0 {
      assert WindowFixed(0, maxConcurrent, winners) == Window([], [], 0);
      assert Admitted(0) == multiset{};
    } else {
      WindowFixedShape(i - 1, maxConcurrent, winners);
      WindowFixedStep(i, maxConcurrent, winners);
    }
  }

  /** One corrected turn keeps the window shaped. */
  lemma WindowFixedStep(i: nat, maxConcurrent: nat, winners: seq<nat>)
    requires maxConcurrent >= 1 && i >= 1
    requires Shaped(WindowFixed(i - 1, maxConcurrent, winners), i - 1, maxConcurrent)
    ensures Shaped(WindowFixed(i, maxConcurrent, winners), i, maxConcurrent)
  {
    var prev := WindowFixed(i - 1, maxConcurrent, winners);
    AdmitFixedShape(prev, i - 1, maxConcurrent, winners);
    ShapedAfter(prev, WindowFixed(i, maxConcurrent, winners), i, maxConcurrent, winners);
  }

  /** Hands the shape of one corrected turn over to the window it produced. */
  lemma ShapedAfter(prev: Window, next: Window, i: nat, maxConcurrent: nat, winners: seq<nat>)
    requires maxConcurrent >= 1 && i >= 1
    requires next == AdmitFixed(prev, i - 1, maxConcurrent, winners)
    requires Shaped(AdmitFixed(prev, i - 1, maxConcurrent, winners), i, maxConcurrent)
    ensures Shaped(next, i, maxConcurrent)
  {
  }

  function ScheduleFixed(n: nat, maxConcurrent: nat, winners: seq<nat>): seq<nat>
    requires maxConcurrent >= 1
  {
    var win := WindowFixed(n, maxConcurrent, winners);
    win.results + win.active
  }

  /** The window after `i` admissions: its size, its race count, and every chunk once. */
  predicate Shaped(win: Window, i: nat, maxConcurrent: nat) {
    && |win.active| == Min(i, maxConcurrent)
    && |win.results| == win.races == i - |win.active|
    && multiset(win.results) + multiset(win.active) == Admitted(i)
  }

  /** The chunks `0 .. i - 1`, each once. */
  function Admitted(i: nat): multiset<nat> {
    if i == 0 then multiset{} else Admitted(i - 1) + multiset{(i - 1) as nat}
  }

  lemma {:induction false} AdmittedRange(i: nat)
    ensures Admitted(i) == multiset(Range(i))
  {
    if i > 0 {
      AdmittedRange(i - 1);
      assert Range(i) == Range(i - 1) + [i - 1];
    }
  }

  lemma AdmitFixedShape(prev: Window, i: nat, maxConcurrent: nat, winners: seq<nat>)
    requires maxConcurrent >= 1 && Shaped(prev, i, maxConcurrent)
    ensures Shaped(AdmitFixed(prev, i, maxConcurrent, winners), i + 1, maxConcurrent)
  {
    AdmitFixedKeeps(prev, i, maxConcurrent, winners);
  }

  /** One corrected turn moves at most one entry from the window to the results and adds chunk `i`. */
  lemma AdmitFixedKeeps(win: Window, i: nat, maxConcurrent: nat, winners: seq<nat>)
    requires maxConcurrent >= 1
    ensures var next := AdmitFixed(win, i, maxConcurrent, winners);
            && |next.active| == (if |win.active| >= maxConcurrent then |win.active| else |win.active| + 1)
            && |next.results| == |win.results| + (if |win.active| >= maxConcurrent then 1 else 0)
            && next.races == win.races + (if |win.active| >= maxConcurrent then 1 else 0)
            && multiset(next.results) + multiset(next.active) == multiset(win.results) + multiset(win.active) + multiset{i}
  {
    if |win.active| >= maxConcurrent {
      var j := WinnerPosition(|win.active|, winners, win.races);
      SpliceAtPosition(win.active, j);
    }
  }

  /** Corrected, `processAllChunks` returns every chunk's value exactly once. */
  lemma ScheduleFixedIsPermutation(n: nat, maxConcurrent: nat, winners: seq<nat>)
    requires maxConcurrent >= 1
    ensures multiset(ScheduleFixed(n, maxConcurrent, winners)) == multiset(Range(n))
    ensures |ScheduleFixed(n, maxConcurrent, winners)| == n
  {
    WindowFixedShape(n, maxConcurrent, winners);
    AdmittedRange(n);
    var win := WindowFixed(n, maxConcurrent, winners);
    assert multiset(win.results + win.active) == multiset(win.results) + multiset(win.active);
  }

  /** When the winner happens to be the last entry, the code as written and the corrected code agree. */
  lemma AdmitAgreesWhenLastWins(win: Window, i: nat, maxConcurrent: nat, winners: seq<nat>)
    requires maxConcurrent >= 1
    requires |win.active| >= maxConcurrent ==>
               WinnerPosition(|win.active|, winners, win.races) == |win.active| - 1
    ensures AdmitAsWritten(win, i, maxConcurrent, winners) == AdmitFixed(win, i, maxConcurrent, winners)
  {
    if |win.active| >= maxConcurrent {
      SpliceMinusOneDropsLast(win.active);
      SpliceAtPosition(win.active, |win.active| - 1);
    }
  }

  /** How many of the chunk values in `results` are successes, when chunk `c` succeeded iff `ok[c]`. */
  function CountSucceeded(results: seq<nat>, ok: seq<bool>): nat
    requires forall k :: 0 <= k < |results| ==> results[k] < |ok|
  {
    if |results| == 0 then 0
    else (if ok[results[0]] then 1 else 0) + CountSucceeded(results[1..], ok)
  }

  /** How many of the chunk values in `results` are failures. */
  function CountFailed(results: seq<nat>, ok: seq<bool>): nat
    requires forall k :: 0 <= k < |results| ==> results[k] < |ok|
  {
    if |results| == 0 then 0
    else (if ok[results[0]] then 0 else 1) + CountFailed(results[1..], ok)
  }

  /** `filter(r => r.success)` and `filter(r => !r.success)` split the results between them. */
  lemma {:induction false} CountsPartition(results: seq<nat>, ok: seq<bool>)
    requires forall k :: 0 <= k < |results| ==> results[k] < |ok|
    ensures CountSucceeded(results, ok) + CountFailed(results, ok) == |results|
  {
    if |results| > 0 {
      CountsPartition(results[1..], ok);
    }
  }

  lemma {:induction false} CountSucceededConcat(a: seq<nat>, b: seq<nat>, ok: seq<bool>)
    requires forall k :: 0 <= k < |a| ==> a[k] < |ok|
    requires forall k :: 0 <= k < |b| ==> b[k] < |ok|
    ensures CountSucceeded(a + b, ok) == CountSucceeded(a, ok) + CountSucceeded(b, ok)
  {
    if |a| > 0 {
      assert (a + b)[1..] == a[1..] + b;
      CountSucceededConcat(a[1..], b, ok);
    } else {
      assert a + b == b;
    }
  }

  /** The success count depends only on which values were collected, not on their order. */
  lemma {:induction false} CountSucceededPermutation(a: seq<nat>, b: seq<nat>, ok: seq<bool>)
    requires multiset(a) == multiset(b)
    requires forall k :: 0 <= k < |a| ==> a[k] < |ok|
    ensures forall k :: 0 <= k < |b| ==> b[k] < |ok|
    ensures CountSucceeded(a, ok) == CountSucceeded(b, ok)
    decreases |a|
  {
    forall k | 0 <= k < |b|
      ensures b[k] < |ok|
    {
      assert b[k] in multiset(a);
    }
    if |a| > 0 {
      var x := a[0];
      assert x in multiset(b);
      var j :| 0 <= j < |b| && b[j] == x;
      var rest := b[..j] + b[j + 1..];
      assert multiset(a[1..]) == multiset(rest) by {
        RemoveFromBoth(a, b, j);
      }
      CountSucceededPermutation(a[1..], rest, ok);
      CountSucceededRemoveAt(b, j, ok);
      assert CountSucceeded(a, ok) == CountSucceeded([x], ok) + CountSucceeded(a[1..], ok) by {
        CountSucceededConcat([x], a[1..], ok);
        assert a == [x] + a[1..];
      }
    }
  }

  /** Taking the first value of `a` and an equal value of `b` out of two equal multisets leaves equal multisets. */
  lemma RemoveFromBoth(a: seq<nat>, b: seq<nat>, j: nat)
    requires multiset(a) == multiset(b) && |a| > 0 && j < |b| && b[j] == a[0]
    ensures multiset(a[1..]) == multiset(b[..j] + b[j + 1..])
  {
    var x, rest := a[0], b[..j] + b[j + 1..];
    assert b == b[..j] + ([x] + b[j + 1..]);
    assert multiset(b) == multiset(b[..j]) + multiset{x} + multiset(b[j + 1..]);
    assert multiset(a) == multiset{x} + multiset(a[1..]) by {
      assert a == [x] + a[1..];
    }
    assert multiset(rest) == multiset(b[..j]) + multiset(b[j + 1..]);
    forall y
      ensures multiset(a[1..])[y] == multiset(rest)[y]
    {
      assert multiset(a)[y] == multiset(b)[y];
    }
  }

  /** The count of `b` is the count of its value at `j` plus the count of the rest. */
  lemma CountSucceededRemoveAt(b: seq<nat>, j: nat, ok: seq<bool>)
    requires j < |b| && forall k :: 0 <= k < |b| ==> b[k] < |ok|
    ensures CountSucceeded(b, ok) == CountSucceeded([b[j]], ok) + CountSucceeded(b[..j] + b[j + 1..], ok)
  {
    assert b == b[..j] + ([b[j]] + b[j + 1..]);
    CountSucceededConcat(b[..j], [b[j]] + b[j + 1..], ok);
    CountSucceededConcat([b[j]], b[j + 1..], ok);
    CountSucceededConcat(b[..j], b[j + 1..], ok);
  }

  /**
    * Corrected, `main`'s "successful" tally is the number of chunks whose
    * worker succeeded, which is what `progress.completed` counts.
    */
  lemma FixedTallyCountsEveryChunk(n: nat, maxConcurrent: nat, winners: seq<nat>, ok: seq<bool>)
    requires maxConcurrent >= 1 && |ok| == n
    ensures |ScheduleFixed(n, maxConcurrent, winners)| == n
    ensures forall k :: 0 <= k < n ==> ScheduleFixed(n, maxConcurrent, winners)[k] < n
    ensures CountSucceeded(ScheduleFixed(n, maxConcurrent, winners), ok) == CountSucceeded(Range(n), ok)
  {
    ScheduleFixedIsPermutation(n, maxConcurrent, winners);
    var s := ScheduleFixed(n, maxConcurrent, winners);
    forall k | 0 <= k < n
      ensures s[k] < n
    {
      assert s[k] in multiset(Range(n));
    }
    CountSucceededPermutation(Range(n), ScheduleFixed(n, maxConcurrent, winners), ok);
  }

  /**
    * As written, the tallies can disagree with the workers: when chunk 0
    * succeeds and chunk 1 fails, three successes and no failure are reported,
    * although one worker failed.
    */
  lemma AsWrittenTallyDisagrees()
    ensures CountSucceeded(ScheduleAsWritten(3, 2, []), [true, false, true]) == 3
    ensures CountSucceeded(Range(3), [true, false, true]) == 2
  {
    ScheduleAsWrittenLosesChunk();
    assert Range(3) == [0, 1, 2];
  }
}
