/**
 The prefix bisect of the merge train: a binary search for the boundary between a passing and a failing prefix,
 over a validation command that may be flaky.
 */
module Bisect {
  import opened Wrappers
  import opened History

  /** `exit(n, c)`: does the n-th validation of the process, run on commit `c`, exit 0?  The run number lets the
      same commit pass once and fail once. */
  type Validation = (nat, Commit) -> bool

  /** The search state machine: `best` is the failing index found last, `runs` the number of validations so far. */
  function Search(exit: Validation, staged: seq<Commit>, low: nat, high: nat, best: Option<nat>, runs: nat)
    : (Option<nat>, nat)
    requires 1 <= low <= high + 1 && high <= |staged|
    decreases high + 1 - low
  {
    if low > high then (best, runs)
    else
      var mid := (low + high) / 2;
      if exit(runs, staged[mid - 1])
      then Search(exit, staged, mid + 1, high, best, runs + 1)
      else Search(exit, staged, low, mid - 1, Some(mid), runs + 1)
  }

  function Find(exit: Validation, staged: seq<Commit>, runs: nat): (Option<nat>, nat) {
    Search(exit, staged, 1, |staged|, None, runs)
  }

  /** The loop of `bisect`, kept in the source's shape. */
  method Locate(exit: Validation, staged: seq<Commit>, runs: nat) returns (culprit: Option<nat>, total: nat)
    ensures (culprit, total) == Find(exit, staged, runs)
  {
    var low, high: int := 1, |staged|;
    culprit, total := None, runs;
    while low <= high
      invariant 1 <= low <= high + 1 && high <= |staged|
      invariant Find(exit, staged, runs) == Search(exit, staged, low, high, culprit, total)
    {
      var mid := (low + high) / 2;
      var passed := exit(total, staged[mid - 1]);
      total := total + 1;
      if !passed {
        culprit := Some(mid);
        high := mid - 1;
      } else {
        low := mid + 1;
      }
    }
  }

  // ---- What the search finds ---------------------------------------------------------------------------------

  ghost predicate Passed(exit: Validation, c: Commit, from: nat, to: nat) {
    exists r: nat :: from <= r < to && exit(r, c)
  }

  ghost predicate Failed(exit: Validation, c: Commit, from: nat, to: nat) {
    exists r: nat :: from <= r < to && !exit(r, c)
  }

  /** What is known about the window (low, high) half-way through a search that began at run `from`. */
  ghost predicate Bracketed(exit: Validation, staged: seq<Commit>, low: nat, high: nat, best: Option<nat>, from: nat, runs: nat)
    requires 1 <= low <= high + 1 && high <= |staged|
  {
    && from <= runs
    && (low > 1 ==> Passed(exit, staged[low - 2], from, runs))
    && match best
       case None => high == |staged|
       case Some(k) => k == high + 1 <= |staged| && Failed(exit, staged[k - 1], from, runs)
  }

  ghost predicate AtBoundary(exit: Validation, staged: seq<Commit>, found: Option<nat>, from: nat, to: nat) {
    match found
    case None => staged == [] || Passed(exit, staged[|staged| - 1], from, to)
    case Some(k) =>
      && 1 <= k <= |staged|
      && Failed(exit, staged[k - 1], from, to)
      && (k == 1 || Passed(exit, staged[k - 2], from, to))
  }

  lemma {:induction false} SearchBrackets(exit: Validation, staged: seq<Commit>, low: nat, high: nat, best: Option<nat>, from: nat, runs: nat)
    requires 1 <= low <= high + 1 && high <= |staged|
    requires Bracketed(exit, staged, low, high, best, from, runs)
    ensures var (found, total) := Search(exit, staged, low, high, best, runs);
            AtBoundary(exit, staged, found, from, total)
    decreases high + 1 - low
  {
    if low <= high {
      var mid := (low + high) / 2;
      if exit(runs, staged[mid - 1]) {
        assert Passed(exit, staged[mid - 1], from, runs + 1);
        SearchBrackets(exit, staged, mid + 1, high, best, from, runs + 1);
      } else {
        assert Failed(exit, staged[mid - 1], from, runs + 1);
        SearchBrackets(exit, staged, low, mid - 1, Some(mid), from, runs + 1);
      }
    }
  }

  /** Nothing assumed about the validation: the index returned failed, the prefix before it passed (or there is
      none), and `None` means the whole batch passed during this very search. */
  lemma Boundary(exit: Validation, staged: seq<Commit>, runs: nat)
    ensures var (found, total) := Find(exit, staged, runs);
            AtBoundary(exit, staged, found, runs, total)
  {
    SearchBrackets(exit, staged, 1, |staged|, None, runs, runs);
  }

  /** The indices that a search of low..high aiming at `f` tries: it goes up from below `f` and down from `f` on. */
  function Visits(low: nat, high: nat, f: nat): (tried: set<nat>)
    requires 1 <= low <= high + 1
    ensures forall i :: i in tried ==> low <= i <= high
    decreases high + 1 - low
  {
    if low > high then {}
    else
      var mid := (low + high) / 2;
      {mid} + if mid < f then Visits(mid + 1, high, f) else Visits(low, mid - 1, f)
  }

  /** The validation gives each prefix the same verdict on every run. */
  ghost predicate Repeatable(exit: Validation, staged: seq<Commit>) {
    forall r: nat, r': nat, i :: 0 <= i < |staged| ==> exit(r, staged[i]) == exit(r', staged[i])
  }

  ghost predicate SmallestFailing(exit: Validation, staged: seq<Commit>, f: nat) {
    && 1 <= f <= |staged| && !exit(0, staged[f - 1])
    && forall i :: 0 <= i < f - 1 ==> exit(0, staged[i])
  }

  /** Every index from `f` on that a search of low..high aiming at `f` tries is a failing one. */
  ghost predicate FailsWhereTried(exit: Validation, staged: seq<Commit>, low: nat, high: nat, f: nat)
    requires 1 <= low <= high + 1 && high <= |staged|
  {
    forall i :: i in Visits(low, high, f) && f <= i ==> !exit(0, staged[i - 1])
  }

  /** A search returns an index of its window or what it had found before. */
  lemma {:induction false} SearchStays(exit: Validation, staged: seq<Commit>, low: nat, high: nat, best: Option<nat>, runs: nat)
    requires 1 <= low <= high + 1 && high <= |staged|
    ensures var found := Search(exit, staged, low, high, best, runs).0;
            found == best || (found.Some? && low <= found.value <= high)
    decreases high + 1 - low
  {
    if low <= high {
      var mid := (low + high) / 2;
      if exit(runs, staged[mid - 1]) {
        SearchStays(exit, staged, mid + 1, high, best, runs + 1);
      } else {
        SearchStays(exit, staged, low, mid - 1, Some(mid), runs + 1);
      }
    }
  }

  lemma TriedStep(exit: Validation, staged: seq<Commit>, low: nat, high: nat, f: nat)
    requires 1 <= low <= high <= |staged|
    ensures var mid := (low + high) / 2;
            FailsWhereTried(exit, staged, low, high, f) <==>
              if mid < f then FailsWhereTried(exit, staged, mid + 1, high, f)
              else !exit(0, staged[mid - 1]) && FailsWhereTried(exit, staged, low, mid - 1, f)
  {
    var mid := (low + high) / 2;
    var rest := if mid < f then Visits(mid + 1, high, f) else Visits(low, mid - 1, f);
    assert Visits(low, high, f) == {mid} + rest;
  }

  lemma Verdict(exit: Validation, staged: seq<Commit>, f: nat, mid: nat, runs: nat)
    requires Repeatable(exit, staged) && SmallestFailing(exit, staged, f) && 1 <= mid <= |staged|
    ensures exit(runs, staged[mid - 1]) == exit(0, staged[mid - 1])
    ensures mid < f ==> exit(runs, staged[mid - 1])
    ensures mid == f ==> !exit(runs, staged[mid - 1])
  {
  }

  lemma {:induction false} SearchFindsIff(exit: Validation, staged: seq<Commit>, low: nat, high: nat, best: Option<nat>, runs: nat, f: nat)
    requires 1 <= low <= high + 1 && high <= |staged| && low <= f <= high + 1
    requires Repeatable(exit, staged) && SmallestFailing(exit, staged, f)
    requires (best.Some? ==> best.value == high + 1) && (f == high + 1 ==> best == Some(f))
    ensures Search(exit, staged, low, high, best, runs).0 == Some(f) <==> FailsWhereTried(exit, staged, low, high, f)
    decreases high + 1 - low
  {
    if low <= high {
      var mid := (low + high) / 2;
      Verdict(exit, staged, f, mid, runs);
      TriedStep(exit, staged, low, high, f);
      if mid < f {
        SearchFindsIff(exit, staged, mid + 1, high, best, runs + 1, f);
      } else if exit(runs, staged[mid - 1]) {
        SearchStays(exit, staged, mid + 1, high, best, runs + 1);
      } else {
        SearchFindsIff(exit, staged, low, mid - 1, Some(mid), runs + 1, f);
      }
    }
  }

  /** With a repeatable validation, `bisect` returns the smallest failing prefix exactly when every longer prefix that a
      search aiming at it tries fails as well. */
  lemma FindsSmallestIff(exit: Validation, staged: seq<Commit>, runs: nat, f: nat)
    requires Repeatable(exit, staged) && SmallestFailing(exit, staged, f)
    ensures Find(exit, staged, runs).0 == Some(f) <==> FailsWhereTried(exit, staged, 1, |staged|, f)
  {
    SearchFindsIff(exit, staged, 1, |staged|, None, runs, f);
  }

  /** Once a prefix fails, every longer prefix fails, on every run. */
  ghost predicate Monotone(exit: Validation, staged: seq<Commit>) {
    forall r: nat, r': nat, i, j :: 0 <= i <= j < |staged| && !exit(r, staged[i]) ==> !exit(r', staged[j])
  }

  /** In particular with monotone failures, of which there is a smallest one to find, and then nothing else is found. */
  lemma FirstFailure(exit: Validation, staged: seq<Commit>, runs: nat, k: nat)
    requires Monotone(exit, staged)
    ensures Find(exit, staged, runs).0 == Some(k) <==> SmallestFailing(exit, staged, k)
  {
    if SmallestFailing(exit, staged, k) {
      FindsSmallestIff(exit, staged, runs, k);
    }
    Boundary(exit, staged, runs);
  }

  /** Without that, the search can step over an earlier failure: three commits, of which only the second passes. */
  lemma StepsOverEarlierFailure()
    ensures exists exit: Validation, staged: seq<Commit> ::
      |staged| == 3 && !exit(0, staged[0]) && !Monotone(exit, staged) && Find(exit, staged, 0).0 == Some(3)
  {
    var exit: Validation := (r, c) => |c| == 2;
    var staged: seq<Commit> := [[Local(1)], [Local(1), Local(2)], [Local(1), Local(2), Local(3)]];
    assert Search(exit, staged, 3, 3, None, 1).0 == Some(3);
    assert Find(exit, staged, 0).0 == Some(3);
    assert !exit(0, staged[0]) && exit(0, staged[1]);
  }

  // ---- What the search costs ---------------------------------------------------------------------------------

  /** floor(log2 n) + 1, and 0 for n = 0. */
  function BitLength(n: nat): nat {
    if n == 0 then 0 else 1 + BitLength(n / 2)
  }

  function Power2(e: nat): (p: nat)
    ensures p >= 1
  {
    if e == 0 then 1 else 2 * Power2(e - 1)
  }

  lemma {:induction false} BitLengthIsLog(n: nat)
    requires n > 0
    ensures Power2(BitLength(n) - 1) <= n < Power2(BitLength(n))
  {
    if n > 1 {
      BitLengthIsLog(n / 2);
    }
  }

  lemma {:induction false} BitLengthMonotone(m: nat, n: nat)
    requires m <= n
    ensures BitLength(m) <= BitLength(n)
  {
    if m > 0 {
      BitLengthMonotone(m / 2, n / 2);
    }
  }

  lemma {:induction false} SearchCost(exit: Validation, staged: seq<Commit>, low: nat, high: nat, best: Option<nat>, runs: nat)
    requires 1 <= low <= high + 1 && high <= |staged|
    ensures runs <= Search(exit, staged, low, high, best, runs).1 <= runs + BitLength(high + 1 - low)
    ensures (forall r: nat, c :: exit(r, c)) ==> Search(exit, staged, low, high, best, runs).1 == runs + BitLength(high + 1 - low)
    decreases high + 1 - low
  {
    if low <= high {
      var mid, w := (low + high) / 2, high + 1 - low;
      assert high - mid == w / 2;
      if exit(runs, staged[mid - 1]) {
        SearchCost(exit, staged, mid + 1, high, best, runs + 1);
      } else {
        SearchCost(exit, staged, low, mid - 1, Some(mid), runs + 1);
        BitLengthMonotone(mid - low, w / 2);
      }
    }
  }

  /** At most floor(log2 n) + 1 validations, and an all-green chain really costs that many. */
  lemma Cost(exit: Validation, staged: seq<Commit>, runs: nat)
    ensures runs <= Find(exit, staged, runs).1 <= runs + BitLength(|staged|)
    ensures (forall r: nat, c :: exit(r, c)) ==> Find(exit, staged, runs).1 == runs + BitLength(|staged|)
  {
    SearchCost(exit, staged, 1, |staged|, None, runs);
  }

  /** The least e with 2^e >= n. */
  ghost predicate CeilLog2(n: nat, e: nat) {
    n <= Power2(e) && (e > 0 ==> Power2(e - 1) < n)
  }

  ghost predicate WithinDocumentedBound(n: nat, e: nat) {
    forall exit: Validation, staged: seq<Commit> | |staged| == n :: Find(exit, staged, 0).1 <= e
  }

  /** An always passing validation takes the search through all of floor(log2 n) + 1 runs. */
  lemma CostIsAttained(n: nat, e: nat)
    requires e < BitLength(n)
    ensures !WithinDocumentedBound(n, e)
  {
    var exit: Validation := (r, c) => true;
    var staged := seq(n, _ => []);
    Cost(exit, staged, 0);
    assert Find(exit, staged, 0).1 == BitLength(n);
  }

  lemma CostIsBounded(n: nat, e: nat)
    requires BitLength(n) <= e
    ensures WithinDocumentedBound(n, e)
  {
    forall exit: Validation, staged: seq<Commit> | |staged| == n
      ensures Find(exit, staged, 0).1 <= e
    {
      Cost(exit, staged, 0);
    }
  }

  /** The documentation promises at most ceil(log2 n) validations.  That holds for a chain of n commits, whatever the
      validation does, exactly when n is not a power of two. */
  lemma DocumentedBound(n: nat, e: nat)
    requires n > 0 && CeilLog2(n, e)
    ensures WithinDocumentedBound(n, e) <==> n != Power2(e)
  {
    var b := BitLength(n);
    BitLengthIsLog(n);
    if n == Power2(e) {
      Power2Monotone(b, e);
      CostIsAttained(n, e);
    } else {
      Power2Monotone(e, b - 1);
      CostIsBounded(n, e);
    }
  }

  lemma {:induction false} Power2Monotone(a: nat, b: nat)
    ensures a <= b ==> Power2(a) <= Power2(b)
    ensures a < b ==> Power2(a) < Power2(b)
  {
    if 0 < b && a < b {
      Power2Monotone(a, b - 1);
    }
  }
}
