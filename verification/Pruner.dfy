/**
 * The automatic prune throttle (internal/prune/pruner.go). Clock readings, disk usage
 * and the prune's duration are inputs of each check.
 */
module Pruner {
  import opened Common

  /** One hour, in the source's nanoseconds. */
  const HOUR: int := 3_600_000_000_000

  /** One check: when it starts, what the disk query answers (`None` on error), and when
      a prune, if this check runs one, starts and ends. */
  datatype Check = Check(start: int, usage: Option<real>, pruneStart: int, pruneEnd: int)

  predicate Above(c: Check, threshold: real) {
    c.usage.Some? && c.usage.value >= threshold
  }

  /** `last` is `None` until the first prune: the zero time is more than an hour ago. */
  predicate Prunes(last: Option<int>, threshold: real, c: Check) {
    (last.None? || c.start - last.value >= HOUR) && Above(c, threshold)
  }

  class AutoPruner {
    const thresholdPct: real
    var lastPrune: Option<int>

    constructor (triggerPct: real)
      ensures thresholdPct == triggerPct && lastPrune == None
    {
      thresholdPct := triggerPct;
      lastPrune := None;
    }

    /** Returns whether it pruned. */
    method CheckAndPrune(c: Check) returns (pruned: bool)
      modifies this
      ensures pruned == Prunes(old(lastPrune), thresholdPct, c)
      ensures pruned <==>
                && c.usage.Some? && c.usage.value >= thresholdPct
                && (old(lastPrune).None? || c.start - old(lastPrune).value >= 3_600_000_000_000)
      ensures lastPrune == if pruned then Some(c.pruneEnd) else old(lastPrune)
      ensures lastPrune == LastAfter(old(lastPrune), thresholdPct, c)
    {
      if lastPrune.Some? && c.start - lastPrune.value < HOUR {
        return false;
      }
      if c.usage.None? {
        return false;
      }
      if c.usage.value >= thresholdPct {
        lastPrune := Some(c.pruneEnd);
        return true;
      }
      return false;
    }

    /** The ticker loop over a finite number of ticks. */
    method Start(checks: seq<Check>) returns (pruned: seq<bool>)
      requires lastPrune == None
      modifies this
      ensures |pruned| == |checks|
      ensures forall i :: 0 <= i < |checks| ==> pruned[i] == PrunesAt(thresholdPct, checks, i)
      ensures lastPrune == LastBefore(thresholdPct, checks, |checks|)
      ensures forall i :: 0 <= i < |checks| ==>
                (pruned[i] <==>
                  && checks[i].usage.Some? && checks[i].usage.value >= thresholdPct
                  && forall k :: 0 <= k < i && pruned[k] && (forall q :: k < q < i ==> !pruned[q]) ==>
                       checks[i].start - checks[k].pruneEnd >= 3_600_000_000_000)
      ensures forall i :: 0 <= i < |checks| && Above(checks[i], thresholdPct) ==>
                exists k :: 0 <= k <= i && pruned[k]
    {
      pruned := [];
      for i := 0 to |checks|
        invariant |pruned| == i
        invariant forall k :: 0 <= k < i ==> pruned[k] == PrunesAt(thresholdPct, checks, k)
        invariant lastPrune == LastBefore(thresholdPct, checks, i)
      {
        var p := CheckAndPrune(checks[i]);
        pruned := pruned + [p];
      }
      forall i | 0 <= i < |checks| {
        PrunesExactly(thresholdPct, checks, pruned, i);
      }
    }
  }

  function LastAfter(last: Option<int>, threshold: real, c: Check): Option<int> {
    if Prunes(last, threshold, c) then Some(c.pruneEnd) else last
  }

  function LastBefore(threshold: real, checks: seq<Check>, n: nat): Option<int>
    requires n <= |checks|
  {
    if n == 0 then None else LastAfter(LastBefore(threshold, checks, n - 1), threshold, checks[n - 1])
  }

  predicate PrunesAt(threshold: real, checks: seq<Check>, i: nat)
    requires i < |checks|
  {
    Prunes(LastBefore(threshold, checks, i), threshold, checks[i])
  }

  /** Check `k` ran the latest prune before check `n`. */
  ghost predicate LatestPrune(threshold: real, checks: seq<Check>, k: nat, n: nat)
    requires n <= |checks|
  {
    && k < n && PrunesAt(threshold, checks, k)
    && forall q: nat :: k < q < n ==> !PrunesAt(threshold, checks, q)
  }

  lemma LatestPruneStep(threshold: real, checks: seq<Check>, k: nat, n: nat)
    requires n < |checks|
    ensures LatestPrune(threshold, checks, k, n + 1) <==>
              if PrunesAt(threshold, checks, n) then k == n else LatestPrune(threshold, checks, k, n)
  {
  }

  /** The remembered time is the end of the latest prune, if there was one. */
  lemma {:induction false} LastBeforeIsLatest(threshold: real, checks: seq<Check>, n: nat)
    requires n <= |checks|
    ensures LastBefore(threshold, checks, n).Some? ==> exists k: nat :: LatestPrune(threshold, checks, k, n)
    ensures forall k: nat :: LatestPrune(threshold, checks, k, n) ==>
              LastBefore(threshold, checks, n) == Some(checks[k].pruneEnd)
  {
    if n > 0 {
      LastBeforeIsLatest(threshold, checks, n - 1);
      forall k: nat | LatestPrune(threshold, checks, k, n)
        ensures LastBefore(threshold, checks, n) == Some(checks[k].pruneEnd)
      {
        LatestPruneStep(threshold, checks, k, n - 1);
      }
      if PrunesAt(threshold, checks, n - 1) {
        assert LatestPrune(threshold, checks, n - 1, n);
      } else if LastBefore(threshold, checks, n).Some? {
        var k: nat :| LatestPrune(threshold, checks, k, n - 1);
        LatestPruneStep(threshold, checks, k, n - 1);
        assert LatestPrune(threshold, checks, k, n);
      }
    }
  }

  /** The decisions of a run in terms of the run: a check prunes exactly when its usage is
      readable and high enough and no hour is missing since the latest prune before it ended.
      So a run with a high reading has a prune at or before it. */
  lemma PrunesExactly(threshold: real, checks: seq<Check>, pruned: seq<bool>, i: nat)
    requires i < |checks| == |pruned|
    requires forall k :: 0 <= k < |checks| ==> pruned[k] == PrunesAt(threshold, checks, k)
    ensures pruned[i] <==>
              && checks[i].usage.Some? && checks[i].usage.value >= threshold
              && forall k :: 0 <= k < i && pruned[k] && (forall q :: k < q < i ==> !pruned[q]) ==>
                   checks[i].start - checks[k].pruneEnd >= 3_600_000_000_000
    ensures checks[i].usage.Some? && checks[i].usage.value >= threshold ==> exists k :: 0 <= k <= i && pruned[k]
  {
    LastBeforeIsLatest(threshold, checks, i);
    var last := LastBefore(threshold, checks, i);
    if last.Some? {
      var k: nat :| LatestPrune(threshold, checks, k, i);
      assert pruned[k] && forall q :: k < q < i ==> !pruned[q];
    }
    forall k: nat | k < i && pruned[k] && (forall q :: k < q < i ==> !pruned[q])
      ensures last == Some(checks[k].pruneEnd)
    {
      assert LatestPrune(threshold, checks, k, i);
    }
  }

  // ---- Runs ---------------------------------------------------------------------------------

  /** When check `i`, with any prune it ran, is over. */
  function Over(threshold: real, checks: seq<Check>, i: nat): int
    requires i < |checks|
  {
    if PrunesAt(threshold, checks, i) then checks[i].pruneEnd else checks[i].start
  }

  /** Check `i` starts when the check before it is over. */
  predicate Follows(threshold: real, checks: seq<Check>, i: nat)
    requires 0 < i < |checks|
  {
    checks[i].start >= Over(threshold, checks, i - 1)
  }

  /** One goroutine does everything in turn, and clocks do not run backwards. */
  ghost predicate Sequential(threshold: real, checks: seq<Check>) {
    && (forall i :: 0 <= i < |checks| ==> checks[i].start <= checks[i].pruneStart <= checks[i].pruneEnd)
    && (forall i :: 0 < i < |checks| ==> Follows(threshold, checks, i))
  }

  lemma {:induction false} LastKept(threshold: real, checks: seq<Check>, i: nat, n: nat)
    requires Sequential(threshold, checks) && i < n <= |checks| && PrunesAt(threshold, checks, i)
    ensures LastBefore(threshold, checks, n).Some?
    ensures LastBefore(threshold, checks, n).value >= checks[i].pruneEnd
    ensures n < |checks| ==> checks[n].start >= LastBefore(threshold, checks, n).value
    decreases n
  {
    if i + 1 < n {
      LastKept(threshold, checks, i, n - 1);
    }
    if n < |checks| {
      assert Follows(threshold, checks, n);
    }
  }

  /** A prune starts at least an hour after any earlier one finished. */
  lemma PrunesAnHourApart(threshold: real, checks: seq<Check>, i: nat, j: nat)
    requires Sequential(threshold, checks) && i < j < |checks|
    requires PrunesAt(threshold, checks, i) && PrunesAt(threshold, checks, j)
    ensures checks[j].pruneStart >= checks[i].pruneEnd + 3_600_000_000_000
  {
    LastKept(threshold, checks, i, j);
  }

  function PruneCount(threshold: real, checks: seq<Check>, n: nat): nat
    requires n <= |checks|
  {
    if n == 0 then 0
    else PruneCount(threshold, checks, n - 1) + if PrunesAt(threshold, checks, n - 1) then 1 else 0
  }

  /** If check `j` runs the k-th prune and check `i` the first, k - 1 hours lie between. */
  lemma {:induction false} PruneRate(threshold: real, checks: seq<Check>, i: nat, j: nat)
    requires Sequential(threshold, checks) && i <= j < |checks|
    requires PrunesAt(threshold, checks, i) && PrunesAt(threshold, checks, j)
    requires PruneCount(threshold, checks, i) == 0
    ensures checks[j].pruneStart - checks[i].pruneStart >= (PruneCount(threshold, checks, j + 1) - 1) * HOUR
    decreases j
  {
    if i < j {
      var p := PreviousPrune(threshold, checks, i, j);
      PruneRate(threshold, checks, i, p);
      PrunesAnHourApart(threshold, checks, p, j);
    }
  }

  lemma {:induction false} PreviousPrune(threshold: real, checks: seq<Check>, i: nat, j: nat) returns (p: nat)
    requires i < j <= |checks| && PrunesAt(threshold, checks, i)
    ensures i <= p < j && PrunesAt(threshold, checks, p)
    ensures PruneCount(threshold, checks, p + 1) == PruneCount(threshold, checks, j)
    decreases j
  {
    if PrunesAt(threshold, checks, j - 1) {
      p := j - 1;
    } else {
      p := PreviousPrune(threshold, checks, i, j - 1);
    }
  }

  /** Check `i` starts within a period of the end of the check before it. */
  predicate Soon(threshold: real, checks: seq<Check>, period: int, i: nat)
    requires 0 < i < |checks|
  {
    checks[i].start <= Over(threshold, checks, i - 1) + period
  }

  /** From check `from` on, every query is above the threshold and each check follows the
      end of the one before it within `period`. */
  ghost predicate Pressed(threshold: real, checks: seq<Check>, period: int, from: nat)
    requires from > 0
  {
    forall k :: from <= k < |checks| ==> Above(checks[k], threshold) && Soon(threshold, checks, period, k)
  }

  /** From check `from` on, a query that leads to a prune has answered after `delay`. */
  ghost predicate Answering(checks: seq<Check>, delay: int, from: nat) {
    forall k :: from <= k < |checks| ==> checks[k].pruneStart <= checks[k].start + delay
  }

  /** On a disk that stays too full after a prune, the next prune belongs to a check that
      starts within an hour and a period, and starts itself a query's delay later at most. */
  lemma NextPruneIsPrompt(threshold: real, checks: seq<Check>, period: int, delay: int, i: nat, m: nat)
    returns (j: nat)
    requires Sequential(threshold, checks)
    requires Pressed(threshold, checks, period, i + 1) && Answering(checks, delay, i + 1)
    requires i < m < |checks| && PrunesAt(threshold, checks, i)
    requires checks[m].start >= checks[i].pruneEnd + HOUR
    ensures i < j <= m && PrunesAt(threshold, checks, j)
    ensures forall k :: i < k < j ==> !PrunesAt(threshold, checks, k)
    ensures checks[j].start < checks[i].pruneEnd + HOUR + period
    ensures checks[j].pruneStart < checks[i].pruneEnd + HOUR + period + delay
  {
    j := FirstAfterAnHour(threshold, checks, period, checks[i].pruneEnd, i + 1, m);
  }

  lemma {:induction false} FirstAfterAnHour(threshold: real, checks: seq<Check>, period: int, end: int, k: nat, m: nat)
    returns (j: nat)
    requires k > 0 && Pressed(threshold, checks, period, k)
    requires k <= m < |checks|
    requires LastBefore(threshold, checks, k) == Some(end)
    requires Over(threshold, checks, k - 1) < end + HOUR && checks[m].start >= end + HOUR
    ensures k <= j <= m && PrunesAt(threshold, checks, j)
    ensures forall q :: k <= q < j ==> !PrunesAt(threshold, checks, q)
    ensures checks[j].start < end + HOUR + period
    decreases m - k
  {
    assert Soon(threshold, checks, period, k);
    if checks[k].start - end >= HOUR {
      j := k;
    } else {
      j := FirstAfterAnHour(threshold, checks, period, end, k + 1, m);
    }
  }

  /** Whatever happened before check `k`: if from there on every check finds the disk too full,
      the next prune belongs to `k` or to a later check that starts within an hour and a period
      of it. */
  lemma PressureLeadsToPrune(threshold: real, checks: seq<Check>, period: int, k: nat, m: nat) returns (j: nat)
    requires Sequential(threshold, checks) && k <= m < |checks| && period >= 0
    requires Above(checks[k], threshold) && Pressed(threshold, checks, period, k + 1)
    requires checks[m].start >= checks[k].start + 3_600_000_000_000
    ensures k <= j <= m && PrunesAt(threshold, checks, j)
    ensures forall q :: k <= q < j ==> !PrunesAt(threshold, checks, q)
    ensures j == k || checks[j].start < checks[k].start + 3_600_000_000_000 + period
  {
    if PrunesAt(threshold, checks, k) {
      j := k;
    } else {
      LastBeforeIsLatest(threshold, checks, k);
      var i: nat :| LatestPrune(threshold, checks, i, k);
      LastKept(threshold, checks, i, k);
      j := FirstAfterAnHour(threshold, checks, period, checks[i].pruneEnd, k + 1, m);
    }
  }
}
