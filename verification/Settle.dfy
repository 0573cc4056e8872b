/** Waiting for a growing file to come to rest
    (adapters/file_storage_adapter/file_storage_adapter/create_watch.py). */
module Settle {
  import opened Basics

  /** Reads `i - n .. i` exist and are equal: `n` matches in a row, ending at `i`. */
  ghost predicate StableAt(read: nat -> Option<nat>, n: int, i: nat) {
    && i >= n
    && (forall j: nat :: i - n <= j <= i ==> read(j).Some? && read(j) == read(i))
  }

  /** The number of matches ending at read `i`. */
  ghost predicate MatchesEndingAt(read: nat -> Option<nat>, i: nat, matches: nat) {
    && matches <= i
    && (forall j: nat :: i - matches <= j <= i ==> read(j).Some? && read(j) == read(i))
    && (matches < i ==> read(i - matches - 1) != read(i))
  }

  /** `wait_until_settled`; `read(k)` is what the k-th poll finds, nothing if the
      file is gone. From poll `calm` on the file no longer changes. The result
      comes with the number of polls made. */
  method WaitUntilSettled(read: nat -> Option<nat>, stableReads: int, ghost calm: nat)
    returns (r: Option<int>, polls: nat)
    requires forall i: nat :: i >= calm ==> read(i) == read(calm)
    ensures stableReads <= 0 ==> r == Some(-1) && polls == 0
    ensures stableReads > 0 ==> polls > 0
    ensures stableReads > 0 && r.Some? ==> StableAt(read, stableReads, polls - 1) && r == read(polls - 1)
    ensures stableReads > 0 && r.None? ==> read(polls - 1).None?
    ensures stableReads > 0 ==> forall i: nat :: i < polls - 1 ==> read(i).Some? && !StableAt(read, stableReads, i)
    ensures stableReads > 0 ==> polls <= calm + stableReads + 1
  {
    var lastSize: int := -1;
    var consecutiveMatches := 0;
    polls := 0;
    while consecutiveMatches < stableReads
      invariant 0 <= consecutiveMatches && (stableReads <= 0 ==> polls == 0)
      invariant polls == 0 ==> consecutiveMatches == 0 && lastSize == -1
      invariant polls > 0 ==> read(polls - 1) == Some(lastSize) && MatchesEndingAt(read, polls - 1, consecutiveMatches)
      invariant stableReads > 0 ==> consecutiveMatches <= stableReads
      invariant forall i: nat :: i < polls ==> read(i).Some?
      invariant stableReads > 0 ==> forall i: nat :: i < polls - 1 ==> !StableAt(read, stableReads, i)
      invariant polls > calm ==> consecutiveMatches >= polls - 1 - calm
      decreases calm + stableReads + 1 - polls
    {
      ghost var p := polls;
      var size := read(polls);
      polls := polls + 1;
      if size.None? {
        RunsAreStable(read, stableReads, p, consecutiveMatches);
        return None, polls;
      }
      RunsAreStable(read, stableReads, p, consecutiveMatches);
      if size.value == lastSize {
        consecutiveMatches := consecutiveMatches + 1;
      } else {
        consecutiveMatches := 0;
        lastSize := size.value;
      }
    }
    r := Some(lastSize);
    if stableReads > 0 {
      assert forall j: nat :: polls - 1 - stableReads <= j <= polls - 1 ==> read(j) == read(polls - 1);
    }
  }

  /** Fewer than `n` matches: not stable there. */
  lemma RunsAreStable(read: nat -> Option<nat>, n: int, polls: nat, matches: nat)
    requires polls > 0 ==> MatchesEndingAt(read, polls - 1, matches)
    requires matches < n
    ensures polls > 0 ==> !StableAt(read, n, polls - 1)
  {
    assert polls > 0 && matches < polls - 1 ==> read(polls - 1 - matches - 1) != read(polls - 1);
  }
}
