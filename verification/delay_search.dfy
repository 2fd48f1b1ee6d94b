// Looking for a free response slot: both memory models bump a drawn delay until no other
// request has it (sim/lsu_ut/fake_cache.cpp, sim/perfect_mem.hpp).
module DelaySearch {
  import opened Words

  /** `r` is the least value from `start` on that is not used. */
  ghost predicate IsLeastFree(r: nat, start: nat, used: set<nat>) {
    start <= r && r !in used && TakenBetween(start, r, used)
  }

  ghost predicate TakenBetween(start: nat, r: nat, used: set<nat>) {
    forall x | start <= x < r :: x in used
  }

  lemma LeastFreeUnique(r: nat, r': nat, start: nat, used: set<nat>)
    requires IsLeastFree(r, start, used) && IsLeastFree(r', start, used)
    ensures r == r'
  {
  }

  /** Pigeonhole: a run of taken values is no longer than the set of taken values. */
  lemma {:induction false} RunOfTaken(start: nat, r: nat, used: set<nat>)
    requires start <= r && TakenBetween(start, r, used)
    ensures r <= start + |used|
    decreases r - start
  {
    if start < r {
      RunOfTaken(start, r - 1, used - {r - 1});
    }
  }

  lemma TakenFrom(start: nat, r: nat, used: set<nat>)
    requires start in used && TakenBetween(start + 1, r, used - {start})
    ensures TakenBetween(start, r, used)
  {
    forall x | start <= x < r
      ensures x in used
    {
      if x != start {
        assert x in used - {start};
      }
    }
  }

  /** The search ends, and no further on than there are used values. */
  function LeastFree(start: nat, used: set<nat>): (r: nat)
    ensures IsLeastFree(r, start, used)
    ensures r <= start + |used|
    decreases |used|
  {
    if start in used then
      var r := LeastFree(start + 1, used - {start});
      TakenFrom(start, r, used);
      r
    else start
  }

  // ----- the same in sixteen bits -----

  function Bumped(start: nat, n: nat): nat {
    (start + n) % 0x1_0000
  }

  /** `r` is the first value not used, counting up from `start` in sixteen bits. */
  ghost predicate IsFirstFree(r: nat, start: nat, used: set<nat>) {
    exists n: nat :: r == Bumped(start, n) && r !in used && forall k | 0 <= k < n :: Bumped(start, k) in used
  }
}
