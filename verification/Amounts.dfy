/** Choosing at most k numbers of a list with the greatest sum, and why keeping the largest ones is such a choice. */
module Amounts {
  import opened Wrappers

  /** The sum of the numbers at the chosen places. */
  function SumAt(a: seq<nat>, chosen: set<nat>): nat
  {
    if a == [] then 0
    else SumAt(a[..|a| - 1], chosen) + if |a| - 1 in chosen then a[|a| - 1] else 0
  }

  /** The greatest sum of at most `k` of the numbers. */
  function Best(a: seq<nat>, k: nat): nat
  {
    if a == [] || k == 0 then 0
    else
      var without, within := Best(a[..|a| - 1], k), Best(a[..|a| - 1], k - 1) + a[|a| - 1];
      if within > without then within else without
  }

  predicate Places(chosen: set<nat>, n: nat) { forall i :: i in chosen ==> i < n }

  lemma {:induction false} BestIsUpper(a: seq<nat>, k: nat, chosen: set<nat>)
    requires Places(chosen, |a|) && |chosen| <= k
    ensures SumAt(a, chosen) <= Best(a, k)
    decreases |a|
  {
    if a != [] {
      var n := |a| - 1;
      SumIgnores(a[..n], chosen, n);
      if n in chosen {
        BestIsUpper(a[..n], k - 1, chosen - {n});
      } else {
        BestIsUpper(a[..n], k, chosen);
      }
      if k == 0 {
        assert chosen == {};
      }
    }
  }

  /** Places behind the list do not matter. */
  lemma {:induction false} SumIgnores(a: seq<nat>, chosen: set<nat>, n: nat)
    requires |a| <= n
    ensures SumAt(a, chosen) == SumAt(a, chosen - {n}) == SumAt(a, chosen + {n})
    decreases |a|
  {
    if a != [] {
      SumIgnores(a[..|a| - 1], chosen, n);
    }
  }

  lemma {:induction false} BestIsReached(a: seq<nat>, k: nat) returns (chosen: set<nat>)
    ensures Places(chosen, |a|) && |chosen| <= k && SumAt(a, chosen) == Best(a, k)
    decreases |a|
  {
    if a == [] || k == 0 {
      chosen := {};
      EmptySum(a);
    } else {
      var n := |a| - 1;
      if Best(a[..n], k - 1) + a[n] > Best(a[..n], k) {
        var c := BestIsReached(a[..n], k - 1);
        chosen := c + {n};
        SumIgnores(a[..n], c, n);
      } else {
        chosen := BestIsReached(a[..n], k);
      }
    }
  }

  lemma {:induction false} EmptySum(a: seq<nat>)
    ensures SumAt(a, {}) == 0
    decreases |a|
  {
    if a != [] {
      EmptySum(a[..|a| - 1]);
    }
  }

  lemma {:induction false} SumInsert(a: seq<nat>, chosen: set<nat>, x: nat)
    requires x < |a| && x !in chosen
    ensures SumAt(a, chosen + {x}) == SumAt(a, chosen) + a[x]
    decreases |a|
  {
    var n := |a| - 1;
    if x == n {
      SumIgnores(a[..n], chosen, n);
    } else {
      SumInsert(a[..n], chosen, x);
    }
  }

  lemma SumRemove(a: seq<nat>, chosen: set<nat>, x: nat)
    requires x < |a| && x in chosen
    ensures SumAt(a, chosen) == SumAt(a, chosen - {x}) + a[x]
  {
    SumInsert(a, chosen - {x}, x);
    assert chosen - {x} + {x} == chosen;
  }

  lemma {:induction false} SumMonotone(a: seq<nat>, small: set<nat>, large: set<nat>)
    requires small <= large
    ensures SumAt(a, small) <= SumAt(a, large)
    decreases |a|
  {
    if a != [] {
      SumMonotone(a[..|a| - 1], small, large);
    }
  }

  lemma {:induction false} SubsetSize(small: set<nat>, large: set<nat>)
    requires small <= large
    ensures |small| <= |large|
    ensures small != large ==> |small| < |large|
    decreases small
  {
    if small == {} {
    } else {
      var x :| x in small;
      SubsetSize(small - {x}, large - {x});
      assert small - {x} == large - {x} ==> small == large;
    }
  }

  lemma {:induction false} PlacesSize(chosen: set<nat>, n: nat)
    requires Places(chosen, n)
    ensures |chosen| <= n
    ensures |chosen| == n ==> forall i :: 0 <= i < n ==> i in chosen
    decreases n
  {
    if n == 0 {
      assert chosen == {};
    } else {
      var rest := chosen - {n - 1};
      PlacesSize(rest, n - 1);
      assert n - 1 !in chosen ==> rest == chosen;
      if |chosen| == n {
        assert n - 1 in chosen;
        forall i | 0 <= i < n ensures i in chosen { assert i < n - 1 ==> i in rest; }
      }
    }
  }

  /** No place left out holds more than a place kept. */
  predicate Dominates(a: seq<nat>, kept: set<nat>)
    requires Places(kept, |a|)
  {
    forall e, x :: 0 <= e < |a| && e !in kept && x in kept ==> a[e] <= a[x]
  }

  /** Exchanging a left-out place for a kept one never lowers the sum, so the kept places beat every other choice. */
  lemma {:induction false} Exchange(a: seq<nat>, kept: set<nat>, chosen: set<nat>)
    requires Places(kept, |a|) && Places(chosen, |a|) && Dominates(a, kept)
    requires |chosen| <= |kept| || |kept| == |a|
    ensures SumAt(a, chosen) <= SumAt(a, kept)
    decreases chosen - kept
  {
    if chosen <= kept {
      SumMonotone(a, chosen, kept);
    } else {
      var e :| e in chosen && e !in kept;
      PlacesSize(kept, |a|);
      if kept <= chosen {
        SubsetSize(kept, chosen);
        assert false;
      } else {
        var x :| x in kept && x !in chosen;
        var other := chosen - {e} + {x};
        SumRemove(a, chosen, e);
        SumInsert(a, chosen - {e}, x);
        assert other - kept == (chosen - kept) - {e};
        Exchange(a, kept, other);
      }
    }
  }

  /** Keeping the k largest numbers (or all of fewer) is optimal. */
  lemma KeptIsBest(a: seq<nat>, kept: set<nat>, k: nat)
    requires Places(kept, |a|) && Dominates(a, kept) && |kept| == (if |a| < k then |a| else k)
    ensures SumAt(a, kept) == Best(a, k)
  {
    BestIsUpper(a, k, kept);
    var best := BestIsReached(a, k);
    Exchange(a, kept, best);
  }

  /** After how many numbers some choice of at most `k` of them first reaches the goal. */
  function FirstReach(a: seq<nat>, k: nat, goal: nat): Option<nat>
  {
    if a == [] then None
    else
      var earlier := FirstReach(a[..|a| - 1], k, goal);
      if earlier.Some? then earlier else if Best(a, k) >= goal then Some(|a|) else None
  }

  /** The goal can be reached exactly when some non-empty choice of at most `k` numbers reaches it. */
  lemma {:induction false} ReachMeaning(a: seq<nat>, k: nat, goal: nat)
    requires k >= 1
    ensures FirstReach(a, k, goal).Some? <==>
              exists chosen: set<nat> :: Places(chosen, |a|) && 0 < |chosen| <= k && SumAt(a, chosen) >= goal
    decreases |a|
  {
    if a == [] {
      assert forall chosen: set<nat> :: Places(chosen, 0) ==> chosen == {};
    } else {
      var n := |a| - 1;
      ReachMeaning(a[..n], k, goal);
      if FirstReach(a[..n], k, goal).Some? {
        var c: set<nat> :| Places(c, n) && 0 < |c| <= k && SumAt(a[..n], c) >= goal;
        assert SumAt(a, c) >= goal && Places(c, |a|);
      } else if Best(a, k) >= goal {
        var c := BestIsReached(a, k);
        if c == {} {
          EmptySum(a);
          SumInsert(a, {}, n);
          assert {} + {n} == {n} && SumAt(a, {n}) >= goal && Places({n}, |a|) && |{n}| == 1;
        } else {
          assert |c| > 0;
        }
      } else {
        forall c: set<nat> | Places(c, |a|) && 0 < |c| <= k ensures SumAt(a, c) < goal {
          BestIsUpper(a, k, c);
        }
      }
    }
  }

  lemma {:induction false} ReachWithin(a: seq<nat>, k: nat, goal: nat)
    ensures FirstReach(a, k, goal).Some? ==> 1 <= FirstReach(a, k, goal).value <= |a|
    decreases |a|
  {
    if a != [] {
      ReachWithin(a[..|a| - 1], k, goal);
    }
  }

  /** Once reached, more numbers do not change where. */
  lemma {:induction false} ReachPrefix(a: seq<nat>, k: nat, goal: nat, i: nat)
    requires i <= |a| && FirstReach(a[..i], k, goal).Some?
    ensures FirstReach(a, k, goal) == FirstReach(a[..i], k, goal)
    decreases |a|
  {
    if i == |a| {
      assert a[..i] == a;
    } else {
      assert a[..|a| - 1][..i] == a[..i];
      ReachPrefix(a[..|a| - 1], k, goal, i);
    }
  }
}
