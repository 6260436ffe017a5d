/** The two greedy coin selectors: `GetUTXOsForAmounts` (`sendtx/utxo_helper.go`), which works in place on the UTXO
    slice, and `GetUTXOsForAmount` (`wallet/transaction_extended.go`). */
module CoinSelection {
  import opened Wrappers
  import opened Numbers
  import opened WalletData
  import opened Amounts

  datatype Selection = Selected(inputs: seq<TxInput>, sum: Sums) | LimitReached | CouldNotSelect

  type Conditions = map<string, U64>

  // ---------- rearranging ----------

  /** Where each element of the rearranged slice came from. */
  predicate IsOrder(order: seq<nat>, n: nat)
  {
    |order| == n && (forall j :: 0 <= j < n ==> order[j] < n)
      && (forall j, k :: 0 <= j < k < n ==> order[j] != order[k])
  }

  predicate Arranged(now: seq<Utxo>, before: seq<Utxo>, order: seq<nat>)
  {
    |now| == |before| && IsOrder(order, |before|) && forall j :: 0 <= j < |now| ==> now[j] == before[order[j]]
  }

  function Swap<T>(s: seq<T>, i: nat, j: nat): (r: seq<T>)
    requires i < |s| && j < |s|
    ensures |r| == |s|
  {
    s[i := s[j]][j := s[i]]
  }

  function Identity(n: nat): (r: seq<nat>)
    ensures |r| == n && forall j :: 0 <= j < n ==> r[j] == j
  {
    seq(n, j => j)
  }

  /** The original places of the first `c` elements. */
  function Origins(order: seq<nat>): set<nat> { set j | 0 <= j < |order| :: order[j] }

  lemma SwapArranged(now: seq<Utxo>, before: seq<Utxo>, order: seq<nat>, i: nat, j: nat)
    requires Arranged(now, before, order) && i < |now| && j < |now|
    ensures Arranged(Swap(now, i, j), before, Swap(order, i, j))
  {}

  // ---------- sums over the chosen prefix ----------

  ghost function Sum(s: seq<Utxo>): string -> nat { (name: string) => SumOf(s, name) }

  lemma SumSnoc(s: seq<Utxo>, u: Utxo, name: string)
    ensures SumOf(s + [u], name) == SumOf(s, name) + Contribution(u, name)
  {
    hide Contribution;
    assert (s + [u])[..|s|] == s;
  }

  /** Overwriting an element with the last one and dropping the last removes exactly that element from the sum. */
  lemma {:induction false} SumEvict(s: seq<Utxo>, i: nat, name: string)
    requires i < |s|
    ensures SumOf(s, name) == SumOf(s[i := s[|s| - 1]][..|s| - 1], name) + Contribution(s[i], name)
    decreases |s|
  {
    hide Contribution;
    var n := |s| - 1;
    if i == n {
      assert s[i := s[n]][..n] == s[..n];
    } else {
      SumReplace(s[..n], i, s[n], name);
      assert s[i := s[n]][..n] == s[..n][i := s[n]];
    }
  }

  lemma {:induction false} SumReplace(s: seq<Utxo>, i: nat, u: Utxo, name: string)
    requires i < |s|
    ensures SumOf(s[i := u], name) + Contribution(s[i], name) == SumOf(s, name) + Contribution(u, name)
    decreases |s|
  {
    hide Contribution;
    var n := |s| - 1;
    if i < n {
      SumReplace(s[..n], i, u, name);
      assert s[i := u][..n] == s[..n][i := u];
    } else {
      assert s[i := u][..n] == s[..n];
    }
  }

  /** What each UTXO contributes to one name. */
  function Amts(utxos: seq<Utxo>, name: string): (a: seq<nat>)
    ensures |a| == |utxos| && forall i :: 0 <= i < |a| ==> a[i] == Contribution(utxos[i], name)
  {
    seq(|utxos|, i requires 0 <= i < |utxos| => Contribution(utxos[i], name))
  }

  /** The sum of elements taken from different places is the sum at those places. */
  lemma {:induction false} SumOfOrigins(now: seq<Utxo>, before: seq<Utxo>, order: seq<nat>, name: string)
    requires |now| == |order| && forall j :: 0 <= j < |now| ==> order[j] < |before| && now[j] == before[order[j]]
    requires forall j, k :: 0 <= j < k < |order| ==> order[j] != order[k]
    ensures SumOf(now, name) == SumAt(Amts(before, name), Origins(order))
    ensures |Origins(order)| == |order| && Places(Origins(order), |before|)
    decreases |now|
  {
    hide Contribution;
    var n := |now| - 1;
    if n < 0 {
      EmptySum(Amts(before, name));
      assert Origins(order) == {};
    } else {
      SumOfOrigins(now[..n], before, order[..n], name);
      assert Origins(order) == Origins(order[..n]) + {order[n]};
      SumInsert(Amts(before, name), Origins(order[..n]), order[n]);
    }
  }

  // ---------- conditions ----------

  predicate Satisfies(sum: Sums, conditions: Conditions)
  {
    forall name :: name in conditions ==> Read(sum, name) >= conditions[name]
  }

  method DoesSumSatisfyCondition(currentSum: Sums, conditions: Conditions) returns (ok: bool)
    ensures ok == Satisfies(currentSum, conditions)
  {
    var names := conditions.Keys;
    while names != {}
      invariant names <= conditions.Keys
      invariant forall name :: name in conditions && name !in names ==> Read(currentSum, name) >= conditions[name]
      decreases |names|
    {
      var tokenName :| tokenName in names;
      if Read(currentSum, tokenName) < conditions[tokenName] {
        return false;
      }
      names := names - {tokenName};
    }
    return true;
  }

  function Deficit(sum: Sums, conditions: Conditions, name: string): nat
    requires name in conditions
  {
    if conditions[name] > Read(sum, name) then conditions[name] - Read(sum, name) else 0
  }

  /** The token to economise on: one with the greatest deficit, or lovelace when nothing is missing. */
  predicate IsReplaceName(sum: Sums, conditions: Conditions, name: string)
  {
    if forall other :: other in conditions ==> Deficit(sum, conditions, other) == 0 then name == ADA
    else name in conditions && Deficit(sum, conditions, name) > 0
         && forall other :: other in conditions ==> Deficit(sum, conditions, other) <= Deficit(sum, conditions, name)
  }

  /** The order in which Go visits the map decides between equal deficits. */
  method ChooseReplaceName(currentSum: Sums, conditions: Conditions) returns (replaceTokenName: string)
    ensures IsReplaceName(currentSum, conditions, replaceTokenName)
    // no other token lacks more, and "lovelace" is the answer when none lacks anything
    ensures forall other :: other in conditions && conditions[other] > Read(currentSum, other) ==>
              replaceTokenName in conditions &&
              conditions[other] - Read(currentSum, other)
              <= conditions[replaceTokenName] - Read(currentSum, replaceTokenName)
    ensures (forall other :: other in conditions ==> conditions[other] <= Read(currentSum, other)) ==>
              replaceTokenName == "lovelace"
  {
    replaceTokenName := ADA;
    var biggestDiff: nat := 0;
    var names := conditions.Keys;
    while names != {}
      invariant names <= conditions.Keys
      invariant forall name :: name in conditions && name !in names ==>
                Deficit(currentSum, conditions, name) <= biggestDiff
      invariant if biggestDiff == 0 then replaceTokenName == ADA
                else replaceTokenName in conditions && Deficit(currentSum, conditions, replaceTokenName) == biggestDiff
      decreases |names|
    {
      var tokenName :| tokenName in names;
      var sum := Read(currentSum, tokenName);
      if conditions[tokenName] > sum && conditions[tokenName] - sum > biggestDiff {
        biggestDiff := conditions[tokenName] - sum;
        replaceTokenName := tokenName;
      }
      names := names - {tokenName};
    }
  }

  /** The first element with the least amount of a token. */
  method FindMinUtxo(utxos: seq<Utxo>, name: string) returns (idx: nat)
    requires utxos != []
    ensures idx < |utxos|
    ensures forall j :: 0 <= j < |utxos| ==> AmountOf(utxos[idx], name) <= AmountOf(utxos[j], name)
    ensures forall j :: 0 <= j < idx ==> AmountOf(utxos[idx], name) < AmountOf(utxos[j], name)
  {
    hide AmountOf;
    idx := 0;
    var minCmpAmount := GetTokenAmount(utxos[0], name);
    for i := 1 to |utxos|
      invariant idx < i && minCmpAmount == AmountOf(utxos[idx], name)
      invariant forall j :: 0 <= j < i ==> minCmpAmount <= AmountOf(utxos[j], name)
      invariant forall j :: 0 <= j < idx ==> minCmpAmount < AmountOf(utxos[j], name)
    {
      var amount := GetTokenAmount(utxos[i], name);
      if amount < minCmpAmount {
        minCmpAmount := amount;
        idx := i;
      }
    }
  }

  // ---------- why greedy keeping is optimal for one token ----------

  /** The UTXOs of a single-token selection: each lists the token at most once, and the total fits in 64 bits. */
  predicate Plain(utxos: seq<Utxo>, name: string)
  {
    (forall i :: 0 <= i < |utxos| ==> ListsOnce(utxos[i].tokens, name)) && SumOf(utxos, name) < U64_LIMIT
  }

  /** The kept places are the `k` largest of the first `i` (or all of them). */
  predicate KeepsLargest(a: seq<nat>, i: nat, kept: set<nat>, k: nat)
  {
    i <= |a| && Places(kept, i) && |kept| == Min(i, k) && Dominates(a[..i], kept)
  }

  lemma {:induction false} SumAtPrefix(a: seq<nat>, i: nat, kept: set<nat>)
    requires i <= |a| && Places(kept, i)
    ensures SumAt(a, kept) == SumAt(a[..i], kept)
    decreases |a|
  {
    if i < |a| {
      SumAtPrefix(a[..|a| - 1], i, kept);
      assert a[..|a| - 1][..i] == a[..i];
    } else {
      assert a[..i] == a;
    }
  }

  lemma KeptSum(a: seq<nat>, i: nat, kept: set<nat>, k: nat)
    requires KeepsLargest(a, i, kept, k)
    ensures SumAt(a, kept) == Best(a[..i], k)
  {
    SumAtPrefix(a, i, kept);
    KeptIsBest(a[..i], kept, k);
  }

  /** Taking the next number on while there is room. */
  lemma KeepAll(a: seq<nat>, i: nat, kept: set<nat>, k: nat)
    requires i < |a| && KeepsLargest(a, i, kept, k) && i < k
    ensures KeepsLargest(a, i + 1, kept + {i}, k)
  {
    PlacesSize(kept, i);
  }

  /** Taking the next number on and giving the smallest away. */
  lemma KeepLargest(a: seq<nat>, i: nat, kept: set<nat>, k: nat, m: nat)
    requires i < |a| && KeepsLargest(a, i, kept, k) && |kept| == k
    requires m in kept + {i} && forall x :: x in kept + {i} ==> a[m] <= a[x]
    ensures KeepsLargest(a, i + 1, kept + {i} - {m}, k)
  {
    var next := kept + {i} - {m};
    forall e, x | 0 <= e < i + 1 && e !in next && x in next
      ensures a[..i + 1][e] <= a[..i + 1][x]
    {
      if e != m {
        assert e !in kept && e < i;
        if x == i {
          assert m in kept && a[..i][e] <= a[..i][m];
        } else {
          assert a[..i][e] <= a[..i][x];
        }
      }
    }
  }

  /** Check before evicting: the kept k - 1 numbers and the next one together are the best choice of `k`, if none was
      good enough before. */
  lemma CheckThenEvict(a: seq<nat>, i: nat, kept: set<nat>, k: nat, goal: nat)
    requires k >= 1 && i < |a| && KeepsLargest(a, i, kept, k - 1) && FirstReach(a[..i], k, goal).None?
    ensures var sum := SumAt(a, kept) + a[i];
            && FirstReach(a[..i + 1], k, goal) == (if sum >= goal then Some(i + 1) else None)
            && (sum >= goal ==> sum == Best(a[..i + 1], k))
  {
    KeptSum(a, i, kept, k - 1);
    assert a[..i + 1][..i] == a[..i];
    if i > 0 {
      NotReached(a[..i], k, goal);
    }
  }

  lemma NotReached(a: seq<nat>, k: nat, goal: nat)
    requires a != [] && FirstReach(a, k, goal).None?
    ensures Best(a, k) < goal
  {}

  /** Evict before checking: the kept numbers are the best choice of `k`. */
  lemma EvictThenCheck(a: seq<nat>, i: nat, kept: set<nat>, k: nat, goal: nat)
    requires i < |a| && KeepsLargest(a, i + 1, kept, k) && FirstReach(a[..i], k, goal).None?
    ensures FirstReach(a[..i + 1], k, goal) == if SumAt(a, kept) >= goal then Some(i + 1) else None
    ensures SumAt(a, kept) == Best(a[..i + 1], k)
  {
    KeptSum(a, i + 1, kept, k);
    assert a[..i + 1][..i] == a[..i];
  }
}
