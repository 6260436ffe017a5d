/** `GetUTXOsForAmount` (`wallet/transaction_extended.go`), which works on a copy and evicts before it checks, and its
    agreement with `GetUTXOsForAmounts`. */
module AppendSelector {
  import opened Wrappers
  import opened Numbers
  import opened WalletData
  import opened Amounts
  import opened CoinSelection
  import opened Selectors

  /** The chosen UTXOs come from different places among the first `i`. */
  ghost predicate FromPlaces(chosen: seq<Utxo>, utxos: seq<Utxo>, order: seq<nat>, i: nat)
  {
    && i <= |utxos| && |order| == |chosen|
    && (forall j :: 0 <= j < |order| ==> order[j] < i && chosen[j] == utxos[order[j]])
    && (forall j, k :: 0 <= j < k < |order| ==> order[j] != order[k])
  }

  /** The chosen UTXOs are the `k` largest of the first `i`. */
  ghost predicate Largest(chosen: seq<Utxo>, utxos: seq<Utxo>, order: seq<nat>, i: nat, k: nat, name: string)
  {
    FromPlaces(chosen, utxos, order, i) && KeepsLargest(Amts(utxos, name), i, Origins(order), k)
  }

  lemma WithoutOrigins(order: seq<nat>, idx: nat)
    requires idx < |order| && forall j, k :: 0 <= j < k < |order| ==> order[j] != order[k]
    ensures Origins(Without(order, idx)) == Origins(order) - {order[idx]}
  {
    var n := |order| - 1;
    EvictedOrigins(order, idx, n);
    assert Swap(order, idx, n)[..n] == Without(order, idx);
    NextOrigin(order, n);
    assert order[..n + 1] == order;
  }

  /** Choosing one more. */
  lemma AppendKeeps(chosen: seq<Utxo>, utxos: seq<Utxo>, order: seq<nat>, i: nat, k: nat, name: string)
    requires i < |utxos| && FromPlaces(chosen, utxos, order, i)
    ensures FromPlaces(chosen + [utxos[i]], utxos, order + [i], i + 1)
    ensures Origins(order + [i]) == Origins(order) + {i}
    ensures Largest(chosen, utxos, order, i, k, name) && |chosen| < k ==>
              Largest(chosen + [utxos[i]], utxos, order + [i], i + 1, k, name)
  {
    hide Contribution, KeepsLargest, Origins;
    assert (order + [i])[..|order|] == order && (order + [i])[..|order| + 1] == order + [i];
    NextOrigin(order + [i], |order|);
    SumOfOrigins(chosen, utxos, order, name);
    if KeepsLargest(Amts(utxos, name), i, Origins(order), k) && |chosen| < k {
      KeptIsAll(Amts(utxos, name), i, Origins(order), k);
      KeepAll(Amts(utxos, name), i, Origins(order), k);
    }
  }

  lemma KeptIsAll(a: seq<nat>, i: nat, kept: set<nat>, k: nat)
    requires KeepsLargest(a, i, kept, k)
    ensures |kept| == Min(i, k)
  {}

  /** Choosing one more and giving the least away. */
  lemma AppendEvicts(chosen: seq<Utxo>, utxos: seq<Utxo>, order: seq<nat>, i: nat, k: nat, name: string, idx: nat)
    requires i < |utxos| && FromPlaces(chosen, utxos, order, i) && idx < |chosen| + 1
    requires forall j :: 0 <= j <= |chosen| ==>
              AmountOf((chosen + [utxos[i]])[idx], name) <= AmountOf((chosen + [utxos[i]])[j], name)
    ensures FromPlaces(Without(chosen + [utxos[i]], idx), utxos, Without(order + [i], idx), i + 1)
    ensures Largest(chosen, utxos, order, i, k, name) && |chosen| == k && Plain(utxos, name) ==>
              Largest(Without(chosen + [utxos[i]], idx), utxos, Without(order + [i], idx), i + 1, k, name)
  {
    hide Contribution, KeepsLargest, Origins, AmountOf, ListsOnce, SumOf;
    AppendKeeps(chosen, utxos, order, i, k, name);
    SumOfOrigins(chosen, utxos, order, name);
    var all, places := chosen + [utxos[i]], order + [i];
    if KeepsLargest(Amts(utxos, name), i, Origins(order), k) && |chosen| == k && Plain(utxos, name) {
      var amts := Amts(utxos, name);
      forall x | x in Origins(places) ensures x < |amts| && amts[places[idx]] <= amts[x] {
        var j := PlaceOf(places, x);
        AmountIsContribution(utxos[places[idx]], name);
        AmountIsContribution(utxos[x], name);
      }
      assert places[idx] in Origins(places) by { InOrigins(places, idx); }
      KeepLargest(amts, i, Origins(order), k, places[idx]);
      WithoutOrigins(places, idx);
    }
  }

  lemma InOrigins(order: seq<nat>, j: nat)
    requires j < |order|
    ensures order[j] in Origins(order)
  {}

  /** What the appending selection promises: at most `maxInputs` different UTXOs of the visited ones, whose sum is
      returned and reaches the desired amount, or the kind of failure. */
  ghost predicate AppendResult(r: Selection, utxos: seq<Utxo>, name: string, desiredSum: U64, maxInputs: int,
                               chosen: seq<Utxo>, order: seq<nat>, stop: nat)
  {
    && FromPlaces(chosen, utxos, order, stop) && |chosen| <= Max(maxInputs, 0)
    && match r {
         case Selected(inputs, sum) =>
           && inputs == Refs(chosen) && Represents(sum, Sum(chosen)) && AllNames(sum)
           && SumOf(chosen, name) % U64_LIMIT >= desiredSum
         case LimitReached => stop == |utxos| && SumOf(utxos, name) % U64_LIMIT >= desiredSum
         case CouldNotSelect => stop == |utxos| && SumOf(utxos, name) % U64_LIMIT < desiredSum
       }
  }

  /** Evict before checking: the sum of the chosen UTXOs reaches the goal exactly when some choice does. */
  lemma LargestCheck(chosen: seq<Utxo>, utxos: seq<Utxo>, order: seq<nat>, i: nat, k: nat, name: string, goal: nat)
    requires i < |utxos| && Largest(chosen, utxos, order, i + 1, k, name) && Plain(utxos, name)
    requires FirstReach(Amts(utxos, name)[..i], k, goal).None?
    ensures SumOf(chosen, name) < U64_LIMIT
    ensures FirstReach(Amts(utxos, name)[..i + 1], k, goal) == if SumOf(chosen, name) >= goal then Some(i + 1) else None
    ensures SumOf(chosen, name) == Best(Amts(utxos, name)[..i + 1], k)
    ensures SumOf(chosen, name) >= goal ==> FirstReach(Amts(utxos, name), k, goal) == Some(i + 1)
  {
    hide SumOf, Best, FirstReach, Origins, Contribution, ListsOnce, KeepsLargest, SumAt;
    var amts := Amts(utxos, name);
    SumOfOrigins(chosen, utxos, order, name);
    SumOfOrigins(utxos, utxos, Identity(|utxos|), name);
    OriginsWithin(order, |utxos|);
    SumMonotone(amts, Origins(order), Origins(Identity(|utxos|)));
    EvictThenCheck(amts, i, Origins(order), k, goal);
    if SumOf(chosen, name) >= goal {
      ReachPrefix(amts, k, goal, i + 1);
    }
  }

  /** One more UTXO is chosen; when there are too many, the one with the least amount is given away. */
  method ChooseNext(chosen0: seq<Utxo>, u: Utxo, sum0: Sums, tokenName: string, maxInputs: int,
                    ghost utxos: seq<Utxo>, ghost order0: seq<nat>, ghost i: nat)
    returns (chosenUTXOs: seq<Utxo>, currentSum: Sums, ghost order: seq<nat>)
    requires i < |utxos| && utxos[i] == u && FromPlaces(chosen0, utxos, order0, i) && |chosen0| <= Max(maxInputs, 0)
    requires Represents(sum0, Sum(chosen0)) && AllNames(sum0)
    ensures |chosenUTXOs| <= Max(maxInputs, 0) && FromPlaces(chosenUTXOs, utxos, order, i + 1)
    ensures Represents(currentSum, Sum(chosenUTXOs)) && AllNames(currentSum)
    ensures Plain(utxos, tokenName) && Largest(chosen0, utxos, order0, i, Max(maxInputs, 0), tokenName) ==>
              Largest(chosenUTXOs, utxos, order, i + 1, Max(maxInputs, 0), tokenName)
  {
    hide SumOf, Origins, Plain, Contribution, AmountOf, Represents, AllNames, Sum, Largest, FromPlaces;
    currentSum := AddNext(sum0, chosen0, u);
    chosenUTXOs, order := chosen0 + [u], order0 + [i];
    FromPlacesBound(chosen0, utxos, order0, i);
    AppendKeeps(chosen0, utxos, order0, i, Max(maxInputs, 0), tokenName);
    if |chosenUTXOs| > maxInputs {
      var lastIdx := |chosenUTXOs| - 1;
      var idx := FindMinUtxo(chosenUTXOs, tokenName);
      AppendEvicts(chosen0, utxos, order0, i, Max(maxInputs, 0), tokenName, idx);
      var minChosenUTXO := chosenUTXOs[idx];
      ghost var all := chosenUTXOs;
      chosenUTXOs := chosenUTXOs[idx := chosenUTXOs[lastIdx]][..lastIdx];
      order := Without(order, idx);
      currentSum := SubtractChosen(currentSum, minChosenUTXO, all, idx, chosenUTXOs);
    }
  }

  method GetUTXOsForAmount(utxos: seq<Utxo>, tokenName: string, desiredSum: U64, maxInputs: int)
    returns (r: Selection, ghost chosen: seq<Utxo>, ghost order: seq<nat>, ghost stop: nat)
    ensures r.Selected? ==> |r.inputs| <= Max(maxInputs, 0) && Read(r.sum, tokenName) >= desiredSum
    ensures r.LimitReached? ==> SumOf(utxos, tokenName) % U64_LIMIT >= desiredSum
    ensures r.CouldNotSelect? ==> SumOf(utxos, tokenName) % U64_LIMIT < desiredSum
    ensures AppendResult(r, utxos, tokenName, desiredSum, maxInputs, chosen, order, stop)
    ensures maxInputs >= 1 && Plain(utxos, tokenName) ==>
              SingleResult(r, chosen, utxos, maxInputs, tokenName, desiredSum, stop, |chosen|)
  {
    hide SumOf, Best, FirstReach, Origins, Plain, KeepsLargest, Contribution, AmountOf, Represents, AllNames, Sum,
      Largest, FromPlaces, Amts;
    var currentSum: Sums := map[];
    var chosenUTXOs: seq<Utxo> := [];
    order := [];
    EmptySums();
    ghost var k := Max(maxInputs, 0);
    ghost var single := maxInputs >= 1 && Plain(utxos, tokenName);
    StartLargest(utxos, k, tokenName);
    for i := 0 to |utxos|
      invariant |chosenUTXOs| <= k
      invariant Represents(currentSum, Sum(chosenUTXOs)) && AllNames(currentSum)
      invariant FromPlaces(chosenUTXOs, utxos, order, i)
      invariant single ==> Searching(chosenUTXOs, utxos, order, i, k, tokenName, desiredSum)
    {
      ghost var chosen0, order0 := chosenUTXOs, order;
      chosenUTXOs, currentSum, order := ChooseNext(chosenUTXOs, utxos[i], currentSum, tokenName, maxInputs, utxos,
                                                   order, i);
      ReadSum(currentSum, chosenUTXOs, tokenName);
      if single {
        LargestCheck(chosenUTXOs, utxos, order, i, k, tokenName, desiredSum);
      }
      if Read(currentSum, tokenName) >= desiredSum {
        chosen, stop := chosenUTXOs, i + 1;
        FromPlacesBound(chosen, utxos, order, stop);
        var inputs := Utxos2TxInputs(chosenUTXOs);
        r := Selected(inputs, currentSum);
        assert single ==> k == maxInputs && chosen[..|chosen|] == chosen;
        return;
      }
    }
    chosen, stop := chosenUTXOs, |utxos|;
    FromPlacesBound(chosen, utxos, order, stop);
    var total := GetUtxosSum(utxos);
    ReadSum(total, utxos, tokenName);
    assert single ==> k == maxInputs;
    assert Amts(utxos, tokenName)[..|utxos|] == Amts(utxos, tokenName);
    PlainTotal(utxos, tokenName);
    r := if Read(total, tokenName) >= desiredSum then LimitReached else CouldNotSelect;
  }

  /** The largest are chosen, and no choice so far reached the goal. */
  ghost predicate Searching(chosen: seq<Utxo>, utxos: seq<Utxo>, order: seq<nat>, i: nat, k: nat, name: string,
                            goal: nat)
  {
    Largest(chosen, utxos, order, i, k, name) && i <= |utxos| && FirstReach(Amts(utxos, name)[..i], k, goal).None?
  }

  lemma PlainTotal(utxos: seq<Utxo>, name: string)
    ensures Plain(utxos, name) ==> SumOf(utxos, name) % U64_LIMIT == SumOf(utxos, name)
  {}

  lemma FromPlacesBound(chosen: seq<Utxo>, utxos: seq<Utxo>, order: seq<nat>, i: nat)
    requires FromPlaces(chosen, utxos, order, i)
    ensures i <= |utxos| && |order| == |chosen|
  {}

  lemma StartLargest(utxos: seq<Utxo>, k: nat, name: string)
    ensures FromPlaces([], utxos, [], 0) && Largest([], utxos, [], 0, k, name)
    ensures forall size, goal :: FirstReach(Amts(utxos, name)[..0], size, goal).None?
  {
    assert Origins([]) == {};
  }

  // ---------- agreement, completeness, optimality ----------

  /** Some non-empty choice of at most `maxInputs` UTXOs reaches the desired amount. */
  ghost predicate SomeChoiceReaches(utxos: seq<Utxo>, name: string, desiredSum: nat, maxInputs: nat)
  {
    exists places: set<nat> ::
      Places(places, |utxos|) && 0 < |places| <= maxInputs && SumAt(Amts(utxos, name), places) >= desiredSum
  }

  /** Whatever `GetUTXOsForAmounts` and `GetUTXOsForAmount` return when asked for one token: both succeed exactly when
      some choice of at most `maxInputs` UTXOs reaches the amount, they stop after the same UTXOs and return the same
      (greatest possible) total of the token, and otherwise they fail in the same way. */
  lemma SelectorsAgree(utxos: seq<Utxo>, name: string, desiredSum: U64, maxInputs: int, tryAtLeastInputs: int,
                       inPlace: Selection, now: seq<Utxo>, order: seq<nat>, stop: nat, chosen: nat,
                       appending: Selection, otherChosen: seq<Utxo>, otherOrder: seq<nat>, otherStop: nat)
    requires maxInputs >= 1 && tryAtLeastInputs <= 1 && Plain(utxos, name)
    requires InPlaceResult(inPlace, now, utxos, map[name := desiredSum], maxInputs, tryAtLeastInputs, order, stop,
                           chosen)
    requires SingleResult(inPlace, now, utxos, maxInputs, name, desiredSum, stop, chosen)
    requires AppendResult(appending, utxos, name, desiredSum, maxInputs, otherChosen, otherOrder, otherStop)
    requires SingleResult(appending, otherChosen, utxos, maxInputs, name, desiredSum, otherStop, |otherChosen|)
    ensures inPlace.Selected? <==> SomeChoiceReaches(utxos, name, desiredSum, maxInputs)
    ensures appending.Selected? <==> SomeChoiceReaches(utxos, name, desiredSum, maxInputs)
    ensures stop == otherStop <= |utxos|
    ensures inPlace.Selected? ==>
              && stop >= 1 && Read(inPlace.sum, name) == Read(appending.sum, name) >= desiredSum
              && |inPlace.inputs| <= maxInputs && |appending.inputs| <= maxInputs
              && Read(inPlace.sum, name) == Best(Amts(utxos[..stop], name), maxInputs)
              && !SomeChoiceReaches(utxos[..stop - 1], name, desiredSum, maxInputs)
    ensures !inPlace.Selected? ==>
              && inPlace == appending
              && (inPlace.LimitReached? <==> SumOf(utxos, name) >= desiredSum)
  {
    hide SumOf, Best, FirstReach, Plain, Contribution, Represents, AllNames, Sum, Arranged, FromPlaces, Meets, SumAt,
      NamesIn;
    FromPlacesBound(otherChosen, utxos, otherOrder, otherStop);
    var amts := Amts(utxos, name);
    ReachMeaning(amts, maxInputs, desiredSum);
    if inPlace.Selected? {
      assert now[..Returned(|utxos|, chosen, maxInputs, tryAtLeastInputs)] == now[..chosen];
      ReadSum(inPlace.sum, now[..chosen], name);
      assert otherChosen[..|otherChosen|] == otherChosen;
      ReadSum(appending.sum, otherChosen, name);
      FirstStop(utxos, name, maxInputs, desiredSum, stop);
      assert Amts(utxos[..stop], name) == amts[..stop];
      SmallSums(now, utxos, order, chosen, name);
    }
  }

  lemma SmallSums(now: seq<Utxo>, before: seq<Utxo>, order: seq<nat>, c: nat, name: string)
    requires c <= |now| == |order| && Arranged(now, before, order) && Plain(before, name)
    ensures SumOf(now[..c], name) % U64_LIMIT == SumOf(now[..c], name)
  {
    hide SumOf, ListsOnce, IsOrder;
    ChosenSum(now, before, order, c, name);
  }

  /** Where the goal is first reached, nothing shorter reaches it. */
  lemma FirstStop(utxos: seq<Utxo>, name: string, k: nat, goal: nat, stop: nat)
    requires FirstReach(Amts(utxos, name), k, goal) == Some(stop) && k >= 1
    ensures 1 <= stop <= |utxos| && Best(Amts(utxos, name)[..stop], k) >= goal
    ensures !SomeChoiceReaches(utxos[..stop - 1], name, goal, k)
  {
    hide Contribution, SumAt, Best;
    var amts := Amts(utxos, name);
    ReachWithin(amts, k, goal);
    assert Amts(utxos[..stop - 1], name) == amts[..stop - 1];
    ReachIsFirst(amts, k, goal);
    ReachMeaning(amts[..stop - 1], k, goal);
  }

  lemma {:induction false} ReachIsFirst(a: seq<nat>, k: nat, goal: nat)
    requires FirstReach(a, k, goal).Some?
    ensures var s := FirstReach(a, k, goal).value;
            1 <= s <= |a| && FirstReach(a[..s - 1], k, goal).None? && Best(a[..s], k) >= goal
    decreases |a|
  {
    hide Best;
    if FirstReach(a[..|a| - 1], k, goal).Some? {
      ReachIsFirst(a[..|a| - 1], k, goal);
      var s := FirstReach(a, k, goal).value;
      assert a[..|a| - 1][..s] == a[..s] && a[..|a| - 1][..s - 1] == a[..s - 1];
    } else {
      assert a[..|a|] == a;
    }
  }
}
