/** `GetUTXOsForAmounts` (`sendtx/utxo_helper.go`), which rearranges the UTXO slice in place and checks before it
    evicts. When one token is asked for it is proved to be an optimal choice. */
module Selectors {
  import opened Wrappers
  import opened Numbers
  import opened WalletData
  import opened Amounts
  import opened CoinSelection

  /** The UTXOs as transaction inputs. */
  function Refs(utxos: seq<Utxo>): (r: seq<TxInput>)
    ensures |r| == |utxos|
  {
    seq(|utxos|, i requires 0 <= i < |utxos| => TxInput(utxos[i].hash, utxos[i].index))
  }

  /** The sums, as 64-bit numbers, reach every desired amount. */
  ghost predicate Meets(utxos: seq<Utxo>, conditions: Conditions)
  {
    forall name :: name in conditions ==> SumOf(utxos, name) % U64_LIMIT >= conditions[name]
  }

  lemma MeetsMeaning(sum: Sums, utxos: seq<Utxo>, conditions: Conditions)
    requires Represents(sum, Sum(utxos))
    ensures Satisfies(sum, conditions) <==> Meets(utxos, conditions)
  {
    hide SumOf;
    assert forall name: string :: Read(sum, name) == Sum(utxos)(name) % U64_LIMIT;
    assert forall name: string :: Sum(utxos)(name) == SumOf(utxos, name);
  }

  method Utxos2TxInputs(utxos: seq<Utxo>) returns (inputs: seq<TxInput>)
    ensures inputs == Refs(utxos)
  {
    inputs := [];
    for i := 0 to |utxos|
      invariant inputs == Refs(utxos[..i])
    {
      inputs := inputs + [TxInput(utxos[i].hash, utxos[i].index)];
    }
    assert utxos[..|utxos|] == utxos;
  }

  /** Adding one more UTXO to a running sum. */
  method AddNext(sum0: Sums, ghost chosen: seq<Utxo>, u: Utxo) returns (sum: Sums)
    requires Represents(sum0, Sum(chosen)) && AllNames(sum0)
    ensures Represents(sum, Sum(chosen + [u])) && AllNames(sum) && sum.Keys == sum0.Keys + UtxoNames(u)
  {
    hide Represents, AllNames, SumOf, Contribution, UtxoNames;
    sum := AddUtxo(sum0, u, Sum(chosen));
    forall name: string ensures Sum(chosen + [u])(name) == Sum(chosen)(name) + Contribution(u, name) {
      SumSnoc(chosen, u, name);
    }
    SameRepresents(sum, name => Sum(chosen)(name) + Contribution(u, name), Sum(chosen + [u]));
  }

  /** Taking the UTXO at `idx` of the chosen ones out of a running sum; `rest` are the others. */
  method SubtractChosen(sum0: Sums, u: Utxo, ghost chosen: seq<Utxo>, ghost idx: nat, ghost rest: seq<Utxo>)
    returns (sum: Sums)
    requires idx < |chosen| && chosen[idx] == u && rest == chosen[idx := chosen[|chosen| - 1]][..|chosen| - 1]
    requires Represents(sum0, Sum(chosen)) && AllNames(sum0)
    ensures Represents(sum, Sum(rest)) && AllNames(sum) && sum.Keys == sum0.Keys + UtxoNames(u)
  {
    hide Represents, AllNames, SumOf, Contribution, UtxoNames;
    ghost var f := Sum(rest);
    forall name: string ensures Sum(chosen)(name) == f(name) + Contribution(u, name) {
      SumEvict(chosen, idx, name);
    }
    SameRepresents(sum0, Sum(chosen), name => f(name) + Contribution(u, name));
    sum := SubtractUtxo(sum0, u, f);
  }

  lemma EmptySums()
    ensures Represents(map[], Sum([])) && AllNames(map[])
  {}

  method GetUtxosSum(utxos: seq<Utxo>) returns (result: Sums)
    ensures Represents(result, Sum(utxos)) && AllNames(result)
  {
    hide Represents, AllNames, SumOf;
    result := map[];
    EmptySums();
    for i := 0 to |utxos|
      invariant Represents(result, Sum(utxos[..i])) && AllNames(result)
    {
      result := AddNext(result, utxos[..i], utxos[i]);
      assert utxos[..i + 1] == utxos[..i] + [utxos[i]];
    }
    assert utxos[..|utxos|] == utxos;
  }

  /** How many UTXOs are returned when `c` of `n` were chosen. */
  function Returned(n: nat, c: nat, maxInputs: int, tryAtLeastInputs: int): (k: nat)
    requires c <= n
    ensures k == Max(c, Min(n, Min(tryAtLeastInputs, maxInputs))) && c <= k <= n
  {
    c + Max(Min(n - c, Min(tryAtLeastInputs - c, maxInputs - c)), 0)
  }

  /** `prepareTxInputs`: more UTXOs join the chosen ones while the wished number of inputs is not reached. */
  method PrepareTxInputs(utxos: array<Utxo>, chosenSum: Sums, maxInputs: int, tryAtLeastInputs: int, c: nat)
    returns (r: Selection)
    requires c <= utxos.Length && Represents(chosenSum, Sum(utxos[..c])) && AllNames(chosenSum)
    requires ADA in chosenSum
    ensures r.Selected? && AllNames(r.sum) && ADA in r.sum
    ensures var k := Returned(utxos.Length, c, maxInputs, tryAtLeastInputs);
            && r.inputs == Refs(utxos[..k]) && Represents(r.sum, Sum(utxos[..k]))
            && r.sum.Keys == chosenSum.Keys + NamesIn(utxos[c..k])
  {
    hide Represents, AllNames, SumOf, UtxoNames, NamesIn;
    var k := Returned(utxos.Length, c, maxInputs, tryAtLeastInputs);
    var sum := chosenSum;
    NoNamesIn();
    assert utxos[c..c] == [];
    for i := c to k
      invariant Represents(sum, Sum(utxos[..i])) && AllNames(sum) && ADA in sum
      invariant sum.Keys == chosenSum.Keys + NamesIn(utxos[c..i])
    {
      NamesInNext(utxos[..], c, i);
      assert utxos[..][c..i] == utxos[c..i] && utxos[..][c..i + 1] == utxos[c..i + 1];
      sum := AddNext(sum, utxos[..i], utxos[i]);
      assert utxos[..i + 1] == utxos[..i] + [utxos[i]];
    }
    var inputs := Utxos2TxInputs(utxos[..k]);
    r := Selected(inputs, sum);
  }

  lemma NoNamesIn()
    ensures NamesIn([]) == {}
  {}

  // ---------- one token ----------

  /** Exactly one token is asked for, and its amounts are plain. */
  ghost predicate SingleToken(utxos: seq<Utxo>, conditions: Conditions, maxInputs: int, name: string)
  {
    conditions.Keys == {name} && maxInputs >= 1 && Plain(utxos, name)
  }

  /** Before UTXO `i`: the `c` chosen ones are the `k` largest so far, and no choice so far reached the goal. */
  ghost predicate Greedy(before: seq<Utxo>, order: seq<nat>, i: nat, c: nat, k: nat, name: string, size: nat, goal: nat)
  {
    && i <= |before| && c <= |order|
    && c == Min(i, k)
    && KeepsLargest(Amts(before, name), i, Origins(order[..c]), k)
    && FirstReach(Amts(before, name)[..i], size, goal).None?
  }

  /** The sum of the chosen UTXOs is the sum at the places they came from, and does not overflow. */
  lemma ChosenSum(now: seq<Utxo>, before: seq<Utxo>, order: seq<nat>, c: nat, name: string)
    requires c <= |now| == |order| && Arranged(now, before, order)
    ensures SumOf(now[..c], name) == SumAt(Amts(before, name), Origins(order[..c]))
    ensures SumOf(now[..c], name) <= SumOf(before, name)
    ensures |Origins(order[..c])| == c
  {
    hide SumOf, SumAt, Origins, Contribution;
    SumOfOrigins(now[..c], before, order[..c], name);
    SumOfOrigins(before, before, Identity(|before|), name);
    AllOrigins(|before|);
    OriginsWithin(order[..c], |before|);
    SumMonotone(Amts(before, name), Origins(order[..c]), Origins(Identity(|before|)));
  }

  lemma AllOrigins(n: nat)
    ensures forall j: nat :: j < n ==> j in Origins(Identity(n))
  {
    forall j: nat | j < n ensures j in Origins(Identity(n)) { assert Identity(n)[j] == j; }
  }

  lemma OriginsWithin(order: seq<nat>, n: nat)
    requires forall j :: 0 <= j < |order| ==> order[j] < n
    ensures Places(Origins(order), n) && Origins(order) <= Origins(Identity(n))
  {
    AllOrigins(n);
  }

  lemma NextOrigin(order: seq<nat>, c: nat)
    requires c < |order|
    ensures Origins(order[..c + 1]) == Origins(order[..c]) + {order[c]}
  {
    assert order[..c + 1] == order[..c] + [order[c]];
  }

  /** Check before evicting: the sum with the next UTXO reaches the goal exactly when some choice does. */
  lemma GreedyCheck(now: seq<Utxo>, before: seq<Utxo>, order: seq<nat>, i: nat, c: nat, size: nat, name: string,
                    goal: nat)
    requires i < |before| == |now| == |order| && c < |order| && Arranged(now, before, order) && order[c] == i
    requires size >= 1 && Plain(before, name) && Greedy(before, order, i, c, size - 1, name, size, goal)
    ensures SumOf(now[..c + 1], name) < U64_LIMIT
    ensures FirstReach(Amts(before, name)[..i + 1], size, goal) ==
            if SumOf(now[..c + 1], name) >= goal then Some(i + 1) else None
    ensures SumOf(now[..c + 1], name) >= goal ==> SumOf(now[..c + 1], name) == Best(Amts(before, name)[..i + 1], size)
  {
    hide SumOf, SumAt, Best, FirstReach, Contribution, Origins, ListsOnce;
    var amts, kept := Amts(before, name), Origins(order[..c]);
    ChosenSum(now, before, order, c + 1, name);
    NextOrigin(order, c);
    SumInsert(amts, kept, i);
    CheckThenEvict(amts, i, kept, size, goal);
  }

  /** Taking the next one on when there is room. */
  lemma GreedyKeep(before: seq<Utxo>, order: seq<nat>, i: nat, c: nat, k: nat, name: string, size: nat, goal: nat)
    requires i < |before| && c < |order| && order[c] == i && c < k
    requires Greedy(before, order, i, c, k, name, size, goal)
    requires FirstReach(Amts(before, name)[..i + 1], size, goal).None?
    ensures Greedy(before, order, i + 1, c + 1, k, name, size, goal)
  {
    hide SumOf, SumAt, Best, FirstReach, Contribution, Origins;
    NextOrigin(order, c);
    KeepAll(Amts(before, name), i, Origins(order[..c]), k);
  }

  /** Taking the next one on and putting the one with the least amount away. */
  lemma GreedyEvict(now: seq<Utxo>, before: seq<Utxo>, order: seq<nat>, i: nat, c: nat, idx: nat,
                    name: string, size: nat, goal: nat)
    requires i < |before| == |now| == |order| && idx <= c < |order| && Arranged(now, before, order) && order[c] == i
    requires Plain(before, name) && Greedy(before, order, i, c, c, name, size, goal)
    requires FirstReach(Amts(before, name)[..i + 1], size, goal).None?
    requires forall j :: 0 <= j <= c ==> AmountOf(now[idx], name) <= AmountOf(now[j], name)
    ensures Greedy(before, Swap(order, idx, c), i + 1, c, c, name, size, goal)
  {
    hide SumOf, SumAt, Best, FirstReach, Contribution, AmountOf, ListsOnce;
    var amts, kept := Amts(before, name), Origins(order[..c]);
    NextOrigin(order, c);
    LeastPlace(now, before, order, c, idx, name);
    ChosenSize(order, before, c);
    KeepLargest(amts, i, kept, c, order[idx]);
    EvictedOrigins(order, idx, c);
  }

  lemma ChosenSize(order: seq<nat>, before: seq<Utxo>, c: nat)
    requires c <= |order| && IsOrder(order, |before|)
    ensures |Origins(order[..c])| == c
  {
    var now := seq(|before|, j requires 0 <= j < |before| => before[order[j]]);
    ChosenSum(now, before, order, c, ADA);
  }

  lemma LeastPlace(now: seq<Utxo>, before: seq<Utxo>, order: seq<nat>, c: nat, idx: nat, name: string)
    requires |before| == |now| == |order| && idx <= c < |order| && Arranged(now, before, order) && Plain(before, name)
    requires forall j :: 0 <= j <= c ==> AmountOf(now[idx], name) <= AmountOf(now[j], name)
    ensures order[idx] in Origins(order[..c + 1])
    ensures forall x :: x in Origins(order[..c + 1]) ==>
              x < |before| && Amts(before, name)[order[idx]] <= Amts(before, name)[x]
  {
    hide Contribution, AmountOf, ListsOnce, SumOf;
    var amts := Amts(before, name);
    assert order[..c + 1][idx] == order[idx];
    AmountIsContribution(before[order[idx]], name);
    forall x | x in Origins(order[..c + 1]) ensures x < |amts| && amts[order[idx]] <= amts[x] {
      var j :| 0 <= j < c + 1 && order[..c + 1][j] == x;
      assert now[j] == before[x];
      AmountIsContribution(before[x], name);
    }
  }

  lemma EvictedOrigins(order: seq<nat>, idx: nat, c: nat)
    requires idx <= c < |order| && forall j, k :: 0 <= j < k < |order| ==> order[j] != order[k]
    ensures Origins(Swap(order, idx, c)[..c]) == Origins(order[..c]) + {order[c]} - {order[idx]}
  {
    var left, right := Origins(Swap(order, idx, c)[..c]), Origins(order[..c]) + {order[c]} - {order[idx]};
    forall x | x in left ensures x in right {
      var j :| 0 <= j < c && Swap(order, idx, c)[..c][j] == x;
      assert x == if j == idx then order[c] else order[..c][j];
    }
    forall x | x in right ensures x in left {
      if x == order[c] {
        assert Swap(order, idx, c)[..c][idx] == x;
      } else {
        var j :| 0 <= j < c && order[..c][j] == x;
        assert Swap(order, idx, c)[..c][j] == x;
      }
    }
  }

  // ---------- GetUTXOsForAmounts ----------

  /** What the in-place selection promises for any conditions: the slice is rearranged only among the visited UTXOs,
      the inputs are a prefix of it, and sum and conditions belong to that prefix. The sum has an entry for every name
      of a visited or returned UTXO, and the last visited one is the last chosen one. */
  ghost predicate InPlaceResult(r: Selection, now: seq<Utxo>, before: seq<Utxo>, conditions: Conditions, maxInputs: int,
                                tryAtLeastInputs: int, order: seq<nat>, stop: nat, chosen: nat)
  {
    && Arranged(now, before, order) && |order| == |now| == |before| && chosen <= stop <= |now|
    && (forall j :: stop <= j < |now| ==> order[j] == j)
    && (maxInputs >= 1 ==> chosen <= maxInputs)
    && match r {
         case Selected(inputs, sum) =>
           var k := Returned(|now|, chosen, maxInputs, tryAtLeastInputs);
           && chosen >= 1 && inputs == Refs(now[..k]) && Represents(sum, Sum(now[..k]))
           && AllNames(sum) && ADA in sum && sum.Keys == NamesIn(before[..stop]) + NamesIn(now[chosen..k])
           && order[chosen - 1] == stop - 1
           && Meets(now[..chosen], conditions)
         case LimitReached => stop == |now| && Meets(before, conditions)
         case CouldNotSelect => stop == |now| && !Meets(before, conditions)
       }
  }

  /** What it promises when one token is asked for. */
  ghost predicate SingleResult(r: Selection, now: seq<Utxo>, before: seq<Utxo>, maxInputs: nat, name: string, goal: nat,
                               stop: nat, chosen: nat)
    requires stop <= |before| && chosen <= |now|
  {
    && r.Selected? == FirstReach(Amts(before, name), maxInputs, goal).Some?
    && (r.Selected? ==> FirstReach(Amts(before, name), maxInputs, goal) == Some(stop)
                        && SumOf(now[..chosen], name) == Best(Amts(before, name)[..stop], maxInputs))
    && (r.LimitReached? ==> SumOf(before, name) >= goal)
    && (r.CouldNotSelect? ==> SumOf(before, name) < goal)
  }

  /** Swapping keeps the arrangement, and what was swapped in is new. */
  lemma SwapStep(now: seq<Utxo>, before: seq<Utxo>, order: seq<nat>, i: nat, c: nat)
    requires Arranged(now, before, order) && c <= i < |now| && forall j :: i <= j < |now| ==> order[j] == j
    ensures Arranged(Swap(now, c, i), before, Swap(order, c, i))
    ensures Swap(order, c, i)[c] == i && Swap(order, c, i)[..c] == order[..c]
              && Swap(now, c, i)[..c + 1] == now[..c] + [before[i]]
    ensures forall j :: i + 1 <= j < |now| ==> Swap(order, c, i)[j] == j
  {
    SwapArranged(now, before, order, c, i);
  }

  /** The state of the loop before UTXO `i` is visited. */
  ghost predicate Visiting(now: seq<Utxo>, before: seq<Utxo>, conditions: Conditions, maxInputs: int, name: string,
                           order: seq<nat>, i: nat, c: nat)
  {
    && Arranged(now, before, order) && |order| == |now| && c <= i <= |now|
    && (forall j :: i <= j < |now| ==> order[j] == j)
    && (maxInputs >= 1 ==> c < maxInputs)
    && (SingleToken(before, conditions, maxInputs, name) ==>
          Greedy(before, order, i, c, maxInputs - 1, name, maxInputs, conditions[name]))
  }

  lemma StartVisiting(before: seq<Utxo>, conditions: Conditions, maxInputs: int, name: string)
    ensures Visiting(before, before, conditions, maxInputs, name, Identity(|before|), 0, 0)
  {
    assert Identity(|before|)[..0] == [] && Origins([]) == {};
  }

  lemma NextUnmoved(now: seq<Utxo>, before: seq<Utxo>, conditions: Conditions, maxInputs: int, name: string,
                    order: seq<nat>, i: nat, c: nat)
    requires i < |now| && Visiting(now, before, conditions, maxInputs, name, order, i, c)
    ensures |order| == |now| == |before| && now[i] == before[i]
  {}

  lemma HasAda(u: Utxo)
    ensures ADA in UtxoNames(u)
  {
    hide FirstNames;
  }

  /** A chosen UTXO was visited, so its names are known. */
  lemma VisitedNames(now: seq<Utxo>, before: seq<Utxo>, conditions: Conditions, maxInputs: int, name: string,
                     order: seq<nat>, i: nat, c: nat, idx: nat)
    requires i < |now| && idx <= c <= i && Visiting(now, before, conditions, maxInputs, name, order, i, c)
    ensures UtxoNames(Swap(now, c, i)[idx]) + NamesIn(before[..i + 1]) == NamesIn(before[..i + 1])
  {
    hide SumOf, Greedy, UtxoNames, SingleToken, NamesIn;
    SwapStep(now, before, order, i, c);
    var place := Swap(order, c, i)[idx];
    var there := Swap(order, c, i)[place];
    assert place <= i || there == place;
    assert before[..i + 1][place] == before[place];
    NamesInOne(before[..i + 1], place);
  }

  /** The condition is checked: if it holds, the result is as promised; if not, no choice so far reaches the goal. */
  lemma Checked(now: seq<Utxo>, before: seq<Utxo>, conditions: Conditions, maxInputs: int, name: string,
                order: seq<nat>, i: nat, c: nat)
    requires i < |now| && c <= i && Visiting(now, before, conditions, maxInputs, name, order, i, c)
    requires SingleToken(before, conditions, maxInputs, name)
    ensures var next := Swap(now, c, i)[..c + 1];
            if Meets(next, conditions)
            then FirstReach(Amts(before, name), maxInputs, conditions[name]) == Some(i + 1)
                 && SumOf(next, name) == Best(Amts(before, name)[..i + 1], maxInputs)
            else FirstReach(Amts(before, name)[..i + 1], maxInputs, conditions[name]).None?
  {
    hide SumOf, Best, FirstReach, Origins, Plain, KeepsLargest, Contribution;
    SwapStep(now, before, order, i, c);
    var goal := conditions[name];
    assert Greedy(before, Swap(order, c, i), i, c, maxInputs - 1, name, maxInputs, goal);
    GreedyCheck(Swap(now, c, i), before, Swap(order, c, i), i, c, maxInputs, name, goal);
    if SumOf(Swap(now, c, i)[..c + 1], name) >= goal {
      ReachPrefix(Amts(before, name), maxInputs, goal, i + 1);
    }
  }

  /** The next UTXO stays while there is room. */
  lemma KeepStep(now: seq<Utxo>, before: seq<Utxo>, conditions: Conditions, maxInputs: int, name: string,
                 order: seq<nat>, i: nat, c: nat)
    requires i < |now| && c <= i && Visiting(now, before, conditions, maxInputs, name, order, i, c)
    requires !Meets(Swap(now, c, i)[..c + 1], conditions) && c + 1 != maxInputs
    ensures Visiting(Swap(now, c, i), before, conditions, maxInputs, name, Swap(order, c, i), i + 1, c + 1)
  {
    hide SumOf, Best, FirstReach, Origins, Plain, KeepsLargest, Contribution, Meets;
    SwapStep(now, before, order, i, c);
    if SingleToken(before, conditions, maxInputs, name) {
      Checked(now, before, conditions, maxInputs, name, order, i, c);
      GreedyKeep(before, Swap(order, c, i), i, c, maxInputs - 1, name, maxInputs, conditions[name]);
    }
  }

  /** With a full choice the UTXO at `idx` goes behind the chosen ones. */
  lemma EvictStep(now: seq<Utxo>, before: seq<Utxo>, conditions: Conditions, maxInputs: int, name: string,
                  order: seq<nat>, i: nat, c: nat, sum: Sums, replaceName: string, idx: nat)
    requires i < |now| && c <= i && Visiting(now, before, conditions, maxInputs, name, order, i, c)
              && c + 1 == maxInputs
    requires Represents(sum, Sum(Swap(now, c, i)[..c + 1])) && !Meets(Swap(now, c, i)[..c + 1], conditions)
    requires IsReplaceName(sum, conditions, replaceName) && idx <= c
    requires forall j :: 0 <= j <= c ==>
               AmountOf(Swap(now, c, i)[idx], replaceName) <= AmountOf(Swap(now, c, i)[j], replaceName)
    ensures Visiting(Swap(Swap(now, c, i), idx, c), before, conditions, maxInputs, name,
                     Swap(Swap(order, c, i), idx, c), i + 1, c)
  {
    hide SumOf, Best, FirstReach, Origins, Plain, KeepsLargest, Contribution, Meets, AmountOf, Represents;
    SwapStep(now, before, order, i, c);
    SwapArranged(Swap(now, c, i), before, Swap(order, c, i), idx, c);
    if SingleToken(before, conditions, maxInputs, name) {
      Checked(now, before, conditions, maxInputs, name, order, i, c);
      MeetsMeaning(sum, Swap(now, c, i)[..c + 1], conditions);
      assert replaceName == name;
      GreedyEvict(Swap(now, c, i), before, Swap(order, c, i), i, c, idx, name, maxInputs, conditions[name]);
    }
  }

  /** The result when the chosen UTXOs meet the conditions. */
  lemma FoundResult(r: Selection, now: seq<Utxo>, before: seq<Utxo>, conditions: Conditions, maxInputs: int,
                    tryAtLeastInputs: int, name: string, order: seq<nat>, i: nat, c: nat)
    requires i < |now| == |order| && c <= i && Visiting(now, before, conditions, maxInputs, name, order, i, c)
    requires Meets(Swap(now, c, i)[..c + 1], conditions) && r.Selected?
    requires AllNames(r.sum) && ADA in r.sum
    requires var k, next := Returned(|now|, c + 1, maxInputs, tryAtLeastInputs), Swap(now, c, i);
             && r.inputs == Refs(next[..k]) && Represents(r.sum, Sum(next[..k]))
             && r.sum.Keys == NamesIn(before[..i + 1]) + NamesIn(next[c + 1..k])
    ensures InPlaceResult(r, Swap(now, c, i), before, conditions, maxInputs, tryAtLeastInputs, Swap(order, c, i),
                          i + 1, c + 1)
    ensures SingleToken(before, conditions, maxInputs, name) ==>
              SingleResult(r, Swap(now, c, i), before, maxInputs, name, conditions[name], i + 1, c + 1)
  {
    hide SumOf, Best, FirstReach, Origins, Plain, KeepsLargest, Contribution, Meets, Represents, AllNames, Greedy,
      Returned, NamesIn;
    SwapStep(now, before, order, i, c);
    if SingleToken(before, conditions, maxInputs, name) {
      Checked(now, before, conditions, maxInputs, name, order, i, c);
    }
  }

  /** The result when all UTXOs were visited in vain. */
  lemma NothingFound(r: Selection, now: seq<Utxo>, before: seq<Utxo>, conditions: Conditions, maxInputs: int,
                     tryAtLeastInputs: int, name: string, order: seq<nat>, c: nat)
    requires Visiting(now, before, conditions, maxInputs, name, order, |now|, c)
    requires r == if Meets(before, conditions) then LimitReached else CouldNotSelect
    ensures InPlaceResult(r, now, before, conditions, maxInputs, tryAtLeastInputs, order, |now|, c)
    ensures SingleToken(before, conditions, maxInputs, name) ==>
              SingleResult(r, now, before, maxInputs, name, conditions[name], |now|, c)
  {
    hide SumOf, Best, FirstReach, Origins, KeepsLargest, Contribution, ListsOnce;
    assert Amts(before, name)[..|before|] == Amts(before, name);
  }

  // ---------- the loop as a run ----------

  /** The slice and how many of its first UTXOs are chosen. */
  datatype Window = Window(slice: seq<Utxo>, count: nat)

  /** The UTXO at `idx` has the least of a token that is missing most. */
  ghost predicate IsLeast(chosen: seq<Utxo>, conditions: Conditions, sum: Sums, replaceName: string, idx: nat)
    requires idx < |chosen|
  {
    && Represents(sum, Sum(chosen)) && IsReplaceName(sum, conditions, replaceName)
    && forall j :: 0 <= j < |chosen| ==> AmountOf(chosen[idx], replaceName) <= AmountOf(chosen[j], replaceName)
  }

  /** The choice is full: a least UTXO goes behind it. */
  ghost predicate IsEviction(next: seq<Utxo>, chosen: seq<Utxo>, t: Window, conditions: Conditions)
    requires 1 <= |chosen| <= |next|
  {
    exists sum: Sums, replaceName: string, idx: nat ::
      && idx < |chosen| && IsLeast(chosen, conditions, sum, replaceName, idx)
      && t == Window(Swap(next, idx, |chosen| - 1), |chosen| - 1)
  }

  /** UTXO `i` is visited in vain: it joins the choice, and a least one leaves it when it is full. */
  ghost predicate IsVisit(s: Window, t: Window, conditions: Conditions, maxInputs: int, i: nat)
  {
    && s.count <= i < |s.slice|
    && var next := Swap(s.slice, s.count, i);
       && !Meets(next[..s.count + 1], conditions)
       && if s.count + 1 == maxInputs then IsEviction(next, next[..s.count + 1], t, conditions)
          else t == Window(next, s.count + 1)
  }

  ghost predicate IsRun(run: seq<Window>, before: seq<Utxo>, conditions: Conditions, maxInputs: int)
  {
    && 1 <= |run| <= |before| + 1 && run[0] == Window(before, 0)
    && forall i :: 0 <= i < |run| - 1 ==> IsVisit(run[i], run[i + 1], conditions, maxInputs, i)
  }

  /** The visits in vain before the result: all of them, or those before the UTXO that completes the choice. */
  ghost predicate IsLoop(run: seq<Window>, r: Selection, now: seq<Utxo>, before: seq<Utxo>, conditions: Conditions,
                         maxInputs: int, chosen: nat)
  {
    && IsRun(run, before, conditions, maxInputs)
    && var last, i := run[|run| - 1], |run| - 1;
       if r.Selected? then
         last.count <= i < |last.slice| && now == Swap(last.slice, last.count, i) && chosen == last.count + 1
       else i == |before| && last == Window(now, chosen)
  }

  lemma VisitKeeps(run: seq<Window>, before: seq<Utxo>, conditions: Conditions, maxInputs: int, t: Window)
    requires IsRun(run, before, conditions, maxInputs) && |run| <= |before|
    requires IsVisit(run[|run| - 1], t, conditions, maxInputs, |run| - 1)
    ensures IsRun(run + [t], before, conditions, maxInputs)
  {
    hide IsVisit;
    var next := run + [t];
    forall i | 0 <= i < |next| - 1 ensures IsVisit(next[i], next[i + 1], conditions, maxInputs, i) {
      assert next[i] == run[i];
    }
  }

  lemma StartRun(before: seq<Utxo>, conditions: Conditions, maxInputs: int) returns (run: seq<Window>)
    ensures run == [Window(before, 0)] && IsRun(run, before, conditions, maxInputs)
  {
    run := [Window(before, 0)];
  }

  /** What the loop body did when it went on. */
  lemma Visited(s: Window, conditions: Conditions, maxInputs: int, i: nat, sum: Sums, replaceName: string, idx: nat)
    requires s.count <= i < |s.slice| && !Meets(Swap(s.slice, s.count, i)[..s.count + 1], conditions)
    ensures s.count + 1 != maxInputs ==>
              IsVisit(s, Window(Swap(s.slice, s.count, i), s.count + 1), conditions, maxInputs, i)
    ensures var next := Swap(s.slice, s.count, i);
            s.count + 1 == maxInputs && idx <= s.count
            && IsLeast(next[..s.count + 1], conditions, sum, replaceName, idx) ==>
              IsVisit(s, Window(Swap(next, idx, s.count), s.count), conditions, maxInputs, i)
  {
    hide Meets, Swap, IsLeast;
  }

  /** Moving UTXO `i` behind the chosen ones and adding it to both running sums. */
  method TakeNext(utxos: array<Utxo>, i: nat, c: nat, sum0: Sums, total0: Sums, ghost before: seq<Utxo>)
    returns (sum: Sums, total: Sums)
    requires c <= i < utxos.Length == |before| && utxos[i] == before[i]
    requires Represents(sum0, Sum(utxos[..c])) && AllNames(sum0) && sum0.Keys == NamesIn(before[..i])
    requires Represents(total0, Sum(before[..i])) && AllNames(total0)
    modifies utxos
    ensures utxos[..] == Swap(old(utxos[..]), c, i)
    ensures Represents(sum, Sum(utxos[..c + 1])) && AllNames(sum)
    ensures sum.Keys == NamesIn(before[..i + 1]) && ADA in sum
    ensures Represents(total, Sum(before[..i + 1])) && AllNames(total)
  {
    hide SumOf, Represents, AllNames, Sum, UtxoNames, NamesIn;
    ghost var now := utxos[..];
    NamesInNext(before, 0, i);
    assert before[0..i] == before[..i] && before[0..i + 1] == before[..i + 1];
    HasAda(before[i]);
    var utxo := utxos[i];
    utxos[c], utxos[i] := utxo, utxos[c];
    assert utxos[..] == Swap(now, c, i);
    sum := AddNext(sum0, now[..c], utxo);
    assert now[..c] == old(utxos[..c]);
    total := AddNext(total0, before[..i], utxo);
    assert utxos[..c + 1] == now[..c] + [utxo];
    assert before[..i + 1] == before[..i] + [utxo];
  }

  /** Putting the least of the `c + 1` chosen UTXOs behind them and taking it out of the running sum. */
  method EvictLeast(utxos: array<Utxo>, c: nat, sum0: Sums, conditions: Conditions)
    returns (sum: Sums, ghost replaceName: string, ghost idx: nat)
    requires c < utxos.Length && Represents(sum0, Sum(utxos[..c + 1])) && AllNames(sum0)
    modifies utxos
    ensures IsReplaceName(sum0, conditions, replaceName) && idx <= c
    ensures forall j :: 0 <= j <= c ==>
              AmountOf(old(utxos[..])[idx], replaceName) <= AmountOf(old(utxos[..])[j], replaceName)
    ensures IsLeast(old(utxos[..c + 1]), conditions, sum0, replaceName, idx)
    ensures utxos[..] == Swap(old(utxos[..]), idx, c)
    ensures Represents(sum, Sum(utxos[..c])) && AllNames(sum) && sum.Keys == sum0.Keys + UtxoNames(old(utxos[..])[idx])
  {
    hide SumOf, Represents, AllNames, Sum, AmountOf, IsReplaceName, UtxoNames;
    ghost var taken := utxos[..];
    var replaceTokenName := ChooseReplaceName(sum0, conditions);
    var minIdx := FindMinUtxo(utxos[..c + 1], replaceTokenName);
    replaceName, idx := replaceTokenName, minIdx;
    assert forall j :: 0 <= j <= c ==> taken[j] == utxos[..c + 1][j];
    var minChosenUTXO := utxos[minIdx];
    utxos[minIdx], utxos[c] := utxos[c], utxos[minIdx];
    assert utxos[..] == Swap(taken, idx, c);
    assert utxos[..c] == taken[..c + 1][idx := taken[c]][..c];
    assert taken[..c + 1] == old(utxos[..c + 1]);
    sum := SubtractChosen(sum0, minChosenUTXO, taken[..c + 1], idx, utxos[..c]);
  }

  /** UTXO `i` joined the choice in vain; when the choice is full, a least one leaves it. */
  method MakeRoom(utxos: array<Utxo>, count0: nat, sum0: Sums, conditions: Conditions, maxInputs: int,
                  ghost now: seq<Utxo>, ghost before: seq<Utxo>, ghost order0: seq<nat>, ghost i: nat,
                  ghost name: string)
    returns (count: nat, sum: Sums, ghost order: seq<nat>)
    requires 1 <= count0 <= i + 1 <= |now| && utxos[..] == Swap(now, count0 - 1, i)
    requires Visiting(now, before, conditions, maxInputs, name, order0, i, count0 - 1)
    requires Represents(sum0, Sum(utxos[..count0])) && AllNames(sum0) && sum0.Keys == NamesIn(before[..i + 1])
    requires !Meets(utxos[..count0], conditions)
    modifies utxos
    ensures count <= i + 1 && Visiting(utxos[..], before, conditions, maxInputs, name, order, i + 1, count)
    ensures Represents(sum, Sum(utxos[..count])) && AllNames(sum) && sum.Keys == NamesIn(before[..i + 1])
    ensures IsVisit(Window(now, count0 - 1), Window(utxos[..], count), conditions, maxInputs, i)
  {
    hide SumOf, Meets, AmountOf, Represents, AllNames, SingleToken, IsReplaceName, Arranged, Sum, Visiting, Swap,
      UtxoNames, NamesIn, IsVisit, IsLeast;
    ghost var c: nat := count0 - 1;
    NextUnmoved(now, before, conditions, maxInputs, name, order0, i, c);
    if count0 == maxInputs {
      count := count0 - 1;
      ghost var replaceName, idx;
      sum, replaceName, idx := EvictLeast(utxos, count, sum0, conditions);
      VisitedNames(now, before, conditions, maxInputs, name, order0, i, c, idx);
      EvictStep(now, before, conditions, maxInputs, name, order0, i, c, sum0, replaceName, idx);
      order := Swap(Swap(order0, c, i), idx, c);
      Visited(Window(now, c), conditions, maxInputs, i, sum0, replaceName, idx);
    } else {
      count, sum := count0, sum0;
      KeepStep(now, before, conditions, maxInputs, name, order0, i, c);
      order := Swap(order0, c, i);
      Visited(Window(now, c), conditions, maxInputs, i, map[], "", 0);
    }
  }

  method GetUTXOsForAmounts(utxos: array<Utxo>, conditions: Conditions, maxInputs: int, tryAtLeastInputs: int,
                            ghost name: string)
    returns (r: Selection, ghost order: seq<nat>, ghost stop: nat, ghost chosen: nat, ghost run: seq<Window>)
    modifies utxos
    ensures InPlaceResult(r, utxos[..], old(utxos[..]), conditions, maxInputs, tryAtLeastInputs, order, stop, chosen)
    ensures SingleToken(old(utxos[..]), conditions, maxInputs, name) ==>
              SingleResult(r, utxos[..], old(utxos[..]), maxInputs, name, conditions[name], stop, chosen)
    ensures IsLoop(run, r, utxos[..], old(utxos[..]), conditions, maxInputs, chosen)
  {
    hide SumOf, Best, FirstReach, Origins, Plain, KeepsLargest, Contribution, Meets, AmountOf, Represents, Greedy,
      AllNames, SingleToken, IsReplaceName, Satisfies, Arranged, Sum, Visiting, InPlaceResult, SingleResult, Swap,
      Returned, Min, Max, UtxoNames, NamesIn, IsRun, IsVisit, IsLeast;
    ghost var before := utxos[..];
    var currentSum: Sums, currentSumTotal: Sums := map[], map[];
    var choosenCount: nat := 0;
    order := Identity(utxos.Length);
    StartVisiting(before, conditions, maxInputs, name);
    EmptySums();
    assert utxos[..0] == before[..0] == [];
    NoNamesIn();
    run := StartRun(before, conditions, maxInputs);
    for i := 0 to utxos.Length
      invariant choosenCount <= i
      invariant Visiting(utxos[..], before, conditions, maxInputs, name, order, i, choosenCount)
      invariant Represents(currentSum, Sum(utxos[..choosenCount])) && AllNames(currentSum)
      invariant currentSum.Keys == NamesIn(before[..i])
      invariant Represents(currentSumTotal, Sum(before[..i])) && AllNames(currentSumTotal)
      invariant IsRun(run, before, conditions, maxInputs) && |run| == i + 1
      invariant run[i] == Window(utxos[..], choosenCount)
    {
      ghost var now, c := utxos[..], choosenCount;
      NextUnmoved(now, before, conditions, maxInputs, name, order, i, c);
      currentSum, currentSumTotal := TakeNext(utxos, i, choosenCount, currentSum, currentSumTotal, before);
      choosenCount := choosenCount + 1;

      var satisfied := DoesSumSatisfyCondition(currentSum, conditions);
      MeetsMeaning(currentSum, utxos[..choosenCount], conditions);
      if satisfied {
        stop, chosen := i + 1, choosenCount;
        r := PrepareTxInputs(utxos, currentSum, maxInputs, tryAtLeastInputs, choosenCount);
        FoundResult(r, now, before, conditions, maxInputs, tryAtLeastInputs, name, order, i, c);
        order := Swap(order, c, i);
        return;
      }

      choosenCount, currentSum, order := MakeRoom(utxos, choosenCount, currentSum, conditions, maxInputs, now, before,
                                                  order, i, name);
      VisitKeeps(run, before, conditions, maxInputs, Window(utxos[..], choosenCount));
      run := run + [Window(utxos[..], choosenCount)];
    }
    stop, chosen := utxos.Length, choosenCount;
    var satisfiedTotal := DoesSumSatisfyCondition(currentSumTotal, conditions);
    assert before[..utxos.Length] == before;
    MeetsMeaning(currentSumTotal, before, conditions);
    r := if satisfiedTotal then LimitReached else CouldNotSelect;
    NothingFound(r, utxos[..], before, conditions, maxInputs, tryAtLeastInputs, name, order, choosenCount);
  }

  // ---------- what the result means ----------

  lemma ReadSum(sum: Sums, utxos: seq<Utxo>, name: string)
    requires Represents(sum, Sum(utxos))
    ensures Read(sum, name) == SumOf(utxos, name) % U64_LIMIT
  {
    assert Read(sum, name) == Sum(utxos)(name) % U64_LIMIT;
  }

  /** What is left when the element at `idx` is overwritten with the last one, which is dropped. */
  function Without<T>(s: seq<T>, idx: nat): seq<T>
    requires idx < |s|
  {
    s[idx := s[|s| - 1]][..|s| - 1]
  }

  lemma PlaceOf(order: seq<nat>, x: nat) returns (j: nat)
    requires x in Origins(order)
    ensures j < |order| && order[j] == x
  {
    j :| 0 <= j < |order| && order[j] == x;
  }

  /** A successful in-place selection: its size, no input twice, the exact sums and the conditions met by them, for
      every token whose total over all UTXOs fits in 64 bits. */
  lemma InPlaceMeaning(r: Selection, now: seq<Utxo>, before: seq<Utxo>, conditions: Conditions, maxInputs: int,
                       tryAtLeastInputs: int, order: seq<nat>, stop: nat, chosen: nat)
    requires InPlaceResult(r, now, before, conditions, maxInputs, tryAtLeastInputs, order, stop, chosen) && r.Selected?
    ensures |r.inputs| == Max(chosen, Min(|before|, Min(tryAtLeastInputs, maxInputs))) <= |now| && 1 <= |r.inputs|
    ensures maxInputs >= 1 ==> |r.inputs| <= maxInputs
    ensures multiset(now) == multiset(before)
    ensures forall j :: 0 <= j < |r.inputs| ==> r.inputs[j].hash == now[j].hash && r.inputs[j].index == now[j].index
    ensures (forall j, k :: 0 <= j < k < |before| ==>
               before[j].hash != before[k].hash || before[j].index != before[k].index) ==>
              forall j, k :: 0 <= j < k < |r.inputs| ==> r.inputs[j] != r.inputs[k]
    ensures forall name :: SumOf(before, name) < U64_LIMIT ==> Read(r.sum, name) == SumOf(now[..|r.inputs|], name)
    ensures (forall name :: name in conditions ==> SumOf(before, name) < U64_LIMIT) ==> Satisfies(r.sum, conditions)
  {
    hide SumOf, Represents, Sum, Arranged, AllNames, Returned, IsOrder, NamesIn, Refs;
    var k := |r.inputs|;
    PrefixSums(now, before, order, chosen, k);
    ReadSums(r.sum, now[..k]);
    SameElements(now, before, order);
    InputsMeaning(now, before, order, k);
  }

  lemma ReadSums(sum: Sums, utxos: seq<Utxo>)
    requires Represents(sum, Sum(utxos))
    ensures forall name :: Read(sum, name) == SumOf(utxos, name) % U64_LIMIT
  {
    hide SumOf, Represents, Sum;
    forall name ensures Read(sum, name) == SumOf(utxos, name) % U64_LIMIT { ReadSum(sum, utxos, name); }
  }

  lemma PrefixSums(now: seq<Utxo>, before: seq<Utxo>, order: seq<nat>, c: nat, k: nat)
    requires c <= k <= |now| == |order| && Arranged(now, before, order)
    ensures forall name :: SumOf(now[..c], name) <= SumOf(now[..k], name) <= SumOf(before, name)
  {
    hide SumOf, Arranged;
    forall name ensures SumOf(now[..c], name) <= SumOf(now[..k], name) <= SumOf(before, name) {
      ChosenSum(now, before, order, k, name);
      PrefixSum(now[..k], c, name);
      assert now[..k][..c] == now[..c];
    }
  }

  lemma {:induction false} PrefixSum(s: seq<Utxo>, i: nat, name: string)
    requires i <= |s|
    ensures SumOf(s[..i], name) <= SumOf(s, name)
    decreases |s|
  {
    if i < |s| {
      PrefixSum(s[..|s| - 1], i, name);
      assert s[..|s| - 1][..i] == s[..i];
    } else {
      assert s[..i] == s;
    }
  }

  /** The inputs of the first `n` elements name them by hash and index, and are different if those before were. */
  lemma InputsMeaning(now: seq<Utxo>, before: seq<Utxo>, order: seq<nat>, n: nat)
    requires Arranged(now, before, order) && n <= |now|
    ensures forall j :: 0 <= j < n ==>
              Refs(now[..n])[j].hash == now[j].hash && Refs(now[..n])[j].index == now[j].index
    ensures (forall j, k :: 0 <= j < k < |before| ==>
               before[j].hash != before[k].hash || before[j].index != before[k].index) ==>
              forall j, k :: 0 <= j < k < n ==> Refs(now[..n])[j] != Refs(now[..n])[k]
  {
    if forall j, k :: 0 <= j < k < |before| ==> before[j].hash != before[k].hash || before[j].index != before[k].index {
      forall j, k | 0 <= j < k < n ensures Refs(now[..n])[j] != Refs(now[..n])[k] {
        assert now[j] == before[order[j]] && now[k] == before[order[k]];
        assert order[j] < order[k] || order[k] < order[j];
      }
    }
  }

  lemma WithoutElement<T>(s: seq<T>, j: nat)
    requires j < |s|
    ensures multiset(s) == multiset(Without(s, j)) + multiset{s[j]}
  {
    var n := |s| - 1;
    assert s == s[..n] + [s[n]];
    if j < n {
      assert s[..n] == s[..j] + [s[j]] + s[j + 1..n] && Without(s, j) == s[..j] + [s[n]] + s[j + 1..n];
    } else {
      assert Without(s, j) == s[..n];
    }
  }

  lemma WithoutArranged(now: seq<Utxo>, before: seq<Utxo>, order: seq<nat>, j: nat)
    requires Arranged(now, before, order) && j < |now| && order[j] == |now| - 1
    ensures Arranged(Without(now, j), before[..|now| - 1], Without(order, j))
  {}

  lemma LastPlace(order: seq<nat>, before: seq<Utxo>) returns (j: nat)
    requires IsOrder(order, |before|) && before != []
    ensures j < |order| && order[j] == |before| - 1
  {
    hide Origins;
    ChosenSize(order, before, |before|);
    assert order[..|before|] == order;
    OriginsWithin(order, |before|);
    PlacesSize(Origins(order), |before|);
    j := PlaceOf(order, |before| - 1);
  }

  /** A rearranged sequence has the same elements equally often. */
  lemma {:induction false} SameElements(now: seq<Utxo>, before: seq<Utxo>, order: seq<nat>)
    requires Arranged(now, before, order)
    ensures multiset(now) == multiset(before)
    decreases |now|
  {
    if now != [] {
      var n := |now| - 1;
      var j := LastPlace(order, before);
      WithoutArranged(now, before, order, j);
      hide Arranged, Without;
      SameElements(Without(now, j), before[..n], Without(order, j));
      WithoutElement(now, j);
      assert before == before[..n] + [before[n]];
    }
  }
}
