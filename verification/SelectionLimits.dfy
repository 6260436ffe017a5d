/** When `GetUTXOsForAmounts` finds a choice that exists: where no total overflows, always, unless a limit of at least
    two inputs and more UTXOs than the limit come together with two conditions or with a condition on a token that some
    UTXO lists twice. */
module SelectionLimits {
  import opened Numbers
  import opened WalletData
  import opened Amounts
  import opened CoinSelection
  import opened Selectors

  /** Some non-empty choice meets every condition; a limit below 1 is none. */
  ghost predicate SomeChoiceMeets(utxos: seq<Utxo>, conditions: Conditions, maxInputs: int)
  {
    exists places: set<nat> :: IsChoice(places, utxos, conditions, maxInputs)
  }

  ghost predicate IsChoice(places: set<nat>, utxos: seq<Utxo>, conditions: Conditions, maxInputs: int)
  {
    && Places(places, |utxos|) && places != {} && (maxInputs >= 1 ==> |places| <= maxInputs)
    && forall name :: name in conditions ==> SumAt(Amts(utxos, name), places) >= conditions[name]
  }

  /** No total that is asked for overflows. */
  ghost predicate AllFit(utxos: seq<Utxo>, conditions: Conditions)
  {
    forall name :: name in conditions && conditions[name] > 0 ==> SumOf(utxos, name) < U64_LIMIT
  }

  predicate NothingAsked(conditions: Conditions) { forall name :: name in conditions ==> conditions[name] == 0 }

  // ---------- what is selected is a choice ----------

  lemma SelectedIsChoice(r: Selection, now: seq<Utxo>, before: seq<Utxo>, conditions: Conditions, maxInputs: int,
                         tryAtLeastInputs: int, order: seq<nat>, stop: nat, chosen: nat)
    requires InPlaceResult(r, now, before, conditions, maxInputs, tryAtLeastInputs, order, stop, chosen) && r.Selected?
    requires AllFit(before, conditions)
    ensures SomeChoiceMeets(before, conditions, maxInputs)
  {
    hide SumOf, SumAt, Represents, AllNames, Origins, NamesIn, Returned, Sum, Contribution;
    var places := Origins(order[..chosen]);
    ChosenPlaces(before, order, chosen);
    forall name | name in conditions ensures SumAt(Amts(before, name), places) >= conditions[name] {
      ChosenSum(now, before, order, chosen, name);
    }
    assert IsChoice(places, before, conditions, maxInputs);
  }

  lemma ChosenPlaces(before: seq<Utxo>, order: seq<nat>, c: nat)
    requires 1 <= c <= |order| && IsOrder(order, |before|)
    ensures Places(Origins(order[..c]), |before|) && |Origins(order[..c])| == c && Origins(order[..c]) != {}
  {
    hide Origins;
    ChosenSize(order, before, c);
    OriginsWithin(order[..c], |before|);
  }

  // ---------- complete shapes ----------

  /** Before UTXO `i`: nothing behind is touched, and as long as nothing was evicted nothing moved. */
  lemma {:induction false} RunState(run: seq<Window>, before: seq<Utxo>, conditions: Conditions, maxInputs: int,
                                    i: nat)
    requires IsRun(run, before, conditions, maxInputs) && i < |run|
    ensures |run[i].slice| == |before| && run[i].count == (if maxInputs >= 1 then Min(i, maxInputs - 1) else i)
    ensures forall j :: i <= j < |before| ==> run[i].slice[j] == before[j]
    ensures maxInputs < 1 || i < maxInputs ==> run[i].slice == before
    decreases i
  {
    hide Meets, IsLeast;
    if i > 0 {
      RunState(run, before, conditions, maxInputs, i - 1);
      assert IsVisit(run[i - 1], run[i], conditions, maxInputs, i - 1);
      if run[i - 1].slice == before && run[i - 1].count == i - 1 {
        assert Swap(before, i - 1, i - 1) == before;
      }
    }
  }

  /** Until something is evicted the choices are the prefixes. */
  lemma PrefixFails(run: seq<Window>, before: seq<Utxo>, conditions: Conditions, maxInputs: int, i: nat)
    requires IsRun(run, before, conditions, maxInputs) && i + 1 < |run|
    requires maxInputs < 1 || i < maxInputs
    ensures !Meets(before[..i + 1], conditions)
  {
    hide Meets, IsLeast;
    RunState(run, before, conditions, maxInputs, i);
    assert IsVisit(run[i], run[i + 1], conditions, maxInputs, i);
    assert Swap(before, i, i) == before;
  }

  /** With a limit of 1 every UTXO is tried by itself. */
  lemma SingleFails(run: seq<Window>, before: seq<Utxo>, conditions: Conditions, i: nat)
    requires IsRun(run, before, conditions, 1) && i + 1 < |run|
    ensures !Meets([before[i]], conditions)
  {
    hide Meets, IsLeast;
    RunState(run, before, conditions, 1, i);
    assert IsVisit(run[i], run[i + 1], conditions, 1, i);
    assert Swap(run[i].slice, 0, i)[..1] == [before[i]];
  }

  lemma ChoiceWithinAll(places: set<nat>, utxos: seq<Utxo>, conditions: Conditions, maxInputs: int)
    requires IsChoice(places, utxos, conditions, maxInputs) && AllFit(utxos, conditions)
    ensures Meets(utxos, conditions)
  {
    hide SumOf, SumAt, Origins;
    AllOrigins(|utxos|);
    forall name | name in conditions ensures SumOf(utxos, name) % U64_LIMIT >= conditions[name] {
      SumOfOrigins(utxos, utxos, Identity(|utxos|), name);
      SumMonotone(Amts(utxos, name), places, Origins(Identity(|utxos|)));
    }
  }

  lemma ChoiceOfOne(places: set<nat>, utxos: seq<Utxo>, conditions: Conditions) returns (x: nat)
    requires IsChoice(places, utxos, conditions, 1) && AllFit(utxos, conditions)
    ensures x < |utxos| && Meets([utxos[x]], conditions)
  {
    hide SumAt, Contribution;
    x :| x in places;
    SubsetSize({x}, places);
    assert places == {x};
    forall name | name in conditions ensures SumOf([utxos[x]], name) % U64_LIMIT >= conditions[name] {
      var amts := Amts(utxos, name);
      EmptySum(amts);
      SumInsert(amts, {}, x);
      assert {} + {x} == places;
      SumSnoc([], utxos[x], name);
      assert [] + [utxos[x]] == [utxos[x]];
      ChoiceWithinAll(places, utxos, conditions, 1);
      OneOfAll(utxos, x, name);
    }
  }

  lemma OneOfAll(utxos: seq<Utxo>, x: nat, name: string)
    requires x < |utxos|
    ensures Contribution(utxos[x], name) <= SumOf(utxos, name)
  {
    hide Contribution;
    PrefixSum(utxos, x + 1, name);
    assert utxos[..x + 1] == utxos[..x] + [utxos[x]];
    SumSnoc(utxos[..x], utxos[x], name);
  }

  /** The result is right when nothing is asked for, or one condition on a token that no UTXO lists twice, or with a
      limit of at most one (below one is none), or with no more UTXOs than the limit. */
  lemma ChoiceIsFound(r: Selection, now: seq<Utxo>, before: seq<Utxo>, conditions: Conditions, maxInputs: int,
                      tryAtLeastInputs: int, name: string, order: seq<nat>, stop: nat, chosen: nat, run: seq<Window>)
    requires InPlaceResult(r, now, before, conditions, maxInputs, tryAtLeastInputs, order, stop, chosen)
    requires SingleToken(before, conditions, maxInputs, name) ==>
               SingleResult(r, now, before, maxInputs, name, conditions[name], stop, chosen)
    requires IsLoop(run, r, now, before, conditions, maxInputs, chosen)
    requires AllFit(before, conditions)
    requires NothingAsked(conditions) || SingleToken(before, conditions, maxInputs, name) || maxInputs <= 1
             || |before| <= maxInputs
    ensures r.Selected? <==> SomeChoiceMeets(before, conditions, maxInputs)
  {
    hide SumOf, IsRun, Meets, SumAt, Plain, Contribution, Represents, AllNames, Arranged, NamesIn;
    if r.Selected? {
      SelectedIsChoice(r, now, before, conditions, maxInputs, tryAtLeastInputs, order, stop, chosen);
    } else if SomeChoiceMeets(before, conditions, maxInputs) {
      var places :| IsChoice(places, before, conditions, maxInputs);
      ChoiceWithinAll(places, before, conditions, maxInputs);
      var n := |before|;
      assert n > 0 by { SomePlace(places, n); }
      if maxInputs == 1 {
        var x := ChoiceOfOne(places, before, conditions);
        SingleFails(run, before, conditions, x);
      } else if maxInputs < 1 || n <= maxInputs {
        assert before[..n] == before;
        PrefixFails(run, before, conditions, maxInputs, n - 1);
      } else if NothingAsked(conditions) {
        PrefixFails(run, before, conditions, maxInputs, 0);
        NoConditions(before[..1], conditions);
      } else {
        ReachMeaning(Amts(before, name), maxInputs, conditions[name]);
      }
    }
  }

  lemma SomePlace(places: set<nat>, n: nat)
    requires Places(places, n) && places != {}
    ensures n > 0
  {
    var x :| x in places;
  }

  lemma NoConditions(utxos: seq<Utxo>, conditions: Conditions)
    requires NothingAsked(conditions)
    ensures Meets(utxos, conditions)
  {}
}
