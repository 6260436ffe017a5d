/** Balancing a transaction (`populateTxBuilder` and `createTx` of `sendtx/tx_sender.go`). What the node and the command
    line tool answer is arbitrary. */
module TxSending {
  import opened Wrappers
  import opened Numbers
  import opened WalletData
  import opened Amounts
  import opened CoinSelection
  import opened Selectors
  import opened SelectionLimits
  import opened AppendSelector
  import opened TokenLists
  import opened TxBuilders

  datatype Receiver = Receiver(addr: string, amount: U64, nativeTokens: seq<TokenAmount>)

  /** The part of a chain configuration that balancing uses; a zero fee or time-to-live increment means the default. */
  datatype Settings = Settings(minUtxoValue: U64, potentialFee: U64, ttlSlotNumberInc: U64)

  /** Answers of the transaction provider and of the command line tool; `None` is a failed call. */
  datatype Answers = Answers(utxos: Option<seq<Utxo>>, minUtxo: TxOutput -> Option<U64>,
                             fee: (seq<TxInput>, seq<TxOutput>) -> Option<U64>, tip: Option<U64>, rawTx: bool)

  datatype TxError = NoUtxos | NoMinUtxo | UtxosLimitReached | UtxosCouldNotSelect | BadTokenName | NoTip | NoFee
                   | InsufficientChange | NotBuilt

  datatype Population = Population(changeLovelace: U64, changeMinUtxo: U64, chosenInputs: seq<TxInput>)

  datatype TxInfo = TxInfo(changeMinUtxo: U64, chosenInputs: seq<TxInput>)

  function SetOrDefault(val: U64, def: U64): U64 { if val == 0 then def else val }

  function PotentialFee(config: Settings): U64 { SetOrDefault(config.potentialFee, 400000) }

  function AsOutput(r: Receiver): TxOutput { TxOutput(r.addr, r.amount, r.nativeTokens) }

  /** What the receivers get. */
  function Outputs(receivers: seq<Receiver>): (r: seq<TxOutput>)
    ensures |r| == |receivers|
  {
    seq(|receivers|, i requires 0 <= i < |receivers| => AsOutput(receivers[i]))
  }

  // ---------- merging the receivers' tokens ----------

  /** Each name occurs once, at the place the index says, with the wrapped total of all tokens seen. */
  ghost predicate Merged(tokens: seq<TokenAmount>, index: map<string, nat>, seen: seq<TokenAmount>)
  {
    && (forall i :: 0 <= i < |tokens| ==> TokenName(tokens[i].token) in index && index[TokenName(tokens[i].token)] == i)
    && (forall name :: name in index ==> index[name] < |tokens| && TokenName(tokens[index[name]].token) == name)
    && (forall name :: TokenTotal(tokens, name) == TokenTotal(seen, name) % U64_LIMIT)
  }

  predicate DistinctNames(tokens: seq<TokenAmount>)
  {
    forall i, j :: 0 <= i < j < |tokens| ==> TokenName(tokens[i].token) != TokenName(tokens[j].token)
  }

  lemma {:induction false} TotalReplace(tokens: seq<TokenAmount>, k: nat, amount: U64, name: string)
    requires k < |tokens|
    ensures TokenTotal(tokens[k := tokens[k].(amount := amount)], name) ==
            TokenTotal(tokens, name) + if TokenName(tokens[k].token) == name then amount - tokens[k].amount else 0
    decreases |tokens|
  {
    hide TokenName;
    var n := |tokens| - 1;
    var changed := tokens[k := tokens[k].(amount := amount)];
    if k < n {
      TotalReplace(tokens[..n], k, amount, name);
      assert changed[..n] == tokens[..n][k := tokens[k].(amount := amount)];
    } else {
      assert changed[..n] == tokens[..n];
    }
  }

  lemma {:induction false} TotalOfDistinct(tokens: seq<TokenAmount>, k: nat)
    requires k < |tokens| && DistinctNames(tokens)
    ensures TokenTotal(tokens, TokenName(tokens[k].token)) == tokens[k].amount
    decreases |tokens|
  {
    hide TokenName;
    var n := |tokens| - 1;
    if k < n {
      TotalOfDistinct(tokens[..n], k);
    } else {
      NoneListed(tokens[..n], TokenName(tokens[k].token));
    }
  }

  /** A new name starts at zero. */
  lemma MergeNew(tokens: seq<TokenAmount>, index: map<string, nat>, t: Token, seen: seq<TokenAmount>)
    requires Merged(tokens, index, seen) && TokenName(t) !in index
    ensures Merged(tokens + [TokenAmount(t, 0)], index[TokenName(t) := |tokens|], seen)
  {
    hide TokenName, TokenTotal;
    var longer := tokens + [TokenAmount(t, 0)];
    forall name ensures TokenTotal(longer, name) == TokenTotal(tokens, name) {
      TotalConcat(tokens, [TokenAmount(t, 0)], name);
      TotalOfOne(TokenAmount(t, 0), name);
    }
  }

  lemma TotalOfOne(t: TokenAmount, name: string)
    ensures TokenTotal([t], name) == if TokenName(t.token) == name then t.amount else 0
  {
    hide TokenName;
    assert [t][..0] == [];
  }

  /** One more amount of a known name. */
  lemma MergeAdd(tokens: seq<TokenAmount>, index: map<string, nat>, token: TokenAmount, seen: seq<TokenAmount>)
    requires Merged(tokens, index, seen) && TokenName(token.token) in index
    ensures var k := index[TokenName(token.token)];
            Merged(tokens[k := tokens[k].(amount := Add64(tokens[k].amount, token.amount))], index, seen + [token])
  {
    hide TokenName, TokenTotal;
    var tokenName := TokenName(token.token);
    var k := index[tokenName];
    var amount := Add64(tokens[k].amount, token.amount);
    TotalOfDistinct(tokens, k);
    AddMod(TokenTotal(seen, tokenName), token.amount);
    var more := seen + [token];
    assert more[..|seen|] == seen && more[..|more|] == more;
    NextToken(more, |seen|);
    forall name
      ensures TokenTotal(tokens[k := tokens[k].(amount := amount)], name) == TokenTotal(more, name) % U64_LIMIT
    {
      TotalReplace(tokens, k, amount, name);
    }
  }

  method AddToken(tokens0: seq<TokenAmount>, index0: map<string, nat>, token: TokenAmount, ghost seen: seq<TokenAmount>)
    returns (tokens: seq<TokenAmount>, index: map<string, nat>)
    requires Merged(tokens0, index0, seen)
    ensures Merged(tokens, index, seen + [token]) && index.Keys == index0.Keys + {TokenName(token.token)}
  {
    hide TokenName, Merged, TokenTotal;
    tokens, index := tokens0, index0;
    var tokenName := TokenName(token.token);
    if tokenName !in index {
      MergeNew(tokens, index, token.token, seen);
      index := index[tokenName := |tokens|];
      tokens := tokens + [TokenAmount(token.token, 0)];
    }
    var indx := index[tokenName];
    MergeAdd(tokens, index, token, seen);
    IndexInside(tokens, index, seen);
    tokens := tokens[indx := tokens[indx].(amount := Add64(tokens[indx].amount, token.amount))];
  }

  lemma IndexInside(tokens: seq<TokenAmount>, index: map<string, nat>, seen: seq<TokenAmount>)
    requires Merged(tokens, index, seen)
    ensures forall name :: name in index ==> index[name] < |tokens|
  {}

  lemma {:induction false} TotalConcat(a: seq<TokenAmount>, b: seq<TokenAmount>, name: string)
    ensures TokenTotal(a + b, name) == TokenTotal(a, name) + TokenTotal(b, name)
    decreases |b|
  {
    hide TokenName;
    if b == [] {
      assert a + b == a;
    } else {
      TotalConcat(a, b[..|b| - 1], name);
      assert (a + b)[..|a + b| - 1] == a + b[..|b| - 1];
    }
  }

  /** The loop over the receivers: their outputs, the wrapped sum of their lovelace, and their tokens merged by name. */
  method GatherOutputs(receivers: seq<Receiver>)
    returns (txOutputs: seq<TxOutput>, outputLovelace: U64, outputNativeTokens: seq<TokenAmount>)
    ensures txOutputs == Outputs(receivers)
    ensures outputLovelace == Value(txOutputs, ADA) % U64_LIMIT
    ensures forall name ::
              TokenTotal(outputNativeTokens, name) == if name == ADA then 0 else Value(txOutputs, name) % U64_LIMIT
    ensures DistinctNames(outputNativeTokens)
    ensures forall name :: Lists(outputNativeTokens, name) <==> Named(receivers, name)
  {
    hide TokenName, Merged, DistinctNames, Value, TokenTotal, Add64, Lists;
    txOutputs, outputLovelace, outputNativeTokens := [], 0, [];
    var nameToIndex: map<string, nat> := map[];
    ghost var seen: seq<TokenAmount> := [];
    StartMerging();
    ListsNothing();
    for i := 0 to |receivers|
      invariant txOutputs == Outputs(receivers[..i])
      invariant outputLovelace == Value(txOutputs, ADA) % U64_LIMIT
      invariant Merged(outputNativeTokens, nameToIndex, seen)
      invariant forall name :: name != ADA ==> Value(txOutputs, name) == TokenTotal(seen, name)
      invariant forall name :: name in nameToIndex <==> Lists(seen, name)
      invariant forall name :: Lists(seen, name) <==> Named(receivers[..i], name)
    {
      var rcv := receivers[i];
      ghost var seen0 := seen;
      AddReceiver(txOutputs, rcv, outputLovelace);
      txOutputs := txOutputs + [AsOutput(rcv)];
      outputLovelace := Add64(outputLovelace, rcv.amount);
      for j := 0 to |rcv.nativeTokens|
        invariant Merged(outputNativeTokens, nameToIndex, seen) && seen == seen0 + rcv.nativeTokens[..j]
        invariant forall name :: name in nameToIndex <==> Lists(seen, name)
      {
        ListsOneMore(seen, rcv.nativeTokens[j]);
        outputNativeTokens, nameToIndex := AddToken(outputNativeTokens, nameToIndex, rcv.nativeTokens[j], seen);
        seen := seen + [rcv.nativeTokens[j]];
      }
      assert rcv.nativeTokens[..|rcv.nativeTokens|] == rcv.nativeTokens;
      forall name | name != ADA ensures Value(txOutputs, name) == TokenTotal(seen, name) {
        TotalConcat(seen0, rcv.nativeTokens, name);
      }
      NamedNext(receivers, i, seen0);
      assert Outputs(receivers[..i + 1]) == Outputs(receivers[..i]) + [AsOutput(rcv)];
    }
    assert receivers[..|receivers|] == receivers;
    MergedMeaning(outputNativeTokens, nameToIndex, seen);
  }

  /** Some receiver is to get the token, if only an amount of zero. */
  predicate Named(receivers: seq<Receiver>, name: string)
  {
    exists i :: 0 <= i < |receivers| && Lists(receivers[i].nativeTokens, name)
  }

  lemma NamedNext(receivers: seq<Receiver>, i: nat, seen: seq<TokenAmount>)
    requires i < |receivers| && forall name :: Lists(seen, name) <==> Named(receivers[..i], name)
    ensures forall name :: Lists(seen + receivers[i].nativeTokens, name) <==> Named(receivers[..i + 1], name)
  {
    hide TokenName, Lists;
    var next := receivers[..i + 1];
    forall name ensures Lists(seen + receivers[i].nativeTokens, name) <==> Named(next, name) {
      ListsConcat(seen, receivers[i].nativeTokens, name);
      assert next[i] == receivers[i];
      forall j | 0 <= j < i ensures next[j] == receivers[..i][j] {}
    }
  }

  lemma ListsConcat(a: seq<TokenAmount>, b: seq<TokenAmount>, name: string)
    ensures Lists(a + b, name) <==> Lists(a, name) || Lists(b, name)
  {
    hide TokenName;
    forall i | 0 <= i < |a| ensures (a + b)[i] == a[i] {}
    forall i | 0 <= i < |b| ensures (a + b)[|a| + i] == b[i] {}
  }

  lemma StartMerging()
    ensures Merged([], map[], []) && Value([], ADA) == 0 && forall name :: Value([], name) == TokenTotal([], name) == 0
  {}

  lemma MergedMeaning(tokens: seq<TokenAmount>, index: map<string, nat>, seen: seq<TokenAmount>)
    requires Merged(tokens, index, seen)
    ensures DistinctNames(tokens)
    ensures forall name :: TokenTotal(tokens, name) == if name == ADA then 0 else TokenTotal(seen, name) % U64_LIMIT
    ensures forall name :: Lists(tokens, name) <==> name in index
  {
    hide TokenName;
    AdaIsNoToken(tokens);
  }

  lemma AddReceiver(outputs: seq<TxOutput>, r: Receiver, lovelace: U64)
    requires lovelace == Value(outputs, ADA) % U64_LIMIT
    ensures Add64(lovelace, r.amount) == Value(outputs + [AsOutput(r)], ADA) % U64_LIMIT
    ensures forall name :: name != ADA ==>
              Value(outputs + [AsOutput(r)], name) == Value(outputs, name) + TokenTotal(r.nativeTokens, name)
  {
    hide Value, TokenName;
    ValueSnoc(outputs, AsOutput(r), ADA);
    AdaIsNoToken(r.nativeTokens);
    AddMod(Value(outputs, ADA), r.amount);
    forall name | name != ADA
      ensures Value(outputs + [AsOutput(r)], name) == Value(outputs, name) + TokenTotal(r.nativeTokens, name)
    {
      ValueSnoc(outputs, AsOutput(r), name);
    }
  }

  // ---------- conditions and remaining tokens ----------

  method MakeConditions(lovelace: U64, tokens: seq<TokenAmount>) returns (conditions: Conditions)
    requires DistinctNames(tokens)
    ensures ADA in conditions
    ensures forall name :: Read(conditions, name) == if name == ADA then lovelace else TokenTotal(tokens, name)
    ensures tokens == [] ==> conditions.Keys == {ADA}
  {
    hide TokenName;
    conditions := map[ADA := lovelace];
    for i := 0 to |tokens|
      invariant ADA in conditions && (i == 0 ==> conditions.Keys == {ADA})
      invariant forall name :: Read(conditions, name) == if name == ADA then lovelace else TokenTotal(tokens[..i], name)
    {
      var name := TokenName(tokens[i].token);
      TokenNameNotAda(tokens[i].token);
      NoneListed(tokens[..i], name);
      NextToken(tokens, i);
      assert Read(conditions, name) == 0;
      ghost var before := conditions;
      conditions := conditions[name := Add64(Read(conditions, name), tokens[i].amount)];
      assert forall other :: other != name ==> Read(conditions, other) == Read(before, other);
    }
    assert tokens[..|tokens|] == tokens;
  }

  /** Taking the outputs' tokens out of the sum of the inputs; entries that become zero are deleted. */
  method SubtractTokens(sum: Sums, tokens: seq<TokenAmount>) returns (rest: Sums)
    requires AllNames(sum)
    ensures AllNames(rest)
    ensures forall name :: Read(rest, name) == (Read(sum, name) - TokenTotal(tokens, name)) % U64_LIMIT
    ensures ADA in sum ==> ADA in rest
    ensures forall name :: name in rest <==> if Lists(tokens, name) then Read(rest, name) != 0 else name in sum
  {
    hide TokenName, AllNames, Sub64, Lists;
    rest := sum;
    ListsNothing();
    for i := 0 to |tokens|
      invariant AllNames(rest)
      invariant Reduced(rest, sum, tokens[..i])
      invariant ADA in sum ==> ADA in rest
      invariant forall name ::
                  name in rest <==> if Lists(tokens[..i], name) then Read(rest, name) != 0 else name in sum
    {
      ListsOneMore(tokens[..i], tokens[i]);
      assert tokens[..i] + [tokens[i]] == tokens[..i + 1];
      TokenNameNotAda(tokens[i].token);
      var name := TokenName(tokens[i].token);
      ReduceOne(rest, sum, tokens, i);
      NamesGrow(rest, tokens[i].token, Sub64(Read(rest, name), tokens[i].amount));
      rest := rest[name := Sub64(Read(rest, name), tokens[i].amount)];
      if rest[name] == 0 {
        FewerNames(rest, name);
        rest := rest - {name};
      }
    }
    assert tokens[..|tokens|] == tokens;
  }

  ghost predicate Reduced(rest: Sums, sum: Sums, tokens: seq<TokenAmount>)
  {
    forall name :: Read(rest, name) == (Read(sum, name) - TokenTotal(tokens, name)) % U64_LIMIT
  }

  lemma SubtractMore(x: int, y: nat)
    ensures (x % U64_LIMIT - y) % U64_LIMIT == (x - y) % U64_LIMIT
  {}

  lemma ReduceOne(rest: Sums, sum: Sums, tokens: seq<TokenAmount>, i: nat)
    requires i < |tokens| && Reduced(rest, sum, tokens[..i])
    ensures var name := TokenName(tokens[i].token); var next := rest[name := Sub64(Read(rest, name), tokens[i].amount)];
            Reduced(next, sum, tokens[..i + 1]) && (next[name] == 0 ==> Reduced(next - {name}, sum, tokens[..i + 1]))
  {
    hide TokenName, TokenTotal;
    var name := TokenName(tokens[i].token);
    NextToken(tokens, i);
    var next := rest[name := Sub64(Read(rest, name), tokens[i].amount)];
    SubtractMore(Read(sum, name) - TokenTotal(tokens[..i], name), tokens[i].amount);
    forall other ensures Read(next, other) == (Read(sum, other) - TokenTotal(tokens[..i + 1], other)) % U64_LIMIT {
      if other != name { assert Read(next, other) == Read(rest, other); }
    }
    forall other ensures next[name] == 0 ==> Read(next - {name}, other) == Read(next, other) {}
  }

  lemma FewerNames(m: Sums, name: string)
    requires AllNames(m)
    ensures AllNames(m - {name})
  {
    hide IsName;
  }

  // ---------- populating the builder ----------

  /** What a transaction is asked for, and from whom. */
  datatype Request = Request(receivers: seq<Receiver>, senderAddr: string, config: Settings, answers: Answers,
                             maxInputs: int)

  /** All that is decided while a transaction is built. */
  datatype Decisions = Decisions(chosen: seq<Utxo>, order: seq<nat>, minimum: U64, change: TxOutput, fee: U64)

  const Undecided := Decisions([], [], 0, TxOutput("", 0, []), 0)

  /** What the inputs must reach: all outputs, the potential fee and the least change; amounts wrap. */
  function Demand(outputs: seq<TxOutput>, fee: U64, minimum: U64, name: string): U64
  {
    if name == ADA then Add64(Add64(Value(outputs, ADA) % U64_LIMIT, fee), minimum)
    else Value(outputs, name) % U64_LIMIT
  }

  ghost predicate Reaches(utxos: seq<Utxo>, outputs: seq<TxOutput>, fee: U64, minimum: U64)
  {
    forall name :: SumOf(utxos, name) % U64_LIMIT >= Demand(outputs, fee, minimum, name)
  }

  lemma ReachesMeaning(conditions: Conditions, utxos: seq<Utxo>, outputs: seq<TxOutput>, fee: U64, minimum: U64)
    requires forall name :: Read(conditions, name) == Demand(outputs, fee, minimum, name)
    ensures Meets(utxos, conditions) <==> Reaches(utxos, outputs, fee, minimum)
  {
    hide SumOf, Demand;
    if Meets(utxos, conditions) {
      forall name ensures SumOf(utxos, name) % U64_LIMIT >= Demand(outputs, fee, minimum, name) {
        assert Read(conditions, name) == Demand(outputs, fee, minimum, name);
      }
    } else {
      var name :| name in conditions && SumOf(utxos, name) % U64_LIMIT < conditions[name];
      assert Read(conditions, name) == Demand(outputs, fee, minimum, name);
    }
  }

  /** The chosen UTXOs are different ones of those available. */
  ghost predicate ChosenFrom(chosen: seq<Utxo>, utxos: seq<Utxo>, order: seq<nat>, maxInputs: int)
  {
    FromPlaces(chosen, utxos, order, |utxos|) && |chosen| >= 1 && (maxInputs >= 1 ==> |chosen| <= maxInputs)
  }

  /** An output of the sender with everything the receivers do not get of all UTXOs. */
  ghost predicate IsRemainder(output: TxOutput, sender: string, utxos: seq<Utxo>, outputs: seq<TxOutput>)
  {
    && output.addr == sender && output.amount == SumOf(utxos, ADA) % U64_LIMIT
    && forall name :: name != ADA ==>
         TokenTotal(output.tokens, name) == Max(SumOf(utxos, name) % U64_LIMIT - Value(outputs, name) % U64_LIMIT, 0)
  }

  /** The least change is the configured one or the cost of such an output. */
  ghost predicate IsMinimum(minimum: U64, q: Request, output: TxOutput)
    requires q.answers.utxos.Some?
  {
    && IsRemainder(output, q.senderAddr, q.answers.utxos.value, Outputs(q.receivers))
    && q.answers.minUtxo(output).Some? && minimum == Max(q.config.minUtxoValue, q.answers.minUtxo(output).value)
  }

  ghost predicate HasMinimum(minimum: U64, q: Request)
    requires q.answers.utxos.Some?
  {
    exists output :: IsMinimum(minimum, q, output)
  }

  /** A remaining token has a name that does not parse, or the cost of such an output is not answered. */
  ghost predicate NoMinimum(q: Request, utxos: seq<Utxo>, outputs: seq<TxOutput>)
  {
    || (exists name :: IsUnreadable(name, utxos, outputs))
    || (exists output :: IsRemainder(output, q.senderAddr, utxos, outputs) && q.answers.minUtxo(output).None?)
  }

  ghost predicate IsUnreadable(name: string, utxos: seq<Utxo>, outputs: seq<TxOutput>)
  {
    && name != ADA && NewTokenWithFullName(name, true).None?
    && SumOf(utxos, name) % U64_LIMIT > Value(outputs, name) % U64_LIMIT
  }

  /** The change output goes to the sender with all tokens the receivers do not get. */
  ghost predicate IsChange(change: TxOutput, sender: string, chosen: seq<Utxo>, outputs: seq<TxOutput>)
  {
    && change.addr == sender && SortedByName(change.tokens)
    && forall name :: TokenTotal(change.tokens, name) ==
         if name == ADA then 0 else (SumOf(chosen, name) - Value(outputs, name)) % U64_LIMIT
  }

  /** Some available token has a name that does not have two parts. */
  ghost predicate HasBadName(utxos: seq<Utxo>)
  {
    exists name :: name in NamesIn(utxos) && name != ADA && |Split(name)| != 2
  }

  /** The UTXOs are visited in order up to the last chosen one. */
  function Visited(order: seq<nat>): nat { if order == [] then 0 else order[|order| - 1] + 1 }

  /** The inputs are chosen; the last of them is the last visited UTXO. */
  ghost predicate IsChosen(d: Decisions, q: Request)
  {
    && q.answers.utxos.Some? && HasMinimum(d.minimum, q)
    && ChosenFrom(d.chosen, q.answers.utxos.value, d.order, q.maxInputs)
    && (forall j :: 0 <= j < |d.order| ==> d.order[j] < Visited(d.order))
    && Reaches(d.chosen, Outputs(q.receivers), PotentialFee(q.config), d.minimum)
  }

  /** The change lists every token of a visited UTXO, chosen or not, with two exceptions: those of which nothing is left
      after the receivers got some, and of course lovelace. */
  ghost predicate IsListing(tokens: seq<TokenAmount>, utxos: seq<Utxo>, visited: nat, receivers: seq<Receiver>)
    requires visited <= |utxos|
  {
    forall name :: Lists(tokens, name) <==>
      name != ADA && name in NamesIn(utxos[..visited]) && (TokenTotal(tokens, name) > 0 || !Named(receivers, name))
  }

  /** And so is the change, with what the demand leaves as its first amount. */
  ghost predicate IsPopulated(d: Decisions, q: Request)
  {
    && IsChosen(d, q) && IsChange(d.change, q.senderAddr, d.chosen, Outputs(q.receivers))
    && IsListing(d.change.tokens, q.answers.utxos.value, Visited(d.order), q.receivers)
    && d.change.amount == Sub64(SumOf(d.chosen, ADA) % U64_LIMIT,
                                Demand(Outputs(q.receivers), PotentialFee(q.config), d.minimum, ADA))
  }

  method ChangeMinimum(q: Request, utxos: seq<Utxo>, tokens: seq<TokenAmount>, ghost outputs: seq<TxOutput>)
    returns (r: Option<U64>)
    requires q.answers.utxos == Some(utxos) && outputs == Outputs(q.receivers)
    requires forall name :: TokenTotal(tokens, name) == if name == ADA then 0 else Value(outputs, name) % U64_LIMIT
    ensures r.Some? ==> HasMinimum(r.value, q)
    ensures r.None? ==> NoMinimum(q, utxos, outputs)
  {
    hide SumOf, AllNames, Represents, TokenTotal, Value, NewTokenWithFullName, Outputs;
    var sums := GetUtxosSum(utxos);
    var spent := GetTokensSumMap(tokens);
    var left := SubtractSumMaps(sums, spent);
    var potentialChangeTokenCost;
    ghost var output;
    potentialChangeTokenCost, output := GetMinUtxoForSumMap(q.answers.minUtxo, q.senderAddr, left);
    ReadSums(sums, utxos);
    if !ParsesAll(left) {
      var name :| name in left && name != ADA && left[name] > 0 && NewTokenWithFullName(name, true).None?;
      assert IsUnreadable(name, utxos, outputs);
    } else {
      assert IsRemainder(output, q.senderAddr, utxos, outputs);
    }
    if potentialChangeTokenCost.None? {
      return None;
    }
    assert IsMinimum(Max(q.config.minUtxoValue, potentialChangeTokenCost.value), q, output);
    r := Some(Max(q.config.minUtxoValue, potentialChangeTokenCost.value));
  }

  /** The sums of the chosen UTXOs; lovelace is among the names, which are those of the visited UTXOs. */
  ghost predicate ChosenSums(sum: Sums, chosen: seq<Utxo>, visited: seq<Utxo>)
  {
    && AllNames(sum) && ADA in sum && sum.Keys == NamesIn(visited)
    && forall name :: Read(sum, name) == SumOf(chosen, name) % U64_LIMIT
  }

  /** With one input at least, exactly the chosen UTXOs are returned. */
  lemma OnlyChosen(r: Selection, now: seq<Utxo>, before: seq<Utxo>, conditions: Conditions, maxInputs: int,
                   order: seq<nat>, stop: nat, count: nat)
    requires InPlaceResult(r, now, before, conditions, maxInputs, 1, order, stop, count) && r.Selected?
    ensures count <= |now| == |order| && r.inputs == Refs(now[..count])
    ensures Visited(order[..count]) <= |before| && ChosenSums(r.sum, now[..count], before[..Visited(order[..count])])
    ensures ChosenFrom(now[..count], before, order[..count], maxInputs) && Meets(now[..count], conditions)
    ensures forall j :: 0 <= j < count ==> order[..count][j] < Visited(order[..count])
  {
    hide SumOf, AllNames, Represents, Meets, NamesIn;
    assert Returned(|now|, count, maxInputs, 1) == count;
    ReadSums(r.sum, now[..count]);
    NoNamesIn();
    assert now[count..count] == [];
    forall j | 0 <= j < count ensures order[j] < stop {
      var place := order[j];
      var there := order[place];
      assert place < stop || there == place;
    }
  }

  /** Choosing inputs from a fresh slice of the UTXOs. */
  method ChooseInputs(utxos: seq<Utxo>, conditions: Conditions, maxInputs: int)
    returns (r: Selection, ghost chosen: seq<Utxo>, ghost order: seq<nat>)
    ensures r.Selected? ==> ChosenFrom(chosen, utxos, order, maxInputs) && Meets(chosen, conditions)
    ensures r.Selected? ==>
              && r.inputs == Refs(chosen) && Visited(order) <= |utxos|
              && ChosenSums(r.sum, chosen, utxos[..Visited(order)])
              && forall j :: 0 <= j < |order| ==> order[j] < Visited(order)
    ensures r.LimitReached? ==> Meets(utxos, conditions)
    ensures r.CouldNotSelect? ==> !Meets(utxos, conditions)
    ensures AllFit(utxos, conditions) && (conditions.Keys == {ADA} || maxInputs <= 1 || |utxos| <= maxInputs) ==>
              (r.Selected? <==> SomeChoiceMeets(utxos, conditions, maxInputs))
  {
    hide SumOf, AllNames, Represents, Meets, SingleToken, SingleResult, ChosenFrom, ChosenSums, Arranged, Visited,
      NamesIn, IsLoop, AllFit, SomeChoiceMeets;
    var slice := new Utxo[|utxos|](i requires 0 <= i < |utxos| => utxos[i]);
    assert slice[..] == utxos;
    ghost var places, stop, count, run;
    r, places, stop, count, run := GetUTXOsForAmounts(slice, conditions, maxInputs, 1, ADA);
    RightlyFound(r, slice[..], utxos, conditions, maxInputs, places, stop, count, run);
    if r.Selected? {
      OnlyChosen(r, slice[..], utxos, conditions, maxInputs, places, stop, count);
      chosen, order := slice[..][..count], places[..count];
    } else {
      chosen, order := [], [];
    }
  }

  /** Lovelace alone is no token that can be listed twice. */
  lemma RightlyFound(r: Selection, now: seq<Utxo>, before: seq<Utxo>, conditions: Conditions, maxInputs: int,
                     order: seq<nat>, stop: nat, count: nat, run: seq<Window>)
    requires InPlaceResult(r, now, before, conditions, maxInputs, 1, order, stop, count)
    requires SingleToken(before, conditions, maxInputs, ADA) ==>
               SingleResult(r, now, before, maxInputs, ADA, conditions[ADA], stop, count)
    requires IsLoop(run, r, now, before, conditions, maxInputs, count)
    ensures AllFit(before, conditions) && (conditions.Keys == {ADA} || maxInputs <= 1 || |before| <= maxInputs) ==>
              (r.Selected? <==> SomeChoiceMeets(before, conditions, maxInputs))
  {
    hide InPlaceResult, IsLoop, SingleResult, SomeChoiceMeets, SumOf;
    if AllFit(before, conditions) && (conditions.Keys == {ADA} || maxInputs <= 1 || |before| <= maxInputs) {
      forall i | 0 <= i < |before| ensures ListsOnce(before[i].tokens, ADA) { AdaListsOnce(before[i].tokens); }
      ChoiceIsFound(r, now, before, conditions, maxInputs, 1, ADA, order, stop, count, run);
    }
  }

  lemma AdaListsOnce(tokens: seq<TokenAmount>)
    ensures ListsOnce(tokens, ADA)
  {
    hide TokenName;
    forall i | 0 <= i < |tokens| ensures TokenName(tokens[i].token) != ADA { TokenNameNotAda(tokens[i].token); }
  }

  /** Some choice of the available UTXOs within the limit reaches the demand. */
  ghost predicate IsPossible(q: Request, minimum: U64)
    requires q.answers.utxos.Some?
  {
    exists places: set<nat> :: ReachesAt(places, q, minimum)
  }

  ghost predicate ReachesAt(places: set<nat>, q: Request, minimum: U64)
    requires q.answers.utxos.Some?
  {
    var utxos := q.answers.utxos.value;
    && Places(places, |utxos|) && places != {} && (q.maxInputs >= 1 ==> |places| <= q.maxInputs)
    && forall name :: SumAt(Amts(utxos, name), places)
                      >= Demand(Outputs(q.receivers), PotentialFee(q.config), minimum, name)
  }

  /** No total that is asked for overflows, and lovelace alone is asked for, or at most one input is allowed (or any
      number), or no more UTXOs than inputs are available. */
  ghost predicate IsDecided(q: Request, minimum: U64)
    requires q.answers.utxos.Some?
  {
    var utxos := q.answers.utxos.value;
    && (forall name :: Demand(Outputs(q.receivers), PotentialFee(q.config), minimum, name) > 0 ==>
                         SumOf(utxos, name) < U64_LIMIT)
    && ((forall name :: !Named(q.receivers, name)) || q.maxInputs <= 1 || |utxos| <= q.maxInputs)
  }

  lemma PossibleMeaning(q: Request, minimum: U64, conditions: Conditions)
    requires q.answers.utxos.Some?
    requires forall name ::
               Read(conditions, name) == Demand(Outputs(q.receivers), PotentialFee(q.config), minimum, name)
    ensures SomeChoiceMeets(q.answers.utxos.value, conditions, q.maxInputs) <==> IsPossible(q, minimum)
    ensures IsDecided(q, minimum) ==> AllFit(q.answers.utxos.value, conditions)
  {
    hide SumOf, Demand, SumAt, Outputs, Contribution;
    var utxos := q.answers.utxos.value;
    forall places: set<nat>
      ensures IsChoice(places, utxos, conditions, q.maxInputs) <==> ReachesAt(places, q, minimum)
    {
      if IsChoice(places, utxos, conditions, q.maxInputs) {
        forall name ensures SumAt(Amts(utxos, name), places) >= Read(conditions, name) {}
      }
      if ReachesAt(places, q, minimum) {
        forall name | name in conditions ensures SumAt(Amts(utxos, name), places) >= conditions[name] {
          assert Read(conditions, name) == conditions[name];
        }
      }
    }
    forall name | name in conditions
      ensures conditions[name] == Demand(Outputs(q.receivers), PotentialFee(q.config), minimum, name)
    {
      assert Read(conditions, name) == conditions[name];
    }
  }

  datatype Plan = Plan(inputs: seq<TxInput>, outputs: seq<TxOutput>, change: TxOutput, changeLovelace: U64,
                       changeMinUtxo: U64)

  /** The first half of `populateTxBuilder`: inputs, outputs and change are decided. */
  method MakePlan(q: Request) returns (r: Result<Plan, TxError>, ghost d: Decisions)
    ensures r.Err? ==> IsCause(r.error, d, q, [], [])
    ensures r.Err? ==> r.error in {NoUtxos, NoMinUtxo, UtxosLimitReached, UtxosCouldNotSelect, BadTokenName}
    ensures r.Ok? ==> IsPopulated(d, q)
    ensures r.Ok? ==> r.value == Plan(Refs(d.chosen), Outputs(q.receivers), d.change, Available(d, q), d.minimum)
  {
    hide SumOf, AllNames, TokenTotal, Value, Meets, ChosenFrom, HasMinimum, DistinctNames, SortedByName, Reaches,
      Outputs, Split, NoMinimum, HasBadName, Demand, NamesIn, Lists, Named, Visited, IsPossible, IsDecided;
    d := Undecided;
    if q.answers.utxos.None? {
      return Err(NoUtxos), d;
    }
    var utxos := q.answers.utxos.value;
    var txOutputs, outputLovelace, outputNativeTokens := GatherOutputs(q.receivers);
    var srcChangeMinUtxo := ChangeMinimum(q, utxos, outputNativeTokens, txOutputs);
    if srcChangeMinUtxo.None? {
      return Err(NoMinUtxo), d;
    }
    d := d.(minimum := srcChangeMinUtxo.value);
    var inputs, demand;
    ghost var chosen, order;
    inputs, demand, chosen, order := MeetDemand(q, txOutputs, outputLovelace, outputNativeTokens,
                                                srcChangeMinUtxo.value);
    if !inputs.Selected? {
      return Err(if inputs.LimitReached? then UtxosLimitReached else UtxosCouldNotSelect), d;
    }
    d := d.(chosen := chosen, order := order);
    var remainder := MakeChange(q, inputs.sum, outputNativeTokens, demand, outputLovelace, d);
    if remainder.None? {
      return Err(BadTokenName), d;
    }
    d := d.(change := remainder.value.0);
    r := Ok(Plan(inputs.inputs, txOutputs, remainder.value.0, remainder.value.1, srcChangeMinUtxo.value));
  }

  /** The change output and the lovelace left for it and the fee. */
  method MakeChange(q: Request, sum: Sums, tokens: seq<TokenAmount>, demand: U64, outputLovelace: U64,
                    ghost d: Decisions)
    returns (r: Option<(TxOutput, U64)>)
    requires IsChosen(d, q) && Visited(d.order) <= |q.answers.utxos.value|
    requires ChosenSums(sum, d.chosen, q.answers.utxos.value[..Visited(d.order)])
    requires demand == Demand(Outputs(q.receivers), PotentialFee(q.config), d.minimum, ADA)
    requires outputLovelace == Value(Outputs(q.receivers), ADA) % U64_LIMIT
    requires forall name ::
               TokenTotal(tokens, name) == if name == ADA then 0 else Value(Outputs(q.receivers), name) % U64_LIMIT
    requires forall name :: Lists(tokens, name) <==> Named(q.receivers, name)
    ensures r.None? ==> HasBadName(q.answers.utxos.value)
    ensures r.Some? ==> IsPopulated(d.(change := r.value.0), q) && r.value.1 == Available(d, q)
  {
    hide SumOf, AllNames, TokenTotal, Value, ChosenFrom, HasMinimum, SortedByName, Outputs, Split, HasBadName, Demand,
      NamesIn, Lists, Named, Visited, Reaches;
    ghost var utxos, outputs := q.answers.utxos.value, Outputs(q.receivers);
    var rest := SubtractTokens(sum, tokens);
    RestMeaning(sum, rest, tokens, d.chosen, outputs);
    var outputRemainingTokens := GetTokensFromSumMap(rest, []);
    if outputRemainingTokens.None? {
      BadNameIsListed(sum, rest, utxos, Visited(d.order), tokens, d.chosen, outputs, PotentialFee(q.config), d.minimum);
      return None;
    }
    assert rest - Skipped([]) == rest;
    ListingOf(sum, rest, tokens, outputRemainingTokens.value, utxos, Visited(d.order), d.chosen, q.receivers,
              PotentialFee(q.config), d.minimum);
    r := Some((TxOutput(q.senderAddr, Sub64(Read(rest, ADA), demand), outputRemainingTokens.value),
               Sub64(Read(rest, ADA), outputLovelace)));
  }

  /** The conditions, and inputs that meet them. */
  method MeetDemand(q: Request, txOutputs: seq<TxOutput>, outputLovelace: U64, tokens: seq<TokenAmount>, minimum: U64)
    returns (r: Selection, demand: U64, ghost chosen: seq<Utxo>, ghost order: seq<nat>)
    requires q.answers.utxos.Some? && txOutputs == Outputs(q.receivers)
    requires forall name :: Lists(tokens, name) <==> Named(q.receivers, name)
    requires outputLovelace == Value(txOutputs, ADA) % U64_LIMIT && DistinctNames(tokens)
    requires forall name :: TokenTotal(tokens, name) == if name == ADA then 0 else Value(txOutputs, name) % U64_LIMIT
    ensures demand == Demand(txOutputs, PotentialFee(q.config), minimum, ADA)
    ensures r.Selected? ==>
              && r.inputs == Refs(chosen) && Visited(order) <= |q.answers.utxos.value|
              && ChosenSums(r.sum, chosen, q.answers.utxos.value[..Visited(order)])
              && forall j :: 0 <= j < |order| ==> order[j] < Visited(order)
    ensures r.Selected? ==> ChosenFrom(chosen, q.answers.utxos.value, order, q.maxInputs)
    ensures r.Selected? ==> Reaches(chosen, txOutputs, PotentialFee(q.config), minimum)
    ensures r.LimitReached? ==> Reaches(q.answers.utxos.value, txOutputs, PotentialFee(q.config), minimum)
    ensures r.CouldNotSelect? ==> !Reaches(q.answers.utxos.value, txOutputs, PotentialFee(q.config), minimum)
    ensures IsDecided(q, minimum) ==> (r.Selected? <==> IsPossible(q, minimum))
  {
    hide SumOf, TokenTotal, Value, Meets, ChosenFrom, ChosenSums, DistinctNames, Reaches, Lists, AllFit,
      SomeChoiceMeets, IsPossible, Visited, Outputs;
    var utxos := q.answers.utxos.value;
    var potentialFee := PotentialFee(q.config);
    demand := Add64(Add64(outputLovelace, potentialFee), minimum);
    var conditions := MakeConditions(demand, tokens);
    ConditionsMeaning(conditions, tokens, txOutputs, potentialFee, minimum);
    r, chosen, order := ChooseInputs(utxos, conditions, q.maxInputs);
    ReachesMeaning(conditions, utxos, txOutputs, potentialFee, minimum);
    ReachesMeaning(conditions, chosen, txOutputs, potentialFee, minimum);
    PossibleMeaning(q, minimum, conditions);
    if forall name :: !Named(q.receivers, name) {
      NothingListed(tokens);
    }
  }

  lemma NothingListed(tokens: seq<TokenAmount>)
    requires forall name :: !Lists(tokens, name)
    ensures tokens == []
  {
    if tokens != [] {
      assert Lists(tokens, TokenName(tokens[0].token));
    }
  }

  /** What is listed in the change. */
  lemma ListingOf(sum: Sums, rest: Sums, tokens: seq<TokenAmount>, listed: seq<TokenAmount>, utxos: seq<Utxo>,
                  visited: nat, chosen: seq<Utxo>, receivers: seq<Receiver>, fee: U64, minimum: U64)
    requires visited <= |utxos| && ChosenSums(sum, chosen, utxos[..visited])
    requires Reaches(chosen, Outputs(receivers), fee, minimum)
    requires forall name :: name in rest <==> if Lists(tokens, name) then Read(rest, name) != 0 else name in sum
    requires forall name :: name != ADA ==>
               Read(rest, name) == (SumOf(chosen, name) - Value(Outputs(receivers), name)) % U64_LIMIT
    requires forall name :: Lists(tokens, name) <==> Named(receivers, name)
    requires forall name :: Lists(listed, name) <==> name in rest && name != ADA
    requires CarriesSums(listed, rest)
    ensures IsListing(listed, utxos, visited, receivers)
  {
    hide SumOf, Value, AllNames, NamesIn, Lists, Named, Outputs, TokenTotal;
    forall name
      ensures Lists(listed, name) <==>
        name != ADA && name in NamesIn(utxos[..visited]) && (TokenTotal(listed, name) > 0 || !Named(receivers, name))
    {
      assert name != ADA ==> TokenTotal(listed, name) == Read(rest, name);
      if name !in sum && name != ADA {
        assert Read(sum, name) == 0 && Demand(Outputs(receivers), fee, minimum, name) == 0;
        NothingLeft(SumOf(chosen, name), Value(Outputs(receivers), name));
      }
    }
  }

  /** The change lists a token with an amount of zero exactly when a visited UTXO has it, no receiver is to get it, and
      the chosen ones have nothing of it: it was given up with a UTXO. */
  lemma ZeroIsListed(d: Decisions, q: Request, name: string)
    requires IsPopulated(d, q)
    ensures Lists(d.change.tokens, name) && TokenTotal(d.change.tokens, name) == 0 <==>
              && name != ADA && name in NamesIn(q.answers.utxos.value[..Visited(d.order)])
              && !Named(q.receivers, name) && SumOf(d.chosen, name) % U64_LIMIT == 0
  {
    hide SumOf, Value, NamesIn, Lists, TokenTotal, HasMinimum, ChosenFrom, SortedByName, Reaches;
    if !Named(q.receivers, name) && name != ADA {
      NotNamed(q.receivers, name);
    }
  }

  /** With one input allowed, a UTXO of one lovelace and a token is given up for one of five million: whatever change is
      made lists the token with an amount of zero. */
  lemma GivenUpIsListed(d: Decisions, q: Request)
    requires q.receivers == [] && q.maxInputs == 1 && q.config.potentialFee == 0 && d.minimum <= 1000000
    requires q.answers.utxos ==
             Some([Utxo("", 0, 1, [TokenAmount(Token("", []), 1)]), Utxo("", 1, 5000000, [])])
    requires IsPopulated(d, q)
    ensures Lists(d.change.tokens, TokenName(Token("", [])))
    ensures TokenTotal(d.change.tokens, TokenName(Token("", []))) == 0
  {
    hide TokenName, HasMinimum, SortedByName, NamesIn, Lists, TokenTotal, IsListing;
    var utxos, name := q.answers.utxos.value, TokenName(Token("", []));
    TokenNameNotAda(Token("", []));
    assert d.order == [d.order[0]] && d.chosen == [utxos[d.order[0]]];
    OneUtxo(utxos[0], ADA);
    OneUtxo(utxos[1], ADA);
    OneUtxo(utxos[1], name);
    AdaOnly(utxos[0]);
    StartMerging();
    assert Demand(Outputs(q.receivers), 400000, d.minimum, ADA) >= 400000;
    assert d.order[0] == 1;
    assert utxos[..2] == utxos;
    NamesInOne(utxos, 0);
    assert name in UtxoNames(utxos[0]) by {
      assert FirstNames(utxos[0].tokens, 1) == {name} by { NextName(utxos[0].tokens, 0); NoNames(utxos[0].tokens); }
    }
    assert TokenTotal([], name) == 0 by { NoneListed([], name); }
    ZeroIsListed(d, q, name);
  }

  lemma OneUtxo(u: Utxo, name: string)
    ensures SumOf([u], name) == Contribution(u, name)
  {
    hide Contribution;
    assert [u][..0] == [];
  }

  lemma AdaOnly(u: Utxo)
    ensures Contribution(u, ADA) == u.amount
  {
    AdaListsOnce(u.tokens);
    AmountIsContribution(u, ADA);
  }

  lemma {:induction false} NotNamed(receivers: seq<Receiver>, name: string)
    requires !Named(receivers, name) && name != ADA
    ensures Value(Outputs(receivers), name) == 0
    decreases |receivers|
  {
    hide TokenName, Value;
    if receivers == [] {
      StartMerging();
    } else {
      var n := |receivers| - 1;
      assert !Lists(receivers[n].nativeTokens, name);
      forall i | 0 <= i < n ensures !Lists(receivers[..n][i].nativeTokens, name) {
        assert receivers[..n][i] == receivers[i];
      }
      NotNamed(receivers[..n], name);
      assert Outputs(receivers) == Outputs(receivers[..n]) + [AsOutput(receivers[n])];
      ValueSnoc(Outputs(receivers[..n]), AsOutput(receivers[n]), name);
      NoneListed(receivers[n].nativeTokens, name);
    }
  }

  /** Inputs, outputs and change are put into the builder, whose former contents stay in front. */
  method PopulateTxBuilder(b: TxBuilder, q: Request) returns (r: Result<Population, TxError>, ghost d: Decisions)
    modifies b
    ensures b.fee == old(b.fee)
    ensures r.Err? ==> IsCause(r.error, d, q, old(b.inputs), old(b.outputs))
    ensures r.Err? ==> !r.error.NoFee? && !r.error.InsufficientChange? && !r.error.NotBuilt?
    ensures r.Ok? ==>
              && IsPopulated(d, q)
              && b.inputs == old(b.inputs) + Refs(d.chosen)
              && b.outputs == old(b.outputs) + Outputs(q.receivers) + [d.change]
              && q.answers.tip.Some?
              && b.timeToLive == (q.answers.tip.value + (if q.config.ttlSlotNumberInc > 0 then q.config.ttlSlotNumberInc
                                                         else 500)) % U64_LIMIT
              && r.value == Population(Available(d, q), d.minimum, Refs(d.chosen))
  {
    hide IsPopulated, Outputs, NoMinimum, HasBadName, Reaches, HasMinimum, IsChosen, Available, SumOf, Value;
    var plan;
    plan, d := MakePlan(q);
    if plan.Err? {
      return Err(plan.error), d;
    }
    b.AddInputs(plan.value.inputs);
    b.AddOutputs(plan.value.outputs);
    b.AddOutputs([plan.value.change]);
    if q.answers.tip.None? {
      return Err(NoTip), d;
    }
    b.SetTimeToLive(Add64(q.answers.tip.value, SetOrDefault(q.config.ttlSlotNumberInc, 500)));
    r := Ok(Population(plan.value.changeLovelace, plan.value.changeMinUtxo, plan.value.inputs));
  }

  lemma ConditionsMeaning(conditions: Conditions, tokens: seq<TokenAmount>, outputs: seq<TxOutput>, fee: U64,
                          minimum: U64)
    requires forall name :: TokenTotal(tokens, name) == if name == ADA then 0 else Value(outputs, name) % U64_LIMIT
    requires forall name :: Read(conditions, name) ==
               if name == ADA then Add64(Add64(Value(outputs, ADA) % U64_LIMIT, fee), minimum)
               else TokenTotal(tokens, name)
    ensures forall name :: Read(conditions, name) == Demand(outputs, fee, minimum, name)
  {
    hide Value, TokenTotal, Add64;
  }

  /** A remaining name was among the sums of the UTXOs: a token only the receivers name has nothing left. */
  lemma BadNameIsListed(sum: Sums, rest: Sums, utxos: seq<Utxo>, visited: nat, tokens: seq<TokenAmount>,
                        chosen: seq<Utxo>, outputs: seq<TxOutput>, fee: U64, minimum: U64)
    requires visited <= |utxos| && ChosenSums(sum, chosen, utxos[..visited]) && Reaches(chosen, outputs, fee, minimum)
    requires forall name :: name in rest <==> if Lists(tokens, name) then Read(rest, name) != 0 else name in sum
    requires forall name :: name != ADA ==> Read(rest, name) == (SumOf(chosen, name) - Value(outputs, name)) % U64_LIMIT
    requires exists name :: name in rest && name != ADA && |Split(name)| != 2
    ensures HasBadName(utxos)
  {
    hide SumOf, Value, Split, AllNames, NamesIn, Lists;
    NamesOfPrefix(utxos, visited);
    var name :| name in rest && name != ADA && |Split(name)| != 2;
    if name !in sum {
      assert Read(sum, name) == 0 && Demand(outputs, fee, minimum, name) == 0;
      NothingLeft(SumOf(chosen, name), Value(outputs, name));
    }
  }

  lemma NamesOfPrefix(utxos: seq<Utxo>, n: nat)
    requires n <= |utxos|
    ensures NamesIn(utxos[..n]) <= NamesIn(utxos)
  {
    hide UtxoNames;
  }

  lemma ModDifference(x: nat, y: nat)
    ensures (x % U64_LIMIT - y % U64_LIMIT) % U64_LIMIT == (x - y) % U64_LIMIT
  {}

  lemma RestMeaning(sum: Sums, rest: Sums, tokens: seq<TokenAmount>, chosen: seq<Utxo>, outputs: seq<TxOutput>)
    requires forall name :: Read(sum, name) == SumOf(chosen, name) % U64_LIMIT
    requires forall name :: Read(rest, name) == (Read(sum, name) - TokenTotal(tokens, name)) % U64_LIMIT
    requires forall name :: TokenTotal(tokens, name) == if name == ADA then 0 else Value(outputs, name) % U64_LIMIT
    ensures forall name :: Read(rest, name) == if name == ADA then SumOf(chosen, ADA) % U64_LIMIT
                                               else (SumOf(chosen, name) - Value(outputs, name)) % U64_LIMIT
    ensures Sub64(Read(rest, ADA), Value(outputs, ADA) % U64_LIMIT) ==
              (SumOf(chosen, ADA) - Value(outputs, ADA)) % U64_LIMIT
  {
    hide SumOf, Value, TokenTotal;
    ModDifference(SumOf(chosen, ADA), Value(outputs, ADA));
    forall name ensures Read(rest, name) == if name == ADA then SumOf(chosen, ADA) % U64_LIMIT
                                            else (SumOf(chosen, name) - Value(outputs, name)) % U64_LIMIT {
      ModDifference(SumOf(chosen, name), Value(outputs, name));
    }
  }

  // ---------- the balance ----------

  /** The test for a change that is too small, with the wrapped difference: it rejects exactly when the fee exceeds what
      is available, or when something but less than the minimum is left. */
  predicate Rejects(available: U64, fee: U64, minimum: U64): (r: bool)
    ensures r <==> fee > available || 0 < available - fee < minimum
  {
    var change := Sub64(available, fee);
    change != 0 && (change > available || change < minimum)
  }

  /** The outputs of the transaction: what the receivers get and, unless the change is zero, the change. */
  function FinalOutputs(outputs: seq<TxOutput>, change: TxOutput, left: U64): seq<TxOutput>
  {
    if left != 0 then outputs + [change.(amount := left)] else outputs
  }

  /** What goes out under a name, the fee being lovelace. */
  function Spent(outputs: seq<TxOutput>, fee: U64, name: string): nat
  {
    Value(outputs, name) + if name == ADA then fee else 0
  }

  /** Nothing overflows for this name. */
  predicate Fits(utxos: seq<Utxo>, outputs: seq<TxOutput>, fee: U64, minimum: U64, name: string)
  {
    SumOf(utxos, name) < U64_LIMIT && Value(outputs, name) + (if name == ADA then fee + minimum else 0) < U64_LIMIT
  }

  lemma ModSum(x: nat, y: int, fee: nat)
    ensures (x + (y - x - fee) % U64_LIMIT + fee) % U64_LIMIT == y % U64_LIMIT
    ensures x + (y - x - fee) % U64_LIMIT + fee == y <==> x + fee <= y < x + fee + U64_LIMIT
  {
    ModBetween(y - x - fee);
  }

  lemma ModBetween(z: int)
    ensures z % U64_LIMIT == z <==> 0 <= z < U64_LIMIT
  {}

  /** Lovelace always balances modulo 2^64, every token does while the change output is kept, and without the change
      output a token balances exactly when the change would have held none of it. The exact amounts balance if and only
      if the inputs cover outputs and fee with less than 2^64 to spare. */
  lemma ValueBalance(outputs: seq<TxOutput>, change: TxOutput, sender: string, chosen: seq<Utxo>, fee: U64, left: U64,
                     name: string)
    requires IsChange(change, sender, chosen, outputs)
    requires left == Sub64((SumOf(chosen, ADA) - Value(outputs, ADA)) % U64_LIMIT, fee)
    ensures var all := FinalOutputs(outputs, change, left);
            (left != 0 || name == ADA || TokenTotal(change.tokens, name) == 0) <==>
              Spent(all, fee, name) % U64_LIMIT == SumOf(chosen, name) % U64_LIMIT
    ensures left != 0 || name == ADA ==>
            (Spent(FinalOutputs(outputs, change, left), fee, name) == SumOf(chosen, name) <==>
              Spent(outputs, fee, name) <= SumOf(chosen, name) < Spent(outputs, fee, name) + U64_LIMIT)
  {
    hide SumOf, Value, TokenTotal, SortedByName;
    var s, v := SumOf(chosen, name), Value(outputs, name);
    assert TokenTotal(change.tokens, name) == if name == ADA then 0 else (s - v) % U64_LIMIT;
    if name == ADA {
      SubtractMore(s - v, fee);
      assert left == (s - v - fee) % U64_LIMIT;
      ModSum(v, s, fee);
    } else {
      ModSum(v, s, 0);
    }
    if left != 0 {
      ValueSnoc(outputs, change.(amount := left), name);
    } else if name != ADA {
      NothingLeft(s, v);
    }
  }

  lemma NothingLeft(s: nat, v: nat)
    ensures (s - v) % U64_LIMIT == 0 <==> v % U64_LIMIT == s % U64_LIMIT
  {
    ModDifference(s, v);
  }

  lemma ChosenBelow(chosen: seq<Utxo>, utxos: seq<Utxo>, order: seq<nat>, maxInputs: int, name: string)
    requires ChosenFrom(chosen, utxos, order, maxInputs)
    ensures SumOf(chosen, name) <= SumOf(utxos, name)
  {
    hide SumOf, SumAt, Contribution, Origins;
    SumOfOrigins(chosen, utxos, order, name);
    SumOfOrigins(utxos, utxos, Identity(|utxos|), name);
    OriginsWithin(order, |utxos|);
    SumMonotone(Amts(utxos, name), Origins(order), Origins(Identity(|utxos|)));
  }

  /** When nothing overflows, chosen inputs cover the demand, so a fee within the potential fee is never rejected and
      all amounts balance exactly. */
  lemma EnoughChosen(outputs: seq<TxOutput>, chosen: seq<Utxo>, utxos: seq<Utxo>, order: seq<nat>, maxInputs: int,
                     potentialFee: U64, minimum: U64, fee: U64, name: string)
    requires ChosenFrom(chosen, utxos, order, maxInputs) && Reaches(chosen, outputs, potentialFee, minimum)
    requires Fits(utxos, outputs, potentialFee, minimum, name)
    ensures SumOf(chosen, name) < U64_LIMIT
    ensures SumOf(chosen, name) >= Value(outputs, name) + if name == ADA then potentialFee + minimum else 0
    ensures name == ADA && fee <= potentialFee ==>
              !Rejects((SumOf(chosen, ADA) - Value(outputs, ADA)) % U64_LIMIT, fee, minimum)
    ensures name == ADA && !Rejects((SumOf(chosen, ADA) - Value(outputs, ADA)) % U64_LIMIT, fee, minimum) ==>
              Spent(outputs, fee, ADA) <= SumOf(chosen, ADA)
  {
    hide SumOf, Value, Rejects, Sub64, ChosenFrom;
    ChosenBelow(chosen, utxos, order, maxInputs, name);
    assert SumOf(chosen, name) % U64_LIMIT >= Demand(outputs, potentialFee, minimum, name);
    NoWrap(SumOf(chosen, name));
    if name == ADA {
      NoWrap(Value(outputs, ADA));
      NoWrap(Value(outputs, ADA) + potentialFee);
      NoWrap(Value(outputs, ADA) + potentialFee + minimum);
      NoWrap(SumOf(chosen, ADA) - Value(outputs, ADA));
      RejectsMeaning(SumOf(chosen, ADA) - Value(outputs, ADA), fee, minimum);
    } else {
      NoWrap(Value(outputs, name));
    }
  }

  lemma NoWrap(x: nat)
    requires x < U64_LIMIT
    ensures x % U64_LIMIT == x
  {}

  lemma RejectsMeaning(available: U64, fee: U64, minimum: U64)
    ensures Rejects(available, fee, minimum) <==> fee > available || 0 < available - fee < minimum
  {}

  /** Amounts beyond 64 bits can wrap the demand around, and then the outputs may exceed the inputs. */
  lemma OverflowUnbalances() returns (outputs: seq<TxOutput>, chosen: seq<Utxo>, fee: U64, left: U64)
    ensures Reaches(chosen, outputs, 400000, 1000000) && fee <= 400000
    ensures left == Sub64((SumOf(chosen, ADA) - Value(outputs, ADA)) % U64_LIMIT, fee)
    ensures !Rejects((SumOf(chosen, ADA) - Value(outputs, ADA)) % U64_LIMIT, fee, 1000000)
    ensures Value(outputs, ADA) > SumOf(chosen, ADA)
  {
    outputs, chosen, fee := [TxOutput("", 0xffff_ffff_ffff_ffff, [])], [Utxo("", 0, 2000000, [])], 200000;
    assert AsUtxos(outputs)[..0] == [] && chosen[..0] == [];
    forall name ensures SumOf(chosen, name) == (if name == ADA then 2000000 else 0)
      ensures Value(outputs, name) == (if name == ADA then 0xffff_ffff_ffff_ffff else 0)
    {
      assert SumOf(chosen, name) == SumOf(chosen[..0], name) + Contribution(chosen[0], name);
      assert SumOf(AsUtxos(outputs), name) ==
        SumOf(AsUtxos(outputs)[..0], name) + Contribution(AsUtxos(outputs)[0], name);
    }
    left := 1800001;
  }

  /** A change that holds nothing of a token need not be kept for it, any other must: here the fee takes all the change,
      and the token it should have carried is lost. */
  lemma ZeroChangeDropsTokens() returns (chosen: seq<Utxo>, change: TxOutput, token: Token)
    ensures Reaches(chosen, [], 400000, 1000000) && IsChange(change, "", chosen, [])
    ensures !Rejects((SumOf(chosen, ADA) - Value([], ADA)) % U64_LIMIT, 1400000, 1000000)
    ensures var left := Sub64((SumOf(chosen, ADA) - Value([], ADA)) % U64_LIMIT, 1400000);
            && left == 0 && SumOf(chosen, TokenName(token)) > 0
            && Spent(FinalOutputs([], change, left), 1400000, TokenName(token)) == 0
  {
    hide TokenName;
    token := Token("", []);
    var tokens := [TokenAmount(token, 1)];
    chosen, change := [Utxo("", 0, 1400000, tokens)], TxOutput("", 0, tokens);
    TokenNameNotAda(token);
    assert tokens[..0] == [] && chosen[..0] == [] && AsUtxos([]) == [];
    forall name
      ensures SumOf(chosen, name) == (if name == ADA then 1400000 else if name == TokenName(token) then 1 else 0)
      ensures TokenTotal(tokens, name) == (if name == TokenName(token) then 1 else 0)
      ensures Value([], name) == 0
    {
      assert TokenTotal(tokens, name) == TokenTotal(tokens[..0], name) + if TokenName(token) == name then 1 else 0;
      assert SumOf(chosen, name) == SumOf(chosen[..0], name) + Contribution(chosen[0], name);
    }
  }

  /** What a caller can rely on beforehand: with amounts that fit, a fee within the potential fee and a positive
      minimum the change is kept, holds at least the minimum, and everything that fits balances exactly. */
  lemma ChangeIsKept(outputs: seq<TxOutput>, change: TxOutput, sender: string, chosen: seq<Utxo>, utxos: seq<Utxo>,
                     order: seq<nat>, maxInputs: int, potentialFee: U64, minimum: U64, fee: U64, left: U64,
                     name: string)
    requires ChosenFrom(chosen, utxos, order, maxInputs) && Reaches(chosen, outputs, potentialFee, minimum)
    requires IsChange(change, sender, chosen, outputs)
    requires left == Sub64((SumOf(chosen, ADA) - Value(outputs, ADA)) % U64_LIMIT, fee)
    requires Fits(utxos, outputs, potentialFee, minimum, ADA) && Fits(utxos, outputs, potentialFee, minimum, name)
    requires fee <= potentialFee && minimum > 0
    ensures left >= minimum && Spent(FinalOutputs(outputs, change, left), fee, name) == SumOf(chosen, name)
  {
    hide SumOf, Value, Fits, ChosenFrom, Reaches, IsChange, FinalOutputs, Rejects;
    EnoughChosen(outputs, chosen, utxos, order, maxInputs, potentialFee, minimum, fee, ADA);
    EnoughChosen(outputs, chosen, utxos, order, maxInputs, potentialFee, minimum, fee, name);
    ValueBalance(outputs, change, sender, chosen, fee, left, name);
    NoWrap(SumOf(chosen, ADA) - Value(outputs, ADA));
    NoWrap(SumOf(chosen, ADA) - Value(outputs, ADA) - fee);
  }

  // ---------- createTx ----------

  /** The lovelace left when the outputs are paid. */
  function Available(d: Decisions, q: Request): U64
  {
    (SumOf(d.chosen, ADA) - Value(Outputs(q.receivers), ADA)) % U64_LIMIT
  }

  /** The outputs that are built. */
  function Built(d: Decisions, q: Request): seq<TxOutput>
  {
    FinalOutputs(Outputs(q.receivers), d.change, Sub64(Available(d, q), d.fee))
  }

  /** The fee is what was calculated for the populated builder. */
  ghost predicate IsPriced(d: Decisions, q: Request, ins: seq<TxInput>, outs: seq<TxOutput>)
  {
    && IsPopulated(d, q)
    && q.answers.fee(ins + Refs(d.chosen), outs + Outputs(q.receivers) + [d.change]) == Some(d.fee)
  }

  /** Why an error was returned, for a builder that held `ins` and `outs` before. */
  ghost predicate IsCause(e: TxError, d: Decisions, q: Request, ins: seq<TxInput>, outs: seq<TxOutput>)
  {
    var available := q.answers.utxos;
    match e
    case NoUtxos => available.None?
    case NoMinUtxo => available.Some? && NoMinimum(q, available.value, Outputs(q.receivers))
    case UtxosLimitReached =>
      available.Some? && HasMinimum(d.minimum, q)
      && Reaches(available.value, Outputs(q.receivers), PotentialFee(q.config), d.minimum)
      && (IsDecided(q, d.minimum) ==> !IsPossible(q, d.minimum))
    case UtxosCouldNotSelect =>
      available.Some? && HasMinimum(d.minimum, q)
      && !Reaches(available.value, Outputs(q.receivers), PotentialFee(q.config), d.minimum)
      && (IsDecided(q, d.minimum) ==> !IsPossible(q, d.minimum))
    case BadTokenName => IsChosen(d, q) && HasBadName(available.value)
    case NoTip => IsPopulated(d, q) && q.answers.tip.None?
    case NoFee =>
      IsPopulated(d, q) && q.answers.fee(ins + Refs(d.chosen), outs + Outputs(q.receivers) + [d.change]).None?
    case InsufficientChange => IsPriced(d, q, ins, outs) && Rejects(Available(d, q), d.fee, d.minimum)
    case NotBuilt =>
      IsPriced(d, q, ins, outs) && !Rejects(Available(d, q), d.fee, d.minimum)
      && (!q.answers.rawTx || exists i :: 0 <= i < |outs + Built(d, q)| && (outs + Built(d, q))[i].amount == 0)
  }

  /** What a builder holds after success. */
  ghost predicate IsFinished(d: Decisions, q: Request, ins: seq<TxInput>, outs: seq<TxOutput>, inputs: seq<TxInput>,
                             outputs: seq<TxOutput>, fee: U64)
  {
    && IsPriced(d, q, ins, outs) && !Rejects(Available(d, q), d.fee, d.minimum) && q.answers.rawTx
    && inputs == ins + Refs(d.chosen) && outputs == outs + Built(d, q) && fee == d.fee
    && forall i :: 0 <= i < |outputs| ==> outputs[i].amount != 0
  }

  /** What is asked for, spelled out: the outputs, the configured potential fee (400000 if none is configured) and the
      least change; and for a token what the receivers get. */
  lemma DemandByConfig(q: Request, minimum: U64, name: string)
    requires var fee := if q.config.potentialFee > 0 then q.config.potentialFee else 400000;
             Value(Outputs(q.receivers), name) + fee + minimum < U64_LIMIT
    ensures var fee := if q.config.potentialFee > 0 then q.config.potentialFee else 400000;
            Demand(Outputs(q.receivers), PotentialFee(q.config), minimum, name) ==
            Value(Outputs(q.receivers), name) + if name == ADA then fee + minimum else 0
  {
    hide Value, Outputs;
    NoWrap(Value(Outputs(q.receivers), name));
    NoWrap(Value(Outputs(q.receivers), name) + PotentialFee(q.config));
    NoWrap(Value(Outputs(q.receivers), name) + PotentialFee(q.config) + minimum);
  }

  /** The change that is kept holds at least the configured minimum and the one calculated for an output of everything
      the receivers do not get. */
  lemma ChangeCoversMinimum(d: Decisions, q: Request)
    requires IsPopulated(d, q) && !Rejects(Available(d, q), d.fee, d.minimum)
    requires Sub64(Available(d, q), d.fee) != 0
    ensures var left := Sub64(Available(d, q), d.fee);
            && left >= d.minimum >= q.config.minUtxoValue
            && exists output :: IsRemainder(output, q.senderAddr, q.answers.utxos.value, Outputs(q.receivers))
                                && q.answers.minUtxo(output).Some? && left >= q.answers.minUtxo(output).value
  {
    hide SumOf, Value, Outputs, ChosenFrom, Reaches, IsChange, Demand, IsRemainder, IsListing, Rejects, Available;
    var output :| IsMinimum(d.minimum, q, output);
    RejectsMeaning(Available(d, q), d.fee, d.minimum);
    NoWrap(Available(d, q) - d.fee);
  }

  method CreateTx(b: TxBuilder, q: Request) returns (r: Result<TxInfo, TxError>, ghost d: Decisions)
    modifies b
    ensures r == Err(InsufficientChange) && q.answers.utxos.Some? && AllFits(d, q, ADA) ==>
              d.fee > if q.config.potentialFee > 0 then q.config.potentialFee else 400000
    ensures r.Ok? ==>
              && q.answers.tip.Some?
              && b.timeToLive == (q.answers.tip.value + (if q.config.ttlSlotNumberInc > 0 then q.config.ttlSlotNumberInc
                                                         else 500)) % U64_LIMIT
    ensures r.Err? ==> IsCause(r.error, d, q, old(b.inputs), old(b.outputs))
    ensures r.Ok? ==> IsFinished(d, q, old(b.inputs), old(b.outputs), b.inputs, b.outputs, b.fee)
    ensures r.Ok? ==> r.value == TxInfo(d.minimum, Refs(d.chosen))
  {
    hide SumOf, Value, Outputs, IsPopulated, IsChosen, HasMinimum, NoMinimum, HasBadName, Reaches;
    var data;
    data, d := PopulateTxBuilder(b, q);
    if data.Err? {
      return Err(data.error), d;
    }
    var feeCurrencyLovelace := q.answers.fee(b.inputs, b.outputs);
    if feeCurrencyLovelace.None? {
      return Err(NoFee), d;
    }
    b.SetFee(feeCurrencyLovelace.value);
    PriceOnly(d, q, feeCurrencyLovelace.value);
    d := d.(fee := feeCurrencyLovelace.value);

    var left := Sub64(data.value.changeLovelace, feeCurrencyLovelace.value);
    if left != 0 && (left > data.value.changeLovelace || left < data.value.changeMinUtxo) {
      FeeTooHigh(d, q);
      return Err(InsufficientChange), d;
    }
    ghost var kept := old(b.outputs) + Outputs(q.receivers);
    if left != 0 {
      b.UpdateOutputAmount(-1, left, []);
      assert b.outputs == kept + [d.change.(amount := left)] by {
        assert b.outputs[|kept|].tokens == d.change.tokens;
      }
    } else {
      b.RemoveOutput(-1);
      assert b.outputs == kept;
    }
    assert b.outputs == old(b.outputs) + Built(d, q);
    var complete := b.CheckOutputs();
    if !complete || !q.answers.rawTx {
      return Err(NotBuilt), d;
    }
    r := Ok(TxInfo(data.value.changeMinUtxo, data.value.chosenInputs));
  }

  /** When nothing overflows only a fee above the configured potential fee is rejected. */
  lemma FeeTooHigh(d: Decisions, q: Request)
    requires IsPopulated(d, q) && Rejects(Available(d, q), d.fee, d.minimum)
    ensures AllFits(d, q, ADA) ==> d.fee > if q.config.potentialFee > 0 then q.config.potentialFee else 400000
  {
    hide SumOf, Value, ChosenFrom, HasMinimum, Reaches, Outputs, Demand, IsChange, Rejects, Fits, IsListing, Visited;
    if AllFits(d, q, ADA) {
      EnoughChosen(Outputs(q.receivers), d.chosen, q.answers.utxos.value, d.order, q.maxInputs, PotentialFee(q.config),
                   d.minimum, d.fee, ADA);
    }
  }

  lemma PriceOnly(d: Decisions, q: Request, fee: U64)
    requires IsPopulated(d, q)
    ensures IsPopulated(d.(fee := fee), q) && Available(d.(fee := fee), q) == Available(d, q)
  {
    hide SumOf, Value, Outputs, HasMinimum, Reaches, IsChange, ChosenFrom, Demand;
  }

  /** No amount of this name overflows while the transaction is built. */
  ghost predicate AllFits(d: Decisions, q: Request, name: string)
    requires q.answers.utxos.Some?
  {
    Fits(q.answers.utxos.value, Outputs(q.receivers), PotentialFee(q.config), d.minimum, name)
  }

  /** The chosen inputs are paid out again: lovelace modulo 2^64, every token while the change is kept, and both
      exactly if nothing overflows; then a fee within the potential fee and a positive minimum keep the change. */
  ghost predicate IsBalanced(d: Decisions, q: Request, outputs: seq<TxOutput>, fee: U64)
    requires q.answers.utxos.Some?
  {
    var kept := |outputs| > |q.receivers|;
    && (forall name :: kept || name == ADA ==>
        Spent(outputs, fee, name) % U64_LIMIT == SumOf(d.chosen, name) % U64_LIMIT)
    && (forall name :: (kept || name == ADA) && AllFits(d, q, name) ==>
        Spent(outputs, fee, name) == SumOf(d.chosen, name))
    && (AllFits(d, q, ADA) && fee <= PotentialFee(q.config) && d.minimum > 0 ==> kept)
  }

  /** A transaction built from nothing. When its amounts fit, a fee within the potential fee is never the reason to
      fail. */
  method CreateFreshTx(q: Request) returns (b: TxBuilder, r: Result<TxInfo, TxError>, ghost d: Decisions)
    ensures r.Ok? ==> |b.outputs| >= |q.receivers| && b.outputs[..|q.receivers|] == Outputs(q.receivers)
    ensures r.Ok? ==> r.value.chosenInputs == b.inputs && forall i :: 0 <= i < |b.outputs| ==> b.outputs[i].amount != 0
    // the inputs are different UTXOs of the sender
    ensures r.Ok? ==> q.answers.utxos.Some? && AreInputs(b.inputs, q.answers.utxos.value, d.order)
    ensures r.Ok? && q.maxInputs >= 1 ==> |b.inputs| <= q.maxInputs
    ensures r.Err? ==> IsCause(r.error, d, q, [], [])
    ensures r.Ok? ==> IsFinished(d, q, [], [], b.inputs, b.outputs, b.fee) && IsBalanced(d, q, b.outputs, b.fee)
    ensures r == Err(InsufficientChange) && q.answers.utxos.Some? && AllFits(d, q, ADA) ==>
              d.fee > if q.config.potentialFee > 0 then q.config.potentialFee else 400000
    ensures r.Ok? && |b.outputs| > |q.receivers| ==>
              var change := b.outputs[|b.outputs| - 1];
              && change.addr == q.senderAddr && change.amount >= q.config.minUtxoValue
              && exists output :: IsRemainder(output, q.senderAddr, q.answers.utxos.value, Outputs(q.receivers))
                                  && q.answers.minUtxo(output).Some?
                                  && change.amount >= q.answers.minUtxo(output).value
    ensures r.Ok? ==>
              && q.answers.tip.Some?
              && b.timeToLive == (q.answers.tip.value + (if q.config.ttlSlotNumberInc > 0 then q.config.ttlSlotNumberInc
                                                         else 500)) % U64_LIMIT
  {
    hide SumOf, Value, Outputs, IsPopulated, HasMinimum, NoMinimum, HasBadName, Reaches, Rejects, Fits, IsBalanced;
    b := new TxBuilder();
    r, d := CreateTx(b, q);
    if r.Ok? || r == Err(InsufficientChange) {
      PricedIsChosen(d, q, [], []);
      FreshBalance(d, q);
      FreshChange(d, q, r.Ok?);
      FreshInputs(d, q);
      assert [] + Built(d, q) == Built(d, q) && [] + Refs(d.chosen) == Refs(d.chosen);
    }
  }

  /** Each input names a UTXO by hash and index, and no two the same one. */
  ghost predicate AreInputs(inputs: seq<TxInput>, utxos: seq<Utxo>, order: seq<nat>)
  {
    && |order| == |inputs|
    && (forall i :: 0 <= i < |inputs| ==>
          order[i] < |utxos| && inputs[i].hash == utxos[order[i]].hash && inputs[i].index == utxos[order[i]].index)
    && forall i, j :: 0 <= i < j < |order| ==> order[i] != order[j]
  }

  lemma FreshInputs(d: Decisions, q: Request)
    requires IsPopulated(d, q)
    ensures AreInputs(Refs(d.chosen), q.answers.utxos.value, d.order)
    ensures q.maxInputs >= 1 ==> |d.chosen| <= q.maxInputs
  {
    hide SumOf, Value, HasMinimum, Reaches, Outputs, Demand, IsListing, Visited, IsChange;
  }

  lemma FreshChange(d: Decisions, q: Request, ok: bool)
    requires IsPopulated(d, q) && (ok ==> !Rejects(Available(d, q), d.fee, d.minimum))
    ensures ok && |Built(d, q)| > |q.receivers| ==>
              var change := Built(d, q)[|Built(d, q)| - 1];
              && change.addr == q.senderAddr && change.amount >= q.config.minUtxoValue
              && exists output :: IsRemainder(output, q.senderAddr, q.answers.utxos.value, Outputs(q.receivers))
                                  && q.answers.minUtxo(output).Some?
                                  && change.amount >= q.answers.minUtxo(output).value
  {
    hide SumOf, Value, ChosenFrom, HasMinimum, Reaches, Outputs, Demand, Rejects, IsRemainder, IsListing, Visited;
    if ok && |Built(d, q)| > |q.receivers| {
      ChangeCoversMinimum(d, q);
    }
  }

  lemma PricedIsChosen(d: Decisions, q: Request, ins: seq<TxInput>, outs: seq<TxOutput>)
    requires IsPriced(d, q, ins, outs)
    ensures IsPopulated(d, q) && q.answers.utxos.Some?
  {
    hide SumOf, Value, Outputs, HasMinimum, Reaches, IsChange, ChosenFrom, Demand;
  }

  lemma FreshBalance(d: Decisions, q: Request)
    requires IsPopulated(d, q)
    ensures !Rejects(Available(d, q), d.fee, d.minimum) ==> IsBalanced(d, q, Built(d, q), d.fee)
    ensures Rejects(Available(d, q), d.fee, d.minimum) && AllFits(d, q, ADA) ==> d.fee > PotentialFee(q.config)
    ensures |Built(d, q)| >= |q.receivers| && Built(d, q)[..|q.receivers|] == Outputs(q.receivers)
  {
    hide SumOf, Value, ChosenFrom, HasMinimum, Reaches, Outputs, Demand, IsChange, Rejects, Fits, FinalOutputs;
    var outputs, utxos := Outputs(q.receivers), q.answers.utxos.value;
    var left := Sub64(Available(d, q), d.fee);
    BuiltShape(outputs, d.change, left);
    var pf := PotentialFee(q.config);
    forall name | left != 0 || name == ADA
      ensures Spent(Built(d, q), d.fee, name) % U64_LIMIT == SumOf(d.chosen, name) % U64_LIMIT
      ensures !Rejects(Available(d, q), d.fee, d.minimum) && AllFits(d, q, name) ==>
                Spent(Built(d, q), d.fee, name) == SumOf(d.chosen, name)
    {
      ValueBalance(outputs, d.change, q.senderAddr, d.chosen, d.fee, left, name);
      if Fits(utxos, outputs, pf, d.minimum, name) {
        EnoughChosen(outputs, d.chosen, utxos, d.order, q.maxInputs, pf, d.minimum, d.fee, name);
      }
    }
    if Fits(utxos, outputs, pf, d.minimum, ADA) {
      EnoughChosen(outputs, d.chosen, utxos, d.order, q.maxInputs, pf, d.minimum, d.fee, ADA);
      if d.fee <= pf && d.minimum > 0 {
        ChangeIsKept(outputs, d.change, q.senderAddr, d.chosen, utxos, d.order, q.maxInputs, pf, d.minimum, d.fee,
                     left, ADA);
      }
    }
  }

  lemma BuiltShape(outputs: seq<TxOutput>, change: TxOutput, left: U64)
    ensures FinalOutputs(outputs, change, left)[..|outputs|] == outputs
    ensures |FinalOutputs(outputs, change, left)| == |outputs| + if left != 0 then 1 else 0
  {}
}
