/** Sum maps, token lists and outputs: `GetTokensSumMap`, `SubtractSumMaps` (`wallet/transaction_extended.go`),
    `GetOutputsSum`, `GetTokensFromSumMap` (`wallet/utils.go`). */
module TokenLists {
  import opened Wrappers
  import opened Numbers
  import opened WalletData
  import opened Amounts
  import opened CoinSelection
  import opened Selectors

  datatype TxOutput = TxOutput(addr: string, amount: U64, tokens: seq<TokenAmount>)

  /** What an output carries, seen as a UTXO. */
  function AsUtxo(o: TxOutput): Utxo { Utxo("", 0, o.amount, o.tokens) }

  function AsUtxos(outputs: seq<TxOutput>): (r: seq<Utxo>)
    ensures |r| == |outputs|
  {
    seq(|outputs|, i requires 0 <= i < |outputs| => AsUtxo(outputs[i]))
  }

  /** All that the outputs carry of one name. */
  function Value(outputs: seq<TxOutput>, name: string): nat { SumOf(AsUtxos(outputs), name) }

  lemma ValueSnoc(outputs: seq<TxOutput>, o: TxOutput, name: string)
    ensures Value(outputs + [o], name) == Value(outputs, name) + Contribution(AsUtxo(o), name)
  {
    hide Contribution;
    SumSnoc(AsUtxos(outputs), AsUtxo(o), name);
    assert AsUtxos(outputs + [o]) == AsUtxos(outputs) + [AsUtxo(o)];
  }

  lemma AdaIsNoToken(tokens: seq<TokenAmount>)
    ensures TokenTotal(tokens, ADA) == 0
  {
    hide TokenName;
    forall i | 0 <= i < |tokens| ensures TokenName(tokens[i].token) != ADA { TokenNameNotAda(tokens[i].token); }
    NoneListed(tokens, ADA);
  }

  method GetOutputsSum(outputs: seq<TxOutput>) returns (result: Sums)
    ensures forall name :: Read(result, name) == Value(outputs, name) % U64_LIMIT
    ensures AllNames(result)
  {
    hide Represents, AllNames, SumOf;
    result := map[];
    EmptySums();
    for i := 0 to |outputs|
      invariant Represents(result, Sum(AsUtxos(outputs[..i]))) && AllNames(result)
    {
      result := AddNext(result, AsUtxos(outputs[..i]), AsUtxo(outputs[i]));
      assert AsUtxos(outputs[..i + 1]) == AsUtxos(outputs[..i]) + [AsUtxo(outputs[i])];
    }
    assert outputs[..|outputs|] == outputs;
    forall name ensures Read(result, name) == Value(outputs, name) % U64_LIMIT {
      ReadSum(result, AsUtxos(outputs), name);
    }
  }

  /** The totals of a token list. */
  ghost function Totals(tokens: seq<TokenAmount>): string -> nat { (name: string) => TokenTotal(tokens, name) }

  method GetTokensSumMap(tokens: seq<TokenAmount>) returns (sumMap: Sums)
    ensures forall name :: Read(sumMap, name) == TokenTotal(tokens, name) % U64_LIMIT
    ensures AllNames(sumMap)
  {
    hide TokenName, Represents, AllNames, Add64;
    sumMap := map[];
    NoSums();
    for i := 0 to |tokens|
      invariant Represents(sumMap, Totals(tokens[..i])) && AllNames(sumMap)
    {
      var name := TokenName(tokens[i].token);
      NextToken(tokens, i);
      TotalsMeaning(tokens[..i]);
      TotalsMeaning(tokens[..i + 1]);
      AddOne(sumMap, name, tokens[i].amount, Totals(tokens[..i]), Totals(tokens[..i + 1]));
      NamesGrow(sumMap, tokens[i].token, Add64(Read(sumMap, name), tokens[i].amount));
      sumMap := sumMap[name := Add64(Read(sumMap, name), tokens[i].amount)];
    }
    assert tokens[..|tokens|] == tokens;
    RepresentsTotals(sumMap, tokens);
  }

  lemma NoSums()
    ensures Represents(map[], Totals([])) && AllNames(map[])
  {}

  lemma TotalsMeaning(tokens: seq<TokenAmount>)
    ensures forall name: string :: Totals(tokens)(name) == TokenTotal(tokens, name)
  {}

  lemma RepresentsTotals(sum: Sums, tokens: seq<TokenAmount>)
    requires Represents(sum, Totals(tokens))
    ensures forall name :: Read(sum, name) == TokenTotal(tokens, name) % U64_LIMIT
  {
    forall name ensures Read(sum, name) == TokenTotal(tokens, name) % U64_LIMIT {
      assert Read(sum, name) == Totals(tokens)(name) % U64_LIMIT;
    }
  }

  /** Truncated subtraction of sums; an entry that would not stay positive is removed. */
  method SubtractSumMaps(a: Sums, b: Sums) returns (r: Sums)
    ensures forall name :: Read(r, name) == if Read(a, name) > Read(b, name) then Read(a, name) - Read(b, name) else 0
    ensures forall name :: name in r <==> name in a && (name !in b || a[name] > b[name])
    ensures AllNames(a) ==> AllNames(r)
  {
    hide IsName;
    r := a;
    var names := a.Keys;
    while names != {}
      invariant names <= a.Keys
      invariant forall name :: name in names ==> name in r && r[name] == a[name]
      invariant forall name :: name !in names ==> (name in r <==> name in a && (name !in b || a[name] > b[name]))
      invariant forall name :: name !in names && name in r ==> r[name] == a[name] - Read(b, name)
      decreases |names|
    {
      var tokenName :| tokenName in names;
      if tokenName in b {
        if r[tokenName] > b[tokenName] {
          r := r[tokenName := r[tokenName] - b[tokenName]];
        } else {
          r := r - {tokenName};
        }
      }
      names := names - {tokenName};
    }
  }

  // ---------- the order of names ----------

  /** Go's `<` on strings. */
  predicate NameLess(a: string, b: string)
  {
    b != [] && (a == [] || a[0] < b[0] || (a[0] == b[0] && NameLess(a[1..], b[1..])))
  }

  lemma {:induction false} NameLessOneWay(a: string, b: string)
    ensures NameLess(a, b) ==> !NameLess(b, a)
  {
    if a != [] && b != [] { NameLessOneWay(a[1..], b[1..]); }
  }

  lemma {:induction false} NotAfterTransitive(a: string, b: string, c: string)
    requires !NameLess(b, a) && !NameLess(c, b)
    ensures !NameLess(c, a)
  {
    if a != [] && b != [] && c != [] && a[0] == b[0] == c[0] { NotAfterTransitive(a[1..], b[1..], c[1..]); }
  }

  /** One name is before another when it is a proper prefix of it, or has the smaller character at the first place
      where they differ. */
  lemma {:induction false} NameLessMeaning(a: string, b: string)
    ensures NameLess(a, b) <==>
              (a <= b && a != b)
              || exists i :: 0 <= i < |a| && i < |b| && a[..i] == b[..i] && a[i] as int < b[i] as int
  {
    if a != [] && b != [] && a[0] == b[0] {
      NameLessMeaning(a[1..], b[1..]);
      assert a == [a[0]] + a[1..] && b == [b[0]] + b[1..];
      forall i | 0 <= i < |a| && i < |b| && a[..i] == b[..i] && a[i] as int < b[i] as int
        ensures NameLess(a[1..], b[1..])
      {
        assert i > 0 && a[1..][..i - 1] == a[..i][1..] && b[1..][..i - 1] == b[..i][1..];
        assert a[1..][i - 1] == a[i] && b[1..][i - 1] == b[i];
      }
      forall i | 0 <= i < |a| - 1 && i < |b| - 1 && a[1..][..i] == b[1..][..i] && a[1..][i] as int < b[1..][i] as int
        ensures a[..i + 1] == b[..i + 1] && a[i + 1] as int < b[i + 1] as int
      {
        assert a[..i + 1] == [a[0]] + a[1..][..i] && b[..i + 1] == [b[0]] + b[1..][..i];
      }
    } else if a != [] && b != [] && a[0] < b[0] {
      assert a[..0] == b[..0];
    } else if a != [] && b != [] {
      forall i | 0 <= i < |a| && i < |b| ensures !(a[..i] == b[..i] && a[i] as int < b[i] as int) {
        assert i > 0 ==> a[..i][0] == a[0] && b[..i][0] == b[0];
      }
    }
  }

  predicate SortedByName(tokens: seq<TokenAmount>)
  {
    forall i, j :: 0 <= i < j < |tokens| ==> !NameLess(TokenName(tokens[j].token), TokenName(tokens[i].token))
  }

  lemma {:induction false} TotalInsert(tokens: seq<TokenAmount>, p: nat, t: TokenAmount, name: string)
    requires p <= |tokens|
    ensures TokenTotal(tokens[..p] + [t] + tokens[p..], name) ==
            TokenTotal(tokens, name) + if TokenName(t.token) == name then t.amount else 0
    decreases |tokens|
  {
    hide TokenName;
    var all := tokens[..p] + [t] + tokens[p..];
    if p == |tokens| {
      assert all[..|all| - 1] == tokens;
    } else {
      TotalInsert(tokens[..|tokens| - 1], p, t, name);
      assert all[..|all| - 1] == tokens[..|tokens| - 1][..p] + [t] + tokens[..|tokens| - 1][p..];
    }
  }

  lemma InsertSorted(tokens: seq<TokenAmount>, p: nat, t: TokenAmount)
    requires p <= |tokens| && SortedByName(tokens)
    requires forall i :: 0 <= i < p ==> !NameLess(TokenName(t.token), TokenName(tokens[i].token))
    requires p < |tokens| ==> NameLess(TokenName(t.token), TokenName(tokens[p].token))
    ensures SortedByName(tokens[..p] + [t] + tokens[p..])
  {
    hide TokenName, NameLess;
    var all := tokens[..p] + [t] + tokens[p..];
    var name := TokenName(t.token);
    forall i, j | 0 <= i < j < |all| ensures !NameLess(TokenName(all[j].token), TokenName(all[i].token)) {
      if i == p {
        var first := TokenName(tokens[p].token);
        NameLessOneWay(name, first);
        NameLessOneWay(first, first);
        assert all[j] == tokens[j - 1];
        NotAfterTransitive(name, first, TokenName(all[j].token));
      } else if j == p {
        assert all[i] == tokens[i];
      } else {
        assert all[i] == tokens[if i < p then i else i - 1] && all[j] == tokens[if j < p then j else j - 1];
      }
    }
  }

  predicate Lists(tokens: seq<TokenAmount>, name: string)
  {
    exists i :: 0 <= i < |tokens| && TokenName(tokens[i].token) == name
  }

  lemma ListsMore(a: seq<TokenAmount>, t: TokenAmount, b: seq<TokenAmount>, name: string)
    ensures Lists(a + [t] + b, name) <==> Lists(a + b, name) || TokenName(t.token) == name
  {
    hide TokenName;
    var all, without := a + [t] + b, a + b;
    assert all[|a|] == t;
    forall i | 0 <= i < |without| ensures without[i] == all[if i < |a| then i else i + 1] {}
    forall i | 0 <= i < |all| && i != |a| ensures all[i] == without[if i < |a| then i else i - 1] {}
  }

  /** The sort by name; any algorithm gives this order up to tokens of equal name. */
  method SortByName(tokens: seq<TokenAmount>) returns (r: seq<TokenAmount>)
    ensures SortedByName(r) && |r| == |tokens|
    ensures forall name :: TokenTotal(r, name) == TokenTotal(tokens, name)
    ensures forall name :: Lists(r, name) <==> Lists(tokens, name)
  {
    hide TokenName, NameLess, SortedByName, Lists;
    r := [];
    assert SortedByName([]) by { SortedEmpty(); }
    for k := 0 to |tokens|
      invariant SortedByName(r) && |r| == k
      invariant forall name :: TokenTotal(r, name) == TokenTotal(tokens[..k], name)
      invariant forall name :: Lists(r, name) <==> Lists(tokens[..k], name)
    {
      var p := 0;
      while p < k && !NameLess(TokenName(tokens[k].token), TokenName(r[p].token))
        invariant p <= k && forall i :: 0 <= i < p ==> !NameLess(TokenName(tokens[k].token), TokenName(r[i].token))
      {
        p := p + 1;
      }
      InsertSorted(r, p, tokens[k]);
      NextToken(tokens, k);
      forall name ensures TokenTotal(r[..p] + [tokens[k]] + r[p..], name) == TokenTotal(tokens[..k + 1], name) {
        TotalInsert(r, p, tokens[k], name);
      }
      forall name ensures Lists(r[..p] + [tokens[k]] + r[p..], name) <==> Lists(tokens[..k + 1], name) {
        ListsMore(r[..p], tokens[k], r[p..], name);
        ListsMore(tokens[..k], tokens[k], [], name);
        assert r[..p] + r[p..] == r && tokens[..k] + [] == tokens[..k];
        assert tokens[..k] + [tokens[k]] + [] == tokens[..k + 1];
      }
      r := r[..p] + [tokens[k]] + r[p..];
    }
    assert tokens[..|tokens|] == tokens;
  }

  lemma SortedEmpty()
    ensures SortedByName([])
  {}

  // ---------- tokens from sums ----------

  /** The list carries exactly the sums of all names except lovelace. */
  ghost predicate CarriesSums(tokens: seq<TokenAmount>, sum: Sums)
  {
    forall name :: TokenTotal(tokens, name) == if name == ADA then 0 else Read(sum, name)
  }

  /** One more name is visited: nothing to add for lovelace or a zero sum, a token of that name otherwise. */
  lemma CarryOne(tokens: seq<TokenAmount>, sum: Sums, names: set<string>, name: string)
    requires name in names && names <= sum.Keys && CarriesSums(tokens, sum - names)
    ensures name == ADA || sum[name] == 0 ==> CarriesSums(tokens, sum - (names - {name}))
    ensures name != ADA ==> forall t :: TokenName(t) == name ==>
              CarriesSums(tokens + [TokenAmount(t, sum[name])], sum - (names - {name}))
  {
    hide TokenName;
    forall other
      ensures Read(sum - (names - {name}), other) == if other == name then sum[name] else Read(sum - names, other)
    {}
    forall t | TokenName(t) == name && name != ADA
      ensures CarriesSums(tokens + [TokenAmount(t, sum[name])], sum - (names - {name}))
    {
      var longer := tokens + [TokenAmount(t, sum[name])];
      assert longer[..|tokens|] == tokens;
      forall other
        ensures TokenTotal(longer, other) == TokenTotal(tokens, other) + if other == name then sum[name] else 0
      {}
      assert TokenTotal(tokens, name) == Read(sum - names, name) == 0;
    }
  }

  lemma SortedCarries(tokens: seq<TokenAmount>, sorted: seq<TokenAmount>, sum: Sums)
    requires forall name :: TokenTotal(sorted, name) == TokenTotal(tokens, name)
    ensures CarriesSums(tokens, sum) ==> CarriesSums(sorted, sum)
  {}

  lemma CarryNothing(sum: Sums)
    ensures CarriesSums([], sum - sum.Keys) && sum - {} == sum
  {}

  function Skipped(skipTokenNames: seq<string>): set<string> { set name | name in skipTokenNames }

  /** The token list of a sum map, sorted by name. It fails exactly when a name has no two parts; names made from tokens
      give back exactly the summed amounts, lovelace and the skipped names left out. Go panics on an empty map, as it
      asks for a capacity of one less than its size. */
  method GetTokensFromSumMap(sum: Sums, skipTokenNames: seq<string>) returns (r: Option<seq<TokenAmount>>)
    requires sum != map[]
    ensures r.None? <==> exists name :: name in sum && name != ADA && name !in skipTokenNames && |Split(name)| != 2
    ensures r.Some? ==> SortedByName(r.value)
    ensures r.Some? && AllNames(sum) ==> CarriesSums(r.value, sum - Skipped(skipTokenNames))
    ensures r.Some? && AllNames(sum) ==>
              forall name :: Lists(r.value, name) <==> name in sum && name != ADA && name !in skipTokenNames
  {
    hide TokenName, Split, HexDecode, Bytes, SortedByName, AllNames, IsName, CarriesSums, Lists;
    var tokens: seq<TokenAmount> := [];
    ghost var kept := sum - Skipped(skipTokenNames);
    var names := sum.Keys;
    CarryNothing(kept);
    assert kept - names == kept - kept.Keys;
    ListsNothing();
    while names != {}
      invariant names <= sum.Keys
      invariant forall name :: name in kept && name !in names && name != ADA ==> |Split(name)| == 2
      invariant AllNames(sum) ==> CarriesSums(tokens, kept - names)
      invariant AllNames(sum) ==>
                forall name :: Lists(tokens, name) <==> name in sum && name !in names && name != ADA
                                                        && name !in skipTokenNames
      decreases |names|
    {
      var tokenName :| tokenName in names;
      if AllNames(sum) { CarryNext(tokens, kept, names, tokenName); }
      if tokenName != ADA && tokenName !in skipTokenNames {
        var token := NewTokenWithFullName(tokenName, true);
        if token.None? {
          token := NewTokenWithFullName(tokenName, false);
          if token.None? {
            return None;
          }
        }
        if AllNames(sum) {
          ParsedName(sum, tokenName);
        }
        ListsOneMore(tokens, TokenAmount(token.value, sum[tokenName]));
        tokens := tokens + [TokenAmount(token.value, sum[tokenName])];
      }
      names := names - {tokenName};
    }
    var sorted := SortByName(tokens);
    assert kept - names == kept;
    SortedCarries(tokens, sorted, kept);
    r := Some(sorted);
  }

  lemma ListsNothing()
    ensures forall name :: !Lists([], name)
  {}

  lemma ListsOneMore(tokens: seq<TokenAmount>, t: TokenAmount)
    ensures forall name :: Lists(tokens + [t], name) <==> Lists(tokens, name) || TokenName(t.token) == name
  {
    hide TokenName, Lists;
    forall name ensures Lists(tokens + [t], name) <==> Lists(tokens, name) || TokenName(t.token) == name {
      ListsMore(tokens, t, [], name);
      assert tokens + [t] + [] == tokens + [t] && tokens + [] == tokens;
    }
  }

  /** One more name is visited, which may be one of those left out. */
  lemma CarryNext(tokens: seq<TokenAmount>, kept: Sums, names: set<string>, name: string)
    requires name in names && CarriesSums(tokens, kept - names)
    ensures name == ADA || name !in kept || kept[name] == 0 ==> CarriesSums(tokens, kept - (names - {name}))
    ensures name != ADA && name in kept ==>
              forall t :: TokenName(t) == name ==>
                CarriesSums(tokens + [TokenAmount(t, kept[name])], kept - (names - {name}))
  {
    hide TokenName, CarriesSums;
    var inside := names * kept.Keys;
    assert kept - names == kept - inside;
    assert kept - (names - {name}) == kept - (inside - {name});
    if name in kept {
      CarryOne(tokens, kept, inside, name);
    } else {
      assert inside - {name} == inside;
    }
  }

  /** A name made from a token parses back to the token, or does not parse at all. */
  lemma ParsedName(sum: Sums, name: string)
    requires AllNames(sum) && name in sum && name != ADA
    ensures NewTokenWithFullName(name, true).Some? <==> |Split(name)| == 2
    ensures NewTokenWithFullName(name, true).Some? ==> TokenName(NewTokenWithFullName(name, true).value) == name
  {
    assert IsName(name);
    var t: Token :| TokenName(t) == name;
    TokenNameRoundTrip(t);
    SplitOfName(t);
  }

  lemma SplitOfName(t: Token)
    ensures |Split(TokenName(t))| == 2 <==> forall i :: 0 <= i < |t.policyId| ==> t.policyId[i] != '.'
  {
    HexRoundTrip(t.name);
    SplitDot(t.policyId, HexEncode(t.name));
  }

  /** Every token with a positive sum has a name that parses. */
  predicate ParsesAll(sumMap: Sums)
  {
    forall name :: name in sumMap && name != ADA && sumMap[name] > 0 ==> NewTokenWithFullName(name, true).Some?
  }

  /** `GetMinUtxoForSumMap`: the minimum is calculated for an output that carries exactly the given sums; tokens with a
      zero sum are left out, and a name that does not parse is an error. */
  method GetMinUtxoForSumMap(calculate: TxOutput -> Option<U64>, userAddress: string, sumMap: Sums)
    returns (r: Option<U64>, ghost output: TxOutput)
    ensures !ParsesAll(sumMap) ==> r.None?
    ensures ParsesAll(sumMap) ==>
              && r == calculate(output)
              && output.addr == userAddress && output.amount == Read(sumMap, ADA)
              && (AllNames(sumMap) ==> CarriesSums(output.tokens, sumMap))
  {
    hide TokenName, Split, HexDecode, Bytes, AllNames, IsName, NewTokenWithFullName, CarriesSums;
    var tokens: seq<TokenAmount> := [];
    output := TxOutput(userAddress, Read(sumMap, ADA), []);
    var names := sumMap.Keys;
    CarryNothing(sumMap);
    while names != {}
      invariant names <= sumMap.Keys
      invariant ParsesAll(sumMap - names)
      invariant AllNames(sumMap) ==> CarriesSums(tokens, sumMap - names)
      decreases |names|
    {
      var tokenName :| tokenName in names;
      if AllNames(sumMap) { CarryOne(tokens, sumMap, names, tokenName); }
      if tokenName != ADA && sumMap[tokenName] > 0 {
        var token := NewTokenWithFullName(tokenName, true);
        if token.None? {
          return None, output;
        }
        if AllNames(sumMap) {
          ParsedName(sumMap, tokenName);
        }
        tokens := tokens + [TokenAmount(token.value, sumMap[tokenName])];
      }
      names := names - {tokenName};
    }
    assert sumMap - names == sumMap;
    output := TxOutput(userAddress, Read(sumMap, ADA), tokens);
    r := calculate(TxOutput(userAddress, Read(sumMap, ADA), tokens));
  }
}
