/** Inputs for which `GetUTXOsForAmounts` misses a choice that exists. */
module MissedChoices {
  import opened Wrappers
  import opened Numbers
  import opened WalletData
  import opened Amounts
  import opened CoinSelection
  import opened Selectors
  import opened SelectionLimits

  // ---------- why a choice is missed ----------

  /** UTXOs of which a possible choice is missed: no prefix of up to `m` meets the conditions, the first full choice
      gives up the first UTXO, and `m` others never have enough of `name`. */
  ghost predicate Gap(utxos: seq<Utxo>, conditions: Conditions, m: nat, name: string, most: nat)
  {
    && 1 <= m < |utxos| && name in conditions && most * m < conditions[name]
    && (forall i :: 0 <= i <= m ==> !Meets(utxos[..i], conditions))
    && (forall t :: IsEviction(utxos, utxos[..m], t, conditions) ==> t == Window(Swap(utxos, 0, m - 1), m - 1))
    && (forall i :: 1 <= i < |utxos| ==> Contribution(utxos[i], name) <= most)
  }

  /** Each of the first `c` has little of a name. */
  ghost predicate Poor(utxos: seq<Utxo>, c: nat, name: string, most: nat)
    requires c <= |utxos|
  {
    forall j :: 0 <= j < c ==> Contribution(utxos[j], name) <= most
  }

  lemma {:induction false} PoorSum(utxos: seq<Utxo>, c: nat, name: string, most: nat)
    requires c <= |utxos| && Poor(utxos, c, name, most)
    ensures SumOf(utxos[..c], name) <= most * c
    decreases c
  {
    hide Contribution;
    if c > 0 {
      PoorSum(utxos, c - 1, name, most);
      assert utxos[..c] == utxos[..c - 1] + [utxos[c - 1]];
      SumSnoc(utxos[..c - 1], utxos[c - 1], name);
      assert most * c == most * (c - 1) + most;
    }
  }

  /** After the first eviction only poor UTXOs are chosen. */
  lemma {:induction false} PoorChosen(utxos: seq<Utxo>, conditions: Conditions, m: nat, name: string, most: nat,
                                      run: seq<Window>, i: nat)
    requires Gap(utxos, conditions, m, name, most) && IsRun(run, utxos, conditions, m) && m <= i < |run|
    ensures |run[i].slice| == |utxos| && run[i].count == m - 1 && Poor(run[i].slice, m - 1, name, most)
    decreases i
  {
    hide IsRun, Meets, IsLeast, Contribution;
    RunState(run, utxos, conditions, m, i - 1);
    RunVisit(run, utxos, conditions, m, i - 1);
    var s := run[i - 1];
    var next := Swap(s.slice, s.count, i - 1);
    if i == m {
      assert next == utxos;
    } else {
      PoorChosen(utxos, conditions, m, name, most, run, i - 1);
      assert next[m - 1] == utxos[i - 1];
      assert Poor(next, m, name, most);
    }
  }

  lemma RunVisit(run: seq<Window>, before: seq<Utxo>, conditions: Conditions, maxInputs: int, i: nat)
    requires IsRun(run, before, conditions, maxInputs) && i + 1 < |run|
    ensures IsVisit(run[i], run[i + 1], conditions, maxInputs, i) && i < |before|
  {
    hide IsVisit;
  }

  lemma PoorFails(utxos: seq<Utxo>, c: nat, conditions: Conditions, name: string, most: nat)
    requires c <= |utxos| && Poor(utxos, c, name, most) && name in conditions && most * c < conditions[name]
    ensures !Meets(utxos[..c], conditions)
  {
    hide SumOf;
    PoorSum(utxos, c, name, most);
  }

  /** Whichever UTXO comes next, the choice with it does not meet the conditions. */
  lemma LastChoiceFails(utxos: seq<Utxo>, conditions: Conditions, m: nat, name: string, most: nat, run: seq<Window>)
    requires Gap(utxos, conditions, m, name, most) && IsRun(run, utxos, conditions, m) && 1 <= |run| <= |utxos|
    ensures var s, i := run[|run| - 1], |run| - 1;
            s.count <= i < |s.slice| && !Meets(Swap(s.slice, s.count, i)[..s.count + 1], conditions)
  {
    hide IsRun, Meets, Contribution;
    var i: nat := |run| - 1;
    var s := run[i];
    RunState(run, utxos, conditions, m, i);
    var next := Swap(s.slice, s.count, i);
    if i < m {
      assert next[..s.count + 1] == utxos[..i + 1];
    } else {
      PoorChosen(utxos, conditions, m, name, most, run, i);
      assert next[m - 1] == utxos[i];
      PoorFails(next, m, conditions, name, most);
    }
  }

  /** Of such UTXOs nothing is ever selected. */
  lemma GapFails(utxos: seq<Utxo>, conditions: Conditions, m: nat, name: string, most: nat, r: Selection,
                 now: seq<Utxo>, tryAtLeastInputs: int, order: seq<nat>, stop: nat, chosen: nat, run: seq<Window>)
    requires Gap(utxos, conditions, m, name, most)
    requires InPlaceResult(r, now, utxos, conditions, m, tryAtLeastInputs, order, stop, chosen)
    requires IsLoop(run, r, now, utxos, conditions, m, chosen)
    ensures !r.Selected?
  {
    hide Gap, IsRun, Represents, AllNames, Arranged, NamesIn, Returned, Meets;
    if r.Selected? {
      LastChoiceFails(utxos, conditions, m, name, most, run);
    }
  }

  /** The first of the full choice has the least of the only token that can be missing most. */
  lemma FirstIsEvicted(utxos: seq<Utxo>, conditions: Conditions, m: nat, name: string, t: Window)
    requires 1 <= m <= |utxos| && IsEviction(utxos, utxos[..m], t, conditions)
    requires forall sum, other ::
               Represents(sum, Sum(utxos[..m])) && IsReplaceName(sum, conditions, other) ==> other == name
    requires forall j :: 1 <= j < m ==> AmountOf(utxos[0], name) < AmountOf(utxos[j], name)
    ensures t == Window(Swap(utxos, 0, m - 1), m - 1)
  {
    hide AmountOf, SumOf, Sum, Represents, IsReplaceName;
    var sum: Sums, replaceName: string, idx: nat :|
      idx < m && IsLeast(utxos[..m], conditions, sum, replaceName, idx)
      && t == Window(Swap(utxos, idx, m - 1), m - 1);
    assert replaceName == name;
    assert AmountOf(utxos[..m][idx], name) <= AmountOf(utxos[..m][0], name);
  }

  /** The first `m - 1` and UTXO `m` are a choice. */
  lemma ChoiceAround(utxos: seq<Utxo>, conditions: Conditions, m: nat)
    requires 2 <= m < |utxos|
    requires forall name :: name in conditions ==>
               SumOf(utxos[..m - 1], name) + Contribution(utxos[m], name) >= conditions[name]
    ensures SomeChoiceMeets(utxos, conditions, m)
  {
    hide Contribution, SumOf, SumAt, Origins;
    var now, order := utxos[..m - 1] + [utxos[m]], Identity(m - 1) + [m];
    var places := Origins(order);
    forall name ensures SumAt(Amts(utxos, name), places) == SumOf(utxos[..m - 1], name) + Contribution(utxos[m], name)
    {
      SumOfOrigins(now, utxos, order, name);
      SumSnoc(utxos[..m - 1], utxos[m], name);
    }
    SumOfOrigins(now, utxos, order, ADA);
    InOrigins(order);
    assert IsChoice(places, utxos, conditions, m);
  }

  lemma InOrigins(order: seq<nat>)
    requires order != []
    ensures order[0] in Origins(order)
  {}

  // ---------- two conditions ----------

  function TheToken(): Token { Token("", []) }

  /** One UTXO with lovelace and no tokens, then `m - 1` with one token, one with two, and the rest without anything. */
  function Missed(m: nat, n: nat): (utxos: seq<Utxo>)
    requires n <= 0x1_0000_0000
    ensures |utxos| == n
  {
    seq(n, i requires 0 <= i < n =>
      Utxo("", i, if i == 0 then 1 else 0,
           if 1 <= i < m then [TokenAmount(TheToken(), 1)]
           else if i == m then [TokenAmount(TheToken(), 2)] else []))
  }

  /** One lovelace and `m` tokens are wanted. */
  function Wanted(m: U64): Conditions { map[ADA := 1, TokenName(TheToken()) := m] }

  lemma MissedAmounts(m: nat, n: nat, i: nat)
    requires 2 <= m < n <= 0x1_0000_0000 && i < n
    ensures var u, name := Missed(m, n)[i], TokenName(TheToken());
            && name != ADA && Contribution(u, ADA) == (if i == 0 then 1 else 0)
            && AmountOf(u, name) == Contribution(u, name)
            && Contribution(u, name) == (if 1 <= i < m then 1 else if i == m then 2 else 0)
  {
    hide TokenName;
    var u, name := Missed(m, n)[i], TokenName(TheToken());
    TokenNameNotAda(TheToken());
    AmountIsContribution(u, name);
    AmountIsContribution(u, ADA);
    if u.tokens != [] {
      assert u.tokens[..0] == [];
    }
  }

  lemma {:induction false} MissedSums(m: nat, n: nat, i: nat)
    requires 2 <= m < n <= 0x1_0000_0000 && i <= n
    ensures SumOf(Missed(m, n)[..i], ADA) == if i == 0 then 0 else 1
    ensures SumOf(Missed(m, n)[..i], TokenName(TheToken())) ==
            if i == 0 then 0 else if i <= m then i - 1 else m + 1
    decreases i
  {
    hide TokenName, Missed, Contribution, AmountOf;
    var utxos := Missed(m, n);
    if i > 0 {
      MissedSums(m, n, i - 1);
      MissedAmounts(m, n, i - 1);
      assert utxos[..i] == utxos[..i - 1] + [utxos[i - 1]];
      SumSnoc(utxos[..i - 1], utxos[i - 1], ADA);
      SumSnoc(utxos[..i - 1], utxos[i - 1], TokenName(TheToken()));
    }
  }

  /** The first `m` lack one token and nothing else. */
  lemma TokenIsMissing(m: nat, n: nat, sum: Sums, replaceName: string)
    requires 2 <= m < n <= 0x1_0000_0000
    requires Represents(sum, Sum(Missed(m, n)[..m])) && IsReplaceName(sum, Wanted(m), replaceName)
    ensures replaceName == TokenName(TheToken())
  {
    hide TokenName, SumOf, Missed, Sum, Represents;
    var utxos, name := Missed(m, n), TokenName(TheToken());
    MissedSums(m, n, m);
    TokenNameNotAda(TheToken());
    ReadSum(sum, utxos[..m], ADA);
    ReadSum(sum, utxos[..m], name);
    assert Deficit(sum, Wanted(m), name) == 1 && Deficit(sum, Wanted(m), ADA) == 0;
  }

  /** A prefix of at most `m` UTXOs has too few tokens. */
  lemma MissedPrefix(m: nat, n: nat, i: nat)
    requires 2 <= m < n <= 0x1_0000_0000 && i <= m
    ensures !Meets(Missed(m, n)[..i], Wanted(m))
  {
    hide TokenName, Missed, SumOf;
    TokenNameNotAda(TheToken());
    MissedSums(m, n, i);
    assert TokenName(TheToken()) in Wanted(m);
  }

  /** The only lovelace is given up. */
  lemma MissedGap(m: nat, n: nat)
    requires 2 <= m < n <= 0x1_0000_0000
    ensures Gap(Missed(m, n), Wanted(m), m, ADA, 0)
  {
    hide TokenName, Missed, Contribution, AmountOf, SumOf, Meets, IsEviction, Represents, IsReplaceName, Sum;
    var utxos, name := Missed(m, n), TokenName(TheToken());
    TokenNameNotAda(TheToken());
    forall i | 0 <= i <= m ensures !Meets(utxos[..i], Wanted(m)) { MissedPrefix(m, n, i); }
    forall i | 0 <= i < n
      ensures Contribution(utxos[i], ADA) == (if i == 0 then 1 else 0)
      ensures AmountOf(utxos[i], name) == (if 1 <= i < m then 1 else if i == m then 2 else 0)
    {
      MissedAmounts(m, n, i);
    }
    forall t | IsEviction(utxos, utxos[..m], t, Wanted(m)) ensures t == Window(Swap(utxos, 0, m - 1), m - 1) {
      forall sum, other | Represents(sum, Sum(utxos[..m])) && IsReplaceName(sum, Wanted(m), other)
        ensures other == name
      {
        TokenIsMissing(m, n, sum, other);
      }
      FirstIsEvicted(utxos, Wanted(m), m, name, t);
    }
  }

  /** For every limit of at least two and every greater number of UTXOs there are two conditions and UTXOs with small
      amounts for which the limit is reported although a choice within it exists, whatever order the map is read in. */
  lemma ChoiceIsMissed(m: nat, n: nat, r: Selection, now: seq<Utxo>, tryAtLeastInputs: int, order: seq<nat>, stop: nat,
                       chosen: nat, run: seq<Window>)
    requires 2 <= m < n <= 0x1_0000_0000
    requires InPlaceResult(r, now, Missed(m, n), Wanted(m), m, tryAtLeastInputs, order, stop, chosen)
    requires IsLoop(run, r, now, Missed(m, n), Wanted(m), m, chosen)
    ensures r.LimitReached? && SomeChoiceMeets(Missed(m, n), Wanted(m), m) && AllFit(Missed(m, n), Wanted(m))
  {
    hide TokenName, Missed, SumOf, Represents, AllNames, Arranged, NamesIn, Returned, SomeChoiceMeets, IsRun, Gap,
      Contribution;
    var utxos := Missed(m, n);
    TokenNameNotAda(TheToken());
    MissedSums(m, n, m - 1);
    MissedAmounts(m, n, m);
    ChoiceAround(utxos, Wanted(m), m);
    MissedSums(m, n, n);
    assert utxos[..n] == utxos;
    MissedGap(m, n);
    GapFails(utxos, Wanted(m), m, ADA, 0, r, now, tryAtLeastInputs, order, stop, chosen, run);
  }

  // ---------- one condition on a token that is listed twice ----------

  /** One UTXO that lists the token twice, a small amount first, then `m - 1` with two tokens, one with four, and the
      rest without anything. */
  function Twice(m: nat, n: nat): (utxos: seq<Utxo>)
    requires m < n <= 0x1_0000_0000
    ensures |utxos| == n
  {
    seq(n, i requires 0 <= i < n =>
      Utxo("", i, 0,
           if i == 0 then [TokenAmount(TheToken(), 1), TokenAmount(TheToken(), 2 * m)]
           else if i < m then [TokenAmount(TheToken(), 2)]
           else if i == m then [TokenAmount(TheToken(), 4)] else []))
  }

  function WantedTwice(m: nat): Conditions
    requires m <= 0x1_0000_0000
  {
    map[TokenName(TheToken()) := 4 * m + 1]
  }

  /** Only the first amount of the first UTXO is compared, but both count. */
  lemma TwiceAmounts(m: nat, n: nat, i: nat)
    requires 2 <= m < n <= 0x1_0000_0000 && i < n
    ensures var u, name := Twice(m, n)[i], TokenName(TheToken());
            && Contribution(u, name) == (if i == 0 then 2 * m + 1 else if i < m then 2 else if i == m then 4 else 0)
            && AmountOf(u, name) == (if i == 0 then 1 else if i < m then 2 else if i == m then 4 else 0)
  {
    hide TokenName;
    var u, name := Twice(m, n)[i], TokenName(TheToken());
    TokenNameNotAda(TheToken());
    if i == 0 {
      assert u.tokens[..1][..0] == [] && u.tokens[..1] == [TokenAmount(TheToken(), 1)];
      assert TokenTotal(u.tokens[..1], name) == 1;
    } else {
      AmountIsContribution(u, name);
      if u.tokens != [] {
        assert u.tokens[..0] == [];
      }
    }
  }

  lemma {:induction false} TwiceSums(m: nat, n: nat, i: nat)
    requires 2 <= m < n <= 0x1_0000_0000 && i <= n
    ensures SumOf(Twice(m, n)[..i], TokenName(TheToken())) ==
            if i == 0 then 0 else if i <= m then 2 * m + 2 * i - 1 else 4 * m + 3
    decreases i
  {
    hide TokenName, Twice, Contribution, AmountOf;
    var utxos := Twice(m, n);
    if i > 0 {
      TwiceSums(m, n, i - 1);
      TwiceAmounts(m, n, i - 1);
      assert utxos[..i] == utxos[..i - 1] + [utxos[i - 1]];
      SumSnoc(utxos[..i - 1], utxos[i - 1], TokenName(TheToken()));
    }
  }

  /** The UTXO with the most is given up. */
  lemma TwiceGap(m: nat, n: nat)
    requires 2 <= m < n <= 0x1_0000_0000
    ensures Gap(Twice(m, n), WantedTwice(m), m, TokenName(TheToken()), 4)
  {
    hide TokenName, Twice, Contribution, AmountOf, SumOf, IsEviction, Represents, Sum;
    var utxos, name := Twice(m, n), TokenName(TheToken());
    forall i | 0 <= i <= m ensures !Meets(utxos[..i], WantedTwice(m)) {
      TwiceSums(m, n, i);
      assert name in WantedTwice(m);
    }
    forall i | 0 <= i < n
      ensures i > 0 ==> Contribution(utxos[i], name) <= 4
      ensures AmountOf(utxos[i], name) == (if i == 0 then 1 else if i < m then 2 else if i == m then 4 else 0)
    {
      TwiceAmounts(m, n, i);
    }
    forall t | IsEviction(utxos, utxos[..m], t, WantedTwice(m)) ensures t == Window(Swap(utxos, 0, m - 1), m - 1) {
      forall sum, other | Represents(sum, Sum(utxos[..m])) && IsReplaceName(sum, WantedTwice(m), other)
        ensures other == name
      {
        TwiceSums(m, n, m);
        ReadSum(sum, utxos[..m], name);
        assert Deficit(sum, WantedTwice(m), name) == 2;
      }
      FirstIsEvicted(utxos, WantedTwice(m), m, name, t);
    }
  }

  /** For every limit of at least two and every greater number of UTXOs there are UTXOs of which one lists a token
      twice, such that one condition on that token is reported out of reach although a choice within the limit meets
      it. */
  lemma TwiceIsMissed(m: nat, n: nat, r: Selection, now: seq<Utxo>, tryAtLeastInputs: int, order: seq<nat>, stop: nat,
                      chosen: nat, run: seq<Window>)
    requires 2 <= m < n <= 0x1_0000_0000
    requires InPlaceResult(r, now, Twice(m, n), WantedTwice(m), m, tryAtLeastInputs, order, stop, chosen)
    requires IsLoop(run, r, now, Twice(m, n), WantedTwice(m), m, chosen)
    ensures r.LimitReached? && SomeChoiceMeets(Twice(m, n), WantedTwice(m), m) && AllFit(Twice(m, n), WantedTwice(m))
    ensures |WantedTwice(m)| == 1
  {
    hide TokenName, Twice, SumOf, Represents, AllNames, Arranged, NamesIn, Returned, SomeChoiceMeets, IsRun, Gap,
      Contribution;
    var utxos, name := Twice(m, n), TokenName(TheToken());
    TwiceSums(m, n, m - 1);
    TwiceAmounts(m, n, m);
    ChoiceAround(utxos, WantedTwice(m), m);
    TwiceSums(m, n, n);
    assert utxos[..n] == utxos;
    TwiceGap(m, n);
    GapFails(utxos, WantedTwice(m), m, name, 4, r, now, tryAtLeastInputs, order, stop, chosen, run);
  }

  // ---------- overflow ----------

  /** Two UTXOs of 2^63 lovelace each: one more than 2^63 is reported out of reach of all of them together, because
      their sum wraps to zero. */
  lemma OverflowIsMissed(maxInputs: int, r: Selection, now: seq<Utxo>, tryAtLeastInputs: int, order: seq<nat>,
                         stop: nat, chosen: nat)
    requires maxInputs != 1
    requires var half: U64 := 0x8000_0000_0000_0000;
             InPlaceResult(r, now, [Utxo("", 0, half, []), Utxo("", 1, half, [])], map[ADA := half + 1], maxInputs,
                           tryAtLeastInputs, order, stop, chosen)
    ensures var half: U64 := 0x8000_0000_0000_0000;
            r.CouldNotSelect?
            && SomeChoiceMeets([Utxo("", 0, half, []), Utxo("", 1, half, [])], map[ADA := half + 1], maxInputs)
  {
    hide Represents, AllNames, NamesIn, Returned, SumOf, SumAt, Contribution, Origins;
    var half: U64 := 0x8000_0000_0000_0000;
    var utxos, conditions: Conditions := [Utxo("", 0, half, []), Utxo("", 1, half, [])], map[ADA := half + 1];
    HalfSums(now[..1]);
    HalfSums(now);
    HalfSums(utxos);
    assert now[..2] == now && now[..0] == [];
    var places := {0, 1};
    SumOfOrigins(utxos, utxos, Identity(2), ADA);
    AllOrigins(2);
    assert Origins(Identity(2)) == places by { OriginsWithin(Identity(2), 2); TwoOrigins(); }
    assert IsChoice(places, utxos, conditions, maxInputs);
  }

  lemma TwoOrigins()
    ensures Origins(Identity(2)) == {0, 1}
  {
    assert Identity(2)[0] == 0 && Identity(2)[1] == 1;
  }

  lemma {:induction false} HalfSums(utxos: seq<Utxo>)
    requires forall u :: u in utxos ==> u.amount == 0x8000_0000_0000_0000 && u.tokens == []
    ensures SumOf(utxos, ADA) == 0x8000_0000_0000_0000 * |utxos|
    decreases |utxos|
  {
    if utxos != [] {
      HalfSums(utxos[..|utxos| - 1]);
      assert |utxos| * 0x8000_0000_0000_0000 == (|utxos| - 1) * 0x8000_0000_0000_0000 + 0x8000_0000_0000_0000;
    }
  }
}
