/** Tokens, UTXOs and sum maps (`wallet/data.go`, `wallet/utils.go`, `wallet/transaction_extended.go`). Amounts are
    uint64 and wrap around. */
module WalletData {
  import opened Wrappers
  import opened Numbers

  function Add64(a: U64, b: U64): U64 { (a + b) % U64_LIMIT }

  function Sub64(a: U64, b: U64): U64 { (a - b) % U64_LIMIT }

  /** AdaTokenName */
  const ADA: string := "lovelace"

  datatype Token = Token(policyId: string, name: seq<byte>)

  datatype TokenAmount = TokenAmount(token: Token, amount: U64)

  datatype Utxo = Utxo(hash: string, index: U32, amount: U64, tokens: seq<TokenAmount>)

  datatype TxInput = TxInput(hash: string, index: U32)

  type Sums = map<string, U64>

  /** A missing key reads as zero. */
  function Read(m: Sums, name: string): U64 { if name in m then m[name] else 0 }

  // ---------- token names ----------

  function HexDigit(d: nat): char
    requires d < 16
  {
    "0123456789abcdef"[d]
  }

  function HexValue(c: char): Option<nat>
  {
    if '0' <= c <= '9' then Some((c as int) - ('0' as int))
    else if 'a' <= c <= 'f' then Some((c as int) - ('a' as int) + 10)
    else if 'A' <= c <= 'F' then Some((c as int) - ('A' as int) + 10)
    else None
  }

  function HexEncode(bytes: seq<byte>): string
  {
    if bytes == [] then [] else [HexDigit(bytes[0] / 16), HexDigit(bytes[0] % 16)] + HexEncode(bytes[1..])
  }

  function HexDecode(s: string): Option<seq<byte>>
  {
    if s == [] then Some([])
    else if |s| == 1 then None
    else match (HexValue(s[0]), HexValue(s[1]), HexDecode(s[2..]))
         case (Some(h), Some(l), Some(rest)) => HexRange(s[0]); HexRange(s[1]); Some([16 * h + l] + rest)
         case _ => None
  }

  lemma HexRange(c: char)
    ensures HexValue(c).Some? ==> HexValue(c).value < 16
  {}

  lemma HexDigitValue(d: nat)
    requires d < 16
    ensures HexValue(HexDigit(d)) == Some(d) && HexDigit(d) != '.'
  {}

  lemma {:induction false} HexRoundTrip(bytes: seq<byte>)
    ensures HexDecode(HexEncode(bytes)) == Some(bytes)
    ensures forall i :: 0 <= i < |HexEncode(bytes)| ==> HexEncode(bytes)[i] != '.'
  {
    hide HexDigit, HexValue;
    if bytes != [] {
      HexRoundTrip(bytes[1..]);
      HexDigitValue(bytes[0] / 16);
      HexDigitValue(bytes[0] % 16);
      var s := HexEncode(bytes);
      assert s[0] == HexDigit(bytes[0] / 16) && s[1] == HexDigit(bytes[0] % 16) && s[2..] == HexEncode(bytes[1..]);
      forall i | 0 <= i < |s| ensures s[i] != '.' { assert i >= 2 ==> s[i] == s[2..][i - 2]; }
      assert 16 * (bytes[0] / 16) + bytes[0] % 16 == bytes[0];
      assert [bytes[0]] + bytes[1..] == bytes;
    }
  }

  /** `TokenAmount.TokenName`. */
  function TokenName(t: Token): string { t.policyId + "." + HexEncode(t.name) }

  /** `strings.Split(name, ".")`. */
  function Split(s: string): (parts: seq<string>)
    ensures |parts| >= 1
  {
    if s == [] then [""]
    else if s[0] == '.' then [""] + Split(s[1..])
    else var rest := Split(s[1..]); [[s[0]] + rest[0]] + rest[1..]
  }

  /** `NewTokenWithFullName`; an unencoded name is taken byte by byte. */
  function NewTokenWithFullName(name: string, isNameEncoded: bool): Option<Token>
  {
    var parts := Split(name);
    if |parts| != 2 then None
    else if isNameEncoded then
      match HexDecode(parts[1])
      case None => None
      case Some(bytes) => Some(Token(parts[0], bytes))
    else Some(Token(parts[0], Bytes(parts[1])))
  }

  function Bytes(s: string): seq<byte> { seq(|s|, i requires 0 <= i < |s| => (s[i] as int) % 256) }

  lemma {:induction false} SplitPlain(s: string)
    requires forall i :: 0 <= i < |s| ==> s[i] != '.'
    ensures Split(s) == [s]
  {
    if s != [] {
      SplitPlain(s[1..]);
      assert [s[0]] + s[1..] == s;
    }
  }

  lemma {:induction false} SplitDot(a: string, b: string)
    requires forall i :: 0 <= i < |b| ==> b[i] != '.'
    ensures |Split(a + "." + b)| == 2 <==> forall i :: 0 <= i < |a| ==> a[i] != '.'
    ensures |Split(a + "." + b)| == 2 ==> Split(a + "." + b) == [a, b]
    ensures |Split(a + "." + b)| >= 2
  {
    var s := a + "." + b;
    if a == [] {
      assert s[1..] == b;
      SplitPlain(b);
    } else {
      assert s[1..] == a[1..] + "." + b;
      SplitDot(a[1..], b);
      if a[0] != '.' {
        assert forall i :: 1 <= i < |a| ==> a[i] == a[1..][i - 1];
        assert [a[0]] + a[1..] == a;
      }
    }
  }

  /** Parsing a full token name gives the token back exactly when the policy id contains no dot. */
  lemma TokenNameRoundTrip(t: Token)
    ensures NewTokenWithFullName(TokenName(t), true) == Some(t) <==>
              forall i :: 0 <= i < |t.policyId| ==> t.policyId[i] != '.'
    ensures NewTokenWithFullName(TokenName(t), true).None? <==>
              exists i :: 0 <= i < |t.policyId| && t.policyId[i] == '.'
  {
    HexRoundTrip(t.name);
    SplitDot(t.policyId, HexEncode(t.name));
  }

  /** How a token name is written: policy id, a dot, and two lower-case hexadecimal digits for every byte of the name,
      the higher one first. */
  lemma TokenNameText(t: Token, i: nat)
    requires i < |t.name|
    ensures var text, n := TokenName(t), |t.policyId|; var byte := t.name[i];
            && |text| == n + 1 + 2 * |t.name| && text[..n] == t.policyId && text[n] == '.'
            && text[n + 1 + 2 * i] as int == byte / 16 + (if byte < 160 then 48 else 87)
            && text[n + 2 + 2 * i] as int == byte % 16 + (if byte % 16 < 10 then 48 else 87)
  {
    HexText(t.name, i);
    var hex := HexEncode(t.name);
    assert TokenName(t)[|t.policyId| + 1..] == hex;
    assert hex[2 * i] == TokenName(t)[|t.policyId| + 1 + 2 * i];
    assert hex[2 * i + 1] == TokenName(t)[|t.policyId| + 2 + 2 * i];
  }

  lemma {:induction false} HexText(bytes: seq<byte>, i: nat)
    requires i < |bytes|
    ensures |HexEncode(bytes)| == 2 * |bytes|
    ensures HexEncode(bytes)[2 * i] as int == bytes[i] / 16 + (if bytes[i] < 160 then 48 else 87)
    ensures HexEncode(bytes)[2 * i + 1] as int == bytes[i] % 16 + (if bytes[i] % 16 < 10 then 48 else 87)
    decreases i
  {
    hide HexDigit;
    HexLength(bytes);
    if i > 0 {
      HexText(bytes[1..], i - 1);
      var all, rest := HexEncode(bytes), HexEncode(bytes[1..]);
      assert all == all[..2] + rest;
      assert all[2 * i] == rest[2 * (i - 1)] && all[2 * i + 1] == rest[2 * (i - 1) + 1];
    } else {
      HexDigitText(bytes[0] / 16);
      HexDigitText(bytes[0] % 16);
    }
  }

  lemma HexDigitText(d: nat)
    requires d < 16
    ensures HexDigit(d) as int == d + if d < 10 then 48 else 87
  {}

  lemma {:induction false} HexLength(bytes: seq<byte>)
    ensures |HexEncode(bytes)| == 2 * |bytes|
  {
    hide HexDigit;
    if bytes != [] {
      HexLength(bytes[1..]);
    }
  }

  /** What decodes: pairs of hexadecimal digits in either case. */
  lemma {:induction false} HexDecodes(s: string)
    ensures HexDecode(s).Some? <==>
              |s| % 2 == 0 && forall i :: 0 <= i < |s| ==> 48 <= s[i] as int <= 57 || 65 <= s[i] as int <= 70
                                                           || 97 <= s[i] as int <= 102
    decreases |s|
  {
    if |s| >= 2 {
      HexDecodes(s[2..]);
      assert s == [s[0], s[1]] + s[2..];
    }
  }

  lemma UpperCaseDigits(h: nat, l: nat)
    requires 10 <= h < 16 && 10 <= l < 16
    ensures HexDecode([(55 + h) as char, (55 + l) as char]) == Some([16 * h + l])
  {
    var s := [(55 + h) as char, (55 + l) as char];
    assert HexValue(s[0]) == Some(h) && HexValue(s[1]) == Some(l);
    assert s[2..] == [] && HexDecode(s[2..]) == Some([]);
    assert [16 * h + l] + [] == [16 * h + l];
  }

  /** A full name whose second part is not encoded. */
  lemma PlainNameParsed(a: string, b: string)
    requires forall i :: 0 <= i < |a| ==> a[i] != '.'
    requires forall i :: 0 <= i < |b| ==> b[i] != '.' && b[i] as int < 256
    ensures NewTokenWithFullName(a + "." + b, false) == Some(Token(a, seq(|b|, i requires 0 <= i < |b| => b[i] as int)))
  {
    SplitDot(a, b);
    assert Bytes(b) == seq(|b|, i requires 0 <= i < |b| => b[i] as int);
  }

  /** No token is called "lovelace". */
  lemma TokenNameNotAda(t: Token)
    ensures TokenName(t) != ADA
  {
    assert TokenName(t)[|t.policyId|] == '.';
    assert forall i :: 0 <= i < |ADA| ==> ADA[i] != '.';
  }

  // ---------- amounts ----------

  function TokenTotal(tokens: seq<TokenAmount>, name: string): nat
  {
    if tokens == [] then 0
    else TokenTotal(tokens[..|tokens| - 1], name)
         + if TokenName(tokens[|tokens| - 1].token) == name then tokens[|tokens| - 1].amount else 0
  }

  /** All that a UTXO adds to the sum of a name. */
  function Contribution(u: Utxo, name: string): nat
  {
    (if name == ADA then u.amount else 0) + TokenTotal(u.tokens, name)
  }

  function SumOf(utxos: seq<Utxo>, name: string): nat
  {
    if utxos == [] then 0 else SumOf(utxos[..|utxos| - 1], name) + Contribution(utxos[|utxos| - 1], name)
  }

  /** `GetTokenAmount` and `GetTokenAmountFromUtxo`: the first matching token counts. */
  function AmountOf(u: Utxo, name: string): U64 { if name == ADA then u.amount else FirstAmount(u.tokens, name) }

  function FirstAmount(tokens: seq<TokenAmount>, name: string): U64
  {
    if tokens == [] then 0
    else if TokenName(tokens[0].token) == name then tokens[0].amount
    else FirstAmount(tokens[1..], name)
  }

  predicate IsFirst(tokens: seq<TokenAmount>, i: nat, name: string)
  {
    i < |tokens| && TokenName(tokens[i].token) == name && forall j :: 0 <= j < i ==> TokenName(tokens[j].token) != name
  }

  method GetTokenAmount(u: Utxo, name: string) returns (amount: U64)
    ensures amount == AmountOf(u, name)
    ensures name == "lovelace" ==> amount == u.amount
    ensures name != "lovelace" ==>
              if exists i :: 0 <= i < |u.tokens| && TokenName(u.tokens[i].token) == name
              then exists i: nat :: IsFirst(u.tokens, i, name) && amount == u.tokens[i].amount
              else amount == 0
  {
    hide TokenName;
    if name == ADA {
      return u.amount;
    }
    for i := 0 to |u.tokens|
      invariant FirstAmount(u.tokens, name) == FirstAmount(u.tokens[i..], name)
      invariant forall j :: 0 <= j < i ==> TokenName(u.tokens[j].token) != name
    {
      if TokenName(u.tokens[i].token) == name {
        assert IsFirst(u.tokens, i, name);
        return u.tokens[i].amount;
      }
    }
    return 0;
  }

  /** The UTXO lists the name at most once. */
  predicate ListsOnce(tokens: seq<TokenAmount>, name: string)
  {
    forall i, j :: 0 <= i < j < |tokens| ==> !(TokenName(tokens[i].token) == name && TokenName(tokens[j].token) == name)
  }

  lemma {:induction false} NoneListed(tokens: seq<TokenAmount>, name: string)
    requires forall i :: 0 <= i < |tokens| ==> TokenName(tokens[i].token) != name
    ensures TokenTotal(tokens, name) == 0 && FirstAmount(tokens, name) == 0
    decreases |tokens|
  {
    hide TokenName;
    if tokens != [] {
      NoneListed(tokens[..|tokens| - 1], name);
      FirstOfPrefix(tokens, name);
    }
  }

  lemma {:induction false} FirstOfPrefix(tokens: seq<TokenAmount>, name: string)
    requires tokens != []
    ensures FirstAmount(tokens, name) ==
            if exists i :: 0 <= i < |tokens| - 1 && TokenName(tokens[i].token) == name
            then FirstAmount(tokens[..|tokens| - 1], name)
            else if TokenName(tokens[|tokens| - 1].token) == name then tokens[|tokens| - 1].amount else 0
  {
    hide TokenName;
    if |tokens| > 1 {
      FirstOfPrefix(tokens[1..], name);
      assert tokens[1..][..|tokens| - 2] == tokens[..|tokens| - 1][1..];
      assert forall i :: 1 <= i < |tokens| ==> tokens[i] == tokens[1..][i - 1];
    }
  }

  lemma {:induction false} OnceIsAll(tokens: seq<TokenAmount>, name: string)
    requires ListsOnce(tokens, name)
    ensures FirstAmount(tokens, name) == TokenTotal(tokens, name)
    decreases |tokens|
  {
    hide TokenName;
    if tokens != [] {
      var n := |tokens| - 1;
      OnceIsAll(tokens[..n], name);
      FirstOfPrefix(tokens, name);
      if !exists i :: 0 <= i < n && TokenName(tokens[i].token) == name {
        NoneListed(tokens[..n], name);
      }
    }
  }

  /** What is compared when the smallest UTXO is looked for is what it contributes to the sum. */
  lemma AmountIsContribution(u: Utxo, name: string)
    requires ListsOnce(u.tokens, name)
    ensures AmountOf(u, name) == Contribution(u, name)
  {
    hide TokenName;
    if name == ADA {
      forall i | 0 <= i < |u.tokens| ensures TokenName(u.tokens[i].token) != ADA { TokenNameNotAda(u.tokens[i].token); }
      NoneListed(u.tokens, name);
    } else {
      OnceIsAll(u.tokens, name);
    }
  }

  // ---------- sum maps ----------

  lemma AddMod(x: nat, y: nat)
    ensures (x % U64_LIMIT + y) % U64_LIMIT == (x + y) % U64_LIMIT
  {}

  lemma SubMod(x: nat, y: nat)
    requires y <= x
    ensures (x % U64_LIMIT - y) % U64_LIMIT == (x - y) % U64_LIMIT
  {}

  /** `m` holds the sums given by `f`, modulo 2^64. */
  ghost predicate Represents(m: Sums, f: string -> nat) { forall name: string :: Read(m, name) == f(name) % U64_LIMIT }

  ghost predicate IsName(k: string) { k == ADA || exists t: Token :: TokenName(t) == k }

  /** Every key is "lovelace" or the name of a token. */
  ghost predicate AllNames(m: Sums) { forall k :: k in m ==> IsName(k) }

  /** The names a UTXO has an amount of, lovelace included. */
  function UtxoNames(u: Utxo): set<string> { {ADA} + FirstNames(u.tokens, |u.tokens|) }

  function FirstNames(tokens: seq<TokenAmount>, i: nat): set<string>
    requires i <= |tokens|
  {
    set j | 0 <= j < i :: TokenName(tokens[j].token)
  }

  lemma NoNames(tokens: seq<TokenAmount>)
    ensures FirstNames(tokens, 0) == {}
  {}

  lemma NextName(tokens: seq<TokenAmount>, i: nat)
    requires i < |tokens|
    ensures FirstNames(tokens, i + 1) == FirstNames(tokens, i) + {TokenName(tokens[i].token)}
  {
    hide TokenName;
  }

  /** The names listed in a slice of UTXOs. */
  function NamesIn(utxos: seq<Utxo>): set<string> { set u, name | u in utxos && name in UtxoNames(u) :: name }

  lemma NamesInNext(utxos: seq<Utxo>, from: nat, i: nat)
    requires from <= i < |utxos|
    ensures NamesIn(utxos[from..i + 1]) == NamesIn(utxos[from..i]) + UtxoNames(utxos[i])
  {
    hide UtxoNames;
    assert utxos[from..i + 1] == utxos[from..i] + [utxos[i]];
  }

  lemma NamesInOne(utxos: seq<Utxo>, i: nat)
    requires i < |utxos|
    ensures UtxoNames(utxos[i]) <= NamesIn(utxos)
  {
    hide UtxoNames;
  }

  lemma NamesGrow(m: Sums, t: Token, v: U64)
    requires AllNames(m)
    ensures AllNames(m[TokenName(t) := v]) && AllNames(m[ADA := v])
  {
    hide TokenName;
    assert IsName(TokenName(t));
  }

  /** Changing one entry of a sum map. */
  lemma UpdateRepresents(m: Sums, name: string, v: U64, f: string -> nat, g: string -> nat)
    requires Represents(m, f) && v == g(name) % U64_LIMIT
    requires forall other: string :: other != name ==> g(other) == f(other)
    ensures Represents(m[name := v], g)
  {
    forall other: string ensures Read(m[name := v], other) == g(other) % U64_LIMIT {
      assert Read(m, other) == f(other) % U64_LIMIT;
    }
  }

  lemma SameRepresents(m: Sums, f: string -> nat, g: string -> nat)
    requires Represents(m, f) && forall name: string :: g(name) == f(name)
    ensures Represents(m, g)
  {
    forall name: string ensures Read(m, name) == g(name) % U64_LIMIT { assert Read(m, name) == f(name) % U64_LIMIT; }
  }

  /** `currentSum[AdaTokenName] += utxo.Amount` and the loop over the tokens. */
  method AddUtxo(sum0: Sums, u: Utxo, ghost f: string -> nat) returns (sum: Sums)
    requires Represents(sum0, f)
    ensures Represents(sum, name => f(name) + Contribution(u, name))
    ensures AllNames(sum0) ==> AllNames(sum)
    ensures sum.Keys == sum0.Keys + UtxoNames(u)
  {
    hide TokenName, Represents, AllNames, Add64, FirstNames;
    NoNames(u.tokens);
    sum := sum0[ADA := Add64(Read(sum0, ADA), u.amount)];
    ghost var g := AfterTokens(f, u, 0);
    AddOne(sum0, ADA, u.amount, f, g);
    if AllNames(sum0) { NamesGrow(sum0, Token("", []), Add64(Read(sum0, ADA), u.amount)); }
    for i := 0 to |u.tokens|
      invariant Represents(sum, AfterTokens(f, u, i))
      invariant AllNames(sum0) ==> AllNames(sum)
      invariant sum.Keys == sum0.Keys + {ADA} + FirstNames(u.tokens, i)
    {
      var t := u.tokens[i];
      var name := TokenName(t.token);
      NextToken(u.tokens, i);
      NextName(u.tokens, i);
      AddOne(sum, name, t.amount, AfterTokens(f, u, i), AfterTokens(f, u, i + 1));
      if AllNames(sum) { NamesGrow(sum, t.token, Add64(Read(sum, name), t.amount)); }
      sum := sum[name := Add64(Read(sum, name), t.amount)];
    }
    assert u.tokens[..|u.tokens|] == u.tokens;
    SameRepresents(sum, AfterTokens(f, u, |u.tokens|), name => f(name) + Contribution(u, name));
  }

  /** The sums after the lovelace and the first `i` tokens of a UTXO were added. */
  ghost function AfterTokens(f: string -> nat, u: Utxo, i: nat): string -> nat
    requires i <= |u.tokens|
  {
    (name: string) => f(name) + (if name == ADA then u.amount else 0) + TokenTotal(u.tokens[..i], name)
  }

  lemma NextToken(tokens: seq<TokenAmount>, i: nat)
    requires i < |tokens|
    ensures forall name: string :: TokenTotal(tokens[..i + 1], name) ==
              TokenTotal(tokens[..i], name) + if TokenName(tokens[i].token) == name then tokens[i].amount else 0
  {
    hide TokenName;
    assert tokens[..i + 1][..i] == tokens[..i];
  }

  lemma AddOne(m: Sums, name: string, amount: U64, f: string -> nat, g: string -> nat)
    requires Represents(m, f) && g(name) == f(name) + amount
    requires forall other: string :: other != name ==> g(other) == f(other)
    ensures Represents(m[name := Add64(Read(m, name), amount)], g)
  {
    assert Read(m, name) == f(name) % U64_LIMIT;
    AddMod(f(name), amount);
    UpdateRepresents(m, name, Add64(Read(m, name), amount), f, g);
  }

  lemma SubtractOne(m: Sums, name: string, amount: U64, f: string -> nat, g: string -> nat)
    requires Represents(m, f) && f(name) == g(name) + amount
    requires forall other: string :: other != name ==> g(other) == f(other)
    ensures Represents(m[name := Sub64(Read(m, name), amount)], g)
  {
    assert Read(m, name) == f(name) % U64_LIMIT;
    SubMod(f(name), amount);
    UpdateRepresents(m, name, Sub64(Read(m, name), amount), f, g);
  }

  /** The sums that remain after the lovelace and the first `i` tokens of a UTXO were subtracted. */
  ghost function TokensLeft(f: string -> nat, u: Utxo, i: nat): string -> nat
    requires i <= |u.tokens|
  {
    (name: string) => f(name) + TotalFrom(u.tokens, i, name)
  }

  lemma TokensLeftStep(f: string -> nat, u: Utxo, i: nat)
    requires i < |u.tokens|
    ensures forall name: string :: TokensLeft(f, u, i)(name) ==
              TokensLeft(f, u, i + 1)(name) + if TokenName(u.tokens[i].token) == name then u.tokens[i].amount else 0
  {
    hide TokenName;
    forall name: string
      ensures TokensLeft(f, u, i)(name) ==
              TokensLeft(f, u, i + 1)(name) + if TokenName(u.tokens[i].token) == name then u.tokens[i].amount else 0
    {
      assert TokensLeft(f, u, i)(name) == f(name) + TotalFrom(u.tokens, i, name);
      assert TokensLeft(f, u, i + 1)(name) == f(name) + TotalFrom(u.tokens, i + 1, name);
    }
  }

  /** Subtracting the amount of token `i`. */
  lemma SubtractToken(sum: Sums, f: string -> nat, u: Utxo, i: nat)
    requires i < |u.tokens| && Represents(sum, TokensLeft(f, u, i))
    ensures var name := TokenName(u.tokens[i].token);
            var next := sum[name := Sub64(Read(sum, name), u.tokens[i].amount)];
            Represents(next, TokensLeft(f, u, i + 1)) && (AllNames(sum) ==> AllNames(next))
  {
    hide TokenName, Represents, AllNames, Sub64;
    var t := u.tokens[i];
    var name := TokenName(t.token);
    TokensLeftStep(f, u, i);
    var before, after := TokensLeft(f, u, i), TokensLeft(f, u, i + 1);
    assert before(name) == after(name) + t.amount;
    assert forall other: string :: other != name ==> after(other) == before(other);
    SubtractOne(sum, name, t.amount, before, after);
    if AllNames(sum) { NamesGrow(sum, t.token, Sub64(Read(sum, name), t.amount)); }
  }

  /** `currentSum[AdaTokenName] -= minChosenUTXO.Amount` and the loop over the tokens; entries stay, also at zero. */
  method SubtractUtxo(sum0: Sums, u: Utxo, ghost f: string -> nat) returns (sum: Sums)
    requires Represents(sum0, name => f(name) + Contribution(u, name))
    ensures Represents(sum, f)
    ensures AllNames(sum0) ==> AllNames(sum)
    ensures sum.Keys == sum0.Keys + UtxoNames(u)
  {
    hide TokenName, Represents, AllNames, Sub64, FirstNames;
    NoNames(u.tokens);
    ghost var all := (name: string) => f(name) + Contribution(u, name);
    SameRepresents(sum0, name => f(name) + Contribution(u, name), all);
    sum := sum0[ADA := Sub64(Read(sum0, ADA), u.amount)];
    ghost var rest := TokensLeft(f, u, 0);
    forall name: string ensures all(name) == rest(name) + if name == ADA then u.amount else 0 {
      TotalFromIsRest(u.tokens, 0, name);
      assert u.tokens[..0] == [] && rest(name) == f(name) + TotalFrom(u.tokens, 0, name);
    }
    SubtractOne(sum0, ADA, u.amount, all, rest);
    if AllNames(sum0) { NamesGrow(sum0, Token("", []), Sub64(Read(sum0, ADA), u.amount)); }
    for i := 0 to |u.tokens|
      invariant Represents(sum, TokensLeft(f, u, i))
      invariant AllNames(sum0) ==> AllNames(sum)
      invariant sum.Keys == sum0.Keys + {ADA} + FirstNames(u.tokens, i)
    {
      var t := u.tokens[i];
      var name := TokenName(t.token);
      NextName(u.tokens, i);
      SubtractToken(sum, f, u, i);
      sum := sum[name := Sub64(Read(sum, name), t.amount)];
    }
    forall name: string ensures TokensLeft(f, u, |u.tokens|)(name) == f(name) {
      assert TotalFrom(u.tokens, |u.tokens|, name) == 0;
    }
    SameRepresents(sum, TokensLeft(f, u, |u.tokens|), f);
  }

  function TotalFrom(tokens: seq<TokenAmount>, i: nat, name: string): nat
    requires i <= |tokens|
    decreases |tokens| - i
  {
    if i == |tokens| then 0
    else (if TokenName(tokens[i].token) == name then tokens[i].amount else 0) + TotalFrom(tokens, i + 1, name)
  }

  lemma {:induction false} TotalFromIsRest(tokens: seq<TokenAmount>, i: nat, name: string)
    requires i <= |tokens|
    ensures TokenTotal(tokens[..i], name) + TotalFrom(tokens, i, name) == TokenTotal(tokens, name)
    decreases |tokens| - i
  {
    hide TokenName;
    if i == |tokens| {
      assert tokens[..i] == tokens;
    } else {
      TotalFromIsRest(tokens, i + 1, name);
      assert tokens[..i + 1][..i] == tokens[..i];
    }
  }
}
