/** Bridging transactions: metadata, minimum amounts and fees (`sendtx/tx_sender.go`, `sendtx/metadata.go`). */
module Bridging {
  import opened Wrappers
  import opened Numbers
  import opened WalletData
  import opened CoinSelection
  import opened Selectors
  import opened TokenLists
  import opened TxBuilders
  import opened TxSending

  datatype ChainConfig = ChainConfig(multiSigAddr: string, minBridgingFeeAmount: U64, settings: Settings)

  datatype BridgingReceiver = BridgingReceiver(addr: string, amount: U64)

  datatype BridgingDto = BridgingDto(srcChainID: string, dstChainID: string, senderAddr: string,
                                     receivers: seq<BridgingReceiver>, bridgingAddress: string, bridgingFee: U64)

  /** Addresses are cut into pieces. */
  datatype MetadataTx = MetadataTx(address: seq<string>, amount: U64)

  datatype Metadata = Metadata(destinationChainID: string, senderAddr: seq<string>, transactions: seq<MetadataTx>,
                               bridgingFee: U64)

  datatype Prepared = Prepared(outputLovelace: U64, bridgingAddress: string, bridgingFee: U64)

  /** Whether the other calls into the node and the tools succeed, and what they answer. */
  datatype Tools = Tools(address: bool, builder: bool, protocolParameters: bool, marshal: bool, answers: Answers)

  datatype BridgingError = SourceConfigMissing | DestinationConfigMissing | BadSenderAddress | FeeTooLow | NoBuilder
                         | NoProtocolParameters | NoMinimum | ReceiverAddressEmpty(i: nat)
                         | ReceiverAmountTooLow(i: nat) | NotMarshalled | NoTx(error: TxError)

  /** The sum of all receivers' amounts. */
  function TotalAmount(receivers: seq<BridgingReceiver>): nat
  {
    if receivers == [] then 0 else TotalAmount(receivers[..|receivers| - 1]) + receivers[|receivers| - 1].amount
  }

  /** The bridging fee and the sum of the amounts in the metadata. */
  function MetadataTotal(m: Metadata): nat { m.bridgingFee + TransactionsTotal(m.transactions) }

  function TransactionsTotal(txs: seq<MetadataTx>): nat
  {
    if txs == [] then 0 else TransactionsTotal(txs[..|txs| - 1]) + txs[|txs| - 1].amount
  }

  method GetOutputAmountsOfReceivers(receivers: seq<BridgingReceiver>) returns (outputCurrencyLovelace: U64)
    ensures outputCurrencyLovelace == TotalAmount(receivers) % U64_LIMIT
  {
    outputCurrencyLovelace := 0;
    for i := 0 to |receivers|
      invariant outputCurrencyLovelace == TotalAmount(receivers[..i]) % U64_LIMIT
    {
      assert receivers[..i + 1][..i] == receivers[..i];
      AddMod(TotalAmount(receivers[..i]), receivers[i].amount);
      outputCurrencyLovelace := Add64(outputCurrencyLovelace, receivers[i].amount);
    }
    assert receivers[..|receivers|] == receivers;
  }

  /** `BridgingRequestMetadata.GetOutputAmounts`. */
  method GetOutputAmounts(m: Metadata) returns (outputCurrencyLovelace: U64)
    ensures outputCurrencyLovelace == MetadataTotal(m) % U64_LIMIT
  {
    outputCurrencyLovelace := m.bridgingFee;
    for i := 0 to |m.transactions|
      invariant outputCurrencyLovelace == (m.bridgingFee + TransactionsTotal(m.transactions[..i])) % U64_LIMIT
    {
      assert m.transactions[..i + 1][..i] == m.transactions[..i];
      AddMod(m.bridgingFee + TransactionsTotal(m.transactions[..i]), m.transactions[i].amount);
      outputCurrencyLovelace := Add64(outputCurrencyLovelace, m.transactions[i].amount);
    }
    assert m.transactions[..|m.transactions|] == m.transactions;
  }

  function TrimPrefix(s: string, prefix: string): string { if prefix <= s then s[|prefix|..] else s }

  /** The two hexadecimal prefixes are cut off, one after the other. */
  function Trimmed(addr: string): string { TrimPrefix(TrimPrefix(addr, "0x"), "0X") }

  /** The pieces of at most `n` characters. */
  function Pieces(s: string, n: nat): seq<string>
    requires n > 0
    decreases |s|
  {
    if s == [] then [] else if |s| <= n then [s] else [s[..n]] + Pieces(s[n..], n)
  }

  function Joined(pieces: seq<string>): string
  {
    if pieces == [] then [] else pieces[0] + Joined(pieces[1..])
  }

  /** No character is lost, no piece is empty or too long, and all but the last are full. */
  lemma {:induction false} PiecesJoin(s: string, n: nat)
    requires n > 0
    ensures Joined(Pieces(s, n)) == s
    ensures forall piece :: piece in Pieces(s, n) ==> 0 < |piece| <= n
    ensures forall i :: 0 <= i < |Pieces(s, n)| - 1 ==> |Pieces(s, n)[i]| == n
    decreases |s|
  {
    if |s| > n {
      PiecesJoin(s[n..], n);
      assert ([s[..n]] + Pieces(s[n..], n))[1..] == Pieces(s[n..], n);
    }
  }

  lemma FirstPiece(s: string, n: nat)
    requires n > 0 && s != []
    ensures var k := Min(n, |s|); Pieces(s, n) == [s[..k]] + Pieces(s[k..], n)
  {
    if |s| <= n {
      assert s[..|s|] == s && Pieces(s[|s|..], n) == [];
    }
  }

  method SplitString(s: string, mxlen: nat) returns (res: seq<string>)
    requires mxlen > 0
    ensures res == Pieces(s, mxlen)
  {
    hide Pieces;
    res := [];
    var i: nat := 0;
    assert s[0..] == s && [] + Pieces(s, mxlen) == Pieces(s, mxlen);
    while i < |s|
      invariant Pieces(s, mxlen) == res + Pieces(s[Min(i, |s|)..], mxlen)
      decreases |s| - i
    {
      var next := Min(i + mxlen, |s|);
      FirstPiece(s[i..], mxlen);
      assert s[i..][..next - i] == s[i..next] && s[i..][next - i..] == s[next..];
      res := res + [s[i..next]];
      i := i + mxlen;
    }
    PiecesOfNothing(mxlen);
    assert s[|s|..] == [] && res + [] == res;
  }

  lemma PiecesOfNothing(n: nat)
    requires n > 0
    ensures Pieces([], n) == []
  {}

  method AddrToMetaDataAddr(addr: string) returns (pieces: seq<string>)
    ensures pieces == MetaDataAddr(addr)
  {
    pieces := SplitString(Trimmed(addr), 40);
  }

  function MetaDataAddr(addr: string): seq<string> { Pieces(Trimmed(addr), 40) }

  /** An address in the metadata, spelled out: "0x" in front is cut off, then "0X", and what is left is cut into pieces
      of 40 characters. */
  lemma MetaDataAddrMeaning(addr: string, rest: string)
    ensures addr == "0x" + rest && !("0X" <= rest) ==> Joined(MetaDataAddr(addr)) == rest
    ensures addr == "0X" + rest || addr == "0x0X" + rest ==> Joined(MetaDataAddr(addr)) == rest
    ensures !("0x" <= addr) && !("0X" <= addr) ==> Joined(MetaDataAddr(addr)) == addr
    ensures var pieces := MetaDataAddr(addr);
            && (forall i :: 0 <= i < |pieces| ==> 0 < |pieces[i]| <= 40)
            && forall i :: 0 <= i < |pieces| - 1 ==> |pieces[i]| == 40
  {
    hide Pieces, Joined;
    PiecesJoin(Trimmed(addr), 40);
    assert ("0x" + rest)[2..] == rest && ("0X" + rest)[2..] == rest;
    assert "0x0X" + rest == "0x" + ("0X" + rest);
  }

  function AsMetadataTx(r: BridgingReceiver): MetadataTx { MetadataTx(MetaDataAddr(r.addr), r.amount) }

  function AsMetadataTxs(receivers: seq<BridgingReceiver>): seq<MetadataTx>
  {
    seq(|receivers|, i requires 0 <= i < |receivers| => AsMetadataTx(receivers[i]))
  }

  /** The metadata asks for exactly what the receivers were promised. */
  lemma {:induction false} TransactionsKeepAmounts(receivers: seq<BridgingReceiver>)
    ensures TransactionsTotal(AsMetadataTxs(receivers)) == TotalAmount(receivers)
    decreases |receivers|
  {
    if receivers != [] {
      TransactionsKeepAmounts(receivers[..|receivers| - 1]);
      assert AsMetadataTxs(receivers)[..|receivers| - 1] == AsMetadataTxs(receivers[..|receivers| - 1]);
    }
  }

  /** An output with the given tokens and no lovelace yet. */
  ghost predicate IsTokenOutput(output: TxOutput, addr: string, tokens: seq<TokenAmount>)
  {
    && output.addr == addr && output.amount == 0
    && forall name :: TokenTotal(output.tokens, name) == TokenTotal(tokens, name) % U64_LIMIT
  }

  /** The lovelace an output gets: what was asked for, the configured minimum and, with tokens, the minimum for an
      output of them, whichever is greatest. */
  ghost predicate IsAdjusted(amount: U64, minUtxo: TxOutput -> Option<U64>, addr: string, tokens: seq<TokenAmount>,
                             defaultMinUtxo: U64, base: U64)
  {
    if tokens == [] then amount == Max(base, defaultMinUtxo)
    else exists output :: IsTokenOutput(output, addr, tokens) && minUtxo(output).Some?
                          && amount == Max(base, Max(minUtxo(output).value, defaultMinUtxo))
  }

  /** Some token's name does not parse. */
  ghost predicate HasUnreadable(tokens: seq<TokenAmount>)
  {
    exists name :: NewTokenWithFullName(name, true).None? && TokenTotal(tokens, name) % U64_LIMIT > 0
  }

  /** A token's name does not parse, or the minimum for an output of the tokens is not answered. */
  ghost predicate NotAdjustable(minUtxo: TxOutput -> Option<U64>, addr: string, tokens: seq<TokenAmount>)
  {
    || HasUnreadable(tokens)
    || (exists output :: IsTokenOutput(output, addr, tokens) && minUtxo(output).None?)
  }

  /** `adjustLovelaceOutput`. */
  method AdjustLovelaceOutput(minUtxo: TxOutput -> Option<U64>, addr: string, tokens: seq<TokenAmount>,
                              defaultMinUtxo: U64, lovelaceOutputBase: U64)
    returns (r: Option<U64>)
    ensures r.Some? ==> IsAdjusted(r.value, minUtxo, addr, tokens, defaultMinUtxo, lovelaceOutputBase)
    ensures r.Some? ==> !HasUnreadable(tokens)
    // enough for all three, and not more
    ensures r.Some? ==>
              && r.value >= lovelaceOutputBase && r.value >= defaultMinUtxo
              && (r.value == lovelaceOutputBase || r.value == defaultMinUtxo
                  || (tokens != [] && exists output :: IsTokenOutput(output, addr, tokens)
                                                       && minUtxo(output) == Some(r.value)))
    ensures r.Some? && tokens != [] ==>
              exists output :: IsTokenOutput(output, addr, tokens) && minUtxo(output).Some?
                               && r.value >= minUtxo(output).value
    ensures r.None? ==> tokens != [] && NotAdjustable(minUtxo, addr, tokens)
  {
    hide TokenTotal, AllNames, NewTokenWithFullName;
    if |tokens| == 0 {
      NothingUnreadable();
      return Some(Max(lovelaceOutputBase, defaultMinUtxo));
    }
    var sumMap := GetTokensSumMap(tokens);
    var calculatedMinUtxo;
    ghost var output;
    calculatedMinUtxo, output := GetMinUtxoForSumMap(minUtxo, addr, sumMap);
    AdaIsNoToken(tokens);
    if !ParsesAll(sumMap) {
      var name :| name in sumMap && name != ADA && sumMap[name] > 0 && NewTokenWithFullName(name, true).None?;
      assert TokenTotal(tokens, name) % U64_LIMIT > 0;
    } else {
      assert IsTokenOutput(output, addr, tokens);
      forall name ensures TokenTotal(tokens, name) % U64_LIMIT > 0 ==> NewTokenWithFullName(name, true).Some? {
        assert Read(sumMap, name) == TokenTotal(tokens, name) % U64_LIMIT;
      }
    }
    if calculatedMinUtxo.None? {
      return None;
    }
    r := Some(Max(lovelaceOutputBase, Max(calculatedMinUtxo.value, defaultMinUtxo)));
  }

  lemma NothingUnreadable()
    ensures !HasUnreadable([])
  {
    hide NewTokenWithFullName;
  }

  // ---------- raising receivers in place ----------

  /** The first `n` receivers have got what their outputs need. */
  ghost predicate AllAdjusted(now: seq<Receiver>, before: seq<Receiver>, n: nat, minUtxo: TxOutput -> Option<U64>,
                              defaultMinUtxo: U64)
    requires n <= |now| == |before|
  {
    forall j :: 0 <= j < n ==>
      && now[j] == before[j].(amount := now[j].amount) && !HasUnreadable(before[j].nativeTokens)
      && IsAdjusted(now[j].amount, minUtxo, before[j].addr, before[j].nativeTokens, defaultMinUtxo, before[j].amount)
  }

  /** The adjustment of receiver `i` fails: Go assigns both results before it looks at the error, so the amount of that
      receiver is gone; those in front are adjusted, and those behind are untouched. */
  ghost predicate StopsAt(now: seq<Receiver>, before: seq<Receiver>, i: nat, minUtxo: TxOutput -> Option<U64>,
                          defaultMinUtxo: U64)
    requires i < |now| == |before|
  {
    && AllAdjusted(now, before, i, minUtxo, defaultMinUtxo)
    && now[i] == before[i].(amount := 0) && now[i + 1..] == before[i + 1..]
    && before[i].nativeTokens != [] && NotAdjustable(minUtxo, before[i].addr, before[i].nativeTokens)
  }

  /** What the loop over the receivers leaves behind. */
  ghost predicate IsLeft(now: seq<Receiver>, before: seq<Receiver>, minUtxo: TxOutput -> Option<U64>,
                         defaultMinUtxo: U64, ok: bool)
    requires |now| == |before|
  {
    if ok then AllAdjusted(now, before, |before|, minUtxo, defaultMinUtxo)
    else exists i: nat :: i < |before| && StopsAt(now, before, i, minUtxo, defaultMinUtxo)
  }

  ghost predicate Lowered(now: seq<Receiver>, before: seq<Receiver>)
    requires |now| == |before|
  {
    exists j :: 0 <= j < |before| && now[j].amount < before[j].amount
  }

  /** The first receiver with a token whose name does not parse was to get some lovelace. */
  ghost predicate LosesAmount(before: seq<Receiver>)
  {
    exists i :: 0 <= i < |before| && before[i].amount > 0 && HasUnreadable(before[i].nativeTokens)
                && forall j :: 0 <= j < i ==> !HasUnreadable(before[j].nativeTokens)
  }

  lemma NotLoweredBefore(now: seq<Receiver>, before: seq<Receiver>, n: nat, minUtxo: TxOutput -> Option<U64>,
                         defaultMinUtxo: U64)
    requires n <= |now| == |before| && AllAdjusted(now, before, n, minUtxo, defaultMinUtxo)
    ensures forall j :: 0 <= j < n ==> now[j].amount >= before[j].amount && now[j].amount >= defaultMinUtxo
  {
    hide HasUnreadable, IsTokenOutput;
  }

  /** One more receiver is adjusted. */
  lemma AdjustNext(now: seq<Receiver>, before: seq<Receiver>, i: nat, x: Receiver, minUtxo: TxOutput -> Option<U64>,
                   defaultMinUtxo: U64)
    requires i < |now| == |before| && now[i..] == before[i..] && AllAdjusted(now, before, i, minUtxo, defaultMinUtxo)
    requires x == before[i].(amount := x.amount) && !HasUnreadable(before[i].nativeTokens)
    requires IsAdjusted(x.amount, minUtxo, before[i].addr, before[i].nativeTokens, defaultMinUtxo, before[i].amount)
    ensures now[i] == before[i] && now[i := x][i + 1..] == before[i + 1..]
    ensures AllAdjusted(now[i := x], before, i + 1, minUtxo, defaultMinUtxo)
  {
    hide HasUnreadable, IsAdjusted;
    Untouched(now, before, i, x);
  }

  /** Or the loop stops there. */
  lemma AdjustStops(now: seq<Receiver>, before: seq<Receiver>, i: nat, minUtxo: TxOutput -> Option<U64>,
                    defaultMinUtxo: U64)
    requires i < |now| == |before| && now[i..] == before[i..] && AllAdjusted(now, before, i, minUtxo, defaultMinUtxo)
    requires before[i].nativeTokens != [] && NotAdjustable(minUtxo, before[i].addr, before[i].nativeTokens)
    ensures StopsAt(now[i := before[i].(amount := 0)], before, i, minUtxo, defaultMinUtxo)
  {
    hide HasUnreadable, IsAdjusted, NotAdjustable;
    Untouched(now, before, i, before[i].(amount := 0));
  }

  lemma Untouched(now: seq<Receiver>, before: seq<Receiver>, i: nat, x: Receiver)
    requires i < |now| == |before| && now[i..] == before[i..]
    ensures now[i] == before[i] && now[i := x][i + 1..] == before[i + 1..]
  {
    assert now[i..][0] == before[i..][0];
    assert now[i..][1..] == now[i + 1..] && before[i..][1..] == before[i + 1..];
  }

  /** No amount is lowered when all adjustments succeed. Where the minimum of every output is answered, an amount is
      lowered exactly when the first receiver with an unreadable token name was to get lovelace. */
  lemma LoweredExactly(now: seq<Receiver>, before: seq<Receiver>, minUtxo: TxOutput -> Option<U64>,
                       defaultMinUtxo: U64, ok: bool)
    requires |now| == |before| && IsLeft(now, before, minUtxo, defaultMinUtxo, ok)
    ensures ok ==> !Lowered(now, before)
    ensures (forall output :: minUtxo(output).Some?) ==> (Lowered(now, before) <==> LosesAmount(before))
  {
    hide HasUnreadable, IsTokenOutput, IsAdjusted, AllAdjusted;
    if ok {
      NotLoweredBefore(now, before, |before|, minUtxo, defaultMinUtxo);
      AdjustedReadable(now, before, |before|, minUtxo, defaultMinUtxo);
    } else {
      var i: nat :| i < |before| && StopsAt(now, before, i, minUtxo, defaultMinUtxo);
      NotLoweredBefore(now, before, i, minUtxo, defaultMinUtxo);
      AdjustedReadable(now, before, i, minUtxo, defaultMinUtxo);
      forall j | i < j < |before| ensures now[j] == before[j] {
        assert now[i + 1..][j - i - 1] == before[i + 1..][j - i - 1];
      }
      if Lowered(now, before) {
        assert before[i].amount > 0;
      } else {
        assert now[i].amount == 0;
      }
    }
  }

  lemma AdjustedReadable(now: seq<Receiver>, before: seq<Receiver>, n: nat, minUtxo: TxOutput -> Option<U64>,
                         defaultMinUtxo: U64)
    requires n <= |now| == |before| && AllAdjusted(now, before, n, minUtxo, defaultMinUtxo)
    ensures forall j :: 0 <= j < n ==> !HasUnreadable(before[j].nativeTokens)
  {
    hide HasUnreadable, IsAdjusted;
  }

  /** A receiver of five lovelace and a token with a dot in its policy id: whatever the loop leaves, the five are
      gone. */
  lemma UnreadableTokenLowers(now: seq<Receiver>, minUtxo: TxOutput -> Option<U64>, defaultMinUtxo: U64, ok: bool)
    requires |now| == 1
    requires IsLeft(now, [Receiver("", 5, [TokenAmount(Token(".", []), 1)])], minUtxo, defaultMinUtxo, ok)
    ensures !ok && now[0].amount == 0
  {
    hide IsAdjusted, IsTokenOutput, NewTokenWithFullName;
    var tokens := [TokenAmount(Token(".", []), 1)];
    TokenNameRoundTrip(tokens[0].token);
    assert tokens[0].token.policyId[0] == '.';
    assert tokens[..0] == [];
    assert TokenTotal(tokens, TokenName(tokens[0].token)) == 1;
    assert HasUnreadable(tokens);
  }

  class TxSender {
    const minAmountToBridge: U64
    const maxInputsPerTx: int
    const chainConfigMap: map<string, ChainConfig>

    /** The least amount to bridge is the greatest minimum of all chains. */
    constructor (chainConfigMap: map<string, ChainConfig>, maxInputsPerTx: Option<int>)
      ensures this.chainConfigMap == chainConfigMap
      ensures this.maxInputsPerTx == if maxInputsPerTx.Some? then maxInputsPerTx.value else 50
      ensures forall id :: id in chainConfigMap ==> chainConfigMap[id].settings.minUtxoValue <= minAmountToBridge
      ensures minAmountToBridge == 0
              || exists id :: id in chainConfigMap && chainConfigMap[id].settings.minUtxoValue == minAmountToBridge
    {
      var greatest: U64 := 0;
      var ids := chainConfigMap.Keys;
      while ids != {}
        invariant ids <= chainConfigMap.Keys
        invariant forall id :: id in chainConfigMap && id !in ids ==>
                  chainConfigMap[id].settings.minUtxoValue <= greatest
        invariant greatest == 0
                  || exists id :: id in chainConfigMap && chainConfigMap[id].settings.minUtxoValue == greatest
        decreases |ids|
      {
        var id :| id in ids;
        greatest := Max(greatest, chainConfigMap[id].settings.minUtxoValue);
        ids := ids - {id};
      }
      this.minAmountToBridge := greatest;
      this.chainConfigMap := chainConfigMap;
      this.maxInputsPerTx := if maxInputsPerTx.Some? then maxInputsPerTx.value else 50;
    }

    method GetConfigs(srcChainID: string, dstChainID: string)
      returns (r: Result<(ChainConfig, ChainConfig), BridgingError>)
      ensures r.Ok? ==> srcChainID in chainConfigMap && dstChainID in chainConfigMap
                        && r.value == (chainConfigMap[srcChainID], chainConfigMap[dstChainID])
      ensures r.Err? ==>
                r.error == if srcChainID !in chainConfigMap then SourceConfigMissing else DestinationConfigMissing
      ensures r.Err? <==> srcChainID !in chainConfigMap || dstChainID !in chainConfigMap
    {
      if srcChainID !in chainConfigMap {
        return Err(SourceConfigMissing);
      }
      if dstChainID !in chainConfigMap {
        return Err(DestinationConfigMissing);
      }
      r := Ok((chainConfigMap[srcChainID], chainConfigMap[dstChainID]));
    }

    predicate IsPaid(receiver: BridgingReceiver) { receiver.addr != "" && receiver.amount >= minAmountToBridge }

    /** The first thing in the way of metadata. */
    predicate IsMetadataCause(e: BridgingError, srcChainID: string, dstChainID: string,
                              receivers: seq<BridgingReceiver>)
    {
      var known := srcChainID in chainConfigMap && dstChainID in chainConfigMap;
      match e
      case SourceConfigMissing => srcChainID !in chainConfigMap
      case DestinationConfigMissing => srcChainID in chainConfigMap && dstChainID !in chainConfigMap
      case ReceiverAddressEmpty(i) =>
        known && i < |receivers| && receivers[i].addr == "" && forall j :: 0 <= j < i ==> IsPaid(receivers[j])
      case ReceiverAmountTooLow(i) =>
        known && i < |receivers| && receivers[i].addr != "" && receivers[i].amount < minAmountToBridge
        && forall j :: 0 <= j < i ==> IsPaid(receivers[j])
      case _ => false
    }

    /** Metadata exists exactly when both chains are known and every receiver has an address and a sufficient amount;
        otherwise the first receiver in the way is named. */
    method CreateMetadata(senderAddr: string, srcChainID: string, dstChainID: string,
                          receivers: seq<BridgingReceiver>, bridgingFee: U64)
      returns (r: Result<Metadata, BridgingError>)
      ensures r.Ok? <==> srcChainID in chainConfigMap && dstChainID in chainConfigMap
                         && forall i :: 0 <= i < |receivers| ==>
                              receivers[i].addr != "" && receivers[i].amount >= minAmountToBridge
      ensures r.Ok? ==>
                |r.value.transactions| == |receivers| &&
                forall i :: 0 <= i < |receivers| ==>
                  r.value.transactions[i].address == MetaDataAddr(receivers[i].addr)
                  && r.value.transactions[i].amount == receivers[i].amount
      ensures r.Ok? ==> r.value == Metadata(dstChainID, MetaDataAddr(senderAddr), AsMetadataTxs(receivers), bridgingFee)
      ensures r.Err? ==> IsMetadataCause(r.error, srcChainID, dstChainID, receivers)
    {
      var configs := GetConfigs(srcChainID, dstChainID);
      if configs.Err? {
        return Err(configs.error);
      }
      var txs: seq<MetadataTx> := [];
      for i := 0 to |receivers|
        invariant txs == AsMetadataTxs(receivers[..i])
        invariant forall j :: 0 <= j < i ==> IsPaid(receivers[j])
      {
        var x := receivers[i];
        if x.addr == "" {
          return Err(ReceiverAddressEmpty(i));
        }
        if x.amount < minAmountToBridge {
          return Err(ReceiverAmountTooLow(i));
        }
        var address := AddrToMetaDataAddr(x.addr);
        txs := txs + [MetadataTx(address, x.amount)];
      }
      assert receivers[..|receivers|] == receivers;
      var sender := AddrToMetaDataAddr(senderAddr);
      r := Ok(Metadata(dstChainID, sender, txs, bridgingFee));
    }

    /** The bridging fee, raised by what lifts the output to the minimum; all modulo 2^64. */
    function BridgingFee(txDto: BridgingDto): U64
      requires txDto.srcChainID in chainConfigMap
    {
      var minimum := chainConfigMap[txDto.srcChainID].settings.minUtxoValue;
      (txDto.bridgingFee + Max(minimum - TotalAmount(txDto.receivers) % U64_LIMIT, 0)) % U64_LIMIT
    }

    /** Fee and output when nothing overflows. */
    lemma BridgingAmounts(txDto: BridgingDto)
      requires txDto.srcChainID in chainConfigMap
      ensures var total := TotalAmount(txDto.receivers);
              var minimum := chainConfigMap[txDto.srcChainID].settings.minUtxoValue;
              Max(total, minimum) + txDto.bridgingFee < U64_LIMIT ==>
                && BridgingFee(txDto) == txDto.bridgingFee + Max(minimum - total, 0)
                && (total + BridgingFee(txDto)) % U64_LIMIT == Max(total, minimum) + txDto.bridgingFee
    {
      hide TotalAmount;
      var total, minimum := TotalAmount(txDto.receivers), chainConfigMap[txDto.srcChainID].settings.minUtxoValue;
      if Max(total, minimum) + txDto.bridgingFee < U64_LIMIT {
        NoWrap(total);
        NoWrap(txDto.bridgingFee + if minimum > total then minimum - total else 0);
        NoWrap(Max(total, minimum) + txDto.bridgingFee);
      }
    }

    function BridgingAddress(txDto: BridgingDto): string
      requires txDto.srcChainID in chainConfigMap
    {
      if txDto.bridgingAddress == "" then chainConfigMap[txDto.srcChainID].multiSigAddr else txDto.bridgingAddress
    }

    /** Which check failed, in the order they are made. */
    predicate IsPrepareCause(e: BridgingError, txDto: BridgingDto, validateAddressData: bool, tools: Tools)
    {
      var known := txDto.srcChainID in chainConfigMap && txDto.dstChainID in chainConfigMap;
      var valid := known && (validateAddressData ==> tools.address);
      match e
      case SourceConfigMissing => txDto.srcChainID !in chainConfigMap
      case DestinationConfigMissing => txDto.srcChainID in chainConfigMap && txDto.dstChainID !in chainConfigMap
      case BadSenderAddress => known && validateAddressData && !tools.address
      case FeeTooLow => valid && txDto.bridgingFee < chainConfigMap[txDto.srcChainID].minBridgingFeeAmount
      case NoBuilder => valid && !tools.builder
      case NoProtocolParameters => valid && tools.builder && !tools.protocolParameters
      case _ => false
    }

    /** All amounts, or the minimum of the source chain if that is more. */
    ghost function LeastOutput(txDto: BridgingDto): nat
      requires txDto.srcChainID in chainConfigMap
    {
      Max(TotalAmount(txDto.receivers) % U64_LIMIT, chainConfigMap[txDto.srcChainID].settings.minUtxoValue)
    }

    /** The bridging output carries all amounts and the bridging fee; what raises it to the minimum counts as fee. */
    method PrepareBridgingTx(txDto: BridgingDto, validateAddressData: bool, tools: Tools)
      returns (r: Result<Prepared, BridgingError>)
      ensures r.Ok? <==> txDto.srcChainID in chainConfigMap && txDto.dstChainID in chainConfigMap
                         && (validateAddressData ==> tools.address)
                         && txDto.bridgingFee >= chainConfigMap[txDto.srcChainID].minBridgingFeeAmount
                         && tools.builder && tools.protocolParameters
      ensures r.Err? ==> IsPrepareCause(r.error, txDto, validateAddressData, tools)
      ensures r.Ok? ==>
                && r.value.bridgingAddress == BridgingAddress(txDto) && r.value.bridgingFee == BridgingFee(txDto)
                && r.value.outputLovelace == (TotalAmount(txDto.receivers) + BridgingFee(txDto)) % U64_LIMIT
                && (LeastOutput(txDto) + txDto.bridgingFee < U64_LIMIT ==>
                      r.value.outputLovelace == LeastOutput(txDto) + txDto.bridgingFee)
    {
      hide TotalAmount, HasUnreadable, NotAdjustable, IsTokenOutput;
      var configs := GetConfigs(txDto.srcChainID, txDto.dstChainID);
      if configs.Err? {
        return Err(configs.error);
      }
      var srcConfig := configs.value.0;
      if validateAddressData && !tools.address {
        return Err(BadSenderAddress);
      }
      var outputLovelaceBase := GetOutputAmountsOfReceivers(txDto.receivers);
      if txDto.bridgingFee < srcConfig.minBridgingFeeAmount {
        return Err(FeeTooLow);
      }
      if !tools.builder {
        return Err(NoBuilder);
      }
      if !tools.protocolParameters {
        return Err(NoProtocolParameters);
      }
      var bridgingAddress := txDto.bridgingAddress;
      if bridgingAddress == "" {
        bridgingAddress := srcConfig.multiSigAddr;
      }
      var minimum := srcConfig.settings.minUtxoValue;
      var adjusted := AdjustLovelaceOutput(tools.answers.minUtxo, bridgingAddress, [], minimum, outputLovelaceBase);
      var beforeCharges := adjusted.value;
      var bridgingFee := txDto.bridgingFee;
      var outputLovelace := Add64(beforeCharges, bridgingFee);
      if beforeCharges > outputLovelaceBase {
        bridgingFee := Add64(bridgingFee, beforeCharges - outputLovelaceBase);
      }
      Charges(TotalAmount(txDto.receivers), txDto.bridgingFee, minimum);
      r := Ok(Prepared(outputLovelace, bridgingAddress, bridgingFee));
    }

    /** The receivers of the transaction and its metadata name the same lovelace. */
    method CreateGenericTxDtoAndMetadata(txDto: BridgingDto, preparedData: Prepared, marshal: bool)
      returns (r: Result<(seq<Receiver>, Metadata), BridgingError>)
      ensures r.Err? ==> (r.error == NotMarshalled && !marshal)
                         || IsMetadataCause(r.error, txDto.srcChainID, txDto.dstChainID, txDto.receivers)
      ensures r.Ok? ==> r.value.1.transactions == AsMetadataTxs(txDto.receivers)
      ensures r.Ok? ==>
                && r.value.0 == [Receiver(preparedData.bridgingAddress, preparedData.outputLovelace, [])]
                && MetadataTotal(r.value.1) == TotalAmount(txDto.receivers) + preparedData.bridgingFee
                && r.value.1.bridgingFee == preparedData.bridgingFee
                && r.value.1.destinationChainID == txDto.dstChainID && |r.value.1.transactions| == |txDto.receivers|
                && forall i :: 0 <= i < |txDto.receivers| ==>
                     && txDto.receivers[i].addr != "" && txDto.receivers[i].amount >= minAmountToBridge
                     && r.value.1.transactions[i].address == MetaDataAddr(txDto.receivers[i].addr)
                     && r.value.1.transactions[i].amount == txDto.receivers[i].amount
    {
      var metadata := CreateMetadata(txDto.senderAddr, txDto.srcChainID, txDto.dstChainID, txDto.receivers,
                                     preparedData.bridgingFee);
      if metadata.Err? {
        return Err(metadata.error);
      }
      if !marshal {
        return Err(NotMarshalled);
      }
      TransactionsKeepAmounts(txDto.receivers);
      r := Ok(([Receiver(preparedData.bridgingAddress, preparedData.outputLovelace, [])], metadata.value));
    }

    /** The transaction that is asked for. */
    function BridgingRequest(txDto: BridgingDto, answers: Answers): Request
      requires txDto.srcChainID in chainConfigMap
    {
      var lovelace := (TotalAmount(txDto.receivers) + BridgingFee(txDto)) % U64_LIMIT;
      Request([Receiver(BridgingAddress(txDto), lovelace, [])], txDto.senderAddr,
              chainConfigMap[txDto.srcChainID].settings, answers, maxInputsPerTx)
    }

    /** A bridging transaction pays the bridging address exactly what its metadata says, from UTXOs of the sender, and
        balances like any other. */
    method CreateBridgingTx(txDto: BridgingDto, tools: Tools)
      returns (r: Result<(TxInfo, Metadata), BridgingError>, b: TxBuilder, ghost d: Decisions)
      ensures r.Ok? ==> txDto.srcChainID in chainConfigMap && |b.outputs| >= 1
                        && b.outputs[0].amount == MetadataTotal(r.value.1) % U64_LIMIT
                        && b.outputs[0].tokens == []
                        && b.outputs[0].addr == if txDto.bridgingAddress != "" then txDto.bridgingAddress
                                                else chainConfigMap[txDto.srcChainID].multiSigAddr
      // the output carries all amounts, at least the minimum of the chain, and the fee; what is added is charged
      ensures r.Ok? ==>
                var total := TotalAmount(txDto.receivers);
                var minimum := chainConfigMap[txDto.srcChainID].settings.minUtxoValue;
                Max(total, minimum) + txDto.bridgingFee < U64_LIMIT ==>
                  && b.outputs[0].amount == Max(total, minimum) + txDto.bridgingFee
                  && r.value.1.bridgingFee == txDto.bridgingFee + Max(minimum - total, 0)
      ensures r.Ok? ==> r.value.1.bridgingFee == BridgingFee(txDto)
                        && r.value.1.transactions == AsMetadataTxs(txDto.receivers)
      ensures r.Ok? ==> forall i :: 0 <= i < |txDto.receivers| ==>
                          txDto.receivers[i].addr != "" && txDto.receivers[i].amount >= minAmountToBridge
      ensures r.Ok? ==> r.value.1.destinationChainID == txDto.dstChainID
                        && |r.value.1.transactions| == |txDto.receivers|
                        && forall i :: 0 <= i < |txDto.receivers| ==>
                             && r.value.1.transactions[i].address == MetaDataAddr(txDto.receivers[i].addr)
                             && r.value.1.transactions[i].amount == txDto.receivers[i].amount
      // inputs of the sender, at most as many as configured; what is left over goes back to the sender
      ensures r.Ok? && maxInputsPerTx >= 1 ==> |b.inputs| <= maxInputsPerTx
      ensures r.Ok? ==> tools.answers.utxos.Some? && AreInputs(b.inputs, tools.answers.utxos.value, d.order)
      ensures r.Ok? && |b.outputs| > 1 ==>
                b.outputs[|b.outputs| - 1].addr == txDto.senderAddr
                && b.outputs[|b.outputs| - 1].amount >= chainConfigMap[txDto.srcChainID].settings.minUtxoValue
      ensures r.Ok? ==> r.value.0.chosenInputs == b.inputs
      ensures r.Ok? ==>
                var q := BridgingRequest(txDto, tools.answers);
                IsFinished(d, q, [], [], b.inputs, b.outputs, b.fee) && IsBalanced(d, q, b.outputs, b.fee)
      ensures r.Err? ==>
                || IsPrepareCause(r.error, txDto, true, tools)
                || IsMetadataCause(r.error, txDto.srcChainID, txDto.dstChainID, txDto.receivers)
                || (r.error == NotMarshalled && !tools.marshal)
                || (r.error.NoTx? && txDto.srcChainID in chainConfigMap
                    && IsCause(r.error.error, d, BridgingRequest(txDto, tools.answers), [], []))
    {
      hide MetadataTotal, TotalAmount, IsFinished, IsBalanced, IsCause, BridgingFee;
      b := new TxBuilder();
      d := Undecided;
      var preparedData := PrepareBridgingTx(txDto, true, tools);
      if preparedData.Err? {
        return Err(preparedData.error), b, d;
      }
      var generic := CreateGenericTxDtoAndMetadata(txDto, preparedData.value, tools.marshal);
      if generic.Err? {
        return Err(generic.error), b, d;
      }
      var q := Request(generic.value.0, txDto.senderAddr, chainConfigMap[txDto.srcChainID].settings, tools.answers,
                       maxInputsPerTx);
      var info;
      b, info, d := CreateFreshTx(q);
      if info.Err? {
        return Err(NoTx(info.error)), b, d;
      }
      assert b.outputs[0] == b.outputs[..1][0] == AsOutput(generic.value.0[0]);
      BridgingAmounts(txDto);
      r := Ok((info.value, generic.value.1));
    }

    /** A generic transaction first raises every receiver's lovelace in place to what its output needs; the receiver
        whose adjustment fails loses its lovelace. */
    method CreateTxGeneric(srcChainID: string, senderAddr: string, receivers: array<Receiver>, tools: Tools)
      returns (r: Result<TxInfo, BridgingError>, b: TxBuilder, ghost d: Decisions)
      modifies receivers
      ensures r.Ok? || r.error.NoTx? || r.error.NoMinimum? ==>
                srcChainID in chainConfigMap
                && IsLeft(receivers[..], old(receivers[..]), tools.answers.minUtxo,
                          chainConfigMap[srcChainID].settings.minUtxoValue, r != Err(NoMinimum))
      ensures !(r.Ok? || r.error.NoTx? || r.error.NoMinimum?) ==> receivers[..] == old(receivers[..])
      ensures r != Err(NoMinimum) ==>
                forall i :: 0 <= i < receivers.Length ==> receivers[i].amount >= old(receivers[i]).amount
      ensures r.Ok? ==> forall i :: 0 <= i < receivers.Length ==>
                          receivers[i].amount >= chainConfigMap[srcChainID].settings.minUtxoValue
      ensures r.Ok? ==> |b.outputs| >= receivers.Length
                        && forall i :: 0 <= i < receivers.Length ==> b.outputs[i] == AsOutput(receivers[i])
      ensures r.Ok? ==>
                var q := Request(receivers[..], senderAddr, chainConfigMap[srcChainID].settings, tools.answers,
                                 maxInputsPerTx);
                IsFinished(d, q, [], [], b.inputs, b.outputs, b.fee) && IsBalanced(d, q, b.outputs, b.fee)
      ensures r.Err? && r.error.NoTx? ==>
                var q := Request(receivers[..], senderAddr, chainConfigMap[srcChainID].settings, tools.answers,
                                 maxInputsPerTx);
                IsCause(r.error.error, d, q, [], [])
      ensures r.Err? ==>
                match r.error
                case SourceConfigMissing => srcChainID !in chainConfigMap
                case NoBuilder => !tools.builder
                case BadSenderAddress => !tools.address
                case NoProtocolParameters => !tools.protocolParameters
                case NoMinimum => true
                case NoTx(_) => true
                case _ => false
    {
      hide IsFinished, IsBalanced, IsCause, NotAdjustable, Outputs, HasUnreadable, IsAdjusted;
      b := new TxBuilder();
      d := Undecided;
      if srcChainID !in chainConfigMap {
        return Err(SourceConfigMissing), b, d;
      }
      var srcConfig := chainConfigMap[srcChainID];
      if !tools.builder {
        return Err(NoBuilder), b, d;
      }
      if !tools.address {
        return Err(BadSenderAddress), b, d;
      }
      if !tools.protocolParameters {
        return Err(NoProtocolParameters), b, d;
      }
      for i := 0 to receivers.Length
        invariant receivers[i..] == old(receivers[i..])
        invariant AllAdjusted(receivers[..], old(receivers[..]), i, tools.answers.minUtxo,
                              srcConfig.settings.minUtxoValue)
      {
        var rcv := receivers[i];
        var adjusted := AdjustLovelaceOutput(tools.answers.minUtxo, rcv.addr, rcv.nativeTokens,
                                             srcConfig.settings.minUtxoValue, rcv.amount);
        ghost var now := receivers[..];
        Untouched(now, old(receivers[..]), i, rcv);
        receivers[i] := rcv.(amount := if adjusted.None? then 0 else adjusted.value);
        assert receivers[..] == now[i := receivers[i]];
        if adjusted.None? {
          AdjustStops(now, old(receivers[..]), i, tools.answers.minUtxo, srcConfig.settings.minUtxoValue);
          return Err(NoMinimum), b, d;
        }
        AdjustNext(now, old(receivers[..]), i, receivers[i], tools.answers.minUtxo, srcConfig.settings.minUtxoValue);
      }
      NotLoweredBefore(receivers[..], old(receivers[..]), receivers.Length, tools.answers.minUtxo,
                       srcConfig.settings.minUtxoValue);
      var q := Request(receivers[..], senderAddr, srcConfig.settings, tools.answers, maxInputsPerTx);
      var info;
      b, info, d := CreateFreshTx(q);
      if info.Err? {
        return Err(NoTx(info.error)), b, d;
      }
      forall i | 0 <= i < receivers.Length ensures b.outputs[i] == AsOutput(receivers[i]) {
        OutputAt(receivers[..], i);
        assert b.outputs[i] == b.outputs[..receivers.Length][i];
      }
      r := Ok(info.value);
    }
  }

  lemma OutputAt(receivers: seq<Receiver>, i: nat)
    requires i < |receivers|
    ensures Outputs(receivers)[i] == AsOutput(receivers[i])
  {}

  /** What raises the output to the minimum is added to the fee, so the sum of both is the same either way. */
  lemma Charges(total: nat, fee: U64, minimum: U64)
    ensures var base: U64 := total % U64_LIMIT; var adjusted: U64 := Max(base, minimum);
            var charged := if adjusted > base then Add64(fee, adjusted - base) else fee;
            && Add64(adjusted, fee) == (total + charged) % U64_LIMIT
            && charged == (fee + Max(minimum - base, 0)) % U64_LIMIT
            && (adjusted + fee < U64_LIMIT ==> Add64(adjusted, fee) == adjusted + fee)
  {
    hide TotalAmount;
    var base: U64 := total % U64_LIMIT;
    var adjusted: U64 := Max(base, minimum);
    AddMod(total, fee);
    if adjusted > base {
      AddMod(fee + adjusted - base, base);
      AddMod(total, Add64(fee, adjusted - base));
    } else {
      NoWrap(fee);
    }
    if adjusted + fee < U64_LIMIT {
      NoWrap(adjusted + fee);
    }
  }
}
