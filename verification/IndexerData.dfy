/** The records of `indexer/data.go` and the list-building functions of `indexer/utils.go`. */
module IndexerData {
  import opened Wrappers
  import opened Numbers
  import opened Keys

  const HASH_SIZE: nat := 32

  type Hash = h: seq<byte> | |h| == 32 witness seq(32, i => 0)

  datatype BlockPoint = BlockPoint(slot: U64, hash: Hash)

  datatype BlockHeader = BlockHeader(slot: U64, hash: Hash, number: U64, eraId: byte)

  datatype TxInput = TxInput(hash: Hash, index: U32)

  datatype TokenAmount = TokenAmount(policyId: string, name: string, amount: U64)

  datatype TxOutput = TxOutput(address: string, slot: U64, amount: U64, datum: seq<byte>, isUsed: bool,
                               tokens: seq<TokenAmount>)

  datatype TxInputOutput = TxInputOutput(input: TxInput, output: TxOutput)

  datatype Tx = Tx(blockSlot: U64, blockHash: Hash, indx: U32, hash: Hash, metadata: seq<byte>,
                   inputs: seq<TxInputOutput>, outputs: seq<TxOutput>, fee: U64, valid: bool)

  datatype CardanoBlock = CardanoBlock(slot: U64, hash: Hash, number: U64, eraId: byte, txs: seq<Hash>)

  /** Go's zero output: what `GetTxOutput` returns for an unknown key. */
  const ZeroOutput := TxOutput("", 0, 0, [], false, [])

  function ZeroHash(): Hash { seq(32, i => 0) }

  function ZeroHeader(): BlockHeader { BlockHeader(0, ZeroHash(), 0, 0) }

  function PointOf(h: BlockHeader): BlockPoint { BlockPoint(h.slot, h.hash) }

  /** `ToCardanoBlock`. */
  function BlockOf(h: BlockHeader, txs: seq<Hash>): CardanoBlock
  {
    CardanoBlock(h.slot, h.hash, h.number, h.eraId, txs)
  }

  /** `SlotNumberToKey` and `CardanoBlock.Key`. */
  function SlotKey(slot: U64): Key { BigEndian(slot, 8) }

  /** `Tx.Key`. */
  function TxKey(tx: Tx): Key { BigEndian(tx.blockSlot, 8) + BigEndian(tx.indx, 4) }

  /** `TxInput.Key`. */
  function InputKey(i: TxInput): Key { i.hash + BigEndian(i.index, 4) }

  /** `TxInput.Set`: the key must be 36 bytes long. */
  function InputOfKey(k: Key): (r: Option<TxInput>)
  {
    if |k| != HASH_SIZE + 4 then None
    else FourBytes(k[32..]); Some(TxInput(k[..32], FromBigEndian(k[32..])))
  }

  lemma FourBytes(k: Key)
    requires |k| == 4
    ensures FromBigEndian(k) < 0x1_0000_0000
  {
    FromBigEndianBound(k);
    assert Pow256(4) == 0x1_0000_0000 by { assert Pow256(2) == 65536; }
  }

  lemma Widths()
    ensures Pow256(4) == 0x1_0000_0000 && Pow256(8) == 0x1_0000_0000_0000_0000
  {
    assert Pow256(2) == 65536;
    assert Pow256(6) == 0x1_0000_0000_0000;
  }

  /** Keys of inputs decode back, so different inputs have different keys. */
  lemma InputKeyInverse(i: TxInput)
    ensures InputOfKey(InputKey(i)) == Some(i)
  {
    Widths();
    BigEndianInverse(i.index, 4);
    assert InputKey(i)[..32] == i.hash && InputKey(i)[32..] == BigEndian(i.index, 4);
  }

  /** And every key of the right length is the key of the input it decodes to. */
  lemma KeyOfDecoded(k: Key)
    requires |k| == HASH_SIZE + 4
    ensures InputKey(InputOfKey(k).value) == k
  {
    FromBigEndianBound(k[32..]);
  }

  /** Slot keys are ordered like slots. */
  lemma SlotKeyOrder(a: U64, b: U64)
    ensures Less(SlotKey(a), SlotKey(b)) <==> a < b
    ensures SlotKey(a) == SlotKey(b) <==> a == b
  {
    Widths();
    BigEndianOrder(a, b, 8);
  }

  predicate SamePlace(a: Tx, b: Tx) { a.blockSlot == b.blockSlot && a.indx == b.indx }

  /** The key of a transaction tells its slot and its index, and keys are ordered by slot and then by index. */
  lemma TxKeyMeaning(a: Tx, b: Tx)
    ensures TxKey(a) == TxKey(b) <==> SamePlace(a, b)
    ensures Less(TxKey(a), TxKey(b)) <==> a.blockSlot < b.blockSlot || (a.blockSlot == b.blockSlot && a.indx < b.indx)
    ensures |TxKey(a)| == 12
  {
    hide BigEndian;
    Widths();
    BigEndianOrder(a.blockSlot, b.blockSlot, 8);
    BigEndianOrder(a.indx, b.indx, 4);
    LessConcat(BigEndian(a.blockSlot, 8), BigEndian(b.blockSlot, 8), BigEndian(a.indx, 4), BigEndian(b.indx, 4));
    assert TxKey(a)[..8] == BigEndian(a.blockSlot, 8) && TxKey(a)[8..] == BigEndian(a.indx, 4);
    assert TxKey(b)[..8] == BigEndian(b.blockSlot, 8) && TxKey(b)[8..] == BigEndian(b.indx, 4);
  }

  /** Byte order of two-part keys. */
  lemma {:induction false} LessConcat(a: Key, b: Key, x: Key, y: Key)
    requires |a| == |b|
    ensures Less(a + x, b + y) <==> Less(a, b) || (a == b && Less(x, y))
    decreases |a|
  {
    if a == [] {
      assert a + x == x && b + y == y;
    } else {
      assert (a + x)[1..] == a[1..] + x && (b + y)[1..] == b[1..] + y;
      LessConcat(a[1..], b[1..], x, y);
      assert a == [a[0]] + a[1..] && b == [b[0]] + b[1..];
    }
  }

  // ---------- outputs and inputs of a block ----------

  /** The map lookup `len(m) == 0 || m[address]`. */
  predicate Wanted(interest: set<string>, address: string) { interest == {} || address in interest }

  function OutputsOf(tx: Tx, interest: set<string>, n: nat): seq<TxInputOutput>
    requires n <= |tx.outputs|
  {
    if n == 0 then []
    else OutputsOf(tx, interest, n - 1)
         + if Wanted(interest, tx.outputs[n - 1].address)
           then [TxInputOutput(TxInput(tx.hash, (n - 1) % 0x1_0000_0000), tx.outputs[n - 1])] else []
  }

  /** `getTxOutputs`. */
  function TxOutputs(txs: seq<Tx>, interest: set<string>): seq<TxInputOutput>
  {
    if txs == [] then []
    else TxOutputs(txs[..|txs| - 1], interest) + OutputsOf(txs[|txs| - 1], interest, |txs[|txs| - 1].outputs|)
  }

  function InputsOf(inputs: seq<TxInputOutput>, interest: set<string>): seq<TxInput>
  {
    if inputs == [] then []
    else InputsOf(inputs[..|inputs| - 1], interest)
         + if Wanted(interest, inputs[|inputs| - 1].output.address) then [inputs[|inputs| - 1].input] else []
  }

  /** `getTxInputs`. */
  function TxInputs(txs: seq<Tx>, interest: set<string>): seq<TxInput>
  {
    if txs == [] then [] else TxInputs(txs[..|txs| - 1], interest) + InputsOf(txs[|txs| - 1].inputs, interest)
  }

  /** `getTxHashes`. */
  function TxHashes(txs: seq<Tx>): (r: seq<Hash>)
    ensures |r| == |txs| && forall i :: 0 <= i < |txs| ==> r[i] == txs[i].hash
  {
    seq(|txs|, i requires 0 <= i < |txs| => txs[i].hash)
  }

  method GetTxOutputs(txs: seq<Tx>, interest: set<string>) returns (res: seq<TxInputOutput>)
    ensures res == TxOutputs(txs, interest)
  {
    res := [];
    for i := 0 to |txs|
      invariant res == TxOutputs(txs[..i], interest)
    {
      var tx := txs[i];
      ghost var before := res;
      for outIndex := 0 to |tx.outputs|
        invariant res == before + OutputsOf(tx, interest, outIndex)
      {
        var txOut := tx.outputs[outIndex];
        if interest == {} || txOut.address in interest {
          res := res + [TxInputOutput(TxInput(tx.hash, outIndex % 0x1_0000_0000), txOut)];
        }
      }
      assert txs[..i + 1][..i] == txs[..i];
    }
    assert txs[..|txs|] == txs;
  }

  method GetTxInputs(txs: seq<Tx>, interest: set<string>) returns (res: seq<TxInput>)
    ensures res == TxInputs(txs, interest)
  {
    res := [];
    for i := 0 to |txs|
      invariant res == TxInputs(txs[..i], interest)
    {
      var tx := txs[i];
      ghost var before := res;
      for j := 0 to |tx.inputs|
        invariant res == before + InputsOf(tx.inputs[..j], interest)
      {
        var inp := tx.inputs[j];
        assert tx.inputs[..j + 1][..j] == tx.inputs[..j];
        if interest == {} || inp.output.address in interest {
          res := res + [inp.input];
        }
      }
      assert tx.inputs[..|tx.inputs|] == tx.inputs;
      assert txs[..i + 1][..i] == txs[..i];
    }
    assert txs[..|txs|] == txs;
  }
}
