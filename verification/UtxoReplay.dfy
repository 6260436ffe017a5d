/** The UTXO bucket after a confirmed block, written as one batch of all adds followed by all removes, against the
    plain replay "remove the inputs, then add the outputs" transaction by transaction. */
module UtxoReplay {
  import opened Wrappers
  import opened Keys
  import opened IndexerData
  import opened Stores

  function Get(m: Bucket, x: Key): Option<TxOutput> { if x in m then Some(m[x]) else None }

  /** The output a list of adds leaves under a key. */
  function LastPut(outs: seq<TxInputOutput>, x: Key): Option<TxOutput>
  {
    if outs == [] then None
    else if InputKey(outs[|outs| - 1].input) == x then Some(outs[|outs| - 1].output)
    else LastPut(outs[..|outs| - 1], x)
  }

  predicate Names(inputs: seq<TxInput>, x: Key) { exists i :: 0 <= i < |inputs| && InputKey(inputs[i]) == x }

  function Produced(tx: Tx): seq<TxInputOutput> { OutputsOf(tx, {}, |tx.outputs|) }

  function Consumed(tx: Tx): seq<TxInput> { InputsOf(tx.inputs, {}) }

  /** The block's batch: all adds, then all removes. */
  function Batch(m: Bucket, txs: seq<Tx>): Bucket
  {
    DeleteKeys(PutAll(m, TxOutputs(txs, {})), TxInputs(txs, {}))
  }

  /** The reference: transaction by transaction. */
  function Replay(m: Bucket, txs: seq<Tx>): Bucket
  {
    if txs == [] then m
    else var last := txs[|txs| - 1]; PutAll(DeleteKeys(Replay(m, txs[..|txs| - 1]), Consumed(last)), Produced(last))
  }

  // ---------- one key at a time ----------

  lemma {:induction false} GetPutAll(m: Bucket, outs: seq<TxInputOutput>, x: Key)
    ensures Get(PutAll(m, outs), x) == if LastPut(outs, x).Some? then LastPut(outs, x) else Get(m, x)
    decreases |outs|
  {
    hide InputKey;
    if outs != [] {
      GetPutAll(m, outs[..|outs| - 1], x);
    }
  }

  lemma {:induction false} GetDeleteKeys(m: Bucket, inputs: seq<TxInput>, x: Key)
    ensures Get(DeleteKeys(m, inputs), x) == if Names(inputs, x) then None else Get(m, x)
    decreases |inputs|
  {
    hide InputKey;
    if inputs != [] {
      var n := |inputs| - 1;
      GetDeleteKeys(m, inputs[..n], x);
      assert Names(inputs, x) <==> Names(inputs[..n], x) || InputKey(inputs[n]) == x by {
        if i :| 0 <= i < |inputs| && InputKey(inputs[i]) == x && i < n { assert inputs[..n][i] == inputs[i]; }
        if i :| 0 <= i < n && InputKey(inputs[..n][i]) == x { assert inputs[i] == inputs[..n][i]; }
      }
    }
  }

  lemma {:induction false} LastPutConcat(a: seq<TxInputOutput>, b: seq<TxInputOutput>, x: Key)
    ensures LastPut(a + b, x) == if LastPut(b, x).Some? then LastPut(b, x) else LastPut(a, x)
    decreases |b|
  {
    hide InputKey;
    if b == [] {
      assert a + b == a;
    } else {
      assert (a + b)[..|a + b| - 1] == a + b[..|b| - 1];
      LastPutConcat(a, b[..|b| - 1], x);
    }
  }

  lemma NamesConcat(a: seq<TxInput>, b: seq<TxInput>, x: Key)
    ensures Names(a + b, x) <==> Names(a, x) || Names(b, x)
  {
    hide InputKey;
    if i :| 0 <= i < |a| && InputKey(a[i]) == x { assert (a + b)[i] == a[i]; }
    if i :| 0 <= i < |b| && InputKey(b[i]) == x { assert (a + b)[|a| + i] == b[i]; }
  }

  // ---------- what a block does to a key ----------

  /** The last thing that happens to a key when the transactions run one by one. */
  datatype Event = Nothing | WasSpent | WasCreated(output: TxOutput)

  function LastEvent(txs: seq<Tx>, x: Key): Event
  {
    if txs == [] then Nothing
    else
      var last := txs[|txs| - 1];
      if LastPut(Produced(last), x).Some? then WasCreated(LastPut(Produced(last), x).value)
      else if Names(Consumed(last), x) then WasSpent
      else LastEvent(txs[..|txs| - 1], x)
  }

  predicate SpentIn(txs: seq<Tx>, x: Key) { Names(TxInputs(txs, {}), x) }

  lemma {:induction false} GetReplay(m: Bucket, txs: seq<Tx>, x: Key)
    ensures Get(Replay(m, txs), x) == match LastEvent(txs, x)
                                      case Nothing => Get(m, x)
                                      case WasSpent => None
                                      case WasCreated(output) => Some(output)
    decreases |txs|
  {
    hide LastPut, Names, Produced, Consumed, PutAll, DeleteKeys;
    if txs != [] {
      var last, front := txs[|txs| - 1], Replay(m, txs[..|txs| - 1]);
      GetReplay(m, txs[..|txs| - 1], x);
      GetPutAll(DeleteKeys(front, Consumed(last)), Produced(last), x);
      GetDeleteKeys(front, Consumed(last), x);
    }
  }

  lemma {:induction false} EventsOfBlock(txs: seq<Tx>, x: Key)
    ensures LastPut(TxOutputs(txs, {}), x).None? && !SpentIn(txs, x) <==> LastEvent(txs, x).Nothing?
    ensures LastEvent(txs, x).WasSpent? ==> SpentIn(txs, x)
    ensures !SpentIn(txs, x) && LastPut(TxOutputs(txs, {}), x).Some? ==>
              LastEvent(txs, x) == WasCreated(LastPut(TxOutputs(txs, {}), x).value)
    decreases |txs|
  {
    hide LastPut, Names, OutputsOf, InputsOf;
    if txs == [] {
      NothingNamed(x);
    } else {
      var last, front := txs[|txs| - 1], txs[..|txs| - 1];
      EventsOfBlock(front, x);
      LastPutConcat(TxOutputs(front, {}), Produced(last), x);
      NamesConcat(TxInputs(front, {}), Consumed(last), x);
    }
  }

  lemma NothingNamed(x: Key)
    ensures !Names([], x) && LastPut([], x) == None
  {}

  /** No output that the block spends is created (again) at or after its last spending transaction. */
  predicate SpendsComeLast(txs: seq<Tx>)
  {
    forall inp :: inp in TxInputs(txs, {}) ==> !LastEvent(txs, InputKey(inp)).WasCreated?
  }

  /** Batch and replay agree on a block exactly when its spends come after the outputs they spend. */
  lemma BatchIsReplay(m: Bucket, txs: seq<Tx>)
    ensures Batch(m, txs) == Replay(m, txs) <==> SpendsComeLast(txs)
  {
    hide InputKey, PutAll, DeleteKeys, Replay, TxInputs, TxOutputs, LastEvent, LastPut;
    forall x: Key
      ensures Get(Batch(m, txs), x) == Get(Replay(m, txs), x) <==> !(SpentIn(txs, x) && LastEvent(txs, x).WasCreated?)
    {
      GetPutAll(m, TxOutputs(txs, {}), x);
      GetDeleteKeys(PutAll(m, TxOutputs(txs, {})), TxInputs(txs, {}), x);
      GetReplay(m, txs, x);
      EventsOfBlock(txs, x);
    }
    if SpendsComeLast(txs) {
      forall x: Key ensures Get(Batch(m, txs), x) == Get(Replay(m, txs), x) {
        if SpentIn(txs, x) {
          var i :| 0 <= i < |TxInputs(txs, {})| && InputKey(TxInputs(txs, {})[i]) == x;
        }
      }
      SameBuckets(Batch(m, txs), Replay(m, txs));
    } else {
      var inp :| inp in TxInputs(txs, {}) && LastEvent(txs, InputKey(inp)).WasCreated?;
      assert SpentIn(txs, InputKey(inp));
      assert Get(Batch(m, txs), InputKey(inp)) != Get(Replay(m, txs), InputKey(inp));
    }
  }

  /** A block on which they differ: its first transaction spends what only the second one creates. The replay keeps the
      output, the batch deletes it. */
  lemma SpentTooEarly(m: Bucket) returns (txs: seq<Tx>)
    ensures !SpendsComeLast(txs) && Batch(m, txs) != Replay(m, txs)
  {
    hide InputKey, Batch, Replay;
    var h1: Hash, h2: Hash := seq(32, i => 1), seq(32, i => 2);
    var spent, made := TxInput(h2, 0), TxOutput("", 0, 1, [], false, []);
    var t1 := Tx(0, ZeroHash(), 0, h1, [], [TxInputOutput(spent, ZeroOutput)], [], 0, true);
    var t2 := Tx(0, ZeroHash(), 1, h2, [], [], [made], 0, true);
    txs := [t1, t2];
    assert txs[..1] == [t1] && [t1][..0] == [] && t1.inputs[..0] == [];
    assert TxInputs([t1], {}) == [spent] && TxInputs(txs, {}) == [spent] + [];
    assert OutputsOf(t2, {}, 1) == OutputsOf(t2, {}, 0) + [TxInputOutput(TxInput(h2, 0), made)];
    assert Produced(t2) == [TxInputOutput(spent, made)];
    assert LastEvent(txs, InputKey(spent)) == WasCreated(made);
    assert spent in TxInputs(txs, {});
    BatchIsReplay(m, txs);
  }

  lemma SameBuckets(a: Bucket, b: Bucket)
    requires forall x: Key :: Get(a, x) == Get(b, x)
    ensures a == b
  {
    forall x | x in a ensures x in b && a[x] == b[x] { assert Get(a, x) == Get(b, x); }
    forall x | x in b ensures x in a { assert Get(a, x) == Get(b, x); }
  }

  // ---------- valid chains ----------

  /** No transaction spends an output of itself or of a later transaction of the block. */
  predicate NoForwardSpends(txs: seq<Tx>)
  {
    forall j, k, i :: 0 <= j <= k < |txs| && 0 <= i < |txs[j].inputs| ==> txs[j].inputs[i].input.hash != txs[k].hash
  }

  lemma {:induction false} ProducedHash(tx: Tx, n: nat, interest: set<string>, x: Key)
    requires n <= |tx.outputs| && LastPut(OutputsOf(tx, interest, n), x).Some?
    ensures |x| == 36 && x[..32] == tx.hash
  {
    if n > 0 {
      var front := OutputsOf(tx, interest, n - 1);
      var all := OutputsOf(tx, interest, n);
      if all != front {
        assert all[..|all| - 1] == front;
        if InputKey(all[|all| - 1].input) != x {
          ProducedHash(tx, n - 1, interest, x);
        }
      } else {
        ProducedHash(tx, n - 1, interest, x);
      }
    }
  }

  lemma {:induction false} ConsumedHash(inputs: seq<TxInputOutput>, x: Key)
    requires Names(InputsOf(inputs, {}), x)
    ensures exists i :: 0 <= i < |inputs| && InputKey(inputs[i].input) == x
    decreases |inputs|
  {
    hide InputKey, Names;
    if inputs == [] {
      NothingNamed(x);
    } else {
      var n := |inputs| - 1;
      NamesConcat(InputsOf(inputs[..n], {}), [inputs[n].input], x);
      if Names(InputsOf(inputs[..n], {}), x) {
        ConsumedHash(inputs[..n], x);
        var i :| 0 <= i < n && InputKey(inputs[..n][i].input) == x;
        assert InputKey(inputs[i].input) == x;
      } else {
        NamesSingle(inputs[n].input, x);
      }
    }
  }

  lemma NamesSingle(inp: TxInput, x: Key)
    ensures Names([inp], x) <==> InputKey(inp) == x
  {
    hide InputKey;
    if InputKey(inp) == x { assert InputKey([inp][0]) == x; }
  }

  lemma {:induction false} SpenderExists(txs: seq<Tx>, x: Key) returns (j: nat, i: nat)
    requires SpentIn(txs, x)
    ensures j < |txs| && i < |txs[j].inputs| && InputKey(txs[j].inputs[i].input) == x
    decreases |txs|
  {
    hide InputKey, Names;
    j, i := 0, 0;
    if txs == [] {
      NothingNamed(x);
    } else {
      var n := |txs| - 1;
      NamesConcat(TxInputs(txs[..n], {}), Consumed(txs[n]), x);
      if SpentIn(txs[..n], x) {
        j, i := SpenderExists(txs[..n], x);
      } else {
        ConsumedHash(txs[n].inputs, x);
        var i' :| 0 <= i' < |txs[n].inputs| && InputKey(txs[n].inputs[i'].input) == x;
        j, i := n, i';
      }
    }
  }

  lemma {:induction false} NoForwardSpendsSuffices(txs: seq<Tx>, x: Key)
    requires NoForwardSpends(txs) && SpentIn(txs, x)
    ensures !LastEvent(txs, x).WasCreated?
    decreases |txs|
  {
    hide LastPut, Names, InputKey;
    if txs != [] {
      var n := |txs| - 1;
      if LastPut(Produced(txs[n]), x).Some? {
        ProducedHash(txs[n], |txs[n].outputs|, {}, x);
        var j, i := SpenderExists(txs, x);
        KeyHash(txs[j].inputs[i].input);
      } else if !Names(Consumed(txs[n]), x) {
        NamesConcat(TxInputs(txs[..n], {}), Consumed(txs[n]), x);
        NoForwardSpendsSuffices(txs[..n], x);
      }
    }
  }

  lemma KeyHash(inp: TxInput)
    ensures |InputKey(inp)| == 36 && InputKey(inp)[..32] == inp.hash
  {}

  /** On a block without forward or self references the batch is the replay, even when a transaction spends an
      output of the same block. */
  lemma ValidBlock(m: Bucket, txs: seq<Tx>)
    requires NoForwardSpends(txs)
    ensures Batch(m, txs) == Replay(m, txs)
  {
    hide InputKey, LastEvent, TxInputs, Batch, Replay, NoForwardSpends;
    forall inp | inp in TxInputs(txs, {}) ensures !LastEvent(txs, InputKey(inp)).WasCreated? {
      assert SpentIn(txs, InputKey(inp));
      NoForwardSpendsSuffices(txs, InputKey(inp));
    }
    BatchIsReplay(m, txs);
  }

  function Flatten(blocks: seq<seq<Tx>>): seq<Tx>
  {
    if blocks == [] then [] else Flatten(blocks[..|blocks| - 1]) + blocks[|blocks| - 1]
  }

  function BatchChain(m: Bucket, blocks: seq<seq<Tx>>): Bucket
  {
    if blocks == [] then m else Batch(BatchChain(m, blocks[..|blocks| - 1]), blocks[|blocks| - 1])
  }

  lemma {:induction false} ReplayConcat(m: Bucket, a: seq<Tx>, b: seq<Tx>)
    ensures Replay(m, a + b) == Replay(Replay(m, a), b)
    decreases |b|
  {
    hide PutAll, DeleteKeys, Produced, Consumed;
    if b == [] {
      assert a + b == a;
    } else {
      assert (a + b)[..|a + b| - 1] == a + b[..|b| - 1];
      ReplayConcat(m, a, b[..|b| - 1]);
    }
  }

  /** A whole chain of batches equals the replay of all its transactions in order. */
  lemma {:induction false} ChainIsReplay(m: Bucket, blocks: seq<seq<Tx>>)
    requires forall b :: 0 <= b < |blocks| ==> NoForwardSpends(blocks[b])
    ensures BatchChain(m, blocks) == Replay(m, Flatten(blocks))
    decreases |blocks|
  {
    hide Batch, Replay, NoForwardSpends;
    if blocks == [] {
      EmptyReplay(m);
    } else {
      var front, last := blocks[..|blocks| - 1], blocks[|blocks| - 1];
      ChainIsReplay(m, front);
      ValidBlock(BatchChain(m, front), last);
      ReplayConcat(m, Flatten(front), last);
    }
  }

  lemma EmptyReplay(m: Bucket)
    ensures Replay(m, []) == m
  {}
}
