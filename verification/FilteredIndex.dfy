/** What the indexer's bucket holds: everything when it keeps all outputs, and otherwise the outputs of the addresses
    of interest. */
module FilteredIndex {
  import opened Wrappers
  import opened Keys
  import opened IndexerData
  import opened Stores
  import opened UtxoReplay
  import opened Indexing

  /** The outputs that belong to addresses of interest. */
  function Restrict(m: Bucket, interest: set<string>): Bucket { map x | x in m && m[x].address in interest :: m[x] }

  // ---------- keeping everything ----------

  /** Populating inputs changes neither what is produced nor what is consumed. */
  lemma {:induction false} PopulateKeeps(m: Bucket, txs: seq<Tx>, interest: set<string>)
    ensures TxOutputs(Populate(m, txs), interest) == TxOutputs(txs, interest)
    ensures TxInputs(Populate(m, txs), {}) == TxInputs(txs, {})
    decreases |txs|
  {
    hide Resolve;
    if txs != [] {
      var n := |txs| - 1;
      PopulateKeeps(m, txs[..n], interest);
      assert Populate(m, txs)[..n] == Populate(m, txs[..n]);
      OutputsKeep(txs[n], m, interest, |txs[n].outputs|);
      InputsKeep(m, txs[n].inputs);
    }
  }

  lemma {:induction false} OutputsKeep(tx: Tx, m: Bucket, interest: set<string>, n: nat)
    requires n <= |tx.outputs|
    ensures OutputsOf(tx.(inputs := ResolveInputs(m, tx.inputs)), interest, n) == OutputsOf(tx, interest, n)
  {
    hide Resolve;
    if n > 0 {
      OutputsKeep(tx, m, interest, n - 1);
    }
  }

  lemma {:induction false} InputsKeep(m: Bucket, inputs: seq<TxInputOutput>)
    ensures InputsOf(ResolveInputs(m, inputs), {}) == InputsOf(inputs, {})
    decreases |inputs|
  {
    if inputs != [] {
      var n := |inputs| - 1;
      InputsKeep(m, inputs[..n]);
      assert ResolveInputs(m, inputs)[..n] == ResolveInputs(m, inputs[..n]);
    }
  }

  /** With KeepAllTxOutputsInDB, or without addresses of interest, the indexer writes the batch of the whole block. */
  lemma KeepAllIsBatch(cfg: Config, interest: set<string>, m: Bucket, txs: seq<Tx>)
    requires cfg.keepAllTxOutputsInDB || interest == {}
    requires !cfg.softDeleteUtxo
    ensures NextBucket(cfg, interest, m, Populate(m, txs)) == Batch(m, txs)
  {
    PopulateKeeps(m, txs, {});
  }

  /** The bucket after a chain of confirmed blocks. */
  function IndexChain(cfg: Config, interest: set<string>, m: Bucket, blocks: seq<seq<Tx>>): Bucket
  {
    if blocks == [] then m
    else var before := IndexChain(cfg, interest, m, blocks[..|blocks| - 1]);
      NextBucket(cfg, interest, before, Populate(before, blocks[|blocks| - 1]))
  }

  /** The unfiltered index of a chain without forward or self references is its transaction-by-transaction replay. */
  lemma {:induction false} KeepAllIsReplay(cfg: Config, interest: set<string>, m: Bucket, blocks: seq<seq<Tx>>)
    requires cfg.keepAllTxOutputsInDB || interest == {}
    requires !cfg.softDeleteUtxo
    requires forall b :: 0 <= b < |blocks| ==> NoForwardSpends(blocks[b])
    ensures IndexChain(cfg, interest, m, blocks) == Replay(m, Flatten(blocks))
    decreases |blocks|
  {
    hide NextBucket, Batch, Replay, NoForwardSpends, Populate;
    if blocks == [] {
      EmptyReplay(m);
    } else {
      var front, last := blocks[..|blocks| - 1], blocks[|blocks| - 1];
      KeepAllIsReplay(cfg, interest, m, front);
      KeepAllIsBatch(cfg, interest, IndexChain(cfg, interest, m, front), last);
      ValidBlock(IndexChain(cfg, interest, m, front), last);
      ReplayConcat(m, Flatten(front), last);
    }
  }

  // ---------- keeping addresses of interest ----------

  /** The retriever delivers inputs without outputs. */
  predicate Unresolved(txs: seq<Tx>)
  {
    forall i, j :: 0 <= i < |txs| && 0 <= j < |txs[i].inputs| ==> txs[i].inputs[j].output.address == ""
  }

  /** Transaction hashes are new: different within the block and not in the bucket. */
  predicate FreshHashes(full: Bucket, txs: seq<Tx>)
  {
    (forall i :: 0 <= i < |txs| ==> |txs[i].outputs| <= 0x1_0000_0000) &&
    (forall i, j :: 0 <= i < j < |txs| ==> txs[i].hash != txs[j].hash) &&
    (forall i, x :: 0 <= i < |txs| && x in full && |x| == 36 ==> x[..32] != txs[i].hash)
  }

  /** The key of one of the first `n` outputs. */
  predicate IndexedKey(tx: Tx, n: nat, x: Key)
    requires n <= 0x1_0000_0000
  {
    exists i :: 0 <= i < n && x == InputKey(TxInput(tx.hash, i))
  }

  lemma OutputsSnoc(tx: Tx, interest: set<string>, n: nat, x: Key)
    requires 0 < n <= |tx.outputs| <= 0x1_0000_0000
    ensures LastPut(OutputsOf(tx, interest, n), x) ==
            if Wanted(interest, tx.outputs[n - 1].address) && InputKey(TxInput(tx.hash, n - 1)) == x
            then Some(tx.outputs[n - 1]) else LastPut(OutputsOf(tx, interest, n - 1), x)
  {
    hide InputKey, LastPut;
    var e := TxInputOutput(TxInput(tx.hash, n - 1), tx.outputs[n - 1]);
    assert (n - 1) % 0x1_0000_0000 == n - 1;
    LastPutOne(e, x);
    LastPutConcat(OutputsOf(tx, interest, n - 1), [e], x);
    assert OutputsOf(tx, interest, n - 1) + [] == OutputsOf(tx, interest, n - 1);
  }

  lemma {:induction false} ProducedIndexed(tx: Tx, n: nat, x: Key)
    requires n <= |tx.outputs| <= 0x1_0000_0000 && LastPut(OutputsOf(tx, {}, n), x).Some?
    ensures IndexedKey(tx, n, x)
  {
    hide InputKey, LastPut;
    if n > 0 {
      OutputsSnoc(tx, {}, n, x);
      if InputKey(TxInput(tx.hash, n - 1)) != x {
        ProducedIndexed(tx, n - 1, x);
      }
    } else {
      NothingNamed(x);
    }
  }

  lemma {:induction false} LastPutOfInterest(tx: Tx, interest: set<string>, n: nat, x: Key)
    requires n <= |tx.outputs| <= 0x1_0000_0000 && interest != {}
    ensures LastPut(OutputsOf(tx, interest, n), x) ==
            var all := LastPut(OutputsOf(tx, {}, n), x);
            if all.Some? && all.value.address in interest then all else None
  {
    hide InputKey, LastPut, OutputsOf;
    if n == 0 {
      assert OutputsOf(tx, interest, 0) == [] == OutputsOf(tx, {}, 0) by { NoOutputsYet(tx, interest); }
      NothingNamed(x);
    } else {
      LastPutOfInterest(tx, interest, n - 1, x);
      OutputsSnoc(tx, {}, n, x);
      OutputsSnoc(tx, interest, n, x);
      if LastPut(OutputsOf(tx, {}, n - 1), x).Some? {
        ProducedIndexed(tx, n - 1, x);
        var i :| 0 <= i < n - 1 && x == InputKey(TxInput(tx.hash, i));
        InputKeyInverse(TxInput(tx.hash, i));
        InputKeyInverse(TxInput(tx.hash, n - 1));
      }
    }
  }

  lemma NoOutputsYet(tx: Tx, interest: set<string>)
    ensures OutputsOf(tx, interest, 0) == [] == OutputsOf(tx, {}, 0)
  {}

  lemma LastPutOne(e: TxInputOutput, x: Key)
    ensures LastPut([e], x) == if InputKey(e.input) == x then Some(e.output) else None
  {
    hide InputKey;
    assert [e][..0] == [];
  }

  /** In a block with fresh hashes a key is created by at most one transaction. */
  lemma {:induction false} CreatedOfInterest(cfg: Config, interest: set<string>, txs: seq<Tx>, x: Key)
    requires interest != {} && cfg.ChecksOutputs()
    requires forall i :: 0 <= i < |txs| ==> |txs[i].outputs| <= 0x1_0000_0000
    requires forall i, j :: 0 <= i < j < |txs| ==> txs[i].hash != txs[j].hash
    ensures LastPut(TxOutputs(txs, {}), x).Some? ==> |x| == 36 && exists i :: 0 <= i < |txs| && txs[i].hash == x[..32]
    ensures LastPut(TxOutputs(Select(cfg, interest, txs), interest), x) ==
            var all := LastPut(TxOutputs(txs, {}), x);
            if all.Some? && all.value.address in interest then all else None
    decreases |txs|
  {
    hide LastPut, OutputsOf, InputOfInterest;
    if txs == [] {
      NothingNamed(x);
    } else {
      var n := |txs| - 1;
      var front, t := txs[..n], txs[n];
      CreatedOfInterest(cfg, interest, front, x);
      LastPutConcat(TxOutputs(front, {}), Produced(t), x);
      LastPutOfInterest(t, interest, |t.outputs|, x);
      if LastPut(Produced(t), x).Some? {
        ProducedHash(t, |t.outputs|, {}, x);
        assert txs[n].hash == x[..32];
        forall i | 0 <= i < n ensures front[i].hash != x[..32] { assert front[i] == txs[i]; }
      } else if LastPut(TxOutputs(front, {}), x).Some? {
        var i :| 0 <= i < n && front[i].hash == x[..32];
        assert txs[i].hash == x[..32];
      }
      SelectedOutputs(cfg, interest, front, t, x);
    }
  }

  /** The last transaction contributes its outputs of interest whether it is selected or not: without any, it has
      none. */
  lemma SelectedOutputs(cfg: Config, interest: set<string>, front: seq<Tx>, t: Tx, x: Key)
    requires interest != {} && cfg.ChecksOutputs()
    ensures LastPut(TxOutputs(Select(cfg, interest, front + [t]), interest), x) ==
            var here := LastPut(OutputsOf(t, interest, |t.outputs|), x);
            if here.Some? then here else LastPut(TxOutputs(Select(cfg, interest, front), interest), x)
  {
    hide LastPut, OutputsOf, InputOfInterest;
    assert (front + [t])[..|front|] == front;
    var sel := Select(cfg, interest, front);
    if OfInterest(cfg, interest, t) {
      assert (sel + [t])[..|sel|] == sel;
      LastPutConcat(TxOutputs(sel, interest), OutputsOf(t, interest, |t.outputs|), x);
    } else {
      assert sel + [] == sel;
      NoOutputs(t, interest, |t.outputs|);
      NothingNamed(x);
    }
  }

  lemma {:induction false} NoOutputs(t: Tx, interest: set<string>, n: nat)
    requires n <= |t.outputs| && interest != {}
    requires forall i :: 0 <= i < |t.outputs| ==> t.outputs[i].address !in interest
    ensures OutputsOf(t, interest, n) == []
  {
    if n > 0 {
      NoOutputs(t, interest, n - 1);
    }
  }

  /** The keys that are removed: those whose resolved address is of interest. */
  lemma {:induction false} RemovedOfInterest(cfg: Config, interest: set<string>, m: Bucket, txs: seq<Tx>, x: Key)
    requires interest != {} && cfg.ChecksInputs() && Unresolved(txs)
    ensures Names(TxInputs(Select(cfg, interest, Populate(m, txs)), interest), x) <==>
            SpentIn(txs, x) && (if x in m then m[x].address else "") in interest
    decreases |txs|
  {
    hide Names, OutputOfInterest, InputKey;
    if txs == [] {
      NothingNamed(x);
    } else {
      var n := |txs| - 1;
      var front, t := txs[..n], txs[n];
      RemovedOfInterest(cfg, interest, m, front, x);
      assert Populate(m, txs)[..n] == Populate(m, front);
      NamesConcat(TxInputs(front, {}), Consumed(t), x);
      var t' := t.(inputs := ResolveInputs(m, t.inputs));
      RemovedByTx(interest, m, t.inputs, x);
      var sel := Select(cfg, interest, Populate(m, front));
      if OfInterest(cfg, interest, t') {
        assert (sel + [t'])[..|sel|] == sel;
        NamesConcat(TxInputs(sel, interest), InputsOf(t'.inputs, interest), x);
      } else {
        assert sel + [] == sel;
        NoInputs(t'.inputs, interest);
        NothingNamed(x);
      }
    }
  }

  lemma {:induction false} NoInputs(inputs: seq<TxInputOutput>, interest: set<string>)
    requires interest != {} && forall i :: 0 <= i < |inputs| ==> inputs[i].output.address !in interest
    ensures InputsOf(inputs, interest) == []
    decreases |inputs|
  {
    if inputs != [] {
      NoInputs(inputs[..|inputs| - 1], interest);
    }
  }

  lemma {:induction false} RemovedByTx(interest: set<string>, m: Bucket, inputs: seq<TxInputOutput>, x: Key)
    requires interest != {} && forall i :: 0 <= i < |inputs| ==> inputs[i].output.address == ""
    ensures Names(InputsOf(ResolveInputs(m, inputs), interest), x) <==>
            Names(InputsOf(inputs, {}), x) && (if x in m then m[x].address else "") in interest
    decreases |inputs|
  {
    hide Names, InputKey;
    if inputs == [] {
      NothingNamed(x);
    } else {
      var n := |inputs| - 1;
      RemovedByTx(interest, m, inputs[..n], x);
      assert ResolveInputs(m, inputs)[..n] == ResolveInputs(m, inputs[..n]);
      var last := Resolve(m, inputs[n]);
      assert last.input == inputs[n].input;
      assert last.output.address == if InputKey(last.input) in m then m[InputKey(last.input)].address else "";
      var before := InputsOf(ResolveInputs(m, inputs[..n]), interest);
      assert before + [] == before;
      NamesConcat(InputsOf(inputs[..n], {}), [inputs[n].input], x);
      NamesConcat(InputsOf(ResolveInputs(m, inputs[..n]), interest), [inputs[n].input], x);
      NamesSingle(inputs[n].input, x);
    }
  }

  /** An output of interest that its own block spends. */
  predicate SpendsOwnOutput(interest: set<string>, txs: seq<Tx>)
  {
    exists inp :: inp in TxInputs(txs, {}) && LastPut(TxOutputs(txs, {}), InputKey(inp)).Some?
                  && LastPut(TxOutputs(txs, {}), InputKey(inp)).value.address in interest
  }

  /** One key of the filtered index, against the full batch. */
  lemma FilteredKey(cfg: Config, interest: set<string>, full: Bucket, txs: seq<Tx>, x: Key)
    requires interest != {} && cfg.ChecksInputs() && cfg.ChecksOutputs()
    requires !cfg.softDeleteUtxo && !cfg.keepAllTxOutputsInDB
    requires Unresolved(txs) && FreshHashes(full, txs)
    ensures var m := Restrict(full, interest);
            var created := LastPut(TxOutputs(txs, {}), x);
            Get(NextBucket(cfg, interest, m, Populate(m, txs)), x) == Get(Restrict(Batch(full, txs), interest), x)
            <==> "" in interest || !(SpentIn(txs, x) && created.Some? && created.value.address in interest)
  {
    hide LastPut, Names, InputKey, Select, Restrict, PutAll, DeleteKeys, Populate, TxInputs, TxOutputs, Get;
    var m := Restrict(full, interest);
    var txs' := Populate(m, txs);
    var outs := TxOutputs(Select(cfg, interest, txs'), interest);
    var ins := TxInputs(Select(cfg, interest, txs'), interest);
    GetPutAll(m, outs, x);
    GetDeleteKeys(PutAll(m, outs), ins, x);
    GetPutAll(full, TxOutputs(txs, {}), x);
    GetDeleteKeys(PutAll(full, TxOutputs(txs, {})), TxInputs(txs, {}), x);
    RestrictOf(full, interest, x);
    RestrictOf(Batch(full, txs), interest, x);
    RemovedOfInterest(cfg, interest, m, txs, x);
    PopulateKeeps(m, txs, {});
    FreshPopulated(m, full, txs);
    CreatedOfInterest(cfg, interest, txs', x);
    if LastPut(TxOutputs(txs, {}), x).Some? {
      var i :| 0 <= i < |txs'| && txs'[i].hash == x[..32];
      NotStored(full, txs, x, i);
    }
    InBucket(full, x);
    InBucket(m, x);
  }

  lemma RestrictOf(m: Bucket, interest: set<string>, x: Key)
    ensures Get(Restrict(m, interest), x) ==
            if Get(m, x).Some? && Get(m, x).value.address in interest then Get(m, x) else None
  {
    assert x in Restrict(m, interest) <==> x in m && m[x].address in interest;
  }

  lemma InBucket(m: Bucket, x: Key)
    ensures x in m <==> Get(m, x).Some?
    ensures x in m ==> m[x] == Get(m, x).value
  {}

  lemma NotStored(full: Bucket, txs: seq<Tx>, x: Key, i: nat)
    requires FreshHashes(full, txs) && i < |txs| && |x| == 36 && txs[i].hash == x[..32]
    ensures x !in full
  {}

  lemma FreshPopulated(m: Bucket, full: Bucket, txs: seq<Tx>)
    requires FreshHashes(full, txs)
    ensures var txs' := Populate(m, txs);
            (forall i :: 0 <= i < |txs'| ==> txs'[i].hash == txs[i].hash) &&
            (forall i :: 0 <= i < |txs'| ==> |txs'[i].outputs| <= 0x1_0000_0000) &&
            forall i, j :: 0 <= i < j < |txs'| ==> txs'[i].hash != txs'[j].hash
  {
    hide ResolveInputs;
  }

  /** One block of the filtered index: the bucket stays the restriction of the full one exactly when no output of
      interest is spent in its own block (or the empty address is itself of interest). Inputs are resolved against
      the database before the block's own outputs are stored. */
  lemma FilteredBlock(cfg: Config, interest: set<string>, full: Bucket, txs: seq<Tx>)
    requires interest != {} && cfg.ChecksInputs() && cfg.ChecksOutputs()
    requires !cfg.softDeleteUtxo && !cfg.keepAllTxOutputsInDB
    requires Unresolved(txs) && FreshHashes(full, txs)
    ensures var m := Restrict(full, interest);
            NextBucket(cfg, interest, m, Populate(m, txs)) == Restrict(Batch(full, txs), interest)
            <==> "" in interest || !SpendsOwnOutput(interest, txs)
  {
    hide LastPut, InputKey, Restrict, Batch, NextBucket, Populate, TxInputs, TxOutputs, Get;
    var m := Restrict(full, interest);
    var a, b := NextBucket(cfg, interest, m, Populate(m, txs)), Restrict(Batch(full, txs), interest);
    if "" in interest || !SpendsOwnOutput(interest, txs) {
      forall x: Key ensures Get(a, x) == Get(b, x) {
        FilteredKey(cfg, interest, full, txs, x);
        if SpentIn(txs, x) {
          var i :| 0 <= i < |TxInputs(txs, {})| && InputKey(TxInputs(txs, {})[i]) == x;
          assert TxInputs(txs, {})[i] in TxInputs(txs, {});
        }
      }
      SameBuckets(a, b);
    } else {
      var inp :| inp in TxInputs(txs, {}) && LastPut(TxOutputs(txs, {}), InputKey(inp)).Some?
                 && LastPut(TxOutputs(txs, {}), InputKey(inp)).value.address in interest;
      FilteredKey(cfg, interest, full, txs, InputKey(inp));
      assert SpentIn(txs, InputKey(inp));
    }
  }

  /** Blocks a ledger delivers: inputs without outputs, new hashes, and no transaction spends an output of itself or
      of a later one. */
  predicate LedgerChain(full: Bucket, blocks: seq<seq<Tx>>)
  {
    forall b :: 0 <= b < |blocks| ==>
      Unresolved(blocks[b]) && FreshHashes(Replay(full, Flatten(blocks[..b])), blocks[b]) && NoForwardSpends(blocks[b])
  }

  /** No output of interest is spent in the block that makes it, unless inputs without an output are of interest
      anyway. */
  predicate Traceable(interest: set<string>, txs: seq<Tx>) { "" in interest || !SpendsOwnOutput(interest, txs) }

  /** After `n` blocks the filtered index is the full replay restricted to the addresses of interest. */
  predicate IsRestricted(cfg: Config, interest: set<string>, full: Bucket, blocks: seq<seq<Tx>>, n: nat)
    requires n <= |blocks|
  {
    IndexChain(cfg, interest, Restrict(full, interest), blocks[..n]) ==
      Restrict(Replay(full, Flatten(blocks[..n])), interest)
  }

  /** One more block. */
  lemma RestrictedStep(cfg: Config, interest: set<string>, full: Bucket, blocks: seq<seq<Tx>>, n: nat)
    requires interest != {} && cfg.ChecksInputs() && cfg.ChecksOutputs()
    requires !cfg.softDeleteUtxo && !cfg.keepAllTxOutputsInDB
    requires LedgerChain(full, blocks) && n < |blocks| && IsRestricted(cfg, interest, full, blocks, n)
    ensures IsRestricted(cfg, interest, full, blocks, n + 1) <==> Traceable(interest, blocks[n])
  {
    hide NextBucket, Batch, Replay, NoForwardSpends, FreshHashes, Unresolved, Populate, Restrict, SpendsOwnOutput;
    var front, last := blocks[..n], blocks[n];
    assert blocks[..n + 1][..n] == front;
    FilteredBlock(cfg, interest, Replay(full, Flatten(front)), last);
    ValidBlock(Replay(full, Flatten(front)), last);
    ReplayConcat(full, Flatten(front), last);
  }

  /** The filtered index of such a chain is the full replay restricted to the addresses of interest. */
  lemma {:induction false} FilteredIsReplay(cfg: Config, interest: set<string>, full: Bucket, blocks: seq<seq<Tx>>,
                                            n: nat)
    requires interest != {} && cfg.ChecksInputs() && cfg.ChecksOutputs()
    requires !cfg.softDeleteUtxo && !cfg.keepAllTxOutputsInDB
    requires LedgerChain(full, blocks) && n <= |blocks| && forall b :: 0 <= b < n ==> Traceable(interest, blocks[b])
    ensures IsRestricted(cfg, interest, full, blocks, n)
    decreases n
  {
    hide LedgerChain, Traceable, Restrict;
    if n == 0 {
      EmptyReplay(full);
      assert blocks[..0] == [];
    } else {
      FilteredIsReplay(cfg, interest, full, blocks, n - 1);
      RestrictedStep(cfg, interest, full, blocks, n - 1);
    }
  }

  /** It is so after every block exactly when every block is traceable. */
  lemma FilteredExactly(cfg: Config, interest: set<string>, full: Bucket, blocks: seq<seq<Tx>>)
    requires interest != {} && cfg.ChecksInputs() && cfg.ChecksOutputs()
    requires !cfg.softDeleteUtxo && !cfg.keepAllTxOutputsInDB
    requires LedgerChain(full, blocks)
    ensures (forall n :: 0 <= n <= |blocks| ==> IsRestricted(cfg, interest, full, blocks, n))
            <==> forall b :: 0 <= b < |blocks| ==> Traceable(interest, blocks[b])
  {
    hide LedgerChain, Traceable, IsRestricted;
    if forall b :: 0 <= b < |blocks| ==> Traceable(interest, blocks[b]) {
      forall n | 0 <= n <= |blocks| ensures IsRestricted(cfg, interest, full, blocks, n) {
        FilteredIsReplay(cfg, interest, full, blocks, n);
      }
    } else if forall n :: 0 <= n <= |blocks| ==> IsRestricted(cfg, interest, full, blocks, n) {
      forall b | 0 <= b < |blocks| ensures Traceable(interest, blocks[b]) {
        assert IsRestricted(cfg, interest, full, blocks, b) && IsRestricted(cfg, interest, full, blocks, b + 1);
        RestrictedStep(cfg, interest, full, blocks, b);
      }
    }
  }

  /** What a block consumes and produces whose second transaction spends the only output of the first one. */
  lemma SpentAtOnce(t1: Tx, t2: Tx)
    requires t1.inputs == [] && |t1.outputs| == 1 && |t2.inputs| == 1 && t2.outputs == []
    ensures TxInputs([t1, t2], {}) == [t2.inputs[0].input]
    ensures TxOutputs([t1, t2], {}) == [TxInputOutput(TxInput(t1.hash, 0), t1.outputs[0])]
  {
    assert [t1, t2][..1] == [t1] && [t1][..0] == [] && t2.inputs[..0] == [];
    assert TxInputs([t1], {}) == [] && InputsOf(t2.inputs, {}) == [t2.inputs[0].input];
    assert OutputsOf(t1, {}, 1) == OutputsOf(t1, {}, 0) + [TxInputOutput(TxInput(t1.hash, 0), t1.outputs[0])];
    assert TxOutputs([t1], {}) == OutputsOf(t1, {}, 1);
  }

  /** A block a ledger may deliver that the filtered index gets wrong: its second transaction spends what the first one
      pays to an address of interest. */
  lemma UntraceableBlock() returns (txs: seq<Tx>)
    ensures LedgerChain(map[], [txs]) && !Traceable({"a"}, txs)
  {
    hide InputKey, Replay, TxInputs, TxOutputs;
    var paid := TxOutput("a", 0, 1, [], false, []);
    var h1: Hash, h2: Hash := seq(32, i => 1), seq(32, i => 2);
    var spent := TxInput(h1, 0);
    var t1 := Tx(0, ZeroHash(), 0, h1, [], [], [paid], 0, true);
    var t2 := Tx(0, ZeroHash(), 1, h2, [], [TxInputOutput(spent, ZeroOutput)], [], 0, true);
    txs := [t1, t2];
    assert h1[0] == 1 && h2[0] == 2;
    assert [txs][..0] == [] && Flatten([]) == [];
    EmptyReplay(map[]);
    SpentAtOnce(t1, t2);
    assert spent in TxInputs(txs, {});
    LastPutOne(TxInputOutput(spent, paid), InputKey(spent));
  }
}
