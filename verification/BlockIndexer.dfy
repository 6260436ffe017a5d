/** The block indexer as an object: every call moves its memory and its database as module Indexing says. */
module BlockIndexers {
  import opened Wrappers
  import opened Keys
  import opened IndexerData
  import opened Stores
  import opened Indexing
  import opened CircularQueues

  class BlockIndexer {
    const config: Config
    const db: Database
    const unconfirmedBlocks: CircularQueue<BlockHeader>
    var latestBlockPoint: Option<BlockPoint>
    var addressesOfInterest: set<string>

    ghost predicate Valid()
      reads this, unconfirmedBlocks
    {
      unconfirmedBlocks.Valid() && unconfirmedBlocks.size == config.confirmationBlockCount
      && unconfirmedBlocks.zero == ZeroHeader()
    }

    ghost function Abs(): Memory
      requires Valid()
      reads this, unconfirmedBlocks, unconfirmedBlocks.items
    {
      Memory(latestBlockPoint, unconfirmedBlocks.Contents())
    }

    /** Go panics when neither inputs nor outputs are checked. */
    constructor (config: Config, db: Database)
      requires config.ChecksInputs() || config.ChecksOutputs()
      ensures Valid() && this.config == config && this.db == db && fresh(unconfirmedBlocks)
                && fresh(unconfirmedBlocks.items)
      ensures Abs() == Memory(None, []) && addressesOfInterest == set a | a in config.addressesOfInterest
    {
      this.config, this.db := config, db;
      unconfirmedBlocks := new CircularQueue(config.confirmationBlockCount, ZeroHeader());
      latestBlockPoint := None;
      addressesOfInterest := set a | a in config.addressesOfInterest;
    }

    method RollBackward(point: BlockPoint) returns (outcome: Outcome)
      requires Valid() && latestBlockPoint.Some?
      modifies unconfirmedBlocks`count
      ensures Valid() && (Abs(), outcome) == Backward(old(Abs()), point)
      // fatal exactly when the point is neither queued nor the latest one; nothing changes then
      ensures outcome == if HasPoint(old(Abs()).queue, point) || latestBlockPoint == Some(point) then Done else Fatal
      ensures outcome == Fatal ==> Abs() == old(Abs())
      // otherwise the queue is cut after the point
      ensures outcome == Done ==>
                Abs().queue <= old(Abs()).queue && (HasPoint(old(Abs()).queue, point) <==> Abs().queue != [])
      ensures outcome == Done && Abs().queue != [] ==>
                var last := |Abs().queue| - 1;
                Abs().queue[last].slot == point.slot && Abs().queue[last].hash == point.hash
                && !HasPoint(Abs().queue[..last], point)
    {
      var indx := unconfirmedBlocks.Find((h: BlockHeader) => h.slot == point.slot && h.hash == point.hash);
      FoundAt(unconfirmedBlocks.Contents(), point, indx);
      if indx != -1 {
        unconfirmedBlocks.SetCount(indx + 1);
        return Done;
      }
      if latestBlockPoint.value.slot == point.slot && latestBlockPoint.value.hash == point.hash {
        unconfirmedBlocks.SetCount(0);
        return Done;
      }
      return Fatal;
    }

    method Reset(readOk: bool) returns (point: Option<BlockPoint>)
      requires Valid()
      modifies this`latestBlockPoint, unconfirmedBlocks`count
      ensures Valid()
      ensures !readOk ==> point.None? && Abs() == old(Abs())
      ensures readOk && db.store.latest.Some? ==> point == db.store.latest
      ensures readOk && db.store.latest.None? ==>
                point == if config.startingBlockPoint.Some? then config.startingBlockPoint
                         else Some(BlockPoint(0, seq(32, i => 0)))
      ensures readOk ==> point == Some(ResumePoint(config, db.store)) && Abs() == ResetMemory(config, db.store)
    {
      if !readOk {
        return None;
      }
      var latestPoint := db.GetLatestBlockPoint();
      if latestPoint.None? {
        latestPoint := config.startingBlockPoint;
      }
      if latestPoint.None? {
        latestPoint := Some(BlockPoint(0, ZeroHash()));
      }
      latestBlockPoint := latestPoint;
      unconfirmedBlocks.SetCount(0);
      return latestPoint;
    }

    method RollForward(blockHeader: BlockHeader, env: Env)
      returns (outcome: Outcome, delivered: Option<(CardanoBlock, seq<Tx>)>)
      requires Valid()
      modifies this`latestBlockPoint, unconfirmedBlocks`count, unconfirmedBlocks`pos, unconfirmedBlocks.items, db
      ensures Valid()
      ensures Step(Abs(), db.store, outcome)
           == Forward(config, addressesOfInterest, old(Abs()), old(db.store), blockHeader, env)
      // the handler is called exactly when a block was committed, with that block and its transactions of interest
      ensures delivered.Some? <==>
                |old(Abs()).queue| == config.confirmationBlockCount && !outcome.ProcessFailed?
      ensures delivered.Some? ==>
                var first := if old(Abs()).queue == [] then ZeroHeader() else old(Abs()).queue[0];
                var txs := Populate(old(db.store).txOuts, env.retrieved.value);
                env.retrieved.Some? && delivered.value == (ConfirmedBlock(config, addressesOfInterest, first, txs),
                                                           Filter(config, addressesOfInterest, txs))
      // the block has the header of the queue and the hashes of all or of the delivered transactions
      ensures delivered.Some? && old(Abs()).queue != [] ==>
                var h, b := old(Abs()).queue[0], delivered.value.0;
                && env.retrieved.Some? && b.slot == h.slot && b.hash == h.hash && b.number == h.number
                && b.eraId == h.eraId
                && b.txs == TxHashes(if config.keepAllTxsHashesInBlock then env.retrieved.value else delivered.value.1)
                && latestBlockPoint == Some(BlockPoint(h.slot, h.hash))
      // none of the delivered transactions is lost
      ensures delivered.Some? && DistinctPlaces(delivered.value.1) ==>
                forall t :: t in delivered.value.1 ==> HasTx(db.store.unprocessed, t)
      // a handler that fails is reported, after the block was stored
      ensures outcome == (if delivered.Some? then (if env.handlerOk then Done else HandlerFailed)
                          else if |old(Abs()).queue| < config.confirmationBlockCount then Done else ProcessFailed)
    {
      hide Filter, NextStore, BlockOps, ConfirmedBlock, Populate, ReadFails, TxHashes, HasTx, DistinctPlaces;
      delivered := None;
      var full := unconfirmedBlocks.IsFull();
      if !full {
        var _ := unconfirmedBlocks.Push(blockHeader);
        return Done, None;
      }
      var first := unconfirmedBlocks.Peek();
      if env.retrieved.None? {
        return ProcessFailed, None;
      }
      var processed := ProcessConfirmedBlock(first, env.retrieved.value, env.readLimit, env.failure);
      if processed.None? {
        return ProcessFailed, None;
      }
      CommitFacts(config, addressesOfInterest, first, env.retrieved.value, old(db.store));
      latestBlockPoint := Some(processed.value.2);
      var _ := unconfirmedBlocks.Pop();
      var _ := unconfirmedBlocks.Push(blockHeader);
      return if env.handlerOk then Done else HandlerFailed, Some((processed.value.0, processed.value.1));
    }

    /** The confirmed block, the transactions of interest and the new latest point, once they are stored. */
    method ProcessConfirmedBlock(header: BlockHeader, allTxs0: seq<Tx>, readLimit: Option<nat>,
                                 failure: Option<nat>)
      returns (r: Option<(CardanoBlock, seq<Tx>, BlockPoint)>)
      requires Valid()
      modifies db
      ensures Valid() && Abs() == old(Abs())
      ensures var txs := Populate(old(db.store).txOuts, allTxs0);
              var ops := BlockOps(config, addressesOfInterest, header, txs);
              if ReadFails(readLimit, allTxs0) || (failure.Some? && failure.value <= |ops|)
              then r.None? && db.store == old(db.store)
              else r == Some((ConfirmedBlock(config, addressesOfInterest, header, txs),
                              Filter(config, addressesOfInterest, txs), PointOf(header)))
                   && db.store == NextStore(config, addressesOfInterest, old(db.store), header, txs)
    {
      hide ApplyAll, BlockOps, NextStore, Filter, Populate;
      var dbTx := db.OpenTx();
      var allTxs, populated := PopulateOutputsForEachInput(allTxs0, readLimit);
      if !populated {
        return None;
      }
      var confirmedBlock, relevantTxs := QueueBlock(dbTx, header, allTxs);
      BlockOpsMeaning(config, addressesOfInterest, header, allTxs, db.store);
      var ok := dbTx.Execute(failure);
      if !ok {
        return None;
      }
      return Some((confirmedBlock, relevantTxs, PointOf(header)));
    }

    /** The middle of `processConfirmedBlock`: everything the block changes is queued in the writer. */
    method QueueBlock(dbTx: TransactionWriter, header: BlockHeader, allTxs: seq<Tx>)
      returns (confirmedBlock: CardanoBlock, relevantTxs: seq<Tx>)
      requires dbTx.operations == []
      modifies dbTx
      ensures dbTx.operations == BlockOps(config, addressesOfInterest, header, allTxs)
      ensures confirmedBlock == ConfirmedBlock(config, addressesOfInterest, header, allTxs)
      ensures relevantTxs == Filter(config, addressesOfInterest, allTxs)
    {
      hide TxOutputs, TxInputs, Filter, BlockOps, When;
      relevantTxs := FilterTxsOfInterest(allTxs);
      var txOutputsToSave, txOutputsToRemove := ChooseOutputs(allTxs, relevantTxs);
      dbTx.AddConfirmedTxs(relevantTxs);
      ghost var o1 := When(relevantTxs != [], AddTxs(relevantTxs));
      assert dbTx.operations == o1;
      confirmedBlock := BlockOf(header, TxHashes(if config.keepAllTxsHashesInBlock then allTxs else relevantTxs));
      dbTx.AddConfirmedBlock(confirmedBlock);
      dbTx.SetLatestBlockPoint(PointOf(header));
      ghost var o2 := [AddBlock(confirmedBlock), SetLatest(PointOf(header))];
      assert dbTx.operations == o1 + o2;
      dbTx.AddTxOutputs(txOutputsToSave);
      dbTx.RemoveTxOutputs(txOutputsToRemove, config.softDeleteUtxo);
      assert dbTx.operations == BlockOps(config, addressesOfInterest, header, allTxs) by {
        QueuedOps(config, addressesOfInterest, header, allTxs);
      }
    }

    method ChooseOutputs(allTxs: seq<Tx>, relevantTxs: seq<Tx>)
      returns (txOutputsToSave: seq<TxInputOutput>, txOutputsToRemove: seq<TxInput>)
      ensures txOutputsToSave ==
              if config.keepAllTxOutputsInDB then TxOutputs(allTxs, {}) else TxOutputs(relevantTxs, addressesOfInterest)
      ensures txOutputsToRemove ==
              if config.keepAllTxOutputsInDB then TxInputs(allTxs, {}) else TxInputs(relevantTxs, addressesOfInterest)
    {
      if config.keepAllTxOutputsInDB {
        txOutputsToSave := GetTxOutputs(allTxs, {});
        txOutputsToRemove := GetTxInputs(allTxs, {});
      } else {
        txOutputsToSave := GetTxOutputs(relevantTxs, addressesOfInterest);
        txOutputsToRemove := GetTxInputs(relevantTxs, addressesOfInterest);
      }
    }

    method FilterTxsOfInterest(txs: seq<Tx>) returns (result: seq<Tx>)
      ensures result == Filter(config, addressesOfInterest, txs)
    {
      if addressesOfInterest == {} {
        return txs;
      }
      result := [];
      for i := 0 to |txs|
        invariant result == Select(config, addressesOfInterest, txs[..i])
      {
        assert txs[..i + 1][..i] == txs[..i];
        var byInput := IsTxInputOfInterest(txs[i]);
        var byOutput := IsTxOutputOfInterest(txs[i]);
        if byInput || byOutput {
          result := result + [txs[i]];
        }
      }
      assert txs[..|txs|] == txs;
    }

    method IsTxOutputOfInterest(tx: Tx) returns (yes: bool)
      ensures yes == OutputOfInterest(config, addressesOfInterest, tx)
    {
      if !config.ChecksOutputs() {
        return false;
      }
      for i := 0 to |tx.outputs|
        invariant forall j :: 0 <= j < i ==> tx.outputs[j].address !in addressesOfInterest
      {
        if tx.outputs[i].address in addressesOfInterest {
          return true;
        }
      }
      return false;
    }

    method IsTxInputOfInterest(tx: Tx) returns (yes: bool)
      ensures yes == InputOfInterest(config, addressesOfInterest, tx)
    {
      if !config.ChecksInputs() {
        return false;
      }
      for i := 0 to |tx.inputs|
        invariant forall j :: 0 <= j < i ==> tx.inputs[j].output.address !in addressesOfInterest
      {
        if tx.inputs[i].output.address in addressesOfInterest {
          return true;
        }
      }
      return false;
    }

    /** Inputs without an output get it from the database, in place; when a read fails, those before it keep theirs. */
    method PopulateOutputsForEachInput(txs0: seq<Tx>, readLimit: Option<nat>) returns (txs: seq<Tx>, ok: bool)
      ensures ok <==> !ReadFails(readLimit, txs0)
      ensures txs == if ok then Populate(db.store.txOuts, txs0)
                     else PopulateFirst(db.store.txOuts, txs0, readLimit.value)
    {
      hide PopulatedTo, Unset, UnsetInputs, Populate, PopulateFirst, ResolveInputs, ResolveFirst;
      txs := txs0;
      var left := readLimit;
      StartPopulating(db.store.txOuts, txs0, readLimit);
      for i := 0 to |txs0|
        invariant PopulatedTo(db.store.txOuts, txs0, txs, i, readLimit, left) && |txs| == |txs0|
      {
        PopulateNext(db.store.txOuts, txs0, txs, i, readLimit, left);
        var inputs, more, good := PopulateInputs(txs[i].inputs, left);
        txs, left := txs[i := txs[i].(inputs := inputs)], more;
        if !good {
          return txs, false;
        }
      }
      AllPopulated(db.store.txOuts, txs0, txs, readLimit, left);
      return txs, true;
    }

    /** The inner loop: the inputs of one transaction. */
    method PopulateInputs(inputs0: seq<TxInputOutput>, readLimit: Option<nat>)
      returns (inputs: seq<TxInputOutput>, left: Option<nat>, ok: bool)
      ensures ok <==> !(readLimit.Some? && readLimit.value < UnsetInputs(inputs0))
      ensures ok ==> left == Minus(readLimit, UnsetInputs(inputs0))
      ensures inputs == if ok then ResolveInputs(db.store.txOuts, inputs0)
                        else ResolveFirst(db.store.txOuts, inputs0, readLimit.value)
    {
      hide ResolvedTo, UnsetInputs, ResolveInputs, ResolveFirst;
      inputs, left := inputs0, readLimit;
      StartResolving(db.store.txOuts, inputs0, readLimit);
      for j := 0 to |inputs0|
        invariant ResolvedTo(db.store.txOuts, inputs0, inputs, j, readLimit, left) && |inputs| == |inputs0|
      {
        ResolveNext(db.store.txOuts, inputs0, inputs, j, readLimit, left);
        if inputs[j].output.address != "" {
          continue;
        }
        if left == Some(0) {
          return inputs, left, false;
        }
        left := if left.None? then None else Some(left.value - 1);
        var output := db.GetTxOutput(inputs[j].input);
        inputs := inputs[j := inputs[j].(output := output)];
      }
      AllResolvedTo(db.store.txOuts, inputs0, inputs, readLimit, left);
      return inputs, left, true;
    }
  }

  predicate HasPoint(queue: seq<BlockHeader>, point: BlockPoint)
  {
    exists i :: 0 <= i < |queue| && queue[i].slot == point.slot && queue[i].hash == point.hash
  }

  /** What is stored and handed over for a block: its header, the hashes of all or of the selected transactions, and
      every selected transaction as unprocessed. */
  lemma CommitFacts(cfg: Config, interest: set<string>, header: BlockHeader, retrieved: seq<Tx>, s: Store)
    ensures var txs := Populate(s.txOuts, retrieved); var b := ConfirmedBlock(cfg, interest, header, txs);
            && b.slot == header.slot && b.hash == header.hash && b.number == header.number && b.eraId == header.eraId
            && b.txs == TxHashes(if cfg.keepAllTxsHashesInBlock then retrieved else Filter(cfg, interest, txs))
            && (DistinctPlaces(Filter(cfg, interest, txs)) ==>
                  forall t :: t in Filter(cfg, interest, txs) ==>
                                HasTx(NextStore(cfg, interest, s, header, txs).unprocessed, t))
  {
    hide Filter, PutTxs, HasTx, DistinctPlaces, NextBucket, ResolveInputs;
    var txs := Populate(s.txOuts, retrieved);
    assert TxHashes(txs) == TxHashes(retrieved);
    var selected := Filter(cfg, interest, txs);
    if DistinctPlaces(selected) {
      forall t | t in selected ensures HasTx(PutTxs(s.unprocessed, selected), t) {
        AddedByPlace(s.unprocessed, selected, t);
      }
    }
  }

  /** A limit after `n` reads. */
  function Minus(limit: Option<nat>, n: nat): Option<nat>
    requires limit.Some? ==> limit.value >= n
  {
    if limit.None? then None else Some(limit.value - n)
  }

  /** The first `j` inputs are filled in, and `left` is what is left of the limit. */
  ghost predicate ResolvedTo(m: Bucket, inputs0: seq<TxInputOutput>, inputs: seq<TxInputOutput>, j: nat,
                             limit: Option<nat>, left: Option<nat>)
  {
    && j <= |inputs0| == |inputs| && inputs[j..] == inputs0[j..] && left.Some? == limit.Some?
    && ResolveInputs(m, inputs0) == inputs[..j] + ResolveInputs(m, inputs0[j..])
    && (limit.Some? ==>
          && limit.value - UnsetInputs(inputs0) == left.value - UnsetInputs(inputs0[j..])
          && ResolveFirst(m, inputs0, limit.value) == inputs[..j] + ResolveFirst(m, inputs0[j..], left.value))
  }

  lemma StartResolving(m: Bucket, inputs0: seq<TxInputOutput>, limit: Option<nat>)
    ensures ResolvedTo(m, inputs0, inputs0, 0, limit, limit)
  {
    hide ResolveInputs, ResolveFirst, UnsetInputs;
    assert inputs0[0..] == inputs0;
  }

  /** The parts of a list before and after place `j`, when it agrees with another one from `j + 1` on. */
  lemma Split<T>(s0: seq<T>, s: seq<T>, j: nat, x: T)
    requires j < |s0| == |s| && s[j] == x && (s[j..] == s0[j..] || s[j + 1..] == s0[j..][1..])
    ensures s0[j..] == [s0[j]] + s0[j + 1..] && s[..j + 1] == s[..j] + [x] && s[j + 1..] == s0[j + 1..]
    ensures s[j..] == s0[j..] ==> s[j] == s0[j]
    ensures s == s[..j] + ([x] + s0[j + 1..])
  {
    assert s0[j..][1..] == s0[j + 1..] && s[j..][1..] == s[j + 1..];
    assert s[j] == s[j..][0] && s0[j] == s0[j..][0];
  }

  lemma Regroup<T>(a: seq<T>, x: T, b: seq<T>)
    ensures a + ([x] + b) == (a + [x]) + b
  {}

  lemma ResolvedUnset(m: Bucket, inp: TxInputOutput)
    ensures inp.output.address != "" ==> Resolve(m, inp) == inp
  {}

  lemma ResolveFirstHead(m: Bucket, inp: TxInputOutput, rest: seq<TxInputOutput>, n: nat)
    ensures UnsetInputs([inp] + rest) == (if inp.output.address == "" then 1 else 0) + UnsetInputs(rest)
    ensures ResolveFirst(m, [inp] + rest, n) ==
            if inp.output.address != "" then [inp] + ResolveFirst(m, rest, n)
            else if n == 0 then [inp] + rest
            else [Resolve(m, inp)] + ResolveFirst(m, rest, n - 1)
  {
    hide Resolve;
    assert ([inp] + rest)[1..] == rest;
  }

  lemma ResolveNext(m: Bucket, inputs0: seq<TxInputOutput>, inputs: seq<TxInputOutput>, j: nat, limit: Option<nat>,
                    left: Option<nat>)
    requires j < |inputs0| && ResolvedTo(m, inputs0, inputs, j, limit, left)
    ensures |inputs| == |inputs0| && inputs[j] == inputs0[j]
    ensures inputs[j].output.address != "" ==> ResolvedTo(m, inputs0, inputs, j + 1, limit, left)
    ensures inputs[j].output.address == "" && left == Some(0) ==>
              limit.Some? && limit.value < UnsetInputs(inputs0) && inputs == ResolveFirst(m, inputs0, limit.value)
    ensures inputs[j].output.address == "" && left != Some(0) ==>
              ResolvedTo(m, inputs0, inputs[j := Resolve(m, inputs[j])], j + 1, limit, Minus(left, 1))
  {
    hide ResolveInputs, ResolveFirst, UnsetInputs, Resolve;
    var rest := inputs0[j + 1..];
    Split(inputs0, inputs, j, inputs[j]);
    var resolved := Resolve(m, inputs[j]);
    Split(inputs0, inputs[j := resolved], j, resolved);
    assert inputs[j := resolved][..j] == inputs[..j];
    ResolveHead(m, inputs0[j], rest);
    ResolvedUnset(m, inputs0[j]);
    Regroup(inputs[..j], resolved, ResolveInputs(m, rest));
    if left.Some? {
      ResolveFirstHead(m, inputs0[j], rest, left.value);
      Regroup(inputs[..j], inputs[j], ResolveFirst(m, rest, left.value));
      if left.value > 0 {
        Regroup(inputs[..j], resolved, ResolveFirst(m, rest, left.value - 1));
      }
    }
  }

  lemma AllResolvedTo(m: Bucket, inputs0: seq<TxInputOutput>, inputs: seq<TxInputOutput>, limit: Option<nat>,
                      left: Option<nat>)
    requires ResolvedTo(m, inputs0, inputs, |inputs0|, limit, left)
    ensures inputs == ResolveInputs(m, inputs0)
    ensures limit.Some? ==> limit.value >= UnsetInputs(inputs0)
    ensures left == Minus(limit, UnsetInputs(inputs0))
  {
    hide ResolveInputs, ResolveFirst, UnsetInputs;
    assert inputs[..|inputs0|] == inputs && inputs0[|inputs0|..] == [];
    NoInputs(m, if left.Some? then left.value else 0);
  }

  lemma NoInputs(m: Bucket, n: nat)
    ensures ResolveInputs(m, []) == [] && ResolveFirst(m, [], n) == [] && UnsetInputs([]) == 0
  {}

  /** The inputs of the first `i` transactions are filled in, and `left` is what is left of the limit. */
  ghost predicate PopulatedTo(m: Bucket, txs0: seq<Tx>, txs: seq<Tx>, i: nat, limit: Option<nat>, left: Option<nat>)
  {
    && i <= |txs0| == |txs| && txs[i..] == txs0[i..] && left.Some? == limit.Some?
    && Populate(m, txs0) == txs[..i] + Populate(m, txs0[i..])
    && (limit.Some? ==>
          && limit.value - Unset(txs0) == left.value - Unset(txs0[i..])
          && PopulateFirst(m, txs0, limit.value) == txs[..i] + PopulateFirst(m, txs0[i..], left.value))
  }

  lemma StartPopulating(m: Bucket, txs0: seq<Tx>, limit: Option<nat>)
    ensures PopulatedTo(m, txs0, txs0, 0, limit, limit)
  {
    hide Populate, PopulateFirst, Unset;
    assert txs0[0..] == txs0;
  }

  lemma PopulateFirstHead(m: Bucket, tx: Tx, rest: seq<Tx>, n: nat)
    ensures Unset([tx] + rest) == UnsetInputs(tx.inputs) + Unset(rest)
    ensures PopulateFirst(m, [tx] + rest, n) ==
            var k := UnsetInputs(tx.inputs);
            if n < k then [tx.(inputs := ResolveFirst(m, tx.inputs, n))] + rest
            else [tx.(inputs := ResolveInputs(m, tx.inputs))] + PopulateFirst(m, rest, n - k)
  {
    hide ResolveFirst, ResolveInputs, UnsetInputs;
    assert ([tx] + rest)[1..] == rest;
  }

  /** The next transaction is filled in completely, or as far as the limit allows. */
  lemma PopulateNext(m: Bucket, txs0: seq<Tx>, txs: seq<Tx>, i: nat, limit: Option<nat>, left: Option<nat>)
    requires i < |txs0| && PopulatedTo(m, txs0, txs, i, limit, left)
    ensures |txs| == |txs0| && txs[i] == txs0[i]
    ensures var k := UnsetInputs(txs[i].inputs);
            if left.Some? && left.value < k
            then ReadFails(limit, txs0)
                 && txs[i := txs[i].(inputs := ResolveFirst(m, txs[i].inputs, left.value))]
                    == PopulateFirst(m, txs0, limit.value)
            else PopulatedTo(m, txs0, txs[i := txs[i].(inputs := ResolveInputs(m, txs[i].inputs))], i + 1, limit,
                             Minus(left, k))
  {
    hide PopulatedTo, PopulateFirst, ResolveFirst, ResolveInputs, UnsetInputs, Unset;
    AgreesFrom(m, txs0, txs, i, limit, left);
    if left.Some? && left.value < UnsetInputs(txs[i].inputs) {
      PopulateStops(m, txs0, txs, i, limit, left);
    } else {
      PopulateGoesOn(m, txs0, txs, i, limit, left);
    }
  }

  lemma AgreesFrom(m: Bucket, txs0: seq<Tx>, txs: seq<Tx>, i: nat, limit: Option<nat>, left: Option<nat>)
    requires i < |txs0| && PopulatedTo(m, txs0, txs, i, limit, left)
    ensures |txs| == |txs0| && txs[i] == txs0[i]
  {
    hide Populate, PopulateFirst, Unset;
    Split(txs0, txs, i, txs[i]);
  }

  lemma PopulateStops(m: Bucket, txs0: seq<Tx>, txs: seq<Tx>, i: nat, limit: Option<nat>, left: Option<nat>)
    requires i < |txs0| && PopulatedTo(m, txs0, txs, i, limit, left)
    requires left.Some? && left.value < UnsetInputs(txs[i].inputs)
    ensures ReadFails(limit, txs0)
    ensures txs[i := txs[i].(inputs := ResolveFirst(m, txs[i].inputs, left.value))] ==
            PopulateFirst(m, txs0, limit.value)
  {
    hide Populate, ResolveInputs, ResolveFirst, UnsetInputs, PopulateFirst, Unset;
    var rest := txs0[i + 1..];
    Split(txs0, txs, i, txs[i]);
    PopulateFirstHead(m, txs0[i], rest, left.value);
    var partly := txs[i].(inputs := ResolveFirst(m, txs[i].inputs, left.value));
    Split(txs0, txs[i := partly], i, partly);
    assert txs[i := partly][..i] == txs[..i];
  }

  lemma PopulateGoesOn(m: Bucket, txs0: seq<Tx>, txs: seq<Tx>, i: nat, limit: Option<nat>, left: Option<nat>)
    requires i < |txs0| && PopulatedTo(m, txs0, txs, i, limit, left)
    requires left.Some? ==> left.value >= UnsetInputs(txs[i].inputs)
    ensures PopulatedTo(m, txs0, txs[i := txs[i].(inputs := ResolveInputs(m, txs[i].inputs))], i + 1, limit,
                        Minus(left, UnsetInputs(txs[i].inputs)))
  {
    hide Populate, ResolveInputs, ResolveFirst, UnsetInputs, PopulateFirst, Unset;
    var rest := txs0[i + 1..];
    Split(txs0, txs, i, txs[i]);
    PopulateHead(m, txs0[i], rest);
    var populated := txs[i].(inputs := ResolveInputs(m, txs[i].inputs));
    Split(txs0, txs[i := populated], i, populated);
    assert txs[i := populated][..i] == txs[..i];
    Regroup(txs[..i], populated, Populate(m, rest));
    if left.Some? {
      PopulateFirstHead(m, txs0[i], rest, left.value);
      Regroup(txs[..i], populated, PopulateFirst(m, rest, left.value - UnsetInputs(txs[i].inputs)));
    }
  }

  lemma AllPopulated(m: Bucket, txs0: seq<Tx>, txs: seq<Tx>, limit: Option<nat>, left: Option<nat>)
    requires PopulatedTo(m, txs0, txs, |txs0|, limit, left)
    ensures txs == Populate(m, txs0) && !ReadFails(limit, txs0)
  {
    hide ResolveInputs, ResolveFirst, UnsetInputs, PopulateFirst;
    assert txs[..|txs0|] == txs && txs0[|txs0|..] == [];
  }

  lemma FoundAt(queue: seq<BlockHeader>, point: BlockPoint, indx: int)
    requires -1 <= indx < |queue|
    requires indx >= 0 ==> PointOf(queue[indx]) == point && forall i :: 0 <= i < indx ==> PointOf(queue[i]) != point
    requires indx < 0 ==> forall i :: 0 <= i < |queue| ==> PointOf(queue[i]) != point
    ensures FindPoint(queue, point) == indx
  {}

  lemma QueuedOps(cfg: Config, interest: set<string>, header: BlockHeader, allTxs: seq<Tx>)
    ensures var relevant := Filter(cfg, interest, allTxs);
            var outs := if cfg.keepAllTxOutputsInDB then TxOutputs(allTxs, {}) else TxOutputs(relevant, interest);
            var ins := if cfg.keepAllTxOutputsInDB then TxInputs(allTxs, {}) else TxInputs(relevant, interest);
            BlockOps(cfg, interest, header, allTxs)
            == When(relevant != [], AddTxs(relevant))
               + [AddBlock(ConfirmedBlock(cfg, interest, header, allTxs)), SetLatest(PointOf(header))]
               + When(outs != [], AddOutputs(outs)) + When(ins != [], RemoveOutputs(ins, cfg.softDeleteUtxo))
  {
    hide Filter, TxOutputs, TxInputs, When, ConfirmedBlock;
  }
}
