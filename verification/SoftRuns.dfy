/** Two indexers that differ only in SoftDeleteUtxo, fed the same events: as long as no output is spent twice they stay
    in step, and both answer the query for unused outputs alike. */
module SoftRuns {
  import opened Wrappers
  import opened Numbers
  import opened Keys
  import opened IndexerData
  import opened Stores
  import opened UtxoReplay
  import opened Indexing
  import opened Queries
  import opened SoftDelete
  import FilteredIndex
  import R = ChainRuns
  import opened ChainIndex

  function Mode(cfg: Config, soft: bool): Config { cfg.(softDeleteUtxo := soft) }

  // ---------- what is promised of the blocks ----------

  /** Outputs are delivered unused. */
  predicate UnusedOutputs(txs: seq<Tx>)
  {
    forall i, j :: 0 <= i < |txs| && 0 <= j < |txs[i].outputs| ==> !txs[i].outputs[j].isUsed
  }

  /** Nothing is spent that the blocks before have spent. */
  ghost predicate SpendsAfresh(txs: seq<Tx>, before: seq<seq<Tx>>)
  {
    forall x :: SpentIn(txs, x) ==> !SpentIn(Flatten(before), x)
  }

  /** The transactions an event delivers. */
  function Delivered(e: R.Event): Option<seq<Tx>>
  {
    if e.Forward? || e.CrashAfterCommit? then e.env.retrieved else None
  }

  /** No block that is delivered spends what a committed one has spent. */
  ghost predicate NoDoubleSpends(cfg: Config, interest: set<string>, links: R.Links, events: seq<R.Event>)
    requires R.AllowedRun(cfg, interest, links, R.Start(cfg), events)
  {
    events == [] ||
    var front, delivered := events[..|events| - 1], Delivered(events[|events| - 1]);
    && NoDoubleSpends(cfg, interest, links, front)
    && (delivered.Some? ==>
          UnusedOutputs(delivered.value)
          && SpendsAfresh(delivered.value, Retrieved(cfg, interest, links, front)))
  }

  // ---------- inputs and what is spent ----------

  lemma {:induction false} InputNamed(inputs: seq<TxInputOutput>, j: nat)
    requires j < |inputs|
    ensures Names(InputsOf(inputs, {}), InputKey(inputs[j].input))
    decreases |inputs|
  {
    hide InputKey, Names;
    var n := |inputs| - 1;
    NamesConcat(InputsOf(inputs[..n], {}), [inputs[n].input], InputKey(inputs[j].input));
    NamesSingle(inputs[n].input, InputKey(inputs[j].input));
    if j < n {
      InputNamed(inputs[..n], j);
    }
  }

  lemma {:induction false} InputIsSpent(txs: seq<Tx>, i: nat, j: nat)
    requires i < |txs| && j < |txs[i].inputs|
    ensures SpentIn(txs, InputKey(txs[i].inputs[j].input))
    decreases |txs|
  {
    hide InputKey, Names, InputsOf;
    var n := |txs| - 1;
    NamesConcat(TxInputs(txs[..n], {}), Consumed(txs[n]), InputKey(txs[i].inputs[j].input));
    if i < n {
      InputIsSpent(txs[..n], i, j);
    } else {
      InputNamed(txs[n].inputs, j);
    }
  }

  lemma {:induction false} FewerNamed(inputs: seq<TxInputOutput>, interest: set<string>, x: Key)
    requires Names(InputsOf(inputs, interest), x)
    ensures Names(InputsOf(inputs, {}), x)
    decreases |inputs|
  {
    hide InputKey, Names;
    if inputs == [] {
      NothingNamed(x);
    } else {
      var n := |inputs| - 1;
      var front := InputsOf(inputs[..n], interest);
      assert front + [] == front;
      NamesConcat(front, [inputs[n].input], x);
      NamesConcat(InputsOf(inputs[..n], {}), [inputs[n].input], x);
      if Names(front, x) {
        FewerNamed(inputs[..n], interest, x);
      }
    }
  }

  /** Whatever is selected and filtered, only spent keys are removed. */
  lemma {:induction false} RemovedAreSpent(cfg: Config, interest: set<string>, wanted: set<string>, txs: seq<Tx>,
                                           x: Key)
    ensures Names(TxInputs(Select(cfg, interest, txs), wanted), x) ==> SpentIn(txs, x)
    ensures Names(TxInputs(txs, wanted), x) ==> SpentIn(txs, x)
    decreases |txs|
  {
    hide InputKey, Names, InputsOf, OfInterest;
    if txs == [] {
      NothingNamed(x);
    } else {
      var n := |txs| - 1;
      var sel, last := Select(cfg, interest, txs[..n]), txs[n];
      RemovedAreSpent(cfg, interest, wanted, txs[..n], x);
      NamesConcat(TxInputs(txs[..n], {}), Consumed(last), x);
      NamesConcat(TxInputs(txs[..n], wanted), InputsOf(last.inputs, wanted), x);
      NamesConcat(TxInputs(sel, wanted), InputsOf(last.inputs, wanted), x);
      assert (sel + [last])[..|sel|] == sel && sel + [] == sel;
      if Names(InputsOf(last.inputs, wanted), x) {
        FewerNamed(last.inputs, wanted, x);
      }
    }
  }

  lemma {:induction false} SpentConcat(a: seq<Tx>, b: seq<Tx>, x: Key)
    ensures SpentIn(a + b, x) <==> SpentIn(a, x) || SpentIn(b, x)
    decreases |b|
  {
    hide InputKey, Names, InputsOf;
    if b == [] {
      assert a + b == a;
      NothingNamed(x);
    } else {
      var n := |b| - 1;
      assert (a + b)[..|a + b| - 1] == a + b[..n];
      SpentConcat(a, b[..n], x);
      NamesConcat(TxInputs(b[..n], {}), Consumed(b[n]), x);
      NamesConcat(TxInputs(a + b[..n], {}), Consumed(b[n]), x);
    }
  }

  // ---------- outputs stay unused ----------

  ghost predicate AllUnused(outs: seq<TxInputOutput>) { forall i :: 0 <= i < |outs| ==> !outs[i].output.isUsed }

  lemma {:induction false} OutputsUnused(tx: Tx, wanted: set<string>, n: nat)
    requires n <= |tx.outputs| && forall j :: 0 <= j < |tx.outputs| ==> !tx.outputs[j].isUsed
    ensures AllUnused(OutputsOf(tx, wanted, n))
  {
    if n > 0 {
      OutputsUnused(tx, wanted, n - 1);
    }
  }

  lemma {:induction false} SavedUnused(cfg: Config, interest: set<string>, wanted: set<string>, txs: seq<Tx>)
    requires UnusedOutputs(txs)
    ensures AllUnused(TxOutputs(txs, wanted)) && AllUnused(TxOutputs(Select(cfg, interest, txs), wanted))
    decreases |txs|
  {
    hide OutputsOf, OfInterest;
    if txs != [] {
      var n := |txs| - 1;
      SavedUnused(cfg, interest, wanted, txs[..n]);
      OutputsUnused(txs[n], wanted, |txs[n].outputs|);
      var sel := Select(cfg, interest, txs[..n]);
      assert (sel + [txs[n]])[..|sel|] == sel && sel + [] == sel;
    }
  }

  /** What a block saves and removes. */
  lemma BlockLists(cfg: Config, interest: set<string>, txs: seq<Tx>)
    requires UnusedOutputs(txs)
    ensures var relevant := Filter(cfg, interest, txs);
            var outs := if cfg.keepAllTxOutputsInDB then TxOutputs(txs, {}) else TxOutputs(relevant, interest);
            var ins := if cfg.keepAllTxOutputsInDB then TxInputs(txs, {}) else TxInputs(relevant, interest);
            AllUnused(outs) && forall x :: Names(ins, x) ==> SpentIn(txs, x)
  {
    hide Names, TxInputs, TxOutputs, Select, AllUnused;
    SavedUnused(cfg, interest, interest, txs);
    SavedUnused(cfg, interest, {}, txs);
    forall x
      ensures Names(TxInputs(Select(cfg, interest, txs), interest), x) ==> SpentIn(txs, x)
      ensures Names(TxInputs(txs, interest), x) ==> SpentIn(txs, x)
      ensures Names(TxInputs(txs, {}), x) ==> SpentIn(txs, x)
    {
      RemovedAreSpent(cfg, interest, interest, txs, x);
      RemovedAreSpent(cfg, interest, {}, txs, x);
    }
  }

  // ---------- one block ----------

  /** Used entries are spent ones. */
  ghost predicate UsedAreSpent(m: Bucket, before: seq<seq<Tx>>)
  {
    forall x :: x in m && m[x].isUsed ==> SpentIn(Flatten(before), x)
  }

  /** Inputs that are spent for the first time are found in both databases. */
  lemma PopulateSame(soft: Store, hard: Store, txs: seq<Tx>, before: seq<seq<Tx>>)
    requires Simulates(soft, hard) && UsedAreSpent(soft.txOuts, before) && SpendsAfresh(txs, before)
    ensures Populate(soft.txOuts, txs) == Populate(hard.txOuts, txs)
  {
    hide InputKey, SpentIn, Flatten;
    forall i, j | 0 <= i < |txs| && 0 <= j < |txs[i].inputs|
      ensures Resolve(soft.txOuts, txs[i].inputs[j]) == Resolve(hard.txOuts, txs[i].inputs[j])
    {
      var x := InputKey(txs[i].inputs[j].input);
      InputIsSpent(txs, i, j);
      assert x in Unused(soft.txOuts) <==> x in soft.txOuts && !soft.txOuts[x].isUsed;
    }
    forall i | 0 <= i < |txs|
      ensures ResolveInputs(soft.txOuts, txs[i].inputs) == ResolveInputs(hard.txOuts, txs[i].inputs)
    {}
  }

  lemma ModesOfOps(cfg: Config, interest: set<string>, header: BlockHeader, txs: seq<Tx>)
    ensures BlockOps(Mode(cfg, true), interest, header, txs) == WithMode(BlockOps(cfg, interest, header, txs), true)
    ensures BlockOps(Mode(cfg, false), interest, header, txs) == WithMode(BlockOps(cfg, interest, header, txs), false)
  {
    ModeOfOps(cfg, interest, header, txs, true);
    ModeOfOps(cfg, interest, header, txs, false);
  }

  lemma ModeOfOps(cfg: Config, interest: set<string>, header: BlockHeader, txs: seq<Tx>, soft: bool)
    ensures BlockOps(Mode(cfg, soft), interest, header, txs) == WithMode(BlockOps(cfg, interest, header, txs), soft)
  {
    hide TxInputs, TxOutputs, TxHashes, Filter, WithMode;
    var relevant := Filter(cfg, interest, txs);
    FilterSame(cfg, soft, interest, txs);
    var outs := if cfg.keepAllTxOutputsInDB then TxOutputs(txs, {}) else TxOutputs(relevant, interest);
    var ins := if cfg.keepAllTxOutputsInDB then TxInputs(txs, {}) else TxInputs(relevant, interest);
    var o1 := When(relevant != [], AddTxs(relevant));
    var o2 := [AddBlock(ConfirmedBlock(cfg, interest, header, txs)), SetLatest(PointOf(header))];
    var o3, o4 := When(outs != [], AddOutputs(outs)), When(ins != [], RemoveOutputs(ins, cfg.softDeleteUtxo));
    ModeConcat(o1 + o2 + o3, o4, soft);
    ModeConcat(o1 + o2, o3, soft);
    ModeConcat(o1, o2, soft);
    ModeUnchanged(o1, soft);
    ModeUnchanged(o2, soft);
    ModeUnchanged(o3, soft);
    assert WithMode(o4, soft) == When(ins != [], RemoveOutputs(ins, soft)) by { ModeOfRemoval(ins, cfg, soft); }
  }

  lemma ModeConcat(a: seq<Op>, b: seq<Op>, soft: bool)
    ensures WithMode(a + b, soft) == WithMode(a, soft) + WithMode(b, soft)
  {
    hide ModeOf;
  }

  lemma ModeUnchanged(ops: seq<Op>, soft: bool)
    requires forall i :: 0 <= i < |ops| ==> !ops[i].RemoveOutputs?
    ensures WithMode(ops, soft) == ops
  {}

  lemma ModeOfRemoval(ins: seq<TxInput>, cfg: Config, soft: bool)
    ensures WithMode(When(ins != [], RemoveOutputs(ins, cfg.softDeleteUtxo)), soft) ==
            When(ins != [], RemoveOutputs(ins, soft))
  {}

  lemma {:induction false} FilterSame(cfg: Config, soft: bool, interest: set<string>, txs: seq<Tx>)
    ensures Filter(Mode(cfg, soft), interest, txs) == Filter(cfg, interest, txs)
    ensures Select(Mode(cfg, soft), interest, txs) == Select(cfg, interest, txs)
    decreases |txs|
  {
    if txs != [] {
      FilterSame(cfg, soft, interest, txs[..|txs| - 1]);
    }
  }

  /** The same block, stored softly on one side and hard on the other. */
  lemma BlockSimulates(cfg: Config, interest: set<string>, header: BlockHeader, txs: seq<Tx>, soft: Store, hard: Store)
    requires Simulates(soft, hard) && UnusedOutputs(txs)
    ensures Simulates(NextStore(Mode(cfg, true), interest, soft, header, txs),
                      NextStore(Mode(cfg, false), interest, hard, header, txs))
  {
    hide NextStore, Simulates, ApplyAll;
    var ops := BlockOps(cfg, interest, header, txs);
    BlockOpsMeaning(Mode(cfg, true), interest, header, txs, soft);
    BlockOpsMeaning(Mode(cfg, false), interest, header, txs, hard);
    ModesOfOps(cfg, interest, header, txs);
    OpsAddUnused(cfg, interest, header, txs);
    SoftSimulatesHard(ops, soft, hard);
  }

  lemma OpsAddUnused(cfg: Config, interest: set<string>, header: BlockHeader, txs: seq<Tx>)
    requires UnusedOutputs(txs)
    ensures forall i :: 0 <= i < |BlockOps(cfg, interest, header, txs)| ==>
              AddsUnused(BlockOps(cfg, interest, header, txs)[i])
  {
    hide TxInputs, TxOutputs, TxHashes, Filter, ConfirmedBlock;
    BlockLists(cfg, interest, txs);
  }

  lemma UsedAfterBlock(cfg: Config, interest: set<string>, header: BlockHeader, txs: seq<Tx>, s: Store,
                       before: seq<seq<Tx>>)
    requires UsedAreSpent(s.txOuts, before) && UnusedOutputs(txs)
    ensures UsedAreSpent(NextStore(Mode(cfg, true), interest, s, header, Populate(s.txOuts, txs)).txOuts,
                         before + [txs])
  {
    hide TxInputs, TxOutputs, Filter, Populate, PutAll, MarkKeys, Names, LastPut, Flatten, SpentIn;
    var c, populated := Mode(cfg, true), Populate(s.txOuts, txs);
    var relevant := Filter(c, interest, populated);
    var outs := if c.keepAllTxOutputsInDB then TxOutputs(populated, {}) else TxOutputs(relevant, interest);
    var ins := if c.keepAllTxOutputsInDB then TxInputs(populated, {}) else TxInputs(relevant, interest);
    PopulatedUnused(s.txOuts, txs);
    BlockLists(c, interest, populated);
    var t := NextBucket(c, interest, s.txOuts, populated);
    forall x | x in t && t[x].isUsed ensures SpentIn(Flatten(before + [txs]), x) {
      GetMarkKeys(PutAll(s.txOuts, outs), ins, x);
      GetPutAll(s.txOuts, outs, x);
      LastPutUnused(outs, x);
      SpentLater(before, txs, x);
      SamePopulated(s.txOuts, txs, x);
      assert Get(t, x) == Some(t[x]);
      assert Get(s.txOuts, x).Some? ==> x in s.txOuts;
    }
  }

  lemma PopulatedUnused(m: Bucket, txs: seq<Tx>)
    requires UnusedOutputs(txs)
    ensures UnusedOutputs(Populate(m, txs))
  {
    hide ResolveInputs;
  }

  lemma SamePopulated(m: Bucket, txs: seq<Tx>, x: Key)
    ensures SpentIn(Populate(m, txs), x) <==> SpentIn(txs, x)
  {
    FilteredIndex.PopulateKeeps(m, txs, {});
  }

  lemma SpentLater(before: seq<seq<Tx>>, txs: seq<Tx>, x: Key)
    ensures SpentIn(Flatten(before + [txs]), x) <==> SpentIn(Flatten(before), x) || SpentIn(txs, x)
  {
    hide SpentIn;
    assert (before + [txs])[..|before|] == before;
    SpentConcat(Flatten(before), txs, x);
  }

  // ---------- whole runs ----------

  /** The two indexers are in step: all is equal except that used entries are still there on one side. */
  ghost predicate InStep(soft: R.State, hard: R.State)
  {
    Simulates(soft.store, hard.store) && soft.(store := hard.store) == hard
  }

  /** Confirming a header does the same on both sides. */
  lemma ForwardInStep(cfg: Config, interest: set<string>, mem: Memory, soft: Store, hard: Store, h: BlockHeader,
                      env: Env, before: seq<seq<Tx>>)
    requires Simulates(soft, hard) && UsedAreSpent(soft.txOuts, before)
    requires env.retrieved.Some? ==> UnusedOutputs(env.retrieved.value) && SpendsAfresh(env.retrieved.value, before)
    ensures var a, b := Indexing.Forward(Mode(cfg, true), interest, mem, soft, h, env),
                        Indexing.Forward(Mode(cfg, false), interest, mem, hard, h, env);
            a.memory == b.memory && a.outcome == b.outcome && Simulates(a.store, b.store)
    ensures env.retrieved.Some? ==>
              Populate(soft.txOuts, env.retrieved.value) == Populate(hard.txOuts, env.retrieved.value)
  {
    hide Simulates, UsedAreSpent, SpendsAfresh, NextStore, Populate, BlockOps, ReadFails, UnusedOutputs;
    if env.retrieved.Some? {
      var txs := env.retrieved.value;
      var first := if mem.queue == [] then ZeroHeader() else mem.queue[0];
      PopulateSame(soft, hard, txs, before);
      PopulatedUnused(soft.txOuts, txs);
      ModesOfOps(cfg, interest, first, Populate(soft.txOuts, txs));
      BlockSimulates(cfg, interest, first, Populate(soft.txOuts, txs), soft, hard);
    }
  }

  lemma SameConfirmed(cfg: Config, interest: set<string>, header: BlockHeader, txs: seq<Tx>)
    ensures ConfirmedBlock(Mode(cfg, true), interest, header, txs) ==
            ConfirmedBlock(Mode(cfg, false), interest, header, txs)
  {
    FilterSame(cfg, true, interest, txs);
    FilterSame(cfg, false, interest, txs);
    hide Filter;
  }

  /** One event. */
  lemma EventInStep(cfg: Config, interest: set<string>, links: R.Links, soft: R.State, hard: R.State, e: R.Event,
                    before: seq<seq<Tx>>)
    requires InStep(soft, hard) && R.Allowed(links, soft, e) && UsedAreSpent(soft.store.txOuts, before)
    requires Delivered(e).Some? ==> UnusedOutputs(Delivered(e).value) && SpendsAfresh(Delivered(e).value, before)
    ensures R.Allowed(links, hard, e)
    ensures InStep(R.Next(Mode(cfg, true), interest, links, soft, e),
                   R.Next(Mode(cfg, false), interest, links, hard, e))
    ensures CommittedTxs(Mode(cfg, true), interest, links, soft, e) ==
            CommittedTxs(Mode(cfg, false), interest, links, hard, e)
  {
    hide UsedAreSpent, SpendsAfresh, Populate, BlockOps, ReadFails, UnusedOutputs, ConfirmedBlock, Indexing.Forward,
      Unused;
    if e.Forward? || e.CrashAfterCommit? {
      ForwardInStep(cfg, interest, soft.memory.value, soft.store, hard.store, e.header, e.env, before);
      var mem := soft.memory.value;
      var first := if mem.queue == [] then ZeroHeader() else mem.queue[0];
      if e.env.retrieved.Some? {
        SameConfirmed(cfg, interest, first, Populate(soft.store.txOuts, e.env.retrieved.value));
      }
      if |mem.queue| == cfg.confirmationBlockCount
         && !Indexing.Forward(Mode(cfg, true), interest, mem, soft.store, e.header, e.env).outcome.ProcessFailed? {
        R.CommitHasTxs(Mode(cfg, true), interest, mem, soft.store, e.header, e.env);
      }
    }
  }

  lemma UsedAfterEvent(cfg: Config, interest: set<string>, links: R.Links, s: R.State, e: R.Event,
                       before: seq<seq<Tx>>)
    requires R.Allowed(links, s, e) && UsedAreSpent(s.store.txOuts, before) && InputKeysOnly(s.store.txOuts)
    requires Delivered(e).Some? ==> UnusedOutputs(Delivered(e).value)
    ensures var t := R.Next(Mode(cfg, true), interest, links, s, e);
            UsedAreSpent(t.store.txOuts, before + CommittedTxs(Mode(cfg, true), interest, links, s, e))
  {
    hide UsedAreSpent, NextBucket, Populate, BlockOps, R.Next, UnusedOutputs;
    var c := Mode(cfg, true);
    StepIndexes(c, interest, links, s, e);
    AtMostOne(c, interest, links, s, e);
    var committed := CommittedTxs(c, interest, links, s, e);
    if committed == [] {
      assert before + committed == before;
    } else {
      assert committed == [committed[0]] && Delivered(e) == Some(committed[0]);
      UsedAfterBlock(cfg, interest, ZeroHeader(), committed[0], s.store, before);
    }
  }

  /** Buckets have only keys of inputs, in either mode. */
  lemma {:induction false} KeysOfRun(cfg: Config, interest: set<string>, links: R.Links, events: seq<R.Event>)
    requires R.AllowedRun(cfg, interest, links, R.Start(cfg), events)
    ensures InputKeysOnly(R.Run(cfg, interest, links, R.Start(cfg), events).store.txOuts)
    decreases |events|
  {
    hide InputKeysOnly, R.Next, R.Allowed, CommittedTxs, Populate, NextBucket;
    if events == [] {
      NoBadKeys();
    } else {
      var front, e := events[..|events| - 1], events[|events| - 1];
      KeysOfRun(cfg, interest, links, front);
      var s := R.Run(cfg, interest, links, R.Start(cfg), front);
      StepIndexes(cfg, interest, links, s, e);
      var committed := CommittedTxs(cfg, interest, links, s, e);
      if committed != [] {
        KeysAfterBlock(cfg, interest, s.store.txOuts, Populate(s.store.txOuts, committed[0]));
      }
    }
  }

  lemma KeysAfterBlock(cfg: Config, interest: set<string>, m: Bucket, txs: seq<Tx>)
    requires InputKeysOnly(m)
    ensures InputKeysOnly(NextBucket(cfg, interest, m, txs))
  {
    hide InputKeysOnly, TxInputs, TxOutputs, Filter, PutAll, MarkKeys, DeleteKeys;
    var relevant := Filter(cfg, interest, txs);
    var outs := if cfg.keepAllTxOutputsInDB then TxOutputs(txs, {}) else TxOutputs(relevant, interest);
    var ins := if cfg.keepAllTxOutputsInDB then TxInputs(txs, {}) else TxInputs(relevant, interest);
    PutKeepsKeys(m, outs);
    RemoveKeepsKeys(PutAll(m, outs), ins);
  }

  /** In every run without double spends, whatever failed, crashed or was restarted, the two indexers stay in step. */
  lemma {:induction false} RunsInStep(cfg: Config, interest: set<string>, links: R.Links, events: seq<R.Event>)
    requires R.AllowedRun(Mode(cfg, true), interest, links, R.Start(Mode(cfg, true)), events)
    requires NoDoubleSpends(Mode(cfg, true), interest, links, events)
    ensures R.AllowedRun(Mode(cfg, false), interest, links, R.Start(Mode(cfg, false)), events)
    ensures InStep(R.Run(Mode(cfg, true), interest, links, R.Start(Mode(cfg, true)), events),
                   R.Run(Mode(cfg, false), interest, links, R.Start(Mode(cfg, false)), events))
    ensures UsedAreSpent(R.Run(Mode(cfg, true), interest, links, R.Start(Mode(cfg, true)), events).store.txOuts,
                         Retrieved(Mode(cfg, true), interest, links, events))
    ensures Retrieved(Mode(cfg, true), interest, links, events) == Retrieved(Mode(cfg, false), interest, links, events)
    decreases |events|
  {
    hide InStep, UsedAreSpent, R.Next, R.Allowed, CommittedTxs, UnusedOutputs, SpendsAfresh, InputKeysOnly;
    if events == [] {
      StartInStep(cfg);
    } else {
      var front, e := events[..|events| - 1], events[|events| - 1];
      RunsInStep(cfg, interest, links, front);
      var a := R.Run(Mode(cfg, true), interest, links, R.Start(Mode(cfg, true)), front);
      var b := R.Run(Mode(cfg, false), interest, links, R.Start(Mode(cfg, false)), front);
      var before := Retrieved(Mode(cfg, true), interest, links, front);
      KeysOfRun(Mode(cfg, true), interest, links, front);
      EventInStep(cfg, interest, links, a, b, e, before);
      UsedAfterEvent(cfg, interest, links, a, e, before);
    }
  }

  lemma StartInStep(cfg: Config)
    ensures InStep(R.Start(Mode(cfg, true)), R.Start(Mode(cfg, false)))
    ensures UsedAreSpent(R.Start(Mode(cfg, true)).store.txOuts, [])
  {
    UnusedNothing();
  }

  /** Keeping all outputs, the unused entries of a soft run are the replay of the committed chain. */
  lemma SoftRunIsReplay(cfg: Config, interest: set<string>, links: R.Links, events: seq<R.Event>)
    requires R.AllowedRun(Mode(cfg, true), interest, links, R.Start(Mode(cfg, true)), events)
    requires NoDoubleSpends(Mode(cfg, true), interest, links, events)
    requires cfg.keepAllTxOutputsInDB || interest == {}
    requires forall txs :: txs in Retrieved(Mode(cfg, true), interest, links, events) ==> NoForwardSpends(txs)
    ensures Unused(R.Run(Mode(cfg, true), interest, links, R.Start(Mode(cfg, true)), events).store.txOuts) ==
            Replay(map[], Flatten(Retrieved(Mode(cfg, true), interest, links, events)))
  {
    hide R.Run, R.AllowedRun, NoDoubleSpends, UsedAreSpent, Retrieved, NoForwardSpends, Unused;
    RunsInStep(cfg, interest, links, events);
    RunIsReplay(Mode(cfg, false), interest, links, events);
  }

  /** So the query for the unused outputs of an address is answered on both sides, and with the same list. */
  lemma BothRunsAnswer(cfg: Config, interest: set<string>, links: R.Links, events: seq<R.Event>, address: string,
                       a: Option<seq<TxInputOutput>>, b: Option<seq<TxInputOutput>>)
    requires R.AllowedRun(Mode(cfg, true), interest, links, R.Start(Mode(cfg, true)), events)
    requires NoDoubleSpends(Mode(cfg, true), interest, links, events)
    requires IsReply(R.Run(Mode(cfg, true), interest, links, R.Start(Mode(cfg, true)), events).store.txOuts, address,
                     true, a)
    ensures R.AllowedRun(Mode(cfg, false), interest, links, R.Start(Mode(cfg, false)), events)
    ensures var hard := R.Run(Mode(cfg, false), interest, links, R.Start(Mode(cfg, false)), events).store;
            IsReply(hard.txOuts, address, true, b) ==> a.Some? && a == b
  {
    hide IsAnswer, R.Run, R.AllowedRun, NoDoubleSpends, UsedAreSpent;
    RunsInStep(cfg, interest, links, events);
    KeysOfRun(Mode(cfg, true), interest, links, events);
    KeysOfRun(Mode(cfg, false), interest, links, events);
    var soft := R.Run(Mode(cfg, true), interest, links, R.Start(Mode(cfg, true)), events).store;
    var hard := R.Run(Mode(cfg, false), interest, links, R.Start(Mode(cfg, false)), events).store;
    if IsReply(hard.txOuts, address, true, b) {
      SameAnswers(soft, hard, address, a.value, b.value);
    }
  }
}
