/** The UTXO bucket over whole runs of the indexer: the replay of the transactions of all committed blocks. */
module ChainIndex {
  import opened Wrappers
  import opened Keys
  import opened IndexerData
  import opened Stores
  import opened UtxoReplay
  import opened Indexing
  import opened FilteredIndex
  import opened ChainRuns

  /** The transactions an event commits: those the retriever delivered, if a block is committed. */
  function CommittedTxs(cfg: Config, interest: set<string>, links: Links, s: State, e: ChainRuns.Event): seq<seq<Tx>>
    requires Allowed(links, s, e)
  {
    if (e.Forward? || e.CrashAfterCommit?) && Committed(cfg, interest, s, e.header, e.env).Some? then
      CommitHasTxs(cfg, interest, s.memory.value, s.store, e.header, e.env);
      [e.env.retrieved.value]
    else []
  }

  /** The transactions of all blocks committed in a run, in order. */
  function Retrieved(cfg: Config, interest: set<string>, links: Links, events: seq<ChainRuns.Event>): seq<seq<Tx>>
    requires AllowedRun(cfg, interest, links, Start(cfg), events)
  {
    if events == [] then []
    else
      var front := events[..|events| - 1];
      Retrieved(cfg, interest, links, front)
      + CommittedTxs(cfg, interest, links, Run(cfg, interest, links, Start(cfg), front), events[|events| - 1])
  }

  /** What one event does to the bucket. */
  lemma StepIndexes(cfg: Config, interest: set<string>, links: Links, s: State, e: ChainRuns.Event)
    requires Allowed(links, s, e)
    ensures var t, committed := Next(cfg, interest, links, s, e), CommittedTxs(cfg, interest, links, s, e);
            if committed == [] then t.store == s.store && t.blocks == s.blocks
            else t.store.txOuts == NextBucket(cfg, interest, s.store.txOuts, Populate(s.store.txOuts, committed[0]))
                 && |t.blocks| == |s.blocks| + 1 && t.blocks[..|s.blocks|] == s.blocks
                 && (cfg.keepAllTxsHashesInBlock || interest == {} ==>
                     t.blocks[|s.blocks|].txs == TxHashes(committed[0]))
  {
    hide NextBucket, PutTxs, BlockOps, Select;
    if (e.Forward? || e.CrashAfterCommit?) && Committed(cfg, interest, s, e.header, e.env).Some? {
      var txs := e.env.retrieved.value;
      assert TxHashes(Populate(s.store.txOuts, txs)) == TxHashes(txs);
    }
  }

  /** The bucket is the index of the given blocks, and there is one list of transactions for each stored block. */
  predicate Indexes(cfg: Config, interest: set<string>, s: State, retrieved: seq<seq<Tx>>)
  {
    && s.store.txOuts == IndexChain(cfg, interest, map[], retrieved)
    && |s.blocks| == |retrieved|
    && (cfg.keepAllTxsHashesInBlock || interest == {} ==>
          forall i :: 0 <= i < |s.blocks| ==> s.blocks[i].txs == TxHashes(retrieved[i]))
  }

  lemma IndexesNext(cfg: Config, interest: set<string>, s: State, t: State, before: seq<seq<Tx>>, txs: seq<Tx>)
    requires Indexes(cfg, interest, s, before)
    requires t.store.txOuts == NextBucket(cfg, interest, s.store.txOuts, Populate(s.store.txOuts, txs))
    requires |t.blocks| == |s.blocks| + 1 && t.blocks[..|s.blocks|] == s.blocks
    requires cfg.keepAllTxsHashesInBlock || interest == {} ==> t.blocks[|s.blocks|].txs == TxHashes(txs)
    ensures Indexes(cfg, interest, t, before + [txs])
  {
    hide NextBucket, Populate;
    assert (before + [txs])[..|before|] == before;
    forall i | 0 <= i < |s.blocks| ensures t.blocks[i] == s.blocks[i] {
      assert t.blocks[i] == t.blocks[..|s.blocks|][i];
    }
  }

  /** In every run, whatever failed, crashed or was restarted, the bucket is the index of the committed blocks. */
  lemma {:induction false} RunIsIndexed(cfg: Config, interest: set<string>, links: Links, events: seq<ChainRuns.Event>)
    requires AllowedRun(cfg, interest, links, Start(cfg), events)
    ensures Indexes(cfg, interest, Run(cfg, interest, links, Start(cfg), events),
                    Retrieved(cfg, interest, links, events))
    decreases |events|
  {
    hide NextBucket, Populate, Next, Allowed, CommittedTxs, Committed, Indexes;
    if events == [] {
      assert Indexes(cfg, interest, Start(cfg), []) by { StartIndexed(cfg, interest); }
    } else {
      var front, e := events[..|events| - 1], events[|events| - 1];
      RunIsIndexed(cfg, interest, links, front);
      var s := Run(cfg, interest, links, Start(cfg), front);
      var t := Next(cfg, interest, links, s, e);
      var before, committed := Retrieved(cfg, interest, links, front), CommittedTxs(cfg, interest, links, s, e);
      StepIndexes(cfg, interest, links, s, e);
      AtMostOne(cfg, interest, links, s, e);
      if committed == [] {
        assert before + committed == before;
        SameIndexed(cfg, interest, s, t, before);
      } else {
        assert committed == [committed[0]];
        IndexesNext(cfg, interest, s, t, before, committed[0]);
      }
    }
  }

  lemma StartIndexed(cfg: Config, interest: set<string>)
    ensures Indexes(cfg, interest, Start(cfg), [])
  {}

  lemma SameIndexed(cfg: Config, interest: set<string>, s: State, t: State, retrieved: seq<seq<Tx>>)
    requires Indexes(cfg, interest, s, retrieved) && t.store == s.store && t.blocks == s.blocks
    ensures Indexes(cfg, interest, t, retrieved)
  {}

  lemma AtMostOne(cfg: Config, interest: set<string>, links: Links, s: State, e: ChainRuns.Event)
    requires Allowed(links, s, e)
    ensures |CommittedTxs(cfg, interest, links, s, e)| <= 1
  {
    hide Committed, Allowed;
  }

  /** Keeping all outputs, the bucket is the replay of the committed chain, transaction by transaction. */
  lemma RunIsReplay(cfg: Config, interest: set<string>, links: Links, events: seq<ChainRuns.Event>)
    requires AllowedRun(cfg, interest, links, Start(cfg), events)
    requires (cfg.keepAllTxOutputsInDB || interest == {}) && !cfg.softDeleteUtxo
    requires forall txs :: txs in Retrieved(cfg, interest, links, events) ==> NoForwardSpends(txs)
    ensures Run(cfg, interest, links, Start(cfg), events).store.txOuts ==
            Replay(map[], Flatten(Retrieved(cfg, interest, links, events)))
  {
    hide NoForwardSpends, Run, AllowedRun, Retrieved;
    RunIsIndexed(cfg, interest, links, events);
    KeepAllIsReplay(cfg, interest, map[], Retrieved(cfg, interest, links, events));
  }

  /** Keeping addresses of interest, it is that replay restricted to them, when every block is traceable. */
  lemma FilteredRunIsReplay(cfg: Config, interest: set<string>, links: Links, events: seq<ChainRuns.Event>)
    requires AllowedRun(cfg, interest, links, Start(cfg), events)
    requires interest != {} && cfg.ChecksInputs() && cfg.ChecksOutputs()
    requires !cfg.softDeleteUtxo && !cfg.keepAllTxOutputsInDB
    requires LedgerChain(map[], Retrieved(cfg, interest, links, events))
    requires forall txs :: txs in Retrieved(cfg, interest, links, events) ==> Traceable(interest, txs)
    ensures Run(cfg, interest, links, Start(cfg), events).store.txOuts ==
            Restrict(Replay(map[], Flatten(Retrieved(cfg, interest, links, events))), interest)
  {
    hide LedgerChain, Traceable, Run, AllowedRun, Retrieved;
    var retrieved := Retrieved(cfg, interest, links, events);
    RunIsIndexed(cfg, interest, links, events);
    FilteredIsReplay(cfg, interest, map[], retrieved, |retrieved|);
    assert retrieved[..|retrieved|] == retrieved;
    assert Restrict(map[], interest) == map[];
  }
}
