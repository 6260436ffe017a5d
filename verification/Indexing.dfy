/** What one call of the block indexer does, as functions on its memory and its database
    (`indexer/block_indexer.go`). */
module Indexing {
  import opened Wrappers
  import opened Keys
  import opened IndexerData
  import opened Stores

  datatype Config = Config(
    startingBlockPoint: Option<BlockPoint>,
    confirmationBlockCount: nat,
    addressesOfInterest: seq<string>,
    keepAllTxOutputsInDB: bool,
    addressCheck: nat,
    softDeleteUtxo: bool,
    keepAllTxsHashesInBlock: bool)
  {
    /** AddressCheckInputs is bit 0 of the flags, AddressCheckOutputs is bit 1. */
    predicate ChecksInputs() { addressCheck % 2 == 1 }

    predicate ChecksOutputs() { addressCheck / 2 % 2 == 1 }
  }

  /** The in-memory part of the indexer: the latest confirmed point and the unconfirmed headers, oldest first. */
  datatype Memory = Memory(latest: Option<BlockPoint>, queue: seq<BlockHeader>)

  datatype Outcome =
    | Done
    | ProcessFailed            // the wrapped processConfirmedBlockError: nothing happened, retry
    | HandlerFailed            // the confirmed-block handler returned an error after the commit
    | Fatal                    // ErrBlockIndexerFatal

  /** How the surroundings of one RollForward behave. */
  datatype Env = Env(
    retrieved: Option<seq<Tx>>,   // GetBlockTransactions, or its failure
    readLimit: Option<nat>,           // how many calls of GetTxOutput succeed before one fails
    failure: Option<nat>,         // the database operation that fails in Execute
    handlerOk: bool)

  // ---------- populateOutputsForEachInput ----------

  function Resolve(m: Bucket, inp: TxInputOutput): TxInputOutput
  {
    if inp.output.address != "" then inp
    else inp.(output := if InputKey(inp.input) in m then m[InputKey(inp.input)] else ZeroOutput)
  }

  function ResolveInputs(m: Bucket, inputs: seq<TxInputOutput>): (r: seq<TxInputOutput>)
    ensures |r| == |inputs| && forall i :: 0 <= i < |inputs| ==> r[i] == Resolve(m, inputs[i])
  {
    seq(|inputs|, i requires 0 <= i < |inputs| => Resolve(m, inputs[i]))
  }

  function Populate(m: Bucket, txs: seq<Tx>): (r: seq<Tx>)
    ensures |r| == |txs| && forall i :: 0 <= i < |txs| ==> r[i] == txs[i].(inputs := ResolveInputs(m, txs[i].inputs))
  {
    seq(|txs|, i requires 0 <= i < |txs| => txs[i].(inputs := ResolveInputs(m, txs[i].inputs)))
  }

  /** How many inputs still need the database. */
  function UnsetInputs(inputs: seq<TxInputOutput>): nat
  {
    if inputs == [] then 0 else (if inputs[0].output.address == "" then 1 else 0) + UnsetInputs(inputs[1..])
  }

  function Unset(txs: seq<Tx>): nat { if txs == [] then 0 else UnsetInputs(txs[0].inputs) + Unset(txs[1..]) }

  predicate ReadFails(readLimit: Option<nat>, txs: seq<Tx>) { readLimit.Some? && readLimit.value < Unset(txs) }

  /** Only the first `n` inputs without an output are filled in. */
  function ResolveFirst(m: Bucket, inputs: seq<TxInputOutput>, n: nat): seq<TxInputOutput>
  {
    if inputs == [] then []
    else if inputs[0].output.address != "" then [inputs[0]] + ResolveFirst(m, inputs[1..], n)
    else if n == 0 then inputs
    else [Resolve(m, inputs[0])] + ResolveFirst(m, inputs[1..], n - 1)
  }

  function PopulateFirst(m: Bucket, txs: seq<Tx>, n: nat): seq<Tx>
  {
    if txs == [] then []
    else
      var k := UnsetInputs(txs[0].inputs);
      if n < k then [txs[0].(inputs := ResolveFirst(m, txs[0].inputs, n))] + txs[1..]
      else [txs[0].(inputs := ResolveInputs(m, txs[0].inputs))] + PopulateFirst(m, txs[1..], n - k)
  }

  lemma {:induction false} ResolveRest(m: Bucket, inputs: seq<TxInputOutput>, n: nat)
    ensures ResolveInputs(m, ResolveFirst(m, inputs, n)) == ResolveInputs(m, inputs)
    decreases |inputs|
  {
    if inputs != [] {
      var first, rest := ResolveFirst(m, inputs, n), inputs[1..];
      assert inputs == [inputs[0]] + rest;
      if inputs[0].output.address != "" {
        ResolveRest(m, rest, n);
        ResolveHead(m, inputs[0], rest);
        ResolveHead(m, inputs[0], ResolveFirst(m, rest, n));
      } else if n > 0 {
        ResolveRest(m, rest, n - 1);
        ResolveHead(m, inputs[0], rest);
        ResolveHead(m, Resolve(m, inputs[0]), ResolveFirst(m, rest, n - 1));
      }
    }
  }

  lemma ResolveHead(m: Bucket, inp: TxInputOutput, rest: seq<TxInputOutput>)
    ensures ResolveInputs(m, [inp] + rest) == [Resolve(m, inp)] + ResolveInputs(m, rest)
    ensures Resolve(m, Resolve(m, inp)) == Resolve(m, inp)
  {}

  lemma PopulateHead(m: Bucket, tx: Tx, rest: seq<Tx>)
    ensures Populate(m, [tx] + rest) == [tx.(inputs := ResolveInputs(m, tx.inputs))] + Populate(m, rest)
  {
    hide Resolve;
  }

  /** What a failed attempt has filled in does not change what the next attempt on the same database makes of the
      transactions. */
  lemma {:induction false} PopulateRest(m: Bucket, txs: seq<Tx>, n: nat)
    ensures Populate(m, PopulateFirst(m, txs, n)) == Populate(m, txs)
    decreases |txs|
  {
    hide Resolve, ResolveInputs, ResolveFirst, Populate, UnsetInputs;
    if txs != [] {
      var k, rest := UnsetInputs(txs[0].inputs), txs[1..];
      assert txs == [txs[0]] + rest;
      PopulateHead(m, txs[0], rest);
      if n < k {
        ResolveRest(m, txs[0].inputs, n);
        PopulateHead(m, txs[0].(inputs := ResolveFirst(m, txs[0].inputs, n)), rest);
      } else {
        PopulateRest(m, rest, n - k);
        AllResolved(m, txs[0].inputs);
        PopulateHead(m, txs[0].(inputs := ResolveInputs(m, txs[0].inputs)), PopulateFirst(m, rest, n - k));
      }
    }
  }

  lemma AllResolved(m: Bucket, inputs: seq<TxInputOutput>)
    ensures ResolveInputs(m, ResolveInputs(m, inputs)) == ResolveInputs(m, inputs)
  {}

  // ---------- filterTxsOfInterest ----------

  predicate InputOfInterest(cfg: Config, interest: set<string>, tx: Tx)
  {
    cfg.ChecksInputs() && exists i :: 0 <= i < |tx.inputs| && tx.inputs[i].output.address in interest
  }

  predicate OutputOfInterest(cfg: Config, interest: set<string>, tx: Tx)
  {
    cfg.ChecksOutputs() && exists i :: 0 <= i < |tx.outputs| && tx.outputs[i].address in interest
  }

  predicate OfInterest(cfg: Config, interest: set<string>, tx: Tx)
  {
    InputOfInterest(cfg, interest, tx) || OutputOfInterest(cfg, interest, tx)
  }

  function Select(cfg: Config, interest: set<string>, txs: seq<Tx>): seq<Tx>
  {
    if txs == [] then []
    else Select(cfg, interest, txs[..|txs| - 1])
         + if OfInterest(cfg, interest, txs[|txs| - 1]) then [txs[|txs| - 1]] else []
  }

  function Filter(cfg: Config, interest: set<string>, txs: seq<Tx>): seq<Tx>
  {
    if interest == {} then txs else Select(cfg, interest, txs)
  }

  /** Which transactions are of interest, spelled out for the four values of the flags: 1 checks inputs, 2 checks
      outputs. */
  lemma {:induction false} OfInterestByFlags(cfg: Config, interest: set<string>, txs: seq<Tx>, t: Tx)
    requires interest != {} && cfg.addressCheck < 4
    ensures t in Filter(cfg, interest, txs) <==>
            && t in txs
            && ((cfg.addressCheck in {1, 3}
                 && exists i :: 0 <= i < |t.inputs| && t.inputs[i].output.address in interest)
                || (cfg.addressCheck in {2, 3} && exists i :: 0 <= i < |t.outputs| && t.outputs[i].address in interest))
    decreases |txs|
  {
    if txs != [] {
      OfInterestByFlags(cfg, interest, txs[..|txs| - 1], t);
      assert txs == txs[..|txs| - 1] + [txs[|txs| - 1]];
    }
  }

  // ---------- processConfirmedBlock ----------

  /** The operations queued for one confirmed block, in order. */
  function BlockOps(cfg: Config, interest: set<string>, header: BlockHeader, allTxs: seq<Tx>): seq<Op>
  {
    var relevant := Filter(cfg, interest, allTxs);
    var outs := if cfg.keepAllTxOutputsInDB then TxOutputs(allTxs, {}) else TxOutputs(relevant, interest);
    var ins := if cfg.keepAllTxOutputsInDB then TxInputs(allTxs, {}) else TxInputs(relevant, interest);
    When(relevant != [], AddTxs(relevant))
    + [AddBlock(ConfirmedBlock(cfg, interest, header, allTxs)), SetLatest(PointOf(header))]
    + When(outs != [], AddOutputs(outs))
    + When(ins != [], RemoveOutputs(ins, cfg.softDeleteUtxo))
  }

  function ConfirmedBlock(cfg: Config, interest: set<string>, header: BlockHeader, allTxs: seq<Tx>): CardanoBlock
  {
    BlockOf(header, TxHashes(if cfg.keepAllTxsHashesInBlock then allTxs else Filter(cfg, interest, allTxs)))
  }

  /** The bucket after a block of populated transactions. */
  function NextBucket(cfg: Config, interest: set<string>, m: Bucket, allTxs: seq<Tx>): Bucket
  {
    var relevant := Filter(cfg, interest, allTxs);
    var outs := if cfg.keepAllTxOutputsInDB then TxOutputs(allTxs, {}) else TxOutputs(relevant, interest);
    var ins := if cfg.keepAllTxOutputsInDB then TxInputs(allTxs, {}) else TxInputs(relevant, interest);
    if cfg.softDeleteUtxo then MarkKeys(PutAll(m, outs), ins) else DeleteKeys(PutAll(m, outs), ins)
  }

  /** The whole database after a block of populated transactions. */
  function NextStore(cfg: Config, interest: set<string>, s: Store, header: BlockHeader, allTxs: seq<Tx>): Store
  {
    s.(txOuts := NextBucket(cfg, interest, s.txOuts, allTxs),
       latest := Some(PointOf(header)),
       unprocessed := PutTxs(s.unprocessed, Filter(cfg, interest, allTxs)),
       confirmed := s.confirmed[SlotKey(header.slot) := ConfirmedBlock(cfg, interest, header, allTxs)])
  }

  /** Executing the queued operations yields that database. */
  lemma BlockOpsMeaning(cfg: Config, interest: set<string>, header: BlockHeader, allTxs: seq<Tx>, s: Store)
    ensures ApplyAll(BlockOps(cfg, interest, header, allTxs), s) == NextStore(cfg, interest, s, header, allTxs)
  {
    hide When, ApplyAll, Filter, TxOutputs, TxInputs, PutTxs, PutAll, MarkKeys, DeleteKeys, SlotKey;
    var relevant := Filter(cfg, interest, allTxs);
    var outs := if cfg.keepAllTxOutputsInDB then TxOutputs(allTxs, {}) else TxOutputs(relevant, interest);
    var ins := if cfg.keepAllTxOutputsInDB then TxInputs(allTxs, {}) else TxInputs(relevant, interest);
    var o1 := When(relevant != [], AddTxs(relevant));
    var o2 := [AddBlock(ConfirmedBlock(cfg, interest, header, allTxs)), SetLatest(PointOf(header))];
    var o3 := When(outs != [], AddOutputs(outs));
    var o4 := When(ins != [], RemoveOutputs(ins, cfg.softDeleteUtxo));
    NoOps(s.txOuts, s.unprocessed);
    NoOps(PutAll(s.txOuts, outs), s.unprocessed);
    ApplyConcat(o1 + o2 + o3, o4, s);
    ApplyConcat(o1 + o2, o3, s);
    ApplyConcat(o1, o2, s);
    ApplyOptional(relevant != [], AddTxs(relevant), s);
    ApplyTwo(o2[0], o2[1], ApplyAll(o1, s));
    ApplyOptional(outs != [], AddOutputs(outs), ApplyAll(o1 + o2, s));
    ApplyOptional(ins != [], RemoveOutputs(ins, cfg.softDeleteUtxo), ApplyAll(o1 + o2 + o3, s));
    assert o2 == [o2[0], o2[1]];
  }

  lemma NoOps(m: Bucket, t: map<Key, Tx>)
    ensures PutAll(m, []) == m && DeleteKeys(m, []) == m && MarkKeys(m, []) == m && PutTxs(t, []) == t
  {}

  lemma {:induction false} ApplyConcat(a: seq<Op>, b: seq<Op>, s: Store)
    ensures ApplyAll(a + b, s) == ApplyAll(b, ApplyAll(a, s))
    decreases |b|
  {
    hide Apply;
    if b == [] {
      assert a + b == a;
    } else {
      assert (a + b)[..|a + b| - 1] == a + b[..|b| - 1];
      ApplyConcat(a, b[..|b| - 1], s);
    }
  }

  lemma ApplyOptional(present: bool, op: Op, s: Store)
    ensures ApplyAll(When(present, op), s) == if present then Apply(op, s) else s
  {
    hide Apply;
    assert [op][..0] == [];
  }

  lemma ApplyTwo(a: Op, b: Op, s: Store)
    ensures ApplyAll([a, b], s) == Apply(b, Apply(a, s))
  {
    hide Apply;
    ApplyOptional(true, a, s);
    assert [a, b][..1] == [a];
  }

  // ---------- RollForward, RollBackward, Reset ----------

  datatype Step = Step(memory: Memory, store: Store, outcome: Outcome)

  /** `RollForward`. With a full queue the oldest header is confirmed; a queue of size zero hands out Go's zero
      header and keeps nothing. */
  function Forward(cfg: Config, interest: set<string>, mem: Memory, s: Store, header: BlockHeader, env: Env): Step
  {
    if |mem.queue| != cfg.confirmationBlockCount then Step(mem.(queue := mem.queue + [header]), s, Done)
    else
      var first := if mem.queue == [] then ZeroHeader() else mem.queue[0];
      if env.retrieved.None? then Step(mem, s, ProcessFailed)
      else if ReadFails(env.readLimit, env.retrieved.value) then Step(mem, s, ProcessFailed)
      else
        var txs := Populate(s.txOuts, env.retrieved.value);
        if env.failure.Some? && env.failure.value <= |BlockOps(cfg, interest, first, txs)|
          then Step(mem, s, ProcessFailed)
        else
          Step(Memory(Some(PointOf(first)), if mem.queue == [] then [] else mem.queue[1..] + [header]),
               NextStore(cfg, interest, s, first, txs),
               if env.handlerOk then Done else HandlerFailed)
  }

  /** The place of a point in the queue, or -1. */
  function FindPoint(queue: seq<BlockHeader>, point: BlockPoint): (i: int)
    ensures -1 <= i < |queue|
    ensures i >= 0 ==> PointOf(queue[i]) == point && forall j :: 0 <= j < i ==> PointOf(queue[j]) != point
    ensures i < 0 ==> forall j :: 0 <= j < |queue| ==> PointOf(queue[j]) != point
  {
    if queue == [] then -1
    else if PointOf(queue[0]) == point then 0
    else var i := FindPoint(queue[1..], point);
      if i < 0 then -1
      else assert forall j :: 1 <= j < |queue| ==> queue[j] == queue[1..][j - 1]; i + 1
  }

  /** `RollBackward`; Go dereferences the latest point, so Reset must have been called. */
  function Backward(mem: Memory, point: BlockPoint): (Memory, Outcome)
    requires mem.latest.Some?
  {
    var i := FindPoint(mem.queue, point);
    if i != -1 then (mem.(queue := mem.queue[..i + 1]), Done)
    else if mem.latest.value == point then (mem.(queue := []), Done)
    else (mem, Fatal)
  }

  /** The point `Reset` resumes from. */
  function ResumePoint(cfg: Config, s: Store): BlockPoint
  {
    if s.latest.Some? then s.latest.value
    else if cfg.startingBlockPoint.Some? then cfg.startingBlockPoint.value
    else BlockPoint(0, ZeroHash())
  }

  function ResetMemory(cfg: Config, s: Store): Memory { Memory(Some(ResumePoint(cfg, s)), []) }
}
