/** The database of the indexer: buckets as maps over byte keys, and the writer that queues operations and executes
    them in one transaction (`indexer/db/bbolt`). Values are stored as records; bbolt and JSON are not modelled. */
module Stores {
  import opened Wrappers
  import opened Numbers
  import opened Keys
  import opened IndexerData

  type Bucket = map<Key, TxOutput>

  datatype Store = Store(txOuts: Bucket, latest: Option<BlockPoint>, unprocessed: map<Key, Tx>,
                         processed: map<Key, Tx>, confirmed: map<Key, CardanoBlock>)

  const EmptyStore := Store(map[], None, map[], map[], map[])

  /** One queued operation of the transaction writer. */
  datatype Op =
    | SetLatest(point: BlockPoint)
    | AddOutputs(outs: seq<TxInputOutput>)
    | AddBlock(block: CardanoBlock)
    | AddTxs(txs: seq<Tx>)
    | RemoveOutputs(inputs: seq<TxInput>, soft: bool)
    | DeleteAllOutputs

  /** The writer skips operations on empty lists. */
  function When(present: bool, op: Op): seq<Op> { if present then [op] else [] }

  function PutAll(m: Bucket, outs: seq<TxInputOutput>): Bucket
  {
    if outs == [] then m
    else var last := outs[|outs| - 1]; PutAll(m, outs[..|outs| - 1])[InputKey(last.input) := last.output]
  }

  function DeleteKeys(m: Bucket, inputs: seq<TxInput>): Bucket
  {
    if inputs == [] then m else DeleteKeys(m, inputs[..|inputs| - 1]) - {InputKey(inputs[|inputs| - 1])}
  }

  function MarkUsed(m: Bucket, k: Key): Bucket
  {
    if k in m then m[k := m[k].(isUsed := true)] else m
  }

  function MarkKeys(m: Bucket, inputs: seq<TxInput>): Bucket
  {
    if inputs == [] then m else MarkUsed(MarkKeys(m, inputs[..|inputs| - 1]), InputKey(inputs[|inputs| - 1]))
  }

  function PutTxs(m: map<Key, Tx>, txs: seq<Tx>): map<Key, Tx>
  {
    if txs == [] then m else PutTxs(m, txs[..|txs| - 1])[TxKey(txs[|txs| - 1]) := txs[|txs| - 1]]
  }

  /** What one operation does to the buckets. */
  function Apply(op: Op, s: Store): Store
  {
    match op
    case SetLatest(point) => s.(latest := Some(point))
    case AddOutputs(outs) => s.(txOuts := PutAll(s.txOuts, outs))
    case AddBlock(block) => s.(confirmed := s.confirmed[SlotKey(block.slot) := block])
    case AddTxs(txs) => s.(unprocessed := PutTxs(s.unprocessed, txs))
    case RemoveOutputs(inputs, soft) =>
      s.(txOuts := if soft then MarkKeys(s.txOuts, inputs) else DeleteKeys(s.txOuts, inputs))
    case DeleteAllOutputs => s.(txOuts := map[])
  }

  function ApplyAll(ops: seq<Op>, s: Store): Store
  {
    if ops == [] then s else Apply(ops[|ops| - 1], ApplyAll(ops[..|ops| - 1], s))
  }

  /** The database file; what is in `store` survives a crash. */
  class Database {
    var store: Store

    constructor ()
      ensures store == EmptyStore
    {
      store := EmptyStore;
    }

    method GetLatestBlockPoint() returns (point: Option<BlockPoint>)
      ensures point == store.latest
    {
      point := store.latest;
    }

    /** An unknown input yields the zero output, not an error. */
    method GetTxOutput(input: TxInput) returns (output: TxOutput)
      ensures output == if InputKey(input) in store.txOuts then store.txOuts[InputKey(input)]
                        else TxOutput("", 0, 0, [], false, [])
    {
      var key := InputKey(input);
      output := if key in store.txOuts then store.txOuts[key] else ZeroOutput;
    }

    method OpenTx() returns (tw: TransactionWriter)
      ensures fresh(tw) && tw.db == this && tw.operations == []
    {
      tw := new TransactionWriter(this);
    }

    /** Moves transactions from the unprocessed to the processed bucket, in one database transaction. */
    method MarkConfirmedTxsProcessed(txs: seq<Tx>)
      modifies this
      ensures store == MoveTxs(old(store), txs)
      ensures forall u :: HasTx(old(store).unprocessed, u) ==>
                (HasTx(store.unprocessed, u) <==> forall t :: t in txs ==> !SamePlace(t, u))
      ensures DistinctPlaces(txs) ==> forall t :: t in txs ==> HasTx(store.processed, t)
    {
      var work := store;
      for i := 0 to |txs|
        invariant work == MoveTxs(store, txs[..i]) && store == old(store)
      {
        assert txs[..i + 1][..i] == txs[..i];
        var key := TxKey(txs[i]);
        work := work.(unprocessed := work.unprocessed - {key});
        work := work.(processed := work.processed[key := txs[i]]);
      }
      assert txs[..|txs|] == txs;
      store := work;
      MarkedByPlace(old(store), txs);
    }
  }

  function MoveTxs(s: Store, txs: seq<Tx>): Store
  {
    if txs == [] then s
    else
      var last, s' := txs[|txs| - 1], MoveTxs(s, txs[..|txs| - 1]);
      s'.(unprocessed := s'.unprocessed - {TxKey(last)}, processed := s'.processed[TxKey(last) := last])
  }

  function KeysOf(txs: seq<Tx>): set<Key> { set t | t in txs :: TxKey(t) }

  /** Marking moves exactly the named transactions: nothing is lost and nothing else is touched. */
  lemma {:induction false} MoveConserves(s: Store, txs: seq<Tx>)
    ensures MoveTxs(s, txs).unprocessed == s.unprocessed - KeysOf(txs)
    ensures MoveTxs(s, txs).processed.Keys == s.processed.Keys + KeysOf(txs)
    ensures forall k :: k in s.processed && k !in KeysOf(txs) ==> MoveTxs(s, txs).processed[k] == s.processed[k]
    ensures MoveTxs(s, txs) == s.(unprocessed := MoveTxs(s, txs).unprocessed, processed := MoveTxs(s, txs).processed)
    decreases |txs|
  {
    hide TxKey, KeysOf;
    NoKeys();
    if txs != [] {
      MoveConserves(s, txs[..|txs| - 1]);
      KeysOfSnoc(txs);
    }
  }

  /** The transaction is in the bucket. */
  predicate HasTx(m: map<Key, Tx>, t: Tx) { TxKey(t) in m && m[TxKey(t)] == t }

  /** No two transactions have slot and index in common. */
  predicate DistinctPlaces(txs: seq<Tx>) { forall i, j :: 0 <= i < j < |txs| ==> !SamePlace(txs[i], txs[j]) }

  /** Said of transactions instead of keys: an unprocessed transaction stays unless one with its slot and index is
      marked, and marked ones are processed. */
  lemma MarkedByPlace(s: Store, txs: seq<Tx>)
    ensures forall u :: HasTx(s.unprocessed, u) ==>
              (HasTx(MoveTxs(s, txs).unprocessed, u) <==> forall t :: t in txs ==> !SamePlace(t, u))
    ensures DistinctPlaces(txs) ==> forall t :: t in txs ==> HasTx(MoveTxs(s, txs).processed, t)
  {
    hide MoveTxs, TxKey;
    MoveConserves(s, txs);
    forall u | HasTx(s.unprocessed, u)
      ensures HasTx(MoveTxs(s, txs).unprocessed, u) <==> forall t :: t in txs ==> !SamePlace(t, u)
    {
      forall t | t in txs ensures TxKey(t) == TxKey(u) <==> SamePlace(t, u) { TxKeyMeaning(t, u); }
    }
    if DistinctPlaces(txs) {
      forall t | t in txs ensures HasTx(MoveTxs(s, txs).processed, t) { ProcessedByPlace(s, txs, t); }
    }
  }

  lemma {:induction false} ProcessedByPlace(s: Store, txs: seq<Tx>, t: Tx)
    requires DistinctPlaces(txs) && t in txs
    ensures HasTx(MoveTxs(s, txs).processed, t)
    decreases |txs|
  {
    hide TxKey;
    var n := |txs| - 1;
    if txs[n] != t {
      ProcessedByPlace(s, txs[..n], t);
      TxKeyMeaning(txs[n], t);
    }
  }

  /** Adding transactions at different places loses none of them. */
  lemma {:induction false} AddedByPlace(m: map<Key, Tx>, txs: seq<Tx>, t: Tx)
    requires DistinctPlaces(txs)
    ensures t in txs ==> HasTx(PutTxs(m, txs), t)
    ensures HasTx(m, t) && (forall u :: u in txs ==> !SamePlace(u, t)) ==> HasTx(PutTxs(m, txs), t)
    ensures HasTx(PutTxs(m, txs), t) ==> HasTx(m, t) || t in txs
    decreases |txs|
  {
    hide TxKey;
    if txs != [] {
      var n := |txs| - 1;
      AddedByPlace(m, txs[..n], t);
      TxKeyMeaning(txs[n], t);
      assert txs == txs[..n] + [txs[n]];
    }
  }

  lemma NoKeys()
    ensures KeysOf([]) == {}
  {}

  lemma KeysOfSnoc(txs: seq<Tx>)
    requires txs != []
    ensures KeysOf(txs) == KeysOf(txs[..|txs| - 1]) + {TxKey(txs[|txs| - 1])}
  {
    hide TxKey;
    assert txs == txs[..|txs| - 1] + [txs[|txs| - 1]];
  }

  class TransactionWriter {
    const db: Database
    var operations: seq<Op>

    constructor (db: Database)
      ensures this.db == db && operations == []
    {
      this.db, operations := db, [];
    }

    method SetLatestBlockPoint(point: BlockPoint)
      modifies this
      ensures operations == old(operations) + [SetLatest(point)]
    {
      operations := operations + [SetLatest(point)];
    }

    method AddTxOutputs(txOutputs: seq<TxInputOutput>)
      modifies this
      ensures operations == old(operations) + When(txOutputs != [], AddOutputs(txOutputs))
    {
      if |txOutputs| != 0 {
        operations := operations + [AddOutputs(txOutputs)];
      }
    }

    method AddConfirmedBlock(block: CardanoBlock)
      modifies this
      ensures operations == old(operations) + [AddBlock(block)]
    {
      operations := operations + [AddBlock(block)];
    }

    method AddConfirmedTxs(txs: seq<Tx>)
      modifies this
      ensures operations == old(operations) + When(txs != [], AddTxs(txs))
    {
      if |txs| != 0 {
        operations := operations + [AddTxs(txs)];
      }
    }

    method RemoveTxOutputs(txInputs: seq<TxInput>, softDelete: bool)
      modifies this
      ensures operations == old(operations) + When(txInputs != [], RemoveOutputs(txInputs, softDelete))
    {
      if |txInputs| != 0 {
        operations := operations + [RemoveOutputs(txInputs, softDelete)];
      }
    }

    method DeleteAllTxOutputsPhysically()
      modifies this
      ensures operations == old(operations) + [DeleteAllOutputs]
    {
      operations := operations + [DeleteAllOutputs];
    }

    /** All queued operations in one transaction. `failure` is the operation that fails, if any; one beyond the end
        stands for a failing commit. The queue is emptied either way. */
    method Execute(failure: Option<nat>) returns (ok: bool)
      modifies this, db
      ensures operations == []
      ensures ok <==> failure.None? || failure.value > |old(operations)|
      ensures db.store == if ok then ApplyAll(old(operations), old(db.store)) else old(db.store)
      ensures ok && old(operations) != [] && old(operations)[|old(operations)| - 1].DeleteAllOutputs? ==>
                db.store.txOuts == map[]
    {
      var ops := operations;
      operations := [];
      var work := db.store;
      for i := 0 to |ops|
        invariant failure.None? || i <= failure.value
        invariant work == ApplyAll(ops[..i], old(db.store)) && db.store == old(db.store) && operations == []
      {
        if failure == Some(i) {
          return false;
        }
        assert ops[..i + 1][..i] == ops[..i];
        work := RunOp(ops[i], work);
      }
      assert ops[..|ops|] == ops;
      if failure == Some(|ops|) {
        return false;
      }
      db.store := work;
      return true;
    }
  }

  /** The bodies of the queued closures, run against the buckets of the open transaction. */
  method RunOp(op: Op, s: Store) returns (r: Store)
    ensures r == Apply(op, s)
  {
    r := s;
    match op {
      case SetLatest(point) => r := r.(latest := Some(point));
      case AddBlock(block) => r := r.(confirmed := r.confirmed[SlotKey(block.slot) := block]);
      case DeleteAllOutputs => r := r.(txOuts := map[]);
      case AddOutputs(outs) =>
        var bucket := s.txOuts;
        for i := 0 to |outs|
          invariant bucket == PutAll(s.txOuts, outs[..i])
        {
          assert outs[..i + 1][..i] == outs[..i];
          bucket := bucket[InputKey(outs[i].input) := outs[i].output];
        }
        assert outs[..|outs|] == outs;
        r := r.(txOuts := bucket);
      case AddTxs(txs) =>
        var bucket := s.unprocessed;
        for i := 0 to |txs|
          invariant bucket == PutTxs(s.unprocessed, txs[..i])
        {
          assert txs[..i + 1][..i] == txs[..i];
          bucket := bucket[TxKey(txs[i]) := txs[i]];
        }
        assert txs[..|txs|] == txs;
        r := r.(unprocessed := bucket);
      case RemoveOutputs(inputs, soft) =>
        var bucket := s.txOuts;
        for i := 0 to |inputs|
          invariant bucket == if soft then MarkKeys(s.txOuts, inputs[..i]) else DeleteKeys(s.txOuts, inputs[..i])
        {
          assert inputs[..i + 1][..i] == inputs[..i];
          var key := InputKey(inputs[i]);
          if !soft {
            bucket := bucket - {key};
          } else if key in bucket {
            bucket := bucket[key := bucket[key].(isUsed := true)];
          }
        }
        assert inputs[..|inputs|] == inputs;
        r := r.(txOuts := bucket);
    }
  }
}
