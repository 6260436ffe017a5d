/** Soft deletion simulates hard deletion: hiding the used entries of the soft-deleted bucket gives the hard-deleted
    one, after any sequence of writer operations. */
module SoftDelete {
  import opened Wrappers
  import opened Keys
  import opened IndexerData
  import opened Stores
  import opened UtxoReplay
  import opened Queries

  function Unused(m: Bucket): Bucket { map x | x in m && !m[x].isUsed :: m[x] }

  /** The same operations with every removal made soft, or hard. */
  function WithMode(ops: seq<Op>, soft: bool): (r: seq<Op>)
    ensures |r| == |ops| && forall i :: 0 <= i < |ops| ==> r[i] == ModeOf(ops[i], soft)
  {
    seq(|ops|, i requires 0 <= i < |ops| => ModeOf(ops[i], soft))
  }

  function ModeOf(op: Op, soft: bool): Op
  {
    if op.RemoveOutputs? then RemoveOutputs(op.inputs, soft) else op
  }

  /** Outputs are added unused. */
  predicate AddsUnused(op: Op)
  {
    op.AddOutputs? ==> forall i :: 0 <= i < |op.outs| ==> !op.outs[i].output.isUsed
  }

  /** The two databases agree up to used entries. */
  predicate Simulates(soft: Store, hard: Store)
  {
    Unused(soft.txOuts) == hard.txOuts && soft.latest == hard.latest && soft.unprocessed == hard.unprocessed
    && soft.processed == hard.processed && soft.confirmed == hard.confirmed
  }

  lemma GetUnused(m: Bucket, x: Key)
    ensures Get(Unused(m), x) == if Get(m, x).Some? && !Get(m, x).value.isUsed then Get(m, x) else None
  {
    assert x in Unused(m) <==> x in m && !m[x].isUsed;
  }

  lemma {:induction false} GetMarkKeys(m: Bucket, inputs: seq<TxInput>, x: Key)
    ensures Get(MarkKeys(m, inputs), x) ==
            if Get(m, x).Some? && Names(inputs, x) then Some(m[x].(isUsed := true)) else Get(m, x)
    decreases |inputs|
  {
    hide InputKey, Names;
    if inputs == [] {
      NothingNamed(x);
    } else {
      var n := |inputs| - 1;
      GetMarkKeys(m, inputs[..n], x);
      assert inputs == inputs[..n] + [inputs[n]];
      NamesConcat(inputs[..n], [inputs[n]], x);
      NamesSingle(inputs[n], x);
    }
  }

  lemma {:induction false} LastPutUnused(outs: seq<TxInputOutput>, x: Key)
    requires forall i :: 0 <= i < |outs| ==> !outs[i].output.isUsed
    ensures LastPut(outs, x).Some? ==> !LastPut(outs, x).value.isUsed
    decreases |outs|
  {
    hide InputKey;
    if outs != [] {
      LastPutUnused(outs[..|outs| - 1], x);
    }
  }

  /** One operation keeps the simulation. */
  lemma SimulationStep(op: Op, soft: Store, hard: Store)
    requires Simulates(soft, hard) && AddsUnused(op)
    ensures Simulates(Apply(ModeOf(op, true), soft), Apply(ModeOf(op, false), hard))
  {
    hide PutAll, DeleteKeys, MarkKeys, Unused, Get, LastPut, Names, PutTxs, SlotKey;
    match op {
      case AddOutputs(outs) =>
        forall x: Key ensures Get(Unused(PutAll(soft.txOuts, outs)), x) == Get(PutAll(hard.txOuts, outs), x) {
          GetPutAll(soft.txOuts, outs, x);
          GetPutAll(hard.txOuts, outs, x);
          GetUnused(PutAll(soft.txOuts, outs), x);
          GetUnused(soft.txOuts, x);
          LastPutUnused(outs, x);
        }
        SameBuckets(Unused(PutAll(soft.txOuts, outs)), PutAll(hard.txOuts, outs));
      case RemoveOutputs(inputs, _) =>
        forall x: Key ensures Get(Unused(MarkKeys(soft.txOuts, inputs)), x) == Get(DeleteKeys(hard.txOuts, inputs), x) {
          GetMarkKeys(soft.txOuts, inputs, x);
          GetDeleteKeys(hard.txOuts, inputs, x);
          GetUnused(MarkKeys(soft.txOuts, inputs), x);
          GetUnused(soft.txOuts, x);
        }
        SameBuckets(Unused(MarkKeys(soft.txOuts, inputs)), DeleteKeys(hard.txOuts, inputs));
      case DeleteAllOutputs =>
        UnusedNothing();
      case _ =>
    }
  }

  lemma UnusedNothing()
    ensures Unused(map[]) == map[]
  {}

  /** After any operations, executed softly on one side and hard on the other, the two databases still agree. */
  lemma {:induction false} SoftSimulatesHard(ops: seq<Op>, soft: Store, hard: Store)
    requires Simulates(soft, hard) && forall i :: 0 <= i < |ops| ==> AddsUnused(ops[i])
    ensures Simulates(ApplyAll(WithMode(ops, true), soft), ApplyAll(WithMode(ops, false), hard))
    decreases |ops|
  {
    hide Apply, Simulates, AddsUnused, ModeOf;
    if ops != [] {
      var n := |ops| - 1;
      SoftSimulatesHard(ops[..n], soft, hard);
      assert WithMode(ops, true)[..n] == WithMode(ops[..n], true);
      assert WithMode(ops, false)[..n] == WithMode(ops[..n], false);
      SimulationStep(ops[n], ApplyAll(WithMode(ops[..n], true), soft), ApplyAll(WithMode(ops[..n], false), hard));
    }
  }

  /** So asking for the unused outputs of an address gives the same list, in the same order, in both modes. */
  lemma SameAnswers(soft: Store, hard: Store, address: string, a: seq<TxInputOutput>, b: seq<TxInputOutput>)
    requires Simulates(soft, hard)
    requires IsAnswer(soft.txOuts, address, true, a) && IsAnswer(hard.txOuts, address, true, b)
    ensures a == b
  {
    hide Sorted, InputKey;
    forall e
      ensures e in a <==> e in b
    {
      var x := InputKey(e.input);
      assert x in Unused(soft.txOuts) <==> x in soft.txOuts && !soft.txOuts[x].isUsed;
      assert x in hard.txOuts ==> hard.txOuts[x] == soft.txOuts[x];
      assert e in a <==> Matches(soft.txOuts, address, true, e);
      assert e in b <==> Matches(hard.txOuts, address, true, e);
    }
    SortedUnique(a, b);
  }

  lemma {:induction false} PutKeepsKeys(m: Bucket, outs: seq<TxInputOutput>)
    requires InputKeysOnly(m)
    ensures InputKeysOnly(PutAll(m, outs))
    decreases |outs|
  {
    hide InputKey;
    if outs != [] {
      PutKeepsKeys(m, outs[..|outs| - 1]);
      KeyHash(outs[|outs| - 1].input);
    }
  }

  lemma {:induction false} RemoveKeepsKeys(m: Bucket, inputs: seq<TxInput>)
    requires InputKeysOnly(m)
    ensures InputKeysOnly(DeleteKeys(m, inputs)) && InputKeysOnly(MarkKeys(m, inputs))
    decreases |inputs|
  {
    hide InputKey;
    if inputs != [] {
      RemoveKeepsKeys(m, inputs[..|inputs| - 1]);
    }
  }

  /** The writer makes only keys of inputs. */
  lemma {:induction false} WriterKeepsKeys(ops: seq<Op>, s: Store)
    requires InputKeysOnly(s.txOuts)
    ensures InputKeysOnly(ApplyAll(ops, s).txOuts)
    decreases |ops|
  {
    hide PutAll, DeleteKeys, MarkKeys, PutTxs, InputKeysOnly;
    if ops != [] {
      var front := ApplyAll(ops[..|ops| - 1], s);
      WriterKeepsKeys(ops[..|ops| - 1], s);
      match ops[|ops| - 1] {
        case AddOutputs(outs) => PutKeepsKeys(front.txOuts, outs);
        case RemoveOutputs(inputs, _) => RemoveKeepsKeys(front.txOuts, inputs);
        case DeleteAllOutputs => assert InputKeysOnly(map[]) by { NoBadKeys(); }
        case _ =>
      }
    }
  }

  lemma NoBadKeys()
    ensures InputKeysOnly(map[])
  {}

  /** From an empty database on, whatever was written softly on one side and hard on the other: both sides answer the
      query for the unused outputs of an address, and with the same list. */
  lemma BothModesAnswer(ops: seq<Op>, address: string, a: Option<seq<TxInputOutput>>, b: Option<seq<TxInputOutput>>)
    requires forall i :: 0 <= i < |ops| ==> AddsUnused(ops[i])
    requires IsReply(ApplyAll(WithMode(ops, true), EmptyStore).txOuts, address, true, a)
    requires IsReply(ApplyAll(WithMode(ops, false), EmptyStore).txOuts, address, true, b)
    ensures a.Some? && a == b
  {
    hide ApplyAll, AddsUnused, IsAnswer;
    UnusedNothing();
    NoBadKeys();
    SoftSimulatesHard(ops, EmptyStore, EmptyStore);
    WriterKeepsKeys(WithMode(ops, true), EmptyStore);
    WriterKeepsKeys(WithMode(ops, false), EmptyStore);
    var soft, hard := ApplyAll(WithMode(ops, true), EmptyStore), ApplyAll(WithMode(ops, false), EmptyStore);
    SameAnswers(soft, hard, address, a.value, b.value);
  }
}
