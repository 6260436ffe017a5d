/** The outputs of a transaction under construction (`wallet/transaction.go`). Negative indices count from the end. */
module TxBuilders {
  import opened Wrappers
  import opened Numbers
  import opened WalletData
  import opened TokenLists

  class TxBuilder {
    var inputs: seq<TxInput>
    var outputs: seq<TxOutput>
    var fee: U64
    var timeToLive: U64

    constructor ()
      ensures inputs == [] && outputs == [] && fee == 0 && timeToLive == 0
    {
      inputs, outputs, fee, timeToLive := [], [], 0, 0;
    }

    /** Where an index points to. */
    function Position(index: int): int
      reads this
    {
      if index < 0 then |outputs| + index else index
    }

    method SetFee(fee: U64)
      modifies this`fee
      ensures this.fee == fee
    {
      this.fee := fee;
    }

    method SetTimeToLive(timeToLive: U64)
      modifies this`timeToLive
      ensures this.timeToLive == timeToLive
    {
      this.timeToLive := timeToLive;
    }

    method AddInputs(more: seq<TxInput>)
      modifies this`inputs
      ensures inputs == old(inputs) + more
    {
      var n := |inputs|;
      for i := 0 to |more|
        invariant inputs == old(inputs) + more[..i]
      {
        inputs := inputs + [more[i]];
      }
      assert more[..|more|] == more;
    }

    method AddOutputs(more: seq<TxOutput>)
      modifies this`outputs
      ensures outputs == old(outputs) + more
    {
      outputs := outputs + more;
    }

    /** Sets the lovelace of an output and the amounts of its first tokens; what else is given is ignored. */
    method UpdateOutputAmount(index: int, amount: U64, tokenAmounts: seq<U64>)
      requires 0 <= Position(index) < |outputs|
      modifies this`outputs
      ensures |outputs| == |old(outputs)|
      ensures forall k :: 0 <= k < |outputs| && k != old(Position(index)) ==> outputs[k] == old(outputs)[k]
      ensures var k := old(Position(index));
              && outputs[k] == TxOutput(old(outputs)[k].addr, amount, outputs[k].tokens)
              && |outputs[k].tokens| == |old(outputs)[k].tokens|
              && forall i :: 0 <= i < |outputs[k].tokens| ==>
                   outputs[k].tokens[i] == old(outputs)[k].tokens[i].(
                     amount := if i < |tokenAmounts| then tokenAmounts[i] else old(outputs)[k].tokens[i].amount)
    {
      var k := Position(index);
      var before := outputs;
      var tokens := outputs[k].tokens;
      for i := 0 to |tokenAmounts|
        invariant |tokens| == |before[k].tokens|
        invariant forall j :: 0 <= j < |tokens| ==>
                    tokens[j] == before[k].tokens[j].(
                      amount := if j < i then tokenAmounts[j] else before[k].tokens[j].amount)
      {
        if |tokens| > i {
          tokens := tokens[i := tokens[i].(amount := tokenAmounts[i])];
        }
      }
      outputs := outputs[k := TxOutput(outputs[k].addr, amount, tokens)];
    }

    method RemoveOutput(index: int)
      requires 0 <= Position(index) < |outputs|
      modifies this`outputs
      ensures outputs == old(outputs)[..old(Position(index))] + old(outputs)[old(Position(index)) + 1..]
    {
      var k := Position(index);
      outputs := outputs[..k] + outputs[k + 1..];
    }

    /** Every output needs an amount. */
    method CheckOutputs() returns (ok: bool)
      ensures ok <==> forall i :: 0 <= i < |outputs| ==> outputs[i].amount != 0
    {
      ok := true;
      for i := 0 to |outputs|
        invariant ok <==> forall j :: 0 <= j < i ==> outputs[j].amount != 0
      {
        if outputs[i].amount == 0 {
          ok := false;
        }
      }
    }
  }
}
