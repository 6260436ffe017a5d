/** The loops of `bech32Polymod` (`wallet/bech32/bech32.go`), proved to run the register of module Bech32Checksum. */
module Bech32Register {
  import opened Wrappers
  import opened Bech32Checksum

  /** The block repeated in every loop of `bech32Polymod`. */
  method Round(chk: Word, v: bv8) returns (r: Word)
    ensures r == Feed(chk, v)
  {
    var b := chk >> 25;
    r := Shifted(chk, v as Word);
    XorUnit(r);
    for i := 0 to 5
      invariant r == Xor(Shifted(chk, v as Word), Feedback(b, i))
    {
      RoundTap(Shifted(chk, v as Word), b, i);
      if BitSet(b, i) {
        r := Xor(r, Generator(i));
      }
    }
  }

  lemma RoundTap(x: Word, b: Word, i: nat)
    requires i < 5
    ensures Xor(x, Feedback(b, i + 1)) ==
            if BitSet(b, i) then Xor(Xor(x, Feedback(b, i)), Generator(i)) else Xor(x, Feedback(b, i))
  {
    hide Xor, BitSet, Generator;
    XorAssoc(x, Feedback(b, i), Tap(b, i));
    XorUnit(Feedback(b, i));
  }

  /** Runs the register over a symbol sequence. */
  method FoldLoop(chk: Word, vs: seq<bv8>) returns (r: Word)
    ensures r == Fold(chk, vs)
  {
    hide Feed;
    r := chk;
    for i := 0 to |vs|
      invariant r == Fold(chk, vs[..i])
    {
      assert vs[..i + 1][..i] == vs[..i];
      r := Round(r, vs[i]);
    }
    assert vs[..|vs|] == vs;
  }

  method ComputePolymod(hrp: seq<bv8>, values: seq<bv8>, checksum: Option<seq<bv8>>) returns (chk: Word)
    ensures chk == Polymod(hrp, values, checksum)
  {
    hide Feed;
    chk := 1;
    for i := 0 to |hrp|
      invariant chk == Fold(1, HighBits(hrp)[..i])
    {
      assert HighBits(hrp)[..i + 1][..i] == HighBits(hrp)[..i];
      chk := Round(chk, High(hrp[i]));
    }
    assert HighBits(hrp)[..|hrp|] == HighBits(hrp);
    chk := Round(chk, 0);
    FoldConcat(1, HighBits(hrp), [0]);
    assert [0 as bv8][..0] == [];
    ghost var c := chk;
    for i := 0 to |hrp|
      invariant chk == Fold(c, LowBits(hrp)[..i])
    {
      assert LowBits(hrp)[..i + 1][..i] == LowBits(hrp)[..i];
      chk := Round(chk, Low(hrp[i]));
    }
    assert LowBits(hrp)[..|hrp|] == LowBits(hrp);
    FoldConcat(1, HighBits(hrp) + [0], LowBits(hrp));
    chk := FinishPolymod(chk, values, checksum);
    ghost var cs := if checksum.None? then Zeros(6) else checksum.value;
    FoldConcat(1, ExpandHrp(hrp), values + cs);
    assert ExpandHrp(hrp) + (values + cs) == ExpandHrp(hrp) + values + cs;
  }

  /** The last two loops: the values, then the checksum or six zeros. */
  method FinishPolymod(c: Word, values: seq<bv8>, checksum: Option<seq<bv8>>) returns (chk: Word)
    ensures chk == Fold(c, values + (if checksum.None? then Zeros(6) else checksum.value))
  {
    hide Feed;
    chk := FoldLoop(c, values);
    FoldConcat(c, values, if checksum.None? then Zeros(6) else checksum.value);
    match checksum {
      case None =>
        for v := 0 to 6
          invariant chk == Fold(Fold(c, values), Zeros(6)[..v])
        {
          assert Zeros(6)[..v + 1][..v] == Zeros(6)[..v];
          chk := Round(chk, 0);
        }
        assert Zeros(6)[..6] == Zeros(6);
      case Some(cs) =>
        chk := FoldLoop(chk, cs);
    }
  }
}
