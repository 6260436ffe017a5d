/** The variable-length integers of pointer addresses (CIP-19, section "Pointers"), most significant group first. */
module Varint {
  import opened Wrappers
  import opened Sequences

  type Word = bv64

  function Low7(x: Word): (b: bv8)
    ensures b < 128
  {
    (x & 0x7F) as bv8
  }

  /** A group with the continuation bit. */
  function Mark(b: bv8): bv8 { b | 0x80 }

  /** Division by 128. */
  function Down(x: Word): Word { x >> 7 }

  /** The accumulator of the reader; the shift drops bits above 64 as Go's does. */
  function Append(acc: Word, b: bv8): Word { (acc << 7) | ((b & 0x7F) as Word) }

  predicate Continues(b: bv8) { b & 0x80 != 0 }

  /** The accumulator can take another group without losing a bit. */
  predicate HasRoom(acc: Word) { acc < 0x200000000000000 }

  lemma DownSmaller(x: Word)
    ensures x != 0 ==> Down(x) < x
    ensures HasRoom(Down(x))
  {}

  /** The groups above the lowest one, each with the continuation bit. */
  function High(x: Word): seq<bv8>
  {
    DownSmaller(x);
    if x == 0 then [] else High(Down(x)) + [Mark(Low7(x))]
  }

  /** `variableEncode`. */
  function Encode(x: Word): seq<bv8> { High(Down(x)) + [Low7(x)] }

  /** `readOne`: the value and the number of bytes read, or nothing if no byte ends the number. */
  function Read(raw: seq<bv8>, acc: Word): Option<(Word, nat)>
  {
    if raw == [] then None
    else
      var acc' := Append(acc, raw[0]);
      if !Continues(raw[0]) then Some((acc', 1))
      else match Read(raw[1..], acc')
           case None => None
           case Some((v, n)) => Some((v, n + 1))
  }

  /** The accumulator after a run of groups. */
  function Acc(bs: seq<bv8>): Word
  {
    if bs == [] then 0 else Append(Acc(bs[..|bs| - 1]), bs[|bs| - 1])
  }

  // ---------- facts about single groups ----------

  lemma AppendLow(x: Word)
    ensures Append(Down(x), Low7(x)) == x && Append(Down(x), Mark(Low7(x))) == x
    ensures Continues(Mark(Low7(x))) && !Continues(Low7(x))
  {}

  lemma AppendSplit(acc: Word, b: bv8)
    requires HasRoom(acc)
    ensures Down(Append(acc, b)) == acc
    ensures Continues(b) ==> Mark(Low7(Append(acc, b))) == b
    ensures !Continues(b) ==> Low7(Append(acc, b)) == b
    ensures acc != 0 || b != 0x80 ==> Continues(b) ==> Append(acc, b) != 0
  {}

  // ---------- reading back what was written ----------

  predicate AllContinue(bs: seq<bv8>) { forall i :: 0 <= i < |bs| ==> Continues(bs[i]) }

  lemma {:induction false} HighShape(x: Word)
    ensures AllContinue(High(x)) && Acc(High(x)) == x
    ensures High(x) != [] ==> High(x)[0] != 0x80
    decreases |High(x)|
  {
    hide Append, Mark, Low7, Continues, Down;
    DownSmaller(x);
    if x != 0 {
      HighShape(Down(x));
      AppendLow(x);
      if Down(x) == 0 {
        FirstGroup(x);
      }
    }
  }

  lemma FirstGroup(x: Word)
    requires x != 0 && Down(x) == 0
    ensures Mark(Low7(x)) != 0x80
  {}

  /** Reading through continuing groups only moves the accumulator. */
  lemma {:induction false} ReadThrough(hs: seq<bv8>, rest: seq<bv8>)
    requires AllContinue(hs)
    ensures Read(hs + rest, 0) == match Read(rest, Acc(hs)) case None => None case Some((v, n)) => Some((v, n + |hs|))
    decreases |hs|
  {
    hide Append, Continues;
    if hs == [] {
      assert hs + rest == rest;
    } else {
      var m := |hs| - 1;
      ReadThrough(hs[..m], hs[m..] + rest);
      assert hs[..m] + (hs[m..] + rest) == hs + rest;
      assert (hs[m..] + rest)[1..] == rest;
    }
  }

  lemma ReadLast(last: bv8, rest: seq<bv8>, acc: Word)
    requires !Continues(last)
    ensures Read([last] + rest, acc) == Some((Append(acc, last), 1))
  {
    hide Append, Continues;
  }

  /** Every value comes back exactly, whatever follows it. */
  lemma ReadOfEncoded(x: Word, rest: seq<bv8>)
    ensures Read(Encode(x) + rest, 0) == Some((x, |Encode(x)|))
  {
    hide Append, Continues, Low7, Mark, Down, Read, High, Acc, AllContinue;
    HighShape(Down(x));
    AppendLow(x);
    ReadThrough(High(Down(x)), [Low7(x)] + rest);
    ReadLast(Low7(x), rest, Down(x));
    assert High(Down(x)) + ([Low7(x)] + rest) == Encode(x) + rest;
  }

  // ---------- writing back what was read ----------

  /** No padding group in front, and no bit shifted out of the accumulator: what a reader can check on the way. */
  predicate Minimal(seg: seq<bv8>)
  {
    seg != [] && seg[0] != 0x80 && forall j :: 0 <= j < |seg| ==> HasRoom(Acc(seg[..j]))
  }

  lemma AccSnoc(hs: seq<bv8>, b: bv8)
    ensures Acc(hs + [b]) == Append(Acc(hs), b)
  {
    hide Append;
    assert (hs + [b])[..|hs|] == hs;
  }

  /** What was read is a run of continuing groups and a final one. */
  lemma {:induction false} ReadShape(raw: seq<bv8>, hs: seq<bv8>)
    requires AllContinue(hs) && Read(raw, Acc(hs)).Some?
    ensures var (v, n) := Read(raw, Acc(hs)).value;
            1 <= n <= |raw| && AllContinue(hs + raw[..n - 1]) && !Continues(raw[n - 1]) && v == Acc(hs + raw[..n])
    decreases |raw|
  {
    hide Append, Continues, Acc;
    var hs' := hs + [raw[0]];
    AccSnoc(hs, raw[0]);
    if Continues(raw[0]) {
      ReadShape(raw[1..], hs');
      var (v, n) := Read(raw[1..], Acc(hs')).value;
      assert hs' + raw[1..][..n - 1] == hs + raw[..n];
      assert hs' + raw[1..][..n] == hs + raw[..n + 1];
    } else {
      assert hs + raw[..0] == hs;
      assert hs + raw[..1] == hs';
    }
  }

  lemma {:induction false} HighOfAcc(hs: seq<bv8>)
    requires AllContinue(hs) && (hs != [] ==> hs[0] != 0x80)
    requires forall j :: 0 <= j < |hs| ==> HasRoom(Acc(hs[..j]))
    ensures High(Acc(hs)) == hs
    decreases |hs|
  {
    hide Append, Continues, Low7, Mark, Down, HasRoom;
    if hs != [] {
      var m := |hs| - 1;
      forall j | 0 <= j < m ensures HasRoom(Acc(hs[..m][..j])) { assert hs[..m][..j] == hs[..j]; }
      HighOfAcc(hs[..m]);
      AppendSplit(Acc(hs[..m]), hs[m]);
      if m > 0 {
        assert hs[..m] != [] && Acc(hs[..m]) != 0;
      }
      assert hs == hs[..m] + [hs[m]];
    }
  }

  lemma {:induction false} RoomInHigh(x: Word, j: nat)
    requires HasRoom(x) && j <= |High(x)|
    ensures HasRoom(Acc(High(x)[..j]))
    decreases |High(x)|
  {
    hide Append, Continues, Low7, Mark, Down, HasRoom, Acc;
    DownSmaller(x);
    if j == |High(x)| {
      HighShape(x);
      assert High(x)[..j] == High(x);
    } else {
      assert High(x)[..j] == High(Down(x))[..j];
      RoomInHigh(Down(x), j);
    }
  }

  /** What was read is written back exactly when it was minimal. */
  lemma EncodeOfRead(raw: seq<bv8>)
    requires Read(raw, 0).Some?
    ensures var (v, n) := Read(raw, 0).value; 1 <= n <= |raw| && (Encode(v) == raw[..n] <==> Minimal(raw[..n]))
  {
    hide Read, Acc, AllContinue, Minimal, Encode;
    assert Acc([]) == 0 && AllContinue([]) by { EmptyRun(); }
    ReadShape(raw, []);
    var (v, n) := Read(raw, 0).value;
    var hs := raw[..n - 1];
    assert [] + hs == hs && [] + raw[..n] == hs + [raw[n - 1]] == raw[..n];
    if Minimal(raw[..n]) {
      MinimalEncoded(hs, raw[n - 1]);
    }
    if Encode(v) == raw[..n] {
      EncodedMinimal(v);
    }
  }

  lemma EmptyRun()
    ensures Acc([]) == 0 && AllContinue([])
  {}

  lemma MinimalEncoded(hs: seq<bv8>, last: bv8)
    requires AllContinue(hs) && !Continues(last) && Minimal(hs + [last])
    ensures Encode(Acc(hs + [last])) == hs + [last]
  {
    hide Append, Continues, Low7, Mark, Down, HasRoom, High;
    var seg := hs + [last];
    forall j | 0 <= j <= |hs| ensures HasRoom(Acc(hs[..j])) { assert hs[..j] == seg[..j]; }
    assert hs == hs[..|hs|] == seg[..|hs|];
    HighOfAcc(hs);
    AppendSplit(Acc(hs), last);
  }

  lemma EncodedMinimal(x: Word)
    ensures Minimal(Encode(x))
  {
    hide Append, Continues, Low7, Mark, Down, HasRoom, High, Acc;
    var hs := High(Down(x));
    HighShape(Down(x));
    DownSmaller(x);
    NotMarked(x);
    forall j | 0 <= j < |Encode(x)| ensures HasRoom(Acc(Encode(x)[..j])) {
      RoomInHigh(Down(x), j);
      assert Encode(x)[..j] == hs[..j];
    }
  }

  lemma NotMarked(x: Word)
    ensures Low7(x) != 0x80
  {}

  // ---------- the loops ----------

  lemma HighUnfold(x: Word)
    ensures High(x) == if x == 0 then [] else High(Down(x)) + [Mark(Low7(x))]
  {
    hide Mark, Low7, Down;
  }

  method VariableEncode(x: Word) returns (r: seq<bv8>)
    ensures r == Encode(x)
  {
    hide Low7, Mark, Down, High;
    var num := x;
    var output := [Low7(num)];
    num := Down(num);
    assert Reverse(output) == output;
    while num != 0
      invariant Encode(x) == High(num) + Reverse(output)
      decreases |High(num)|
    {
      HighUnfold(num);
      ghost var was := output;
      output := output + [Mark(Low7(num))];
      assert Reverse(output) == [Mark(Low7(num))] + Reverse(was);
      num := Down(num);
    }
    HighUnfold(num);
    assert Encode(x) == Reverse(output);
    r := ReverseInPlace(output);
  }

  /** The swapping loop at the end of `variableEncode`. */
  method ReverseInPlace(output: seq<bv8>) returns (r: seq<bv8>)
    ensures r == Reverse(output)
  {
    var a := new bv8[|output|](i requires 0 <= i < |output| => output[i]);
    var i, j := 0, |output| - 1;
    while i < j
      invariant 0 <= i && i + j == |output| - 1 && i <= j + 2
      invariant forall k :: 0 <= k < |output| && (k < i || k > j) ==> a[k] == output[|output| - 1 - k]
      invariant forall k :: i <= k <= j ==> a[k] == output[k]
    {
      a[i], a[j] := a[j], a[i];
      i, j := i + 1, j - 1;
    }
    r := a[..];
  }

  method ReadOne(raw: seq<bv8>) returns (r: Option<(Word, nat)>)
    ensures r == Read(raw, 0)
  {
    hide Append, Continues;
    var result: Word, bytesReadCnt: nat := 0, 0;
    for i := 0 to |raw|
      invariant bytesReadCnt == i
      invariant Read(raw, 0) == match Read(raw[i..], result) case None => None case Some((v, n)) => Some((v, n + i))
    {
      result := Append(result, raw[i]);
      bytesReadCnt := bytesReadCnt + 1;
      assert raw[i..][1..] == raw[i + 1..] && raw[i..][0] == raw[i];
      if !Continues(raw[i]) {
        return Some((result, bytesReadCnt));
      }
    }
    return None;
  }

  lemma PlainZero(rest: seq<bv8>)
    ensures Read([0] + rest, 0) == Some((0, 1)) && Encode(0) == [0]
  {
    assert Append(0, 0) == 0 && !Continues(0) && Down(0) == 0 && Low7(0) == 0;
  }

  /** A zero behind a padding group is read as zero, and written back without it. */
  lemma PaddedZero(rest: seq<bv8>)
    ensures Read([0x80, 0] + rest, 0) == Some((0, 2)) && Encode(0) != [0x80, 0]
  {
    assert Append(0, 0x80) == 0 && Continues(0x80);
    assert ([0x80, 0] + rest)[1..] == [0] + rest;
    PlainZero(rest);
  }

  /** 2498243 in four groups of seven bits, as in the pointer of the test vectors of CIP-19. */
  lemma KnownNumber()
    ensures Encode(2498243) == [0x81, 0x98, 0xBD, 0x43]
  {
    assert Down(2498243) == 19517 && Low7(2498243) == 0x43;
    assert Down(19517) == 152 && Mark(Low7(19517)) == 0xBD;
    assert Down(152) == 1 && Mark(Low7(152)) == 0x98;
    assert Down(1) == 0 && Mark(Low7(1)) == 0x81;
    hide Down, Mark, Low7;
    assert High(0) == [];
    assert High(1) == High(0) + [0x81];
    assert High(152) == High(1) + [0x98];
    assert High(19517) == High(152) + [0xBD];
  }
}
