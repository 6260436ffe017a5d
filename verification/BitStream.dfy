/** Bytes as groups of bits, and `ConvertBits`, which regroups a bit stream. */
module BitStream {

  import opened Wrappers

  datatype ConvertError = InvalidBitGroups | InvalidIncompleteGroup

  // ---------- single bits ----------

  /** Bit `i` of a byte, counted from the least significant one. */
  predicate Bit(x: bv8, i: nat) {
    if i == 0 then x & 1 != 0 else if i == 1 then x & 2 != 0 else if i == 2 then x & 4 != 0
    else if i == 3 then x & 8 != 0 else if i == 4 then x & 16 != 0 else if i == 5 then x & 32 != 0
    else if i == 6 then x & 64 != 0 else if i == 7 then x & 128 != 0 else false
  }

  function Left(x: bv8): bv8 { x << 1 }

  function Right(x: bv8): bv8 { x >> 1 }

  function Or(x: bv8, y: bv8): bv8 { x | y }

  function ShiftLeft(x: bv8, k: nat): bv8
    decreases k
  {
    if k == 0 then x else ShiftLeft(Left(x), k - 1)
  }

  function ShiftRight(x: bv8, k: nat): bv8
    decreases k
  {
    if k == 0 then x else ShiftRight(Right(x), k - 1)
  }

  lemma LeftBit(x: bv8, i: nat)
    requires i < 8
    ensures Bit(Left(x), i) == (i > 0 && Bit(x, i - 1))
  {}

  lemma RightBit(x: bv8, i: nat)
    ensures Bit(Right(x), i) == Bit(x, i + 1)
  {}

  lemma OrRight(x: bv8, y: bv8)
    ensures Right(Or(x, y)) == Or(Right(x), Right(y))
    ensures Bit(Or(x, y), 0) == (Bit(x, 0) || Bit(y, 0))
  {}

  lemma {:induction false} OrBit(x: bv8, y: bv8, i: nat)
    ensures Bit(Or(x, y), i) == (Bit(x, i) || Bit(y, i))
    decreases i
  {
    hide Bit, Or, Right;
    OrRight(x, y);
    if i > 0 {
      RightBit(Or(x, y), i - 1);
      RightBit(x, i - 1);
      RightBit(y, i - 1);
      OrBit(Right(x), Right(y), i - 1);
    }
  }

  lemma SameBits(x: bv8, y: bv8)
    requires Bit(x, 0) == Bit(y, 0) && Bit(x, 1) == Bit(y, 1) && Bit(x, 2) == Bit(y, 2) && Bit(x, 3) == Bit(y, 3)
    requires Bit(x, 4) == Bit(y, 4) && Bit(x, 5) == Bit(y, 5) && Bit(x, 6) == Bit(y, 6) && Bit(x, 7) == Bit(y, 7)
    ensures x == y
  {}

  lemma {:induction false} ShiftLeftBit(x: bv8, k: nat, i: nat)
    requires i < 8
    ensures Bit(ShiftLeft(x, k), i) == (i >= k && Bit(x, i - k))
    decreases k
  {
    hide Bit, Left;
    if k > 0 {
      ShiftLeftBit(Left(x), k - 1, i);
      if i >= k {
        LeftBit(x, i - k + 1);
      } else if i == k - 1 {
        LeftBit(x, 0);
      }
    }
  }

  lemma {:induction false} ShiftRightBit(x: bv8, k: nat, i: nat)
    ensures Bit(ShiftRight(x, k), i) == Bit(x, i + k)
    decreases k
  {
    hide Bit, Right;
    if k > 0 {
      ShiftRightBit(Right(x), k - 1, i);
      RightBit(x, i + k - 1);
    }
  }

  /** The lowest `k` bits of a byte, most significant first. */
  function LowBits(x: bv8, k: nat): (r: seq<bool>)
    requires k <= 8
    ensures |r| == k && forall j :: 0 <= j < k ==> r[j] == Bit(x, k - 1 - j)
  {
    seq(k, j requires 0 <= j < k => Bit(x, k - 1 - j))
  }

  /** The highest `k` bits of a byte, most significant first. */
  function TopBits(x: bv8, k: nat): (r: seq<bool>)
    requires k <= 8
    ensures |r| == k && forall j :: 0 <= j < k ==> r[j] == Bit(x, 7 - j)
  {
    seq(k, j requires 0 <= j < k => Bit(x, 7 - j))
  }

  /** The byte uses only its lowest `k` bits. */
  predicate Fits(x: bv8, k: nat) { forall i :: k <= i < 8 ==> !Bit(x, i) }

  predicate AllFit(data: seq<bv8>, k: nat) { forall i :: 0 <= i < |data| ==> Fits(data[i], k) }

  lemma SameLowBits(x: bv8, y: bv8, k: nat)
    requires k <= 8 && Fits(x, k) && Fits(y, k) && LowBits(x, k) == LowBits(y, k)
    ensures x == y
  {
    hide Bit;
    forall i | 0 <= i < 8
      ensures Bit(x, i) == Bit(y, i)
    {
      if i < k {
        assert LowBits(x, k)[k - 1 - i] == LowBits(y, k)[k - 1 - i];
      }
    }
    SameBits(x, y);
  }

  /** The byte being filled after `e` bits moved from the top of `b` to the bottom of `n`. */
  function Moved(n: bv8, b: bv8, e: nat): bv8
    requires e <= 8
  {
    Or(ShiftLeft(n, e), ShiftRight(b, 8 - e))
  }

  lemma MovedBit(n: bv8, b: bv8, e: nat, i: nat)
    requires e <= 8 && i < 8
    ensures Bit(Moved(n, b, e), i) == if i >= e then Bit(n, i - e) else Bit(b, i + 8 - e)
  {
    hide Bit, Or;
    OrBit(ShiftLeft(n, e), ShiftRight(b, 8 - e), i);
    ShiftLeftBit(n, e, i);
    ShiftRightBit(b, 8 - e, i);
    if i >= e {
      BitBeyond(b, i + 8 - e);
    }
  }

  lemma MovedFits(n: bv8, f: nat, b: bv8, e: nat)
    requires f + e <= 8 && Fits(n, f)
    ensures Fits(Moved(n, b, e), f + e)
  {
    hide Bit, Moved;
    forall i | f + e <= i < 8
      ensures !Bit(Moved(n, b, e), i)
    {
      MovedBit(n, b, e, i);
    }
  }

  lemma MovedLowBits(n: bv8, f: nat, b: bv8, e: nat)
    requires f + e <= 8
    ensures LowBits(Moved(n, b, e), f + e) == LowBits(n, f) + TopBits(b, e)
  {
    hide Bit, Moved;
    forall j | 0 <= j < f + e
      ensures LowBits(Moved(n, b, e), f + e)[j] == (LowBits(n, f) + TopBits(b, e))[j]
    {
      MovedBit(n, b, e, f + e - 1 - j);
    }
  }

  lemma TopBitsShift(b: bv8, r: nat, e: nat)
    requires e <= r <= 8
    ensures TopBits(b, r) == TopBits(b, e) + TopBits(ShiftLeft(b, e), r - e)
  {
    hide Bit, ShiftLeft;
    forall j | e <= j < r
      ensures TopBits(b, r)[j] == TopBits(ShiftLeft(b, e), r - e)[j - e]
    {
      ShiftLeftBit(b, e, 7 - (j - e));
    }
  }

  lemma TopBitsOfShifted(b: bv8, k: nat)
    requires k <= 8
    ensures TopBits(ShiftLeft(b, 8 - k), k) == LowBits(b, k)
  {
    hide Bit, ShiftLeft;
    forall j | 0 <= j < k
      ensures TopBits(ShiftLeft(b, 8 - k), k)[j] == LowBits(b, k)[j]
    {
      ShiftLeftBit(b, 8 - k, 7 - j);
    }
  }

  lemma BitBeyond(x: bv8, i: nat)
    requires i >= 8
    ensures !Bit(x, i)
  {}

  // ---------- streams of bits ----------

  function Falses(n: nat): (r: seq<bool>)
    ensures |r| == n && forall i :: 0 <= i < n ==> !r[i]
  {
    seq(n, i => false)
  }

  predicate AllFalse(bits: seq<bool>) { forall i :: 0 <= i < |bits| ==> !bits[i] }

  /** The lowest `k` bits of each byte, one after another. */
  function Stream(data: seq<bv8>, k: nat): seq<bool>
    requires k <= 8
  {
    if data == [] then [] else LowBits(data[0], k) + Stream(data[1..], k)
  }

  /** The byte whose lowest bits are the given ones. */
  function FromBits(bits: seq<bool>): bv8
  {
    if bits == [] then 0 else Or(Left(FromBits(bits[..|bits| - 1])), if bits[|bits| - 1] then 1 else 0)
  }

  /** The complete groups of `k` bits in a stream, as bytes. */
  function Groups(bits: seq<bool>, k: nat): (r: seq<bv8>)
    requires 1 <= k
  {
    if |bits| < k then [] else [FromBits(bits[..k])] + Groups(bits[k..], k)
  }

  /** The bits left after the complete groups. */
  function Leftover(bits: seq<bool>, k: nat): (r: seq<bool>)
    requires 1 <= k
    ensures |r| < k
  {
    if |bits| < k then bits else Leftover(bits[k..], k)
  }

  /** What `ConvertBits` promises, read off the bit streams. */
  function Convert(data: seq<bv8>, from: int, to: int, pad: bool): Result<seq<bv8>, ConvertError>
  {
    if from < 1 || from > 8 || to < 1 || to > 8 then Err(InvalidBitGroups)
    else
      var bits := Stream(data, from);
      var rest := Leftover(bits, to);
      if pad then Ok(Groups(bits, to) + if rest == [] then [] else [FromBits(rest + Falses(to - |rest|))])
      else if |rest| <= 4 && AllFalse(rest) then Ok(Groups(bits, to))
      else Err(InvalidIncompleteGroup)
  }

  lemma {:induction false} StreamConcat(a: seq<bv8>, b: seq<bv8>, k: nat)
    requires k <= 8
    ensures Stream(a + b, k) == Stream(a, k) + Stream(b, k)
  {
    hide LowBits;
    if a == [] {
      assert a + b == b;
    } else {
      assert (a + b)[1..] == a[1..] + b;
      StreamConcat(a[1..], b, k);
    }
  }

  lemma StreamOne(x: bv8, k: nat)
    requires k <= 8
    ensures Stream([x], k) == LowBits(x, k)
  {
    assert Stream([x][1..], k) == [];
  }

  lemma BitOfDigit(x: bv8, b: bool, i: nat)
    requires i < 8
    ensures Bit(Or(Left(x), if b then 1 else 0), i) == if i == 0 then b else Bit(x, i - 1)
  {
    hide Left, Or, Bit;
    OrBit(Left(x), if b then 1 else 0, i);
    LeftBit(x, i);
    OneBits(i);
  }

  lemma OneBits(i: nat)
    ensures Bit(1, i) == (i == 0) && !Bit(0, i)
  {}

  lemma {:induction false} FromBitsLowBits(bits: seq<bool>)
    requires |bits| <= 8
    ensures LowBits(FromBits(bits), |bits|) == bits && Fits(FromBits(bits), |bits|)
    decreases |bits|
  {
    hide Bit, Or, Left;
    if bits == [] {
      forall i | 0 <= i < 8 ensures !Bit(0, i) { OneBits(i); }
    } else {
      var n := |bits| - 1;
      var x := FromBits(bits[..n]);
      FromBitsLowBits(bits[..n]);
      forall i | 0 <= i < 8
        ensures Bit(FromBits(bits), i) == if i == 0 then bits[n] else Bit(x, i - 1)
      {
        BitOfDigit(x, bits[n], i);
      }
      forall j | 0 <= j < n
        ensures LowBits(FromBits(bits), n + 1)[j] == bits[j]
      {
        assert LowBits(x, n)[j] == bits[..n][j];
      }
    }
  }

  /** A byte that fits is determined by its bits. */
  lemma FromLowBits(x: bv8, k: nat)
    requires k <= 8 && Fits(x, k)
    ensures FromBits(LowBits(x, k)) == x
  {
    hide Bit, FromBits;
    FromBitsLowBits(LowBits(x, k));
    SameLowBits(x, FromBits(LowBits(x, k)), k);
  }

  /** Splitting a stream into groups is the inverse of writing the groups one after another. */
  lemma {:induction false} GroupsOfStream(r: seq<bv8>, tail: seq<bool>, k: nat)
    requires 1 <= k <= 8 && |tail| < k && AllFit(r, k)
    ensures Groups(Stream(r, k) + tail, k) == r && Leftover(Stream(r, k) + tail, k) == tail
    decreases |r|
  {
    hide FromBits, Fits, LowBits;
    if r == [] {
      assert Stream(r, k) + tail == tail;
    } else {
      var bits := Stream(r, k) + tail;
      assert bits[..k] == LowBits(r[0], k);
      assert bits[k..] == Stream(r[1..], k) + tail;
      FromLowBits(r[0], k);
      GroupsOfStream(r[1..], tail, k);
    }
  }

  /** And the other way round: the groups and the leftover together are the whole stream. */
  lemma {:induction false} StreamOfGroups(bits: seq<bool>, k: nat)
    requires 1 <= k <= 8
    ensures Stream(Groups(bits, k), k) + Leftover(bits, k) == bits
    ensures AllFit(Groups(bits, k), k)
    decreases |bits|
  {
    hide FromBits, Fits, LowBits;
    if |bits| >= k {
      FromBitsLowBits(bits[..k]);
      StreamOfGroups(bits[k..], k);
      assert Groups(bits, k)[1..] == Groups(bits[k..], k);
    }
  }

  /** The regrouping loop. */
  method ConvertBits(data: seq<bv8>, fromBits: int, toBits: int, pad: bool)
    returns (r: Result<seq<bv8>, ConvertError>)
    ensures r == Convert(data, fromBits, toBits, pad)
  {
    hide Bit, FromBits, Moved, ShiftLeft, LowBits, TopBits;
    if fromBits < 1 || fromBits > 8 || toBits < 1 || toBits > 8 {
      return Err(InvalidBitGroups);
    }
    var regrouped: seq<bv8> := [];
    var nextByte: bv8, filledBits: nat := 0, 0;
    ghost var bits := Stream(data, fromBits);
    FitsZero();
    for i := 0 to |data|
      invariant filledBits < toBits && Fits(nextByte, filledBits) && AllFit(regrouped, toBits)
      invariant bits == Stream(regrouped, toBits) + LowBits(nextByte, filledBits) + Stream(data[i..], fromBits)
    {
      regrouped, nextByte, filledBits := TakeByte(data[i], fromBits, toBits, regrouped, nextByte, filledBits);
      assert data[i..][1..] == data[i + 1..];
    }
    assert bits == Stream(regrouped, toBits) + LowBits(nextByte, filledBits);
    GroupsOfStream(regrouped, LowBits(nextByte, filledBits), toBits);
    r := FinishGroup(regrouped, nextByte, filledBits, toBits, pad);
  }

  /** The end of `ConvertBits`: pad the unfinished group, or check it. */
  method FinishGroup(regrouped0: seq<bv8>, nextByte0: bv8, filledBits0: nat, toBits: nat, pad: bool)
    returns (r: Result<seq<bv8>, ConvertError>)
    requires filledBits0 < toBits <= 8 && Fits(nextByte0, filledBits0)
    ensures var rest := LowBits(nextByte0, filledBits0);
            r == if pad then Ok(regrouped0 + if rest == [] then [] else [FromBits(rest + Falses(toBits - |rest|))])
                 else if |rest| <= 4 && AllFalse(rest) then Ok(regrouped0) else Err(InvalidIncompleteGroup)
  {
    hide Bit, Fits, FromBits, ShiftLeft, LowBits;
    var regrouped, nextByte, filledBits := regrouped0, nextByte0, filledBits0;
    if pad && filledBits > 0 {
      ShiftInZeros(nextByte, filledBits, toBits - filledBits);
      nextByte := ShiftLeft(nextByte, toBits - filledBits);
      FromLowBits(nextByte, toBits);
      regrouped := regrouped + [nextByte];
      filledBits, nextByte := 0, 0;
      FitsZero();
    }
    assert regrouped0 + [] == regrouped0;
    ZeroByte(nextByte, filledBits);
    if filledBits > 0 && (filledBits > 4 || nextByte != 0) {
      return Err(InvalidIncompleteGroup);
    }
    return Ok(regrouped);
  }

  lemma FitsZero()
    ensures Fits(0, 0) && LowBits(0, 0) == []
  {}

  lemma ZeroByte(x: bv8, k: nat)
    requires k <= 8 && Fits(x, k)
    ensures x == 0 <==> AllFalse(LowBits(x, k))
  {
    hide Bit;
    forall i | 0 <= i < 8 ensures !Bit(0, i) { OneBits(i); }
    if AllFalse(LowBits(x, k)) {
      assert LowBits(x, k) == LowBits(0, k);
      SameLowBits(x, 0, k);
    }
  }

  lemma ShiftInZeros(x: bv8, f: nat, e: nat)
    requires f + e <= 8 && Fits(x, f)
    ensures LowBits(ShiftLeft(x, e), f + e) == LowBits(x, f) + Falses(e)
    ensures Fits(ShiftLeft(x, e), f + e)
  {
    hide Bit, ShiftLeft;
    forall i | 0 <= i < 8
      ensures Bit(ShiftLeft(x, e), i) == (i >= e && Bit(x, i - e))
    {
      ShiftLeftBit(x, e, i);
    }
    forall j | 0 <= j < f + e
      ensures LowBits(ShiftLeft(x, e), f + e)[j] == (LowBits(x, f) + Falses(e))[j]
    {}
  }

  /** One extraction keeps the whole stream. */
  lemma MoveBits(front: seq<bool>, n: bv8, f: nat, b: bv8, r: nat, e: nat)
    requires f + e <= 8 && e <= r <= 8 && Fits(n, f)
    ensures Fits(Moved(n, b, e), f + e)
    ensures front + LowBits(n, f) + TopBits(b, r)
         == front + LowBits(Moved(n, b, e), f + e) + TopBits(ShiftLeft(b, e), r - e)
  {
    hide Bit, Fits, Moved, ShiftLeft, LowBits, TopBits;
    MovedFits(n, f, b, e);
    MovedLowBits(n, f, b, e);
    TopBitsShift(b, r, e);
  }

  /** A filled group joins the output. */
  lemma CompleteGroup(regrouped: seq<bv8>, n: bv8, k: nat)
    requires 1 <= k <= 8 && AllFit(regrouped, k) && Fits(n, k)
    ensures AllFit(regrouped + [n], k) && Fits(0, 0)
    ensures Stream(regrouped + [n], k) + LowBits(0, 0) == Stream(regrouped, k) + LowBits(n, k)
  {
    hide Bit, Fits, LowBits;
    StreamConcat(regrouped, [n], k);
    StreamOne(n, k);
    FitsZero();
  }

  /** The inner loop: all bits of one input byte move to the output, group by group. */
  method TakeByte(byte: bv8, fromBits: nat, toBits: nat, regrouped0: seq<bv8>, nextByte0: bv8, filledBits0: nat)
    returns (regrouped: seq<bv8>, nextByte: bv8, filledBits: nat)
    requires 1 <= fromBits <= 8 && 1 <= toBits <= 8
    requires filledBits0 < toBits && Fits(nextByte0, filledBits0) && AllFit(regrouped0, toBits)
    ensures filledBits < toBits && Fits(nextByte, filledBits) && AllFit(regrouped, toBits)
    ensures Stream(regrouped, toBits) + LowBits(nextByte, filledBits)
         == Stream(regrouped0, toBits) + LowBits(nextByte0, filledBits0) + LowBits(byte, fromBits)
  {
    hide Bit, Fits, Moved, ShiftLeft, LowBits, TopBits, Stream, AllFit;
    regrouped, nextByte, filledBits := regrouped0, nextByte0, filledBits0;
    ghost var goal := Stream(regrouped0, toBits) + LowBits(nextByte0, filledBits0) + LowBits(byte, fromBits);
    var b := ShiftLeft(byte, 8 - fromBits);
    TopBitsOfShifted(byte, fromBits);
    var remFromBits: nat := fromBits;
    while remFromBits > 0
      invariant remFromBits <= 8 && filledBits < toBits && Fits(nextByte, filledBits) && AllFit(regrouped, toBits)
      invariant goal == Stream(regrouped, toBits) + LowBits(nextByte, filledBits) + TopBits(b, remFromBits)
    {
      var remToBits := toBits - filledBits;
      var toExtract := if remToBits < remFromBits then remToBits else remFromBits;
      MoveBits(Stream(regrouped, toBits), nextByte, filledBits, b, remFromBits, toExtract);
      nextByte := Moved(nextByte, b, toExtract);
      b := ShiftLeft(b, toExtract);
      remFromBits := remFromBits - toExtract;
      filledBits := filledBits + toExtract;
      if filledBits == toBits {
        CompleteGroup(regrouped, nextByte, toBits);
        regrouped := regrouped + [nextByte];
        filledBits, nextByte := 0, 0;
      }
    }
  }

  // ---------- round trips ----------

  lemma BytesFit(data: seq<bv8>)
    ensures AllFit(data, 8)
  {}

  lemma {:induction false} StreamLength(data: seq<bv8>, k: nat)
    requires k <= 8
    ensures |Stream(data, k)| == |data| * k
  {
    hide LowBits;
    if data != [] {
      StreamLength(data[1..], k);
    }
  }

  /** 8 to 5 with padding, then 5 to 8 without, is the identity on every byte sequence. */
  lemma EightFiveEight(data: seq<bv8>)
    ensures Convert(data, 8, 5, true).Ok? && AllFit(Convert(data, 8, 5, true).value, 5)
    ensures Convert(Convert(data, 8, 5, true).value, 5, 8, false) == Ok(data)
  {
    hide Fits, LowBits, FromBits, Groups, Leftover;
    var bits := Stream(data, 8);
    var rest := Leftover(bits, 5);
    var groups := Groups(bits, 5);
    StreamOfGroups(bits, 5);
    BytesFit(data);
    if rest == [] {
      assert groups + [] == groups;
      assert Stream(groups, 5) == bits + [];
      GroupsOfStream(data, [], 8);
    } else {
      var last := rest + Falses(5 - |rest|);
      FromBitsLowBits(last);
      StreamConcat(groups, [FromBits(last)], 5);
      StreamOne(FromBits(last), 5);
      assert Stream(groups + [FromBits(last)], 5) == bits + Falses(5 - |rest|);
      GroupsOfStream(data, Falses(5 - |rest|), 8);
    }
  }

  /** Whatever 5 to 8 without padding accepts is reproduced by 8 to 5 with padding. */
  lemma FiveEightFive(symbols: seq<bv8>)
    requires AllFit(symbols, 5) && Convert(symbols, 5, 8, false).Ok?
    ensures Convert(Convert(symbols, 5, 8, false).value, 8, 5, true) == Ok(symbols)
  {
    hide Fits, LowBits, FromBits, Groups, Leftover;
    var bits := Stream(symbols, 5);
    var rest := Leftover(bits, 8);
    var data := Groups(bits, 8);
    StreamOfGroups(bits, 8);
    var q := |rest|;
    if q == 0 {
      assert Stream(data, 8) == Stream(symbols, 5) + [];
      GroupsOfStream(symbols, [], 5);
      assert symbols + [] == symbols && rest == [];
      assert Stream(data, 8) == Stream(symbols, 5);
    } else {
      StreamLength(symbols, 5);
      var n := |symbols| - 1;
      var front, last := symbols[..n], symbols[n];
      assert symbols == front + [last];
      StreamConcat(front, [last], 5);
      StreamOne(last, 5);
      var low := LowBits(last, 5);
      assert Stream(data, 8) == Stream(front, 5) + low[..5 - q] by {
        assert bits == Stream(front, 5) + low;
        assert |Stream(data, 8)| == |Stream(front, 5)| + (5 - q);
        assert Stream(data, 8) == bits[..|bits| - q];
      }
      assert low == low[..5 - q] + Falses(q) by {
        assert AllFalse(rest) && |bits| == |Stream(front, 5)| + 5;
        forall j | 5 - q <= j < 5 ensures !low[j] {
          assert low[j] == bits[|Stream(front, 5)| + j] == rest[j - (5 - q)];
        }
      }
      GroupsOfStream(front, low[..5 - q], 5);
      FromLowBits(last, 5);
    }
  }
}
