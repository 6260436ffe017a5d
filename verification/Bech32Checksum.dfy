/** The checksum register of the bech32 codec (BIP 173, section "Checksum"): a machine over 30-bit words
    that is linear over xor, and what follows from that for six-symbol checksums and burst errors. */
module Bech32Checksum {

  import opened Wrappers

  /** The Go register is an `int` that never leaves 30 bits: every round masks with 0x1ffffff before shifting. */
  type Word = bv30

  function Xor(a: Word, b: Word): Word { a ^ b }

  /** The five `gen` constants. */
  function Generator(i: nat): Word
    requires i < 5
  {
    if i == 0 then 0x3b6a57b2 else if i == 1 then 0x26508e6d else if i == 2 then 0x1ea119fa
    else if i == 3 then 0x3d4233dd else 0x2a1462b3
  }

  predicate BitSet(b: Word, i: nat)
    requires i < 5
  {
    if i == 0 then b & 1 != 0 else if i == 1 then b & 2 != 0 else if i == 2 then b & 4 != 0
    else if i == 3 then b & 8 != 0 else b & 16 != 0
  }

  function Tap(b: Word, i: nat): Word
    requires i < 5
  {
    if BitSet(b, i) then Generator(i) else 0
  }

  /** The xor of the generators selected by the lowest `n` bits of `b`. */
  function Feedback(b: Word, n: nat): Word
    requires n <= 5
  {
    if n == 0 then 0 else Xor(Feedback(b, n - 1), Tap(b, n - 1))
  }

  function Shifted(chk: Word, v: Word): Word { ((chk & 0x1ffffff) << 5) ^ v }

  /** One round of the register: shift in a symbol, then xor in the generators of the bits shifted out. */
  function Step(chk: Word, v: Word): Word { Xor(Shifted(chk, v), Feedback(chk >> 25, 5)) }

  function Feed(chk: Word, v: bv8): Word { Step(chk, v as Word) }

  function Fold(chk: Word, vs: seq<bv8>): Word
  {
    if vs == [] then chk else Feed(Fold(chk, vs[..|vs| - 1]), vs[|vs| - 1])
  }

  predicate Symbols(vs: seq<bv8>) { forall i :: 0 <= i < |vs| ==> vs[i] < 32 }

  function Zeros(n: nat): (z: seq<bv8>)
    ensures |z| == n && forall i :: 0 <= i < n ==> z[i] == 0
  {
    seq(n, i => 0)
  }

  function High(c: bv8): bv8 { c >> 5 }

  function Low(c: bv8): bv8 { c & 31 }

  function HighBits(hrp: seq<bv8>): (r: seq<bv8>)
    ensures |r| == |hrp| && forall i :: 0 <= i < |hrp| ==> r[i] == High(hrp[i])
  {
    seq(|hrp|, i requires 0 <= i < |hrp| => High(hrp[i]))
  }

  function LowBits(hrp: seq<bv8>): (r: seq<bv8>)
    ensures |r| == |hrp| && forall i :: 0 <= i < |hrp| ==> r[i] == Low(hrp[i])
  {
    seq(|hrp|, i requires 0 <= i < |hrp| => Low(hrp[i]))
  }

  function ExpandHrp(hrp: seq<bv8>): seq<bv8> { HighBits(hrp) + [0] + LowBits(hrp) }

  /** The register after the human-readable part, the values and the checksum (six zeros when there is none). */
  function Polymod(hrp: seq<bv8>, values: seq<bv8>, checksum: Option<seq<bv8>>): Word
  {
    Fold(1, ExpandHrp(hrp) + values + (if checksum.None? then Zeros(6) else checksum.value))
  }

  /** A checksum accepted by the decoder. */
  predicate Accepts(hrp: seq<bv8>, values: seq<bv8>, checksum: seq<bv8>)
  {
    Polymod(hrp, values, Some(checksum)) == 1
  }

  /** The first `k` five-bit digits of a word, as a number: the word shifted right by 5 * (6 - k). */
  function Leading(w: Word, k: nat): Word
    requires k <= 6
    decreases 6 - k
  {
    if k == 6 then w else Leading(w, k + 1) >> 5
  }

  function Narrow(w: Word): (d: bv8)
    ensures d < 32
  {
    (w & 31) as bv8
  }

  /** The `i`-th five-bit digit of a word, most significant first. */
  function Digit(w: Word, i: nat): bv8
    requires i < 6
  {
    Narrow(Leading(w, i + 1))
  }

  function Digits(w: Word): (r: seq<bv8>)
    ensures |r| == 6 && Symbols(r) && forall i :: 0 <= i < 6 ==> r[i] == Digit(w, i)
  {
    seq(6, i requires 0 <= i < 6 => Digit(w, i))
  }

  /** The six symbols written by the encoder. */
  function Checksum(hrp: seq<bv8>, values: seq<bv8>): (cs: seq<bv8>)
    ensures |cs| == 6 && Symbols(cs)
  {
    Digits(Xor(Polymod(hrp, values, None), 1))
  }

  // ---------- xor as an abelian group ----------

  lemma XorAssoc(a: Word, b: Word, c: Word)
    ensures Xor(Xor(a, b), c) == Xor(a, Xor(b, c))
  {}

  lemma XorComm(a: Word, b: Word)
    ensures Xor(a, b) == Xor(b, a)
  {}

  lemma XorUnit(a: Word)
    ensures Xor(a, 0) == a == Xor(0, a) && Xor(a, a) == 0
  {}

  lemma XorSwap(a: Word, b: Word, c: Word, d: Word)
    ensures Xor(Xor(a, b), Xor(c, d)) == Xor(Xor(a, c), Xor(b, d))
  {
    hide Xor;
    XorAssoc(a, b, Xor(c, d));
    XorAssoc(b, c, d);
    XorComm(b, c);
    XorAssoc(c, b, d);
    XorAssoc(a, c, Xor(b, d));
  }

  /** Xor by a fixed word can be moved to the other side of an equation. */
  lemma XorMove(a: Word, b: Word, c: Word)
    ensures Xor(a, b) == c <==> b == Xor(a, c)
  {
    hide Xor;
    XorAssoc(a, a, b);
    XorAssoc(a, a, c);
    XorUnit(a);
    XorUnit(b);
    XorUnit(c);
  }

  // ---------- linearity of the register ----------

  lemma MaskXor(a: Word, b: Word)
    ensures ((a ^ b) & 1 != 0) == ((a & 1 != 0) != (b & 1 != 0))
    ensures ((a ^ b) & 2 != 0) == ((a & 2 != 0) != (b & 2 != 0))
    ensures ((a ^ b) & 4 != 0) == ((a & 4 != 0) != (b & 4 != 0))
    ensures ((a ^ b) & 8 != 0) == ((a & 8 != 0) != (b & 8 != 0))
    ensures ((a ^ b) & 16 != 0) == ((a & 16 != 0) != (b & 16 != 0))
  {}

  lemma BitXor(a: Word, b: Word, i: nat)
    requires i < 5
    ensures BitSet(Xor(a, b), i) == (BitSet(a, i) != BitSet(b, i))
  {
    MaskXor(a, b);
  }

  lemma TapLinear(a: Word, b: Word, i: nat)
    requires i < 5
    ensures Tap(Xor(a, b), i) == Xor(Tap(a, i), Tap(b, i))
  {
    hide Generator, Xor, BitSet;
    BitXor(a, b, i);
    XorUnit(Generator(i));
    XorUnit(0);
  }

  lemma {:induction false} FeedbackLinear(a: Word, b: Word, n: nat)
    requires n <= 5
    ensures Feedback(Xor(a, b), n) == Xor(Feedback(a, n), Feedback(b, n))
  {
    hide Xor, Tap;
    if n == 0 {
      XorUnit(0);
    } else {
      FeedbackLinear(a, b, n - 1);
      TapLinear(a, b, n - 1);
      XorSwap(Feedback(a, n - 1), Feedback(b, n - 1), Tap(a, n - 1), Tap(b, n - 1));
    }
  }

  lemma ShiftedLinear(a: Word, b: Word, u: Word, v: Word)
    ensures Shifted(Xor(a, b), Xor(u, v)) == Xor(Shifted(a, u), Shifted(b, v))
    ensures Xor(a, b) >> 25 == Xor(a >> 25, b >> 25)
  {}

  /** One round is linear over xor. */
  lemma StepLinear(a: Word, b: Word, u: Word, v: Word)
    ensures Step(Xor(a, b), Xor(u, v)) == Xor(Step(a, u), Step(b, v))
  {
    hide Xor, Shifted, Feedback;
    ShiftedLinear(a, b, u, v);
    FeedbackLinear(a >> 25, b >> 25, 5);
    XorSwap(Shifted(a, u), Shifted(b, v), Feedback(a >> 25, 5), Feedback(b >> 25, 5));
  }

  lemma FeedbackUnfold(b: Word)
    ensures Feedback(b, 5) == Xor(Xor(Xor(Xor(Xor(0, Tap(b, 0)), Tap(b, 1)), Tap(b, 2)), Tap(b, 3)), Tap(b, 4))
  {
    hide Xor, Tap;
    assert Feedback(b, 1) == Xor(0, Tap(b, 0));
    assert Feedback(b, 3) == Xor(Xor(Xor(0, Tap(b, 0)), Tap(b, 1)), Tap(b, 2));
  }

  /** A non-zero register stays non-zero under a zero symbol: the low five bits of the five generators are
      linearly independent, so the bits shifted out can be read back from the result. */
  lemma ZeroStepInjective(a: Word)
    requires Step(a, 0) == 0
    ensures a == 0
  {
    FeedbackUnfold(a >> 25);
  }

  lemma FeedbackZero()
    ensures Feedback(0, 5) == 0
  {
    FeedbackUnfold(0);
  }

  // ---------- folds ----------

  function XorByte(u: bv8, v: bv8): bv8 { u ^ v }

  function XorSeq(us: seq<bv8>, vs: seq<bv8>): (r: seq<bv8>)
    requires |us| == |vs|
    ensures |r| == |us| && forall i :: 0 <= i < |us| ==> r[i] == XorByte(us[i], vs[i])
  {
    seq(|us|, i requires 0 <= i < |us| => XorByte(us[i], vs[i]))
  }

  lemma WidenXor(u: bv8, v: bv8)
    ensures XorByte(u, v) as Word == Xor(u as Word, v as Word)
  {}

  lemma FeedLinear(a: Word, b: Word, u: bv8, v: bv8)
    ensures Feed(Xor(a, b), XorByte(u, v)) == Xor(Feed(a, u), Feed(b, v))
  {
    hide Step, Xor, XorByte;
    WidenXor(u, v);
    StepLinear(a, b, u as Word, v as Word);
  }

  lemma {:induction false} FoldConcat(c: Word, us: seq<bv8>, vs: seq<bv8>)
    ensures Fold(c, us + vs) == Fold(Fold(c, us), vs)
    decreases |vs|
  {
    hide Feed;
    if vs == [] {
      assert us + vs == us;
    } else {
      assert (us + vs)[..|us + vs| - 1] == us + vs[..|vs| - 1];
      FoldConcat(c, us, vs[..|vs| - 1]);
    }
  }

  /** The whole register run is linear over xor, for every length. */
  lemma {:induction false} FoldLinear(a: Word, b: Word, us: seq<bv8>, vs: seq<bv8>)
    requires |us| == |vs|
    ensures Fold(Xor(a, b), XorSeq(us, vs)) == Xor(Fold(a, us), Fold(b, vs))
    decreases |us|
  {
    hide Feed, Xor, XorByte;
    var n := |us| - 1;
    if n >= 0 {
      FoldLinear(a, b, us[..n], vs[..n]);
      assert XorSeq(us, vs)[..n] == XorSeq(us[..n], vs[..n]);
      FeedLinear(Fold(a, us[..n]), Fold(b, vs[..n]), us[n], vs[n]);
    }
  }

  lemma FeedZero(c: Word)
    ensures Feed(c, 0) == 0 <==> c == 0
  {
    if Feed(c, 0) == 0 {
      ZeroStepInjective(c);
    }
    if c == 0 {
      FeedbackZero();
    }
  }

  lemma {:induction false} FoldZeros(c: Word, zs: seq<bv8>)
    requires forall i :: 0 <= i < |zs| ==> zs[i] == 0
    ensures Fold(c, zs) == 0 <==> c == 0
    decreases |zs|
  {
    hide Feed;
    if zs != [] {
      FoldZeros(c, zs[..|zs| - 1]);
      FeedZero(Fold(c, zs[..|zs| - 1]));
    }
  }

  // ---------- six symbols fit the register ----------

  /** The register holds at most `n` symbols. */
  predicate Fits(c: Word, n: nat) {
    if n == 0 then c == 0 else if n == 1 then c < 0x20 else if n == 2 then c < 0x400 else if n == 3 then c < 0x8000
    else if n == 4 then c < 0x100000 else if n == 5 then c < 0x2000000 else true
  }

  function Push(c: Word, v: bv8): Word { (c << 5) | (v as Word) }

  /** With room left in the register a round only shifts. */
  lemma FeedSmall(c: Word, v: bv8)
    requires c < 0x2000000 && v < 32
    ensures Feed(c, v) == Push(c, v)
  {
    FeedbackZero();
    SmallWord(c, v as Word);
    XorUnit(Shifted(c, v as Word));
  }

  lemma SmallWord(c: Word, v: Word)
    requires c < 0x2000000 && v < 32
    ensures c >> 25 == 0 && ((c & 0x1ffffff) << 5) ^ v == (c << 5) | v
  {}

  lemma FeedFits(c: Word, v: bv8, n: nat)
    requires n < 6 && Fits(c, n) && v < 32
    ensures Fits(Feed(c, v), n + 1)
    ensures Feed(c, v) == 0 ==> c == 0 && v == 0
  {
    hide Feed;
    FeedSmall(c, v);
  }

  /** Up to six symbols fed to an empty register are only packed into it, so nothing is lost. */
  lemma {:induction false} PackInjective(vs: seq<bv8>)
    requires |vs| <= 6 && Symbols(vs)
    ensures Fits(Fold(0, vs), |vs|)
    ensures Fold(0, vs) == 0 ==> forall i :: 0 <= i < |vs| ==> vs[i] == 0
    decreases |vs|
  {
    hide Feed;
    if vs != [] {
      var n := |vs| - 1;
      PackInjective(vs[..n]);
      FeedFits(Fold(0, vs[..n]), vs[n], n);
    }
  }

  // ---------- six digits of a word ----------

  lemma LeadingStep(w: Word, k: nat)
    requires k < 6
    ensures Feed(Leading(w, k), Digit(w, k)) == Leading(w, k + 1)
  {
    hide Feed, Push, Narrow;
    var x := Leading(w, k + 1);
    PushNarrow(x);
    FeedSmall(Leading(w, k), Narrow(x));
  }

  lemma {:induction false} LeadingFits(w: Word, k: nat)
    requires k <= 6
    ensures Fits(Leading(w, k), k)
    decreases 6 - k
  {
    if k < 6 {
      LeadingFits(w, k + 1);
      FitsDown(Leading(w, k + 1), k);
    }
  }

  lemma FitsDown(x: Word, k: nat)
    requires k < 6 && Fits(x, k + 1)
    ensures Fits(x >> 5, k)
  {}

  lemma PushNarrow(x: Word)
    ensures Push(x >> 5, Narrow(x)) == x && x >> 5 < 0x2000000
  {}

  lemma {:induction false} DigitsPack(w: Word, k: nat)
    requires k <= 6
    ensures Fold(0, Digits(w)[..k]) == Leading(w, k)
  {
    hide Feed, Digit;
    LeadingFits(w, 0);
    if k > 0 {
      DigitsPack(w, k - 1);
      assert Digits(w)[..k][..k - 1] == Digits(w)[..k - 1];
      LeadingStep(w, k - 1);
    }
  }

  // ---------- the main results on the register ----------

  lemma ByteXor(u: bv8, v: bv8)
    ensures XorByte(u, v) == 0 <==> u == v
    ensures u < 32 && v < 32 ==> XorByte(u, v) < 32
    ensures XorByte(0, v) == v
  {}

  lemma XorSeqFacts(us: seq<bv8>, vs: seq<bv8>)
    requires |us| == |vs|
    ensures forall i :: 0 <= i < |us| ==> (XorSeq(us, vs)[i] == 0 <==> us[i] == vs[i])
    ensures Symbols(us) && Symbols(vs) ==> Symbols(XorSeq(us, vs))
    ensures (forall i :: 0 <= i < |us| ==> us[i] == 0) ==> XorSeq(us, vs) == vs
  {
    hide XorByte;
    forall i | 0 <= i < |us|
      ensures XorSeq(us, vs)[i] == 0 <==> us[i] == vs[i]
      ensures us[i] < 32 && vs[i] < 32 ==> XorSeq(us, vs)[i] < 32
      ensures us[i] == 0 ==> XorSeq(us, vs)[i] == vs[i]
    {
      ByteXor(us[i], vs[i]);
    }
  }

  lemma FoldWindow(c: Word, e: seq<bv8>, lo: nat, hi: nat)
    requires lo <= hi <= |e|
    ensures Fold(c, e) == Fold(Fold(Fold(c, e[..lo]), e[lo..hi]), e[hi..])
  {
    hide Feed;
    assert e[..lo] + e[lo..] == e && e[lo..hi] + e[hi..] == e[lo..];
    FoldConcat(c, e[..lo], e[lo..]);
    FoldConcat(Fold(c, e[..lo]), e[lo..hi], e[hi..]);
  }

  /** A non-zero error pattern confined to six consecutive symbols leaves a non-zero register. */
  lemma BurstRegister(e: seq<bv8>, lo: nat, hi: nat)
    requires lo <= hi <= |e| && hi - lo <= 6 && Symbols(e)
    requires forall i :: 0 <= i < |e| && !(lo <= i < hi) ==> e[i] == 0
    requires Fold(0, e) == 0
    ensures forall i :: 0 <= i < |e| ==> e[i] == 0
  {
    hide Feed, Fold;
    FoldWindow(0, e, lo, hi);
    FoldZeros(0, e[..lo]);
    FoldZeros(Fold(0, e[lo..hi]), e[hi..]);
    PackInjective(e[lo..hi]);
    assert forall i :: lo <= i < hi ==> e[i] == e[lo..hi][i - lo];
  }

  /** A burst of at most six wrong symbols anywhere in a run of any length changes the register. */
  lemma BurstDetected(c: Word, us: seq<bv8>, vs: seq<bv8>, p: nat)
    requires |us| == |vs| && Symbols(us) && Symbols(vs)
    requires forall i :: 0 <= i < |us| && !(p <= i < p + 6) ==> us[i] == vs[i]
    requires Fold(c, us) == Fold(c, vs)
    ensures us == vs
  {
    hide Feed, Xor, XorByte;
    var e := XorSeq(us, vs);
    XorSeqFacts(us, vs);
    FoldLinear(c, c, us, vs);
    XorUnit(c);
    XorUnit(Fold(c, us));
    BurstRegister(e, if p < |e| then p else |e|, if p + 6 < |e| then p + 6 else |e|);
  }

  /** Checksum symbols are xor-ed onto the register as they stand. */
  lemma ChecksumIsAdded(c: Word, cs: seq<bv8>)
    requires |cs| == 6
    ensures Fold(c, cs) == Xor(Fold(c, Zeros(6)), Fold(0, cs))
  {
    hide Feed, Xor, XorByte;
    FoldLinear(c, 0, Zeros(6), cs);
    XorUnit(c);
    XorSeqFacts(Zeros(6), cs);
  }

  /** Exactly one six-symbol checksum is accepted, and it is the one the encoder writes. */
  lemma ChecksumUnique(hrp: seq<bv8>, values: seq<bv8>, cs: seq<bv8>)
    requires |cs| == 6 && Symbols(cs)
    ensures Accepts(hrp, values, cs) <==> cs == Checksum(hrp, values)
  {
    hide Feed, Xor, Digit;
    var front := ExpandHrp(hrp) + values;
    var c := Fold(1, front);
    var w := Xor(Polymod(hrp, values, None), 1);
    FoldConcat(1, front, cs);
    FoldConcat(1, front, Zeros(6));
    ChecksumIsAdded(c, cs);
    XorMove(Fold(c, Zeros(6)), Fold(0, cs), 1);
    assert Accepts(hrp, values, cs) <==> Fold(0, cs) == w;
    DigitsPack(w, 6);
    assert Digits(w)[..6] == Digits(w);
    if Fold(0, cs) == w {
      BurstDetected(0, cs, Digits(w), 0);
    }
  }
}
