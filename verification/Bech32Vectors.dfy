/** Known answers that pin the constants of the bech32 codec: the law of its five generators, and two of the valid
    strings of BIP 173, section "Test vectors". */
module Bech32Vectors {
  import opened Wrappers
  import opened Bech32Checksum
  import opened Bech32
  import Bits = BitStream

  // ---------- the generators ----------

  /** Doubling in the field with 32 elements whose modulus is x^5 + x^3 + 1. */
  function Doubled(d: bv8): bv8 { ((d << 1) ^ (if d & 16 != 0 then 0x29 else 0)) & 31 }

  function Down(w: Word): Word { w >> 5 }

  lemma LeadingDown(w: Word, k: nat)
    requires k < 6
    ensures Leading(w, k) == Down(Leading(w, k + 1))
  {}

  lemma LeadingAll(w: Word)
    ensures Leading(w, 6) == w
  {}

  lemma LeadingUnfold(w: Word)
    ensures Leading(w, 6) == w && Leading(w, 5) == Down(w) && Leading(w, 4) == Down(Down(w))
    ensures Leading(w, 3) == Down(Down(Down(w))) && Leading(w, 2) == Down(Down(Down(Down(w))))
    ensures Leading(w, 1) == Down(Down(Down(Down(Down(w)))))
  {
    hide Leading, Down;
    LeadingAll(w);
    LeadingDown(w, 5);
    LeadingDown(w, 4);
    LeadingDown(w, 3);
    LeadingDown(w, 2);
    LeadingDown(w, 1);
  }

  /** Each generator is the one before it, doubled digit by digit. */
  lemma GeneratorDoubles(i: nat, k: nat)
    requires i < 4 && k < 6
    ensures Digit(Generator(i + 1), k) == Doubled(Digit(Generator(i), k))
  {
    LeadingUnfold(Generator(i));
    LeadingUnfold(Generator(i + 1));
  }

  // ---------- running the register ----------

  lemma NoSymbols(c: Word) returns (vs: seq<bv8>)
    ensures vs == [] && Fold(c, vs) == c
  {
    vs := [];
  }

  lemma OneMore(c: Word, vs: seq<bv8>, chk: Word, v: bv8, next: Word) returns (r: seq<bv8>)
    requires Fold(c, vs) == chk
    requires var b := chk >> 25;
             next == Xor(Shifted(chk, v as Word),
                         Xor(Xor(Xor(Xor(Xor(0, Tap(b, 0)), Tap(b, 1)), Tap(b, 2)), Tap(b, 3)), Tap(b, 4)))
    ensures r == vs + [v] && Fold(c, r) == next
  {
    FeedbackUnfold(chk >> 25);
    r := vs + [v];
    assert r[..|vs|] == vs;
  }

  /** The symbols of "a12uel5l". */
  lemma ShortRegister()
    ensures Fold(0x1, [3, 0, 1, 10, 28, 25, 31, 20, 31]) == 0x1
  {
    hide Fold;
    var c: Word := 0x1;
    var vs := NoSymbols(c);
    vs := OneMore(c, vs, 0x1, 3, 0x23);
    vs := OneMore(c, vs, 0x23, 0, 0x460);
    vs := OneMore(c, vs, 0x460, 1, 0x8c01);
    vs := OneMore(c, vs, 0x8c01, 10, 0x11802a);
    vs := OneMore(c, vs, 0x11802a, 28, 0x230055c);
    vs := OneMore(c, vs, 0x230055c, 25, 0x3d6afc2b);
    vs := OneMore(c, vs, 0x3d6afc2b, 31, 0x2f84386);
    vs := OneMore(c, vs, 0x2f84386, 20, 0x24622766);
    vs := OneMore(c, vs, 0x24622766, 31, 0x1);
    assert vs == [3, 0, 1, 10, 28, 25, 31, 20, 31];
  }

  /** The symbols of "abcdef1qpzry9x8gf2tvdw0s3jn54khce6mua7lmqqqxw", in four parts. */
  lemma LongRegister0()
    ensures Fold(0x1, [3, 3, 3, 3, 3, 3, 0, 1, 2, 3, 4, 5, 6]) == 0x3be80e6a
  {
    hide Fold;
    var c: Word := 0x1;
    var vs := NoSymbols(c);
    vs := OneMore(c, vs, 0x1, 3, 0x23);
    vs := OneMore(c, vs, 0x23, 3, 0x463);
    vs := OneMore(c, vs, 0x463, 3, 0x8c63);
    vs := OneMore(c, vs, 0x8c63, 3, 0x118c63);
    vs := OneMore(c, vs, 0x118c63, 3, 0x2318c63);
    vs := OneMore(c, vs, 0x2318c63, 3, 0x3d5bdbd1);
    vs := OneMore(c, vs, 0x3d5bdbd1, 0, 0x4dcbcd9);
    vs := OneMore(c, vs, 0x4dcbcd9, 1, 0x3dc7154c);
    vs := OneMore(c, vs, 0x3dc7154c, 2, 0x17456f7b);
    vs := OneMore(c, vs, 0x17456f7b, 3, 0x8d50561);
    vs := OneMore(c, vs, 0x8d50561, 4, 0x401b5de);
    vs := OneMore(c, vs, 0x401b5de, 5, 0x266635a8);
    vs := OneMore(c, vs, 0x266635a8, 6, 0x3be80e6a);
    assert vs == [3, 3, 3, 3, 3, 3, 0, 1, 2, 3, 4, 5, 6];
  }

  lemma LongRegister1()
    ensures Fold(0x3be80e6a, [0, 1, 2, 3, 4, 5, 6, 7, 8, 9, 10, 11, 12]) == 0x1816793a
  {
    hide Fold;
    var c: Word := 0x3be80e6a;
    var vs := NoSymbols(c);
    vs := OneMore(c, vs, 0x3be80e6a, 0, 0xf9cd266);
    vs := OneMore(c, vs, 0xf9cd266, 1, 0x30018ce4);
    vs := OneMore(c, vs, 0x30018ce4, 2, 0x1767cdec);
    vs := OneMore(c, vs, 0x1767cdec, 3, 0xc815781);
    vs := OneMore(c, vs, 0xc815781, 4, 0x28db67b3);
    vs := OneMore(c, vs, 0x28db67b3, 5, 0x2fd98d2c);
    vs := OneMore(c, vs, 0x2fd98d2c, 6, 0x12be0710);
    vs := OneMore(c, vs, 0x12be0710, 7, 0x11e88668);
    vs := OneMore(c, vs, 0x11e88668, 8, 0x52fed5);
    vs := OneMore(c, vs, 0x52fed5, 9, 0xa5fdaa9);
    vs := OneMore(c, vs, 0xa5fdaa9, 10, 0x2e301b62);
    vs := OneMore(c, vs, 0x2e301b62, 11, 0x2f8ccedd);
    vs := OneMore(c, vs, 0x2f8ccedd, 12, 0x1816793a);
    assert vs == [0, 1, 2, 3, 4, 5, 6, 7, 8, 9, 10, 11, 12];
  }

  lemma LongRegister2()
    ensures Fold(0x1816793a, [13, 14, 15, 16, 17, 18, 19, 20, 21, 22, 23, 24, 25]) == 0x3f0597ac
  {
    hide Fold;
    var c: Word := 0x1816793a;
    var vs := NoSymbols(c);
    vs := OneMore(c, vs, 0x1816793a, 13, 0x212c0d6a);
    vs := OneMore(c, vs, 0x212c0d6a, 14, 0xf95cffd);
    vs := OneMore(c, vs, 0xf95cffd, 15, 0x31223f8a);
    vs := OneMore(c, vs, 0x31223f8a, 16, 0x3311a03e);
    vs := OneMore(c, vs, 0x3311a03e, 17, 0xe08010d);
    vs := OneMore(c, vs, 0xe08010d, 18, 0x29be197);
    vs := OneMore(c, vs, 0x29be197, 19, 0x28166541);
    vs := OneMore(c, vs, 0x28166541, 20, 0x3679d37d);
    vs := OneMore(c, vs, 0x3679d37d, 21, 0x556e704);
    vs := OneMore(c, vs, 0x556e704, 22, 0xc8c6efb);
    vs := OneMore(c, vs, 0xc8c6efb, 23, 0x297c48e0);
    vs := OneMore(c, vs, 0x297c48e0, 24, 0x1b3c6751);
    vs := OneMore(c, vs, 0x1b3c6751, 25, 0x3f0597ac);
    assert vs == [13, 14, 15, 16, 17, 18, 19, 20, 21, 22, 23, 24, 25];
  }

  lemma LongRegister3()
    ensures Fold(0x3f0597ac, [26, 27, 28, 29, 30, 31, 27, 0, 0, 0, 6, 14]) == 0x1
  {
    hide Fold;
    var c: Word := 0x3f0597ac;
    var vs := NoSymbols(c);
    vs := OneMore(c, vs, 0x3f0597ac, 26, 0x347f64d1);
    vs := OneMore(c, vs, 0x347f64d1, 27, 0x3eea4538);
    vs := OneMore(c, vs, 0x3eea4538, 28, 0x9853657);
    vs := OneMore(c, vs, 0x9853657, 29, 0x2e07d307);
    vs := OneMore(c, vs, 0x2e07d307, 30, 0x2975c268);
    vs := OneMore(c, vs, 0x2975c268, 31, 0x1a0d3656);
    vs := OneMore(c, vs, 0x1a0d3656, 27, 0x192fb74e);
    vs := OneMore(c, vs, 0x192fb74e, 0, 0x615c3e7);
    vs := OneMore(c, vs, 0x615c3e7, 0, 0x1f82a53f);
    vs := OneMore(c, vs, 0x1f82a53f, 0, 0xe8d5418);
    vs := OneMore(c, vs, 0xe8d5418, 6, 0x12314323);
    vs := OneMore(c, vs, 0x12314323, 14, 0x1);
    assert vs == [26, 27, 28, 29, 30, 31, 27, 0, 0, 0, 6, 14];
  }

  // ---------- the strings ----------

  const SHORT: Text := [97, 49, 50, 117, 101, 108, 53, 108]

  const SHORT_UPPER: Text := [65, 49, 50, 85, 69, 76, 53, 76]

  /** "a12uel5l" is the encoding of no data under "a". */
  lemma EncodesShort()
    ensures Encode([97], []) == Ok(SHORT)
  {
    hide Fold, Digits, Checksum, CharOf, ToLower;
    var cs: seq<bv8> := [10, 28, 25, 31, 20, 31];
    assert ToLower([97]) == [97];
    assert ExpandHrp([97]) == [3, 0, 1] by { assert HighBits([97]) == [3] && LowBits([97]) == [1]; }
    ShortRegister();
    assert [3, 0, 1] + [] + cs == [3, 0, 1, 10, 28, 25, 31, 20, 31];
    ChecksumUnique([97], [], cs);
    ShortChars(cs);
    assert Encode([97], []) == Ok([97] + [49] + Chars([]) + SHORT[2..]);
    assert SHORT == [97] + [49] + [] + SHORT[2..];
  }

  lemma ShortChars(cs: seq<bv8>)
    requires cs == [10, 28, 25, 31, 20, 31]
    ensures Symbols(cs) && Chars(cs) == SHORT[2..]
  {
    hide CharOf;
    Charset();
  }

  /** The decoder accepts it in either case. */
  lemma DecodesShort()
    ensures DecodeNoLimit(SHORT) == Ok(([97], [])) && DecodeNoLimit(SHORT_UPPER) == Ok(([97], []))
  {
    hide DecodeLower, Encode, ToLower, IsLower, IsUpper, Printable;
    EncodesShort();
    assert ValidHrp([97]) by { ShortScan(); }
    DecodeOfEncoded([97], []);
    ShortScan();
    ScanMeaning(SHORT);
    ScanMeaning(SHORT_UPPER);
  }

  lemma ShortScan()
    ensures ToLower(SHORT_UPPER) == SHORT && ToLower(SHORT) == SHORT && ToLower([97]) == [97] && Printable(97)
    ensures forall i :: 0 <= i < 8 ==> Printable(SHORT[i]) && !IsUpper(SHORT[i])
    ensures forall i :: 0 <= i < 8 ==> Printable(SHORT_UPPER[i]) && !IsLower(SHORT_UPPER[i])
    ensures IsUpper(SHORT_UPPER[0])
  {}

  const LONG_HRP: Text := [97, 98, 99, 100, 101, 102]

  const FIRST: seq<bv8> := [0, 1, 2, 3, 4, 5, 6, 7, 8, 9, 10, 11, 12]

  const SECOND: seq<bv8> := [13, 14, 15, 16, 17, 18, 19, 20, 21, 22, 23, 24, 25]

  const THIRD: seq<bv8> := [26, 27, 28, 29, 30, 31]

  const FIRST_TEXT: Text := [113, 112, 122, 114, 121, 57, 120, 56, 103, 102, 50, 116, 118]

  const SECOND_TEXT: Text := [100, 119, 48, 115, 51, 106, 110, 53, 52, 107, 104, 99, 101]

  const THIRD_TEXT: Text := [54, 109, 117, 97, 55, 108]

  const LONG_CHECKSUM: Text := [109, 113, 113, 113, 120, 119]

  const LONG: Text := LONG_HRP + [49] + FIRST_TEXT + SECOND_TEXT + THIRD_TEXT + LONG_CHECKSUM

  /** All symbols in order, as they are written under "abcdef". */
  const ALL_SYMBOLS: seq<bv8> := FIRST + SECOND + THIRD

  lemma SymbolsOfAll()
    ensures Symbols(FIRST) && Symbols(SECOND) && Symbols(THIRD) && Symbols(ALL_SYMBOLS) && |ALL_SYMBOLS| == 32
  {}

  /** "abcdef1qpzry9x8gf2tvdw0s3jn54khce6mua7lmqqqxw" is the encoding of all symbols. */
  lemma EncodesLong()
    ensures Encode(LONG_HRP, ALL_SYMBOLS) == Ok(LONG)
  {
    hide Fold, Digits, Checksum, CharOf, ToLower, Chars;
    var cs: seq<bv8> := [27, 0, 0, 0, 6, 14];
    assert ToLower(LONG_HRP) == LONG_HRP by { LongLower(); }
    LongAccepted(cs);
    ChecksumUnique(LONG_HRP, ALL_SYMBOLS, cs);
    LongChars(cs);
    assert LONG == LONG_HRP + [49] + (FIRST_TEXT + SECOND_TEXT + THIRD_TEXT) + LONG_CHECKSUM;
  }

  lemma LongLower()
    ensures ToLower(LONG_HRP) == LONG_HRP
  {}

  lemma LongAccepted(cs: seq<bv8>)
    requires cs == [27, 0, 0, 0, 6, 14]
    ensures Accepts(LONG_HRP, ALL_SYMBOLS, cs)
  {
    hide Fold;
    LongRegister0();
    LongRegister1();
    LongRegister2();
    LongRegister3();
    assert ExpandHrp(LONG_HRP) == [3, 3, 3, 3, 3, 3, 0, 1, 2, 3, 4, 5, 6] by { LongExpanded(); }
    assert THIRD + cs == [26, 27, 28, 29, 30, 31, 27, 0, 0, 0, 6, 14];
    var hrp := ExpandHrp(LONG_HRP);
    FoldConcat(1, hrp, FIRST);
    FoldConcat(1, hrp + FIRST, SECOND);
    FoldConcat(1, hrp + FIRST + SECOND, THIRD + cs);
    assert hrp + ALL_SYMBOLS + cs == hrp + FIRST + SECOND + (THIRD + cs);
  }

  lemma LongExpanded()
    ensures ExpandHrp(LONG_HRP) == [3, 3, 3, 3, 3, 3, 0, 1, 2, 3, 4, 5, 6]
  {}

  /** The charset "qpzry9x8gf2tvdw0s3jn54khce6mua7l". */
  lemma Charset()
    ensures CharOf(0) == 113 && CharOf(1) == 112 && CharOf(2) == 122 && CharOf(3) == 114
    ensures CharOf(4) == 121 && CharOf(5) == 57 && CharOf(6) == 120 && CharOf(7) == 56
    ensures CharOf(8) == 103 && CharOf(9) == 102 && CharOf(10) == 50 && CharOf(11) == 116
    ensures CharOf(12) == 118 && CharOf(13) == 100 && CharOf(14) == 119 && CharOf(15) == 48
    ensures CharOf(16) == 115 && CharOf(17) == 51 && CharOf(18) == 106 && CharOf(19) == 110
    ensures CharOf(20) == 53 && CharOf(21) == 52 && CharOf(22) == 107 && CharOf(23) == 104
    ensures CharOf(24) == 99 && CharOf(25) == 101 && CharOf(26) == 54 && CharOf(27) == 109
    ensures CharOf(28) == 117 && CharOf(29) == 97 && CharOf(30) == 55 && CharOf(31) == 108
  {
    hide CharOf;
    Charset0();
    Charset8();
    Charset16();
    Charset24();
  }

  lemma Charset0()
    ensures CharOf(0) == 113 && CharOf(1) == 112 && CharOf(2) == 122 && CharOf(3) == 114
    ensures CharOf(4) == 121 && CharOf(5) == 57 && CharOf(6) == 120 && CharOf(7) == 56
  {}

  lemma Charset8()
    ensures CharOf(8) == 103 && CharOf(9) == 102 && CharOf(10) == 50 && CharOf(11) == 116
    ensures CharOf(12) == 118 && CharOf(13) == 100 && CharOf(14) == 119 && CharOf(15) == 48
  {}

  lemma Charset16()
    ensures CharOf(16) == 115 && CharOf(17) == 51 && CharOf(18) == 106 && CharOf(19) == 110
    ensures CharOf(20) == 53 && CharOf(21) == 52 && CharOf(22) == 107 && CharOf(23) == 104
  {}

  lemma Charset24()
    ensures CharOf(24) == 99 && CharOf(25) == 101 && CharOf(26) == 54 && CharOf(27) == 109
    ensures CharOf(28) == 117 && CharOf(29) == 97 && CharOf(30) == 55 && CharOf(31) == 108
  {}

  lemma LongChars(cs: seq<bv8>)
    requires cs == [27, 0, 0, 0, 6, 14]
    ensures Symbols(cs) && Chars(cs) == LONG_CHECKSUM
    ensures Symbols(ALL_SYMBOLS) && Chars(ALL_SYMBOLS) == FIRST_TEXT + SECOND_TEXT + THIRD_TEXT
  {
    hide CharOf;
    Charset();
    SymbolsOfAll();
    FirstChars();
    SecondChars();
    ThirdChars();
    hide FIRST, SECOND, THIRD;
    assert Chars(ALL_SYMBOLS) == Chars(FIRST) + Chars(SECOND) + Chars(THIRD);
  }

  lemma FirstChars()
    ensures Symbols(FIRST) && Chars(FIRST) == FIRST_TEXT
  {
    hide CharOf;
    Charset();
  }

  lemma SecondChars()
    ensures Symbols(SECOND) && Chars(SECOND) == SECOND_TEXT
  {
    hide CharOf;
    Charset();
  }

  lemma ThirdChars()
    ensures Symbols(THIRD) && Chars(THIRD) == THIRD_TEXT
  {
    hide CharOf;
    Charset();
  }

  /** A byte in two groups of five bits, the second one padded. */
  lemma ConvertsKnown(data: seq<bv8>)
    requires data == [0x7B]
    ensures Bits.Convert(data, 8, 5, true) == Ok([15, 12])
  {
    hide Bits.FromBits;
    var bits := Bits.Stream(data, 8);
    Bits.StreamOne(0x7B, 8);
    assert bits == [false, true, true, true, true, false, true, true];
    assert bits[..5] == [false, true, true, true, true] && bits[5..] == [false, true, true];
    assert bits[5..] + Bits.Falses(2) == [false, true, true, false, false];
    assert Bits.Groups(bits[5..], 5) == [] && Bits.Leftover(bits, 5) == Bits.Leftover(bits[5..], 5) == bits[5..];
    Fifteen();
    Twelve();
    assert Bits.Groups(bits, 5) == [15] + [];
    var rest := Bits.Leftover(bits, 5);
    assert Bits.FromBits(rest + Bits.Falses(2)) == 12;
    assert Bits.Groups(bits, 5) + [12] == [15, 12];
  }

  lemma Fifteen()
    ensures Bits.FromBits([false, true, true, true, true]) == 15
  {
    Prefixes(true, true);
    Three();
    assert Bits.FromBits([false, true, true, true]) == Bits.Or(Bits.Left(3), 1) == 7;
    assert Bits.FromBits([false, true, true, true, true]) == Bits.Or(Bits.Left(7), 1);
  }

  lemma Twelve()
    ensures Bits.FromBits([false, true, true, false, false]) == 12
  {
    Prefixes(false, false);
    Three();
    assert Bits.FromBits([false, true, true, false]) == Bits.Or(Bits.Left(3), 0) == 6;
    assert Bits.FromBits([false, true, true, false, false]) == Bits.Or(Bits.Left(6), 0);
  }

  lemma Three()
    ensures Bits.FromBits([false, true, true]) == 3
  {
    assert [false, true, true][..2] == [false, true] && [false, true][..1] == [false] && [false][..0] == [];
    assert Bits.FromBits([false]) == 0 && Bits.FromBits([false, true]) == 1;
  }

  lemma Prefixes(d: bool, e: bool)
    ensures [false, true, true, d, e][..4] == [false, true, true, d]
    ensures [false, true, true, d][..3] == [false, true, true]
    ensures Bits.FromBits([false, true, true, d, e]) ==
            Bits.Or(Bits.Left(Bits.FromBits([false, true, true, d])), if e then 1 else 0)
  {
    hide Bits.Or, Bits.Left;
    assert [false, true, true, d, e][..4] == [false, true, true, d];
    assert [false, true, true, d][..3] == [false, true, true];
  }
}
