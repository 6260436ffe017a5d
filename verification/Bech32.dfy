/** The bech32 codec of BIP 173, section "Bech32", as `wallet/bech32` implements it. Strings are byte strings. */
module Bech32 {
  import opened Wrappers
  import opened Bech32Checksum
  import Bits = BitStream

  type Text = seq<bv8>

  datatype Error =
    | InvalidLength(length: nat)
    | InvalidCharacter(c: bv8)
    | MixedCase
    | InvalidSeparatorIndex(index: int)
    | NonCharsetChar(c: bv8)
    | InvalidChecksum(expected: Text, actual: Text)
    | InvalidDataByte(b: bv8)
    | InvalidBits(e: Bits.ConvertError)

  /** The separator '1'. */
  const SEPARATOR: bv8 := 49

  const MAX_LENGTH: nat := 256

  /** The charset "qpzry9x8gf2tvdw0s3jn54khce6mua7l": the character of a five-bit value. */
  function CharOf(v: bv8): bv8
    requires v < 32
  {
    if v == 0 then 113 else if v == 1 then 112 else if v == 2 then 122 else if v == 3 then 114 else
    if v == 4 then 121 else if v == 5 then 57 else if v == 6 then 120 else if v == 7 then 56 else
    if v == 8 then 103 else if v == 9 then 102 else if v == 10 then 50 else if v == 11 then 116 else
    if v == 12 then 118 else if v == 13 then 100 else if v == 14 then 119 else if v == 15 then 48 else
    if v == 16 then 115 else if v == 17 then 51 else if v == 18 then 106 else if v == 19 then 110 else
    if v == 20 then 53 else if v == 21 then 52 else if v == 22 then 107 else if v == 23 then 104 else
    if v == 24 then 99 else if v == 25 then 101 else if v == 26 then 54 else if v == 27 then 109 else
    if v == 28 then 117 else if v == 29 then 97 else if v == 30 then 55 else 108
  }

  /** The index of a character in the charset. */
  function ValueOf(c: bv8): Option<bv8>
  {
    if c == 113 then Some(0) else if c == 112 then Some(1) else if c == 122 then Some(2) else
    if c == 114 then Some(3) else if c == 121 then Some(4) else if c == 57 then Some(5) else
    if c == 120 then Some(6) else if c == 56 then Some(7) else if c == 103 then Some(8) else
    if c == 102 then Some(9) else if c == 50 then Some(10) else if c == 116 then Some(11) else
    if c == 118 then Some(12) else if c == 100 then Some(13) else if c == 119 then Some(14) else
    if c == 48 then Some(15) else if c == 115 then Some(16) else if c == 51 then Some(17) else
    if c == 106 then Some(18) else if c == 110 then Some(19) else if c == 53 then Some(20) else
    if c == 52 then Some(21) else if c == 107 then Some(22) else if c == 104 then Some(23) else
    if c == 99 then Some(24) else if c == 101 then Some(25) else if c == 54 then Some(26) else
    if c == 109 then Some(27) else if c == 117 then Some(28) else if c == 97 then Some(29) else
    if c == 55 then Some(30) else if c == 108 then Some(31) else
    None
  }

  predicate IsUpper(c: bv8) { 65 <= c <= 90 }

  predicate IsLower(c: bv8) { 97 <= c <= 122 }

  predicate Printable(c: bv8) { 33 <= c <= 126 }

  function LowerChar(c: bv8): bv8 { if IsUpper(c) then c + 32 else c }

  function ToLower(s: Text): (r: Text)
    ensures |r| == |s| && forall i :: 0 <= i < |s| ==> r[i] == LowerChar(s[i])
  {
    seq(|s|, i requires 0 <= i < |s| => LowerChar(s[i]))
  }

  function Chars(data: seq<bv8>): (r: Text)
    requires Symbols(data)
    ensures |r| == |data| && forall i :: 0 <= i < |data| ==> r[i] == CharOf(data[i])
  {
    seq(|data|, i requires 0 <= i < |data| => CharOf(data[i]))
  }

  /** `toBytes`: the five-bit values of the characters, or the first character outside the charset. */
  function Values(chars: Text): Result<seq<bv8>, Error>
  {
    if chars == [] then Ok([])
    else
      var front := Values(chars[..|chars| - 1]);
      var c := chars[|chars| - 1];
      if front.Err? then front
      else match ValueOf(c)
           case None => Err(NonCharsetChar(c))
           case Some(v) => Ok(front.value + [v])
  }

  /** The state of the character scan: the case flags so far, or the error that ends it. */
  datatype Scan = Flags(lower: bool, upper: bool) | Bad(error: Error)

  function ScanChar(s: Scan, c: bv8): Scan
  {
    if s.Bad? then s
    else if !Printable(c) then Bad(InvalidCharacter(c))
    else
      var lower, upper := s.lower || IsLower(c), s.upper || IsUpper(c);
      if lower && upper then Bad(MixedCase) else Flags(lower, upper)
  }

  function ScanText(s: Text): Scan
  {
    if s == [] then Flags(false, false) else ScanChar(ScanText(s[..|s| - 1]), s[|s| - 1])
  }

  /** The index of the last '1', or -1. */
  function LastSeparator(s: Text): (one: int)
    ensures -1 <= one < |s|
    ensures one >= 0 ==> s[one] == SEPARATOR
    ensures forall i :: one < i < |s| ==> s[i] != SEPARATOR
  {
    if s == [] then -1
    else if s[|s| - 1] == SEPARATOR then |s| - 1
    else LastSeparator(s[..|s| - 1])
  }

  /** `DecodeNoLimit` on a string that passed the scan, in lower case. */
  function DecodeLower(bech: Text): Result<(Text, seq<bv8>), Error>
  {
    var one := LastSeparator(bech);
    if one < 1 || one + 7 > |bech| then Err(InvalidSeparatorIndex(one))
    else
      var hrp := bech[..one];
      match Values(bech[one + 1..])
      case Err(e) => Err(e)
      case Ok(decoded) =>
        ValuesShape(bech[one + 1..]);
        var payload := decoded[..|decoded| - 6];
        if Accepts(hrp, payload, decoded[|decoded| - 6..]) then Ok((hrp, payload))
        else Err(InvalidChecksum(Chars(Checksum(hrp, payload)), bech[|bech| - 6..]))
  }

  function DecodeNoLimit(bech: Text): Result<(Text, seq<bv8>), Error>
  {
    if |bech| < 8 then Err(InvalidLength(|bech|))
    else
      var scan := ScanText(bech);
      if scan.Bad? then Err(scan.error)
      else DecodeLower(if scan.upper then ToLower(bech) else bech)
  }

  function Decode(bech: Text): Result<(Text, seq<bv8>), Error>
  {
    if |bech| > MAX_LENGTH then Err(InvalidLength(|bech|)) else DecodeNoLimit(bech)
  }

  /** The first data byte that is not a five-bit value. */
  function FirstBadByte(data: seq<bv8>): (r: Option<bv8>)
    ensures r.None? <==> Symbols(data)
  {
    if data == [] then None else if data[0] >= 32 then Some(data[0]) else FirstBadByte(data[1..])
  }

  function Encode(hrp: Text, data: seq<bv8>): Result<Text, Error>
  {
    var bad := FirstBadByte(data);
    if bad.Some? then Err(InvalidDataByte(bad.value))
    else Ok(ToLower(hrp) + [SEPARATOR] + Chars(data) + Chars(Checksum(ToLower(hrp), data)))
  }

  function EncodeFromBase256(hrp: Text, data: seq<bv8>): Result<Text, Error>
  {
    match Bits.Convert(data, 8, 5, true)
    case Err(e) => Err(InvalidBits(e))
    case Ok(converted) => Encode(hrp, converted)
  }

  function DecodeToBase256(bech: Text): Result<(Text, seq<bv8>), Error>
  {
    match Decode(bech)
    case Err(e) => Err(e)
    case Ok((hrp, data)) =>
      match Bits.Convert(data, 5, 8, false)
      case Err(e) => Err(InvalidBits(e))
      case Ok(converted) => Ok((hrp, converted))
  }

  // ---------- characters ----------

  /** What the scan lets through, in ranges of characters, and that its complaint and the one about the length come
      before all others. */
  lemma ScanVerdict(s: Text)
    ensures ScanText(s).Flags? <==>
              (forall i :: 0 <= i < |s| ==> 33 <= s[i] <= 126) &&
              !((exists i :: 0 <= i < |s| && 97 <= s[i] <= 122) && exists i :: 0 <= i < |s| && 65 <= s[i] <= 90)
    ensures |s| < 8 <==> DecodeNoLimit(s) == Err(InvalidLength(|s|))
    ensures |s| >= 8 && ScanText(s).Bad? ==> DecodeNoLimit(s) == Err(ScanText(s).error)
    ensures forall i :: 0 <= i < |s| ==> ToLower(s)[i] == if 65 <= s[i] <= 90 then s[i] + 32 else s[i]
  {
    ScanMeaning(s);
    hide ScanText, DecodeLower;
    if |s| >= 8 && ScanText(s).Flags? {
      DecodeLowerError(ToLower(s));
      DecodeLowerError(s);
    }
  }

  /** What the scan blames: the first character that is not printable ASCII, or the two cases among the printable
      characters up to some place. */
  lemma {:induction false} ScanBlames(s: Text) returns (i: nat)
    requires ScanText(s).Bad?
    ensures i < |s| && forall j :: 0 <= j < i ==> 33 <= s[j] <= 126
    ensures !(33 <= s[i] <= 126) ==> ScanText(s) == Bad(InvalidCharacter(s[i]))
    ensures 33 <= s[i] <= 126 ==> ScanText(s) == Bad(MixedCase)
                                  && (exists j :: 0 <= j <= i && 65 <= s[j] <= 90)
                                  && exists j :: 0 <= j <= i && 97 <= s[j] <= 122
    decreases |s|
  {
    var n := |s| - 1;
    if ScanText(s[..n]).Bad? {
      i := ScanBlames(s[..n]);
    } else {
      i := n;
      ScanMeaning(s[..n]);
    }
  }

  /** The last '1' of the string is at the index, which is -1 if there is none. */
  predicate IsLastOne(s: Text, index: int)
  {
    -1 <= index < |s| && (index >= 0 ==> s[index] == 49) && forall i :: index < i < |s| ==> s[i] != 49
  }

  lemma LastOneUnique(s: Text, i: int, j: int)
    requires IsLastOne(s, i) && IsLastOne(s, j)
    ensures i == j
  {}

  lemma LastOneOfLower(s: Text)
    ensures IsLastOne(s, LastSeparator(ToLower(s)))
  {
    hide LowerChar;
    var one := LastSeparator(ToLower(s));
    forall i | 0 <= i < |s| ensures ToLower(s)[i] == 49 <==> s[i] == 49 { LowerCharFacts(s[i]); }
  }

  /** What a scanned string of eight characters or more is blamed for next: its last '1' is missing, in front or among
      the last six characters. */
  lemma SeparatorBlamed(s: Text, index: int)
    requires |s| >= 8 && ScanText(s).Flags?
    ensures DecodeNoLimit(s) == Err(InvalidSeparatorIndex(index)) <==>
              IsLastOne(s, index) && (index < 1 || index > |s| - 7)
  {
    hide *;
    LowerIsDecoded(s);
    LowerBlames(ToLower(s));
    LastOneOfLower(s);
    if IsLastOne(s, index) {
      LastOneUnique(s, index, LastSeparator(ToLower(s)));
    }
  }

  lemma LowerIsDecoded(s: Text)
    requires |s| >= 8 && ScanText(s).Flags?
    ensures DecodeNoLimit(s) == DecodeLower(ToLower(s))
  {
    LowerCased(s);
    hide ToLower, ScanText, DecodeLower;
  }

  /** And then the first character behind the separator that is outside the charset. */
  lemma CharBlamed(s: Text, c: bv8) returns (one: nat, i: nat)
    requires |s| >= 8 && ScanText(s).Flags? && DecodeNoLimit(s) == Err(NonCharsetChar(c))
    ensures IsLastOne(s, one) && 1 <= one < i < |s| && one <= |s| - 7
    ensures ToLower(s)[i] == c && ValueOf(c).None? && forall j :: one < j < i ==> ValueOf(ToLower(s)[j]).Some?
  {
    hide *;
    LowerIsDecoded(s);
    LowerBlames(ToLower(s));
    LastOneOfLower(s);
    one := LastSeparator(ToLower(s));
    i := OutsideBehind(ToLower(s), one);
  }

  lemma OutsideBehind(t: Text, one: nat) returns (i: nat)
    requires one < |t| && Values(t[one + 1..]).Err?
    ensures one < i < |t| && ValueOf(t[i]).None? && Values(t[one + 1..]) == Err(NonCharsetChar(t[i]))
    ensures forall j :: one < j < i ==> ValueOf(t[j]).Some?
  {
    hide ValueOf, Values;
    var k := FirstOutside(t[one + 1..]);
    i := one + 1 + k;
    assert t[one + 1..][k] == t[i];
    forall j | one < j < i ensures ValueOf(t[j]).Some? { assert t[j] == t[one + 1..][j - one - 1]; }
  }

  lemma LowerBlames(t: Text)
    ensures var one := LastSeparator(t);
            if one < 1 || one > |t| - 7 then DecodeLower(t) == Err(InvalidSeparatorIndex(one))
            else !(DecodeLower(t).Err? && DecodeLower(t).error.InvalidSeparatorIndex?)
                 && (DecodeLower(t).Err? && DecodeLower(t).error.NonCharsetChar? ==>
                       Values(t[one + 1..]).Err? && Values(t[one + 1..]).error == DecodeLower(t).error)
  {
    hide ValueOf, Accepts, Checksum, Chars, Values, LastSeparator;
    ValuesError(t[LastSeparator(t) + 1..]);
  }

  /** The encoder blames the first byte that is no five-bit value. */
  lemma ByteBlamed(hrp: Text, data: seq<bv8>) returns (i: nat)
    requires Encode(hrp, data).Err?
    ensures i < |data| && 32 <= data[i] && Encode(hrp, data) == Err(InvalidDataByte(data[i]))
    ensures forall j :: 0 <= j < i ==> data[j] < 32
  {
    i := BadByteAt(data);
  }

  lemma {:induction false} BadByteAt(data: seq<bv8>) returns (i: nat)
    requires FirstBadByte(data).Some?
    ensures i < |data| && 32 <= data[i] && FirstBadByte(data) == Some(data[i])
    ensures forall j :: 0 <= j < i ==> data[j] < 32
  {
    if data[0] >= 32 {
      i := 0;
    } else {
      var k := BadByteAt(data[1..]);
      i := k + 1;
      assert forall j :: 1 <= j < i ==> data[j] == data[1..][j - 1];
    }
  }

  lemma {:induction false} FirstOutside(chars: Text) returns (k: nat)
    requires Values(chars).Err?
    ensures k < |chars| && ValueOf(chars[k]).None? && Values(chars) == Err(NonCharsetChar(chars[k]))
    ensures forall j :: 0 <= j < k ==> ValueOf(chars[j]).Some?
    decreases |chars|
  {
    hide ValueOf;
    var n := |chars| - 1;
    if Values(chars[..n]).Err? {
      k := FirstOutside(chars[..n]);
    } else {
      k := n;
      AllInside(chars[..n]);
    }
  }

  lemma {:induction false} AllInside(chars: Text)
    requires Values(chars).Ok?
    ensures forall j :: 0 <= j < |chars| ==> ValueOf(chars[j]).Some?
    decreases |chars|
  {
    hide ValueOf;
    if chars != [] {
      AllInside(chars[..|chars| - 1]);
    }
  }

  lemma DecodeLowerError(bech: Text)
    ensures DecodeLower(bech) != Err(InvalidLength(|bech|))
  {
    ValuesError(bech[LastSeparator(bech) + 1..]);
  }

  lemma {:induction false} ValuesError(chars: Text)
    ensures Values(chars).Err? ==> Values(chars).error.NonCharsetChar?
    decreases |chars|
  {
    hide ValueOf;
    if chars != [] {
      ValuesError(chars[..|chars| - 1]);
    }
  }

  lemma CharValue(v: bv8)
    requires v < 32
    ensures ValueOf(CharOf(v)) == Some(v)
  {
    hide ValueOf, CharOf;
    if v < 8 {
      CharValue0(v);
    } else if v < 16 {
      CharValue8(v);
    } else if v < 24 {
      CharValue16(v);
    } else {
      CharValue24(v);
    }
  }

  lemma CharValue0(v: bv8) requires v < 8 ensures ValueOf(CharOf(v)) == Some(v) {}
  lemma CharValue8(v: bv8) requires 8 <= v < 16 ensures ValueOf(CharOf(v)) == Some(v) {}
  lemma CharValue16(v: bv8) requires 16 <= v < 24 ensures ValueOf(CharOf(v)) == Some(v) {}
  lemma CharValue24(v: bv8) requires 24 <= v < 32 ensures ValueOf(CharOf(v)) == Some(v) {}

  lemma CharShape(v: bv8)
    requires v < 32
    ensures CharOf(v) != SEPARATOR && Printable(CharOf(v)) && !IsUpper(CharOf(v))
  {}

  lemma ValueChar(c: bv8)
    ensures ValueOf(c).Some? ==> ValueOf(c).value < 32 && CharOf(ValueOf(c).value) == c
  {}

  /** `toBytes` succeeds exactly on strings over the charset, and reads them back. */
  lemma {:induction false} ValuesShape(chars: Text)
    ensures Values(chars).Ok? ==> Symbols(Values(chars).value) && |Values(chars).value| == |chars|
                                  && Chars(Values(chars).value) == chars
    ensures Values(chars).Err? ==> Values(chars).error.NonCharsetChar?
    decreases |chars|
  {
    hide ValueOf, CharOf;
    if chars != [] {
      ValuesShape(chars[..|chars| - 1]);
      ValueChar(chars[|chars| - 1]);
    }
  }

  lemma {:induction false} ValuesOfChars(data: seq<bv8>)
    requires Symbols(data)
    ensures Values(Chars(data)) == Ok(data)
    decreases |data|
  {
    hide ValueOf, CharOf;
    if data != [] {
      var n := |data| - 1;
      ValuesOfChars(data[..n]);
      assert Chars(data)[..n] == Chars(data[..n]) && data == data[..n] + [data[n]];
      CharValue(data[n]);
    }
  }

  lemma LowerCharFacts(c: bv8)
    ensures !IsUpper(LowerChar(c)) && (Printable(c) ==> Printable(LowerChar(c)))
    ensures !IsUpper(c) ==> LowerChar(c) == c
    ensures LowerChar(c) == SEPARATOR <==> c == SEPARATOR
    ensures !(IsLower(c) && IsUpper(c))
  {}

  /** The scan accepts exactly the printable strings that do not mix cases. */
  lemma {:induction false} ScanMeaning(s: Text)
    ensures ScanText(s).Flags? <==>
              (forall i :: 0 <= i < |s| ==> Printable(s[i])) &&
              !((exists i :: 0 <= i < |s| && IsLower(s[i])) && (exists i :: 0 <= i < |s| && IsUpper(s[i])))
    ensures ScanText(s).Flags? ==> (ScanText(s).upper <==> exists i :: 0 <= i < |s| && IsUpper(s[i]))
    ensures ScanText(s).Flags? ==> (ScanText(s).lower <==> exists i :: 0 <= i < |s| && IsLower(s[i]))
    ensures ScanText(s).Bad? ==> ScanText(s).error.InvalidCharacter? || ScanText(s).error.MixedCase?
    decreases |s|
  {
    hide IsLower, IsUpper, Printable;
    if s != [] {
      var n := |s| - 1;
      ScanMeaning(s[..n]);
      assert forall i :: 0 <= i < n ==> s[..n][i] == s[i];
    }
  }

  lemma SeparatorAt(s: Text, one: nat)
    requires one < |s| && s[one] == SEPARATOR && forall i :: one < i < |s| ==> s[i] != SEPARATOR
    ensures LastSeparator(s) == one
  {}

  // ---------- the main results ----------

  /** After the scan the decoder continues with the lower case of the string. */
  lemma LowerCased(bech: Text)
    requires ScanText(bech).Flags?
    ensures (if ScanText(bech).upper then ToLower(bech) else bech) == ToLower(bech)
    ensures forall i :: 0 <= i < |bech| ==>
              Printable(ToLower(bech)[i]) && LowerChar(ToLower(bech)[i]) == ToLower(bech)[i]
  {
    hide LowerChar, IsUpper, Printable, IsLower;
    ScanMeaning(bech);
    forall i | 0 <= i < |bech|
      ensures Printable(ToLower(bech)[i]) && LowerChar(ToLower(bech)[i]) == ToLower(bech)[i]
      ensures !IsUpper(bech[i]) ==> ToLower(bech)[i] == bech[i]
    {
      LowerCharFacts(bech[i]);
      LowerCharFacts(LowerChar(bech[i]));
    }
    if !ScanText(bech).upper {
      assert ToLower(bech) == bech;
    }
  }

  lemma LowerShape(bech: Text)
    requires DecodeLower(bech).Ok?
    ensures var (hrp, data) := DecodeLower(bech).value;
            Symbols(data) && hrp != [] && |hrp| + |data| + 7 == |bech|
            && bech == hrp + [SEPARATOR] + Chars(data) + Chars(Checksum(hrp, data))
  {
    hide CharOf, Accepts, Checksum, Values;
    var one := LastSeparator(bech);
    ValuesShape(bech[one + 1..]);
    var decoded := Values(bech[one + 1..]).value;
    var n := |decoded| - 6;
    assert Symbols(decoded[n..]) && |decoded[n..]| == 6;
    ChecksumUnique(bech[..one], decoded[..n], decoded[n..]);
    assert Chars(decoded) == Chars(decoded[..n]) + Chars(decoded[n..]);
    assert bech == bech[..one] + [SEPARATOR] + bech[one + 1..];
  }

  /** What a decoded string looks like: its lower case is the human-readable part, '1', the data and the
      one checksum that belongs to them. */
  lemma DecodedShape(bech: Text)
    ensures DecodeNoLimit(bech).Ok? ==>
              var (hrp, data) := DecodeNoLimit(bech).value;
              Symbols(data) && hrp != [] && |hrp| + |data| + 7 == |bech|
              && ToLower(bech) == hrp + [SEPARATOR] + Chars(data) + Chars(Checksum(hrp, data))
  {
    hide DecodeLower, Checksum, LowerChar, CharOf;
    if DecodeNoLimit(bech).Ok? {
      LowerCased(bech);
      LowerShape(ToLower(bech));
    }
  }

  /** Canonical decoding: re-encoding what was decoded gives the lower case of the string. */
  lemma EncodeOfDecoded(bech: Text)
    ensures DecodeNoLimit(bech).Ok? ==>
              var (hrp, data) := DecodeNoLimit(bech).value;
              Encode(hrp, data) == Ok(ToLower(bech)) && ToLower(hrp) == hrp
  {
    hide CharOf, Checksum, LowerChar, DecodeLower;
    if DecodeNoLimit(bech).Ok? {
      DecodedShape(bech);
      LowerCased(bech);
      var (hrp, data) := DecodeNoLimit(bech).value;
      assert hrp == ToLower(bech)[..|hrp|];
      assert ToLower(hrp) == hrp;
    }
  }

  /** The human-readable parts that BIP 173 allows. */
  predicate ValidHrp(hrp: Text) { hrp != [] && forall i :: 0 <= i < |hrp| ==> Printable(hrp[i]) }

  lemma EncodedScan(hrp: Text, rest: Text)
    requires ValidHrp(hrp)
    requires forall i :: 0 <= i < |rest| ==> Printable(rest[i]) && !IsUpper(rest[i])
    ensures ScanText(ToLower(hrp) + rest).Flags? && !ScanText(ToLower(hrp) + rest).upper
  {
    hide LowerChar, IsUpper, IsLower, Printable;
    var s := ToLower(hrp) + rest;
    forall i | 0 <= i < |s| ensures Printable(s[i]) && !IsUpper(s[i]) {
      if i < |hrp| { LowerCharFacts(hrp[i]); }
    }
    ScanMeaning(s);
  }

  lemma CharsShape(data: seq<bv8>)
    requires Symbols(data)
    ensures forall i :: 0 <= i < |data| ==>
              Chars(data)[i] != SEPARATOR && Printable(Chars(data)[i]) && !IsUpper(Chars(data)[i])
  {
    hide CharOf, IsUpper, Printable;
    forall i | 0 <= i < |data|
      ensures Chars(data)[i] != SEPARATOR && Printable(Chars(data)[i]) && !IsUpper(Chars(data)[i])
    {
      CharShape(data[i]);
    }
  }

  lemma SeparatorShape()
    ensures Printable(SEPARATOR) && !IsUpper(SEPARATOR)
  {}

  /** How the decoder takes an encoded string apart. */
  lemma EncodedParts(hrp: Text, all: seq<bv8>)
    requires ValidHrp(hrp) && Symbols(all)
    ensures var s := ToLower(hrp) + [SEPARATOR] + Chars(all);
            && ScanText(s).Flags? && !ScanText(s).upper
            && LastSeparator(s) == |hrp| && s[..|hrp|] == ToLower(hrp) && Values(s[|hrp| + 1..]) == Ok(all)
  {
    hide CharOf, LowerChar, Printable, IsUpper, IsLower, Values, ScanText;
    var low := ToLower(hrp);
    var s := low + [SEPARATOR] + Chars(all);
    assert s == low + ([SEPARATOR] + Chars(all));
    CharsShape(all);
    SeparatorShape();
    EncodedScan(hrp, [SEPARATOR] + Chars(all));
    SeparatorAt(s, |low|);
    assert s[|low| + 1..] == Chars(all);
    ValuesOfChars(all);
  }

  /** Encode, then decode: the lower-cased human-readable part (which may itself contain '1') and the data come
      back, whatever their length. */
  lemma DecodeOfEncoded(hrp: Text, data: seq<bv8>)
    requires ValidHrp(hrp) && Symbols(data)
    ensures Encode(hrp, data).Ok? && |Encode(hrp, data).value| == |hrp| + |data| + 7
    ensures DecodeNoLimit(Encode(hrp, data).value) == Ok((ToLower(hrp), data))
  {
    hide CharOf, Accepts, Checksum, LowerChar, Values, ScanText, LastSeparator, Printable;
    var low := ToLower(hrp);
    var all := data + Checksum(low, data);
    var s := Encode(hrp, data).value;
    assert Chars(all) == Chars(data) + Chars(Checksum(low, data));
    assert s == low + [SEPARATOR] + Chars(all);
    EncodedParts(hrp, all);
    ChecksumUnique(low, data, Checksum(low, data));
    assert all[..|all| - 6] == data && all[|all| - 6..] == Checksum(low, data);
  }

  /** The same through base 256, within the decoder's length limit. */
  lemma RoundTripBase256(hrp: Text, data: seq<bv8>)
    requires ValidHrp(hrp)
    ensures EncodeFromBase256(hrp, data).Ok?
    ensures |EncodeFromBase256(hrp, data).value| <= 256 ==>
              DecodeToBase256(EncodeFromBase256(hrp, data).value) == Ok((ToLower(hrp), data))
    ensures var text := EncodeFromBase256(hrp, data).value;
            |text| > 256 ==> DecodeToBase256(text) == Err(InvalidLength(|text|))
  {
    hide DecodeNoLimit, Encode, ToLower;
    Bits.EightFiveEight(data);
    var converted := Bits.Convert(data, 8, 5, true).value;
    FitSymbols(converted);
    DecodeOfEncoded(hrp, converted);
  }

  lemma FitSymbols(data: seq<bv8>)
    ensures Bits.AllFit(data, 5) <==> Symbols(data)
  {
    forall i | 0 <= i < |data| ensures Bits.Fits(data[i], 5) <==> data[i] < 32 { FitSymbol(data[i]); }
  }

  lemma FitSymbol(x: bv8)
    ensures Bits.Fits(x, 5) <==> x < 32
  {
    assert Bits.Fits(x, 5) <==> !Bits.Bit(x, 5) && !Bits.Bit(x, 6) && !Bits.Bit(x, 7);
  }

  /** Canonical decoding through base 256. */
  lemma CanonicalBase256(bech: Text)
    ensures DecodeToBase256(bech).Ok? ==>
              var (hrp, data) := DecodeToBase256(bech).value;
              EncodeFromBase256(hrp, data) == Ok(ToLower(bech)) && ToLower(hrp) == hrp
  {
    hide DecodeNoLimit, Encode, ToLower;
    if DecodeToBase256(bech).Ok? {
      DecodedShape(bech);
      var (hrp, symbols) := DecodeNoLimit(bech).value;
      FitSymbols(symbols);
      Bits.FiveEightFive(symbols);
      EncodeOfDecoded(bech);
    }
  }

  /** Burst detection at any length: two strings that differ, up to case, and only inside six consecutive positions are
      never both accepted with the same human-readable part. */
  lemma BurstsAreDetected(s: Text, t: Text, p: nat)
    requires |s| == |t|
    requires forall i :: 0 <= i < |s| && !(p <= i < p + 6) ==> LowerChar(s[i]) == LowerChar(t[i])
    ensures ToLower(s) != ToLower(t) ==> !BothAccepted(s, t)
  {
    hide DecodeNoLimit, LowerChar;
    if BothAccepted(s, t) {
      AcceptedBurst(s, t, p);
    }
  }

  /** Both strings decode, and to the same human-readable part. */
  predicate BothAccepted(s: Text, t: Text)
  {
    DecodeNoLimit(s).Ok? && DecodeNoLimit(t).Ok? && DecodeNoLimit(s).value.0 == DecodeNoLimit(t).value.0
  }

  lemma AcceptedBurst(s: Text, t: Text, p: nat)
    requires |s| == |t| && BothAccepted(s, t)
    requires forall i :: 0 <= i < |s| && !(p <= i < p + 6) ==> LowerChar(s[i]) == LowerChar(t[i])
    ensures ToLower(s) == ToLower(t)
  {
    hide CharOf, ValueOf, Accepts, Checksum, LowerChar, DecodeNoLimit, Polymod, Feed;
    DecodedShape(s);
    DecodedShape(t);
    var (hrp, us) := DecodeNoLimit(s).value;
    var vs := DecodeNoLimit(t).value.1;
    var cu, cv := Checksum(hrp, us), Checksum(hrp, vs);
    var base := |hrp| + 1;
    forall i | 0 <= i < |us + cu| && !(p <= i + base < p + 6)
      ensures (us + cu)[i] == (vs + cv)[i]
    {
      assert CharOf((us + cu)[i]) == ToLower(s)[base + i] == ToLower(t)[base + i] == CharOf((vs + cv)[i]);
      CharValue((us + cu)[i]);
      CharValue((vs + cv)[i]);
    }
    AcceptedRegister(hrp, us, cu);
    AcceptedRegister(hrp, vs, cv);
    // a window that starts before the data still covers at most six data symbols
    if p >= base {
      BurstDetected(Fold(1, ExpandHrp(hrp)), us + cu, vs + cv, p - base);
    } else {
      BurstDetected(Fold(1, ExpandHrp(hrp)), us + cu, vs + cv, 0);
    }
    assert us == (us + cu)[..|us|] == (vs + cv)[..|us|] == vs;
  }

  lemma AcceptedRegister(hrp: Text, data: seq<bv8>, cs: seq<bv8>)
    requires Symbols(data) && cs == Checksum(hrp, data)
    ensures Fold(Fold(1, ExpandHrp(hrp)), data + cs) == 1
  {
    hide Feed, Checksum;
    ChecksumUnique(hrp, data, cs);
    FoldConcat(1, ExpandHrp(hrp), data + cs);
    assert ExpandHrp(hrp) + (data + cs) == ExpandHrp(hrp) + data + cs;
  }

  /** One substituted character is always noticed, unless it changes only the case or the human-readable part. */
  lemma SubstitutionIsDetected(s: Text, t: Text, p: nat)
    requires |s| == |t| && p < |s| && LowerChar(s[p]) != LowerChar(t[p])
    requires forall i :: 0 <= i < |s| && i != p ==> s[i] == t[i]
    ensures !BothAccepted(s, t)
  {
    hide LowerChar, BothAccepted;
    assert ToLower(s)[p] != ToLower(t)[p];
    BurstsAreDetected(s, t, p);
  }

  /** The checksum named in the error is the right one: writing it over the actual one repairs the string. */
  lemma ExpectedChecksumRepairs(bech: Text)
    requires DecodeNoLimit(bech).Err? && DecodeNoLimit(bech).error.InvalidChecksum?
    ensures |DecodeNoLimit(bech).error.expected| == 6 <= |bech|
    ensures var repaired := ToLower(bech)[..|bech| - 6] + DecodeNoLimit(bech).error.expected;
            DecodeNoLimit(repaired).Ok? && repaired != ToLower(bech)
  {
    hide CharOf, Checksum, LowerChar, DecodeLower, ScanText;
    ScanMeaning(bech);
    LowerCased(bech);
    var low := ToLower(bech);
    var hrp, payload := RepairedParts(low);
    assert hrp == low[..|hrp|];
    assert ToLower(hrp) == hrp;
    DecodeOfEncoded(hrp, payload);
  }

  lemma RepairedParts(bech: Text) returns (hrp: Text, payload: seq<bv8>)
    requires DecodeLower(bech).Err? && DecodeLower(bech).error.InvalidChecksum?
    ensures |DecodeLower(bech).error.expected| == 6 <= |bech|
    ensures Symbols(payload) && hrp != [] && hrp <= bech
    ensures var repaired := bech[..|bech| - 6] + DecodeLower(bech).error.expected;
            repaired == hrp + [SEPARATOR] + Chars(payload) + Chars(Checksum(hrp, payload)) && repaired != bech
  {
    hide CharOf, Accepts, Checksum, Values, LastSeparator, Chars;
    var one := LastSeparator(bech);
    ValuesShape(bech[one + 1..]);
    var decoded := Values(bech[one + 1..]).value;
    var n := |decoded| - 6;
    hrp, payload := bech[..one], decoded[..n];
    var cs := Checksum(hrp, payload);
    assert Chars(decoded) == Chars(payload) + Chars(decoded[n..]);
    assert bech == hrp + [SEPARATOR] + bech[one + 1..];
    assert bech[|bech| - 6..] == Chars(decoded[n..]);
    ChecksumUnique(hrp, payload, decoded[n..]);
    if Chars(cs) == Chars(decoded[n..]) {
      CharsInjective(cs, decoded[n..]);
    }
    var repaired := bech[..|bech| - 6] + Chars(cs);
    assert repaired[|bech| - 6..] == Chars(cs);
  }

  lemma CharsInjective(a: seq<bv8>, b: seq<bv8>)
    requires Symbols(a) && Symbols(b) && Chars(a) == Chars(b)
    ensures a == b
  {
    hide CharOf, ValueOf;
    forall i | 0 <= i < |a| ensures a[i] == b[i] {
      assert Chars(a)[i] == Chars(b)[i];
      CharValue(a[i]);
      CharValue(b[i]);
    }
  }
}
