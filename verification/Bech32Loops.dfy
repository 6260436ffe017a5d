/** The loops of `wallet/bech32/bech32.go`, each proved to compute the function of module Bech32 with its name. */
module Bech32Loops {
  import opened Wrappers
  import Sum = Bech32Checksum
  import R = Bech32Register
  import Bits = BitStream
  import B = Bech32

  method ToBytes(chars: B.Text) returns (r: Result<seq<bv8>, B.Error>)
    ensures r == B.Values(chars)
  {
    hide B.ValueOf;
    var decoded: seq<bv8> := [];
    for i := 0 to |chars|
      invariant B.Values(chars[..i]) == Ok(decoded)
    {
      assert chars[..i + 1][..i] == chars[..i];
      var index := B.ValueOf(chars[i]);
      if index.None? {
        ErrorPrefix(chars, i + 1);
        return Err(B.NonCharsetChar(chars[i]));
      }
      decoded := decoded + [index.value];
    }
    assert chars[..|chars|] == chars;
    return Ok(decoded);
  }

  /** The first bad character decides. */
  lemma {:induction false} ErrorPrefix(chars: B.Text, n: nat)
    requires n <= |chars| && B.Values(chars[..n]).Err?
    ensures B.Values(chars) == B.Values(chars[..n])
    decreases |chars|
  {
    hide B.ValueOf;
    if n == |chars| {
      assert chars[..n] == chars;
    } else {
      assert chars[..|chars| - 1][..n] == chars[..n];
      ErrorPrefix(chars[..|chars| - 1], n);
    }
  }

  method WriteBech32Checksum(hrp: B.Text, data: seq<bv8>, written: B.Text) returns (r: B.Text)
    ensures r == written + B.Chars(Sum.Checksum(hrp, data))
  {
    hide Sum.Polymod, Sum.Digit, B.CharOf;
    var polymod := R.ComputePolymod(hrp, data, None);
    polymod := Sum.Xor(polymod, 1);
    r := written;
    for i := 0 to 6
      invariant r == written + B.Chars(Sum.Checksum(hrp, data))[..i]
    {
      var b := Sum.Digit(polymod, i);
      assert b == Sum.Checksum(hrp, data)[i];
      r := r + [B.CharOf(b)];
    }
    assert B.Chars(Sum.Checksum(hrp, data))[..6] == B.Chars(Sum.Checksum(hrp, data));
  }

  /** Go panics on shorter data; `DecodeNoLimit` never passes any. */
  method Bech32VerifyChecksum(hrp: B.Text, data: seq<bv8>) returns (ok: bool)
    requires |data| >= 6
    ensures ok == Sum.Accepts(hrp, data[..|data| - 6], data[|data| - 6..])
  {
    var polymod := R.ComputePolymod(hrp, data[..|data| - 6], Some(data[|data| - 6..]));
    ok := polymod == 1;
  }

  method DecodeNoLimit(bech0: B.Text) returns (r: Result<(B.Text, seq<bv8>), B.Error>)
    ensures r == B.DecodeNoLimit(bech0)
  {
    hide B.IsLower, B.IsUpper, B.Printable, B.CharOf, B.LowerChar, Sum.Accepts, Sum.Checksum, B.Values;
    var bech := bech0;
    if |bech| < 8 {
      return Err(B.InvalidLength(|bech|));
    }
    var hasLower, hasUpper := false, false;
    for i := 0 to |bech|
      invariant B.ScanText(bech[..i]) == B.Flags(hasLower, hasUpper)
    {
      assert bech[..i + 1][..i] == bech[..i];
      if !B.Printable(bech[i]) {
        BadPrefix(bech, i + 1);
        return Err(B.InvalidCharacter(bech[i]));
      }
      hasLower := hasLower || B.IsLower(bech[i]);
      hasUpper := hasUpper || B.IsUpper(bech[i]);
      if hasLower && hasUpper {
        BadPrefix(bech, i + 1);
        return Err(B.MixedCase);
      }
    }
    assert bech[..|bech|] == bech;
    if hasUpper {
      bech := B.ToLower(bech);
    }
    r := DecodeScanned(bech);
  }

  /** The rest of `DecodeNoLimit`, from the search for the separator on. */
  method DecodeScanned(bech: B.Text) returns (r: Result<(B.Text, seq<bv8>), B.Error>)
    ensures r == B.DecodeLower(bech)
  {
    hide B.CharOf, Sum.Accepts, Sum.Checksum, B.Values;
    var one := B.LastSeparator(bech);
    if one < 1 || one + 7 > |bech| {
      return Err(B.InvalidSeparatorIndex(one));
    }
    var hrp, data := bech[..one], bech[one + 1..];
    var decoded := ToBytes(data);
    if decoded.Err? {
      return Err(decoded.error);
    }
    B.ValuesShape(data);
    var payload := decoded.value[..|decoded.value| - 6];
    var ok := Bech32VerifyChecksum(hrp, decoded.value);
    if !ok {
      var expected := WriteBech32Checksum(hrp, payload, []);
      assert expected == B.Chars(Sum.Checksum(hrp, payload));
      return Err(B.InvalidChecksum(expected, bech[|bech| - 6..]));
    }
    return Ok((hrp, payload));
  }

  lemma {:induction false} BadPrefix(s: B.Text, n: nat)
    requires n <= |s| && B.ScanText(s[..n]).Bad?
    ensures B.ScanText(s) == B.ScanText(s[..n])
    decreases |s|
  {
    if n == |s| {
      assert s[..n] == s;
    } else {
      assert s[..|s| - 1][..n] == s[..n];
      BadPrefix(s[..|s| - 1], n);
    }
  }

  method Decode(bech: B.Text) returns (r: Result<(B.Text, seq<bv8>), B.Error>)
    ensures r == B.Decode(bech)
  {
    if |bech| > B.MAX_LENGTH {
      return Err(B.InvalidLength(|bech|));
    }
    r := DecodeNoLimit(bech);
  }

  /** `strings.ToLower` is modelled on ASCII only, which covers every human-readable part BIP 173 allows. */
  method Encode(hrp0: B.Text, data: seq<bv8>) returns (r: Result<B.Text, B.Error>)
    ensures r == B.Encode(hrp0, data)
  {
    hide B.CharOf, B.ToLower, Sum.Checksum;
    var hrp := B.ToLower(hrp0);
    var bldr := hrp + [B.SEPARATOR];
    for i := 0 to |data|
      invariant Sum.Symbols(data[..i]) && bldr == hrp + [B.SEPARATOR] + B.Chars(data[..i])
    {
      if data[i] >= 32 {
        FirstBad(data, i);
        return Err(B.InvalidDataByte(data[i]));
      }
      bldr := bldr + [B.CharOf(data[i])];
      assert B.Chars(data[..i + 1]) == B.Chars(data[..i]) + [B.CharOf(data[i])];
    }
    assert data[..|data|] == data;
    bldr := WriteBech32Checksum(hrp, data, bldr);
    return Ok(bldr);
  }

  lemma {:induction false} FirstBad(data: seq<bv8>, i: nat)
    requires i < |data| && Sum.Symbols(data[..i]) && data[i] >= 32
    ensures B.FirstBadByte(data) == Some(data[i])
  {
    if i > 0 {
      assert data[..i][0] == data[0];
      assert data[1..][..i - 1] == data[..i][1..];
      FirstBad(data[1..], i - 1);
    }
  }

  method EncodeFromBase256(hrp: B.Text, data: seq<bv8>) returns (r: Result<B.Text, B.Error>)
    ensures r == B.EncodeFromBase256(hrp, data)
  {
    hide B.Encode, Bits.Convert;
    var converted := Bits.ConvertBits(data, 8, 5, true);
    if converted.Err? {
      return Err(B.InvalidBits(converted.error));
    }
    r := Encode(hrp, converted.value);
  }

  method DecodeToBase256(bech: B.Text) returns (r: Result<(B.Text, seq<bv8>), B.Error>)
    ensures r == B.DecodeToBase256(bech)
  {
    hide B.Decode, Bits.Convert;
    var decoded := Decode(bech);
    if decoded.Err? {
      return Err(decoded.error);
    }
    var (hrp, data) := decoded.value;
    var converted := Bits.ConvertBits(data, 5, 8, false);
    if converted.Err? {
      return Err(B.InvalidBits(converted.error));
    }
    return Ok((hrp, converted.value));
  }
}
